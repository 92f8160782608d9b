/** One request at a time over a child process's output lines.

Whatever the child, the timers and the callers do comes in as inputs, in any order. Parsing a line
is a parameter; `None` stands for a line that is not a message. A message to send is the text it was
serialized to. The promise of a wait is its entry
in `settled`: a wait still waiting has none.
*/
module RequestDriver {
  import opened Optional
  import opened LineStream

  datatype Kind = PlanKind | EventKind | DoneKind | ErrorKind

  datatype Message = Message(kind: Kind, body: string)

  datatype Error =
    | Malformed(line: string)
    | Unsolicited(kind: Kind)
    | Mismatched(expected: Kind, sent: Kind)
    | TimedOut(kind: Kind)
    | Overlong
    | SpawnFailed
    | Exited
    /** A message to send would not stay on its line. */
    | Unframed

  datatype Outcome =
    | Resolved(message: Message)
    /** The agent answered with an error of its own. */
    | Reported(message: Message)
    | Rejected(error: Error)
    /** Another request was in flight. */
    | Busy

  datatype Wait = Wait(id: nat, kind: Kind)

  datatype Settlement = Settlement(id: nat, outcome: Outcome)

  type Parse = string -> Option<Message>

  /** `waits` holds the kind every wait asked for, by id; `lines` every line handed to the driver. */
  datatype State = State(
    buffer: string,
    pending: Option<Wait>,
    failure: Option<Error>,
    exited: bool,
    waits: seq<Kind>,
    settled: seq<Settlement>,
    events: seq<string>,
    written: seq<string>,
    lines: seq<string>)

  const FRESH := State("", None, None, false, [], [], [], [], [])

  function Settle(s: State, id: nat, outcome: Outcome): State {
    s.(settled := s.settled + [Settlement(id, outcome)])
  }

  /** The first failure stands; a pending request is rejected with it. */
  function Fail(s: State, e: Error): State {
    var failure := if s.failure.Some? then s.failure.value else e;
    var failed := s.(failure := Some(failure));
    if s.pending.None? then failed
    else Settle(failed.(pending := None), s.pending.value.id, Rejected(failure))
  }

  function Awaited(s: State, kind: Kind): State {
    var asked := s.(waits := s.waits + [kind]);
    if s.failure.Some? then Settle(asked, |s.waits|, Rejected(s.failure.value))
    else if s.pending.Some? then Settle(asked, |s.waits|, Busy)
    else asked.(pending := Some(Wait(|s.waits|, kind)))
  }

  /** A reply meets the request it answers. */
  function Answer(s: State, w: Wait, m: Message): State {
    var free := s.(pending := None);
    if m.kind == ErrorKind then Settle(free, w.id, Reported(m))
    else if m.kind != w.kind then
      var e := Mismatched(w.kind, m.kind);
      Settle(free, w.id, Rejected(e)).(failure := if s.failure.Some? then s.failure else Some(e))
    else Settle(free, w.id, Resolved(m))
  }

  function ConsumeLine(s: State, line: string, parse: Parse): State {
    var read := s.(lines := s.lines + [line]);
    var m := parse(line);
    if m.None? then Fail(read, Malformed(line))
    else if m.value.kind == EventKind then read.(events := s.events + [m.value.body])
    else if s.pending.None? then Fail(read, Unsolicited(m.value.kind))
    else Answer(read, s.pending.value, m.value)
  }

  function ConsumeAll(s: State, lines: seq<string>, parse: Parse): State {
    if lines == [] then s else ConsumeLine(ConsumeAll(s, lines[..|lines| - 1], parse), lines[|lines| - 1], parse)
  }

  predicate Overflows(buffer: string, chunk: string) {
    Units(Remainder(buffer + chunk)) > MAX_MESSAGE_LENGTH
  }

  function Feed(s: State, chunk: string, parse: Parse): State {
    if Overflows(s.buffer, chunk) then Fail(s.(buffer := ""), Overlong)
    else ConsumeAll(s.(buffer := Remainder(s.buffer + chunk)), Delivered(Complete(s.buffer + chunk)), parse)
  }

  /** A timer fires only for the request it was set for; settling a request clears its timer. */
  function TimeOut(s: State, id: nat): State {
    if s.pending.Some? && s.pending.value.id == id then Fail(s, TimedOut(s.pending.value.kind)) else s
  }

  function Close(s: State, parse: Parse): State {
    Fail(ConsumeAll(s.(exited := true, buffer := ""), Delivered([s.buffer]), parse), Exited)
  }

  function Sent(s: State, message: string): (Option<Error>, State) {
    if s.failure.Some? then (s.failure, s)
    else if s.exited then (Some(Exited), s)
    else if '\n' in message then (Some(Unframed), s)
    else (None, s.(written := s.written + [message + "\n"]))
  }

  datatype Input =
    | Ask(kind: Kind)
    | Say(message: string)
    | Chunk(chunk: string)
    | Timer(id: nat)
    | SpawnError
    | Closed

  function Step(s: State, input: Input, parse: Parse): State {
    match input
    case Ask(kind) => Awaited(s, kind)
    case Say(message) => Sent(s, message).1
    case Chunk(chunk) => Feed(s, chunk, parse)
    case Timer(id) => TimeOut(s, id)
    case SpawnError => Fail(s, SpawnFailed)
    case Closed => Close(s, parse)
  }

  function Run(s: State, inputs: seq<Input>, parse: Parse): State {
    if inputs == [] then s else Step(Run(s, inputs[..|inputs| - 1], parse), inputs[|inputs| - 1], parse)
  }

  // ----- What every run keeps

  predicate IsSettled(settled: seq<Settlement>, id: int) {
    exists k :: 0 <= k < |settled| && settled[k].id == id
  }

  ghost predicate SettledOnce(settled: seq<Settlement>) {
    forall j, k :: 0 <= j < k < |settled| ==> settled[j].id != settled[k].id
  }

  /** An answer goes to a request of its own kind, and only a request that was made is settled. */
  ghost predicate Fitting(s: State) {
    forall k :: 0 <= k < |s.settled| ==>
      && s.settled[k].id < |s.waits|
      && (s.settled[k].outcome.Resolved? ==> s.settled[k].outcome.message.kind == s.waits[s.settled[k].id])
  }

  /** Every request made is settled exactly once, the pending one excepted; nothing is pending on a
      failed process; a process that has exited has failed. */
  ghost predicate Inv(s: State) {
    && SettledOnce(s.settled)
    && Fitting(s)
    && (forall id :: 0 <= id < |s.waits| ==> (IsSettled(s.settled, id) <==> !(s.pending.Some? && s.pending.value.id == id)))
    && (s.pending.Some? ==> s.pending.value.id < |s.waits| && s.waits[s.pending.value.id] == s.pending.value.kind)
    && (s.failure.Some? ==> s.pending.None?)
    && (s.exited ==> s.failure.Some?)
  }

  /** Everything but the last clause, which is broken while the closing lines are read. */
  ghost predicate InvButExit(s: State) {
    Inv(s.(exited := false))
  }

  lemma SettleKeepsInv(s: State, t: State, outcome: Outcome)
    requires InvButExit(s) && s.pending.Some?
    requires outcome.Resolved? ==> outcome.message.kind == s.pending.value.kind
    requires t.pending.None? && t.waits == s.waits && t.settled == s.settled + [Settlement(s.pending.value.id, outcome)]
    ensures InvButExit(t)
  {
    forall id | 0 <= id < |t.waits| ensures IsSettled(t.settled, id) {
      if id == s.pending.value.id {
        assert t.settled[|s.settled|].id == id;
      } else {
        assert IsSettled(s.settled, id);
        var k :| 0 <= k < |s.settled| && s.settled[k].id == id;
        assert t.settled[k].id == id;
      }
    }
    assert !IsSettled(s.settled, s.pending.value.id);
  }

  lemma FailKeepsInv(s: State, e: Error)
    requires InvButExit(s)
    ensures InvButExit(Fail(s, e)) && Inv(Fail(s, e))
    ensures s.failure.Some? ==> Fail(s, e) == s
  {
    if s.pending.Some? {
      SettleKeepsInv(s, Fail(s, e), Rejected(Fail(s, e).failure.value));
    }
  }

  lemma WaitKeepsInv(s: State, kind: Kind)
    requires Inv(s)
    ensures Inv(Awaited(s, kind))
  {
    var t := Awaited(s, kind);
    var n := |s.waits|;
    assert !IsSettled(s.settled, n);
    forall id | 0 <= id < |t.waits|
      ensures IsSettled(t.settled, id) <==> !(t.pending.Some? && t.pending.value.id == id)
    {
      if id < n {
        if IsSettled(s.settled, id) {
          var k :| 0 <= k < |s.settled| && s.settled[k].id == id;
          assert t.settled[k].id == id;
        }
      } else if t.pending.None? || t.pending.value.id != n {
        assert t.settled[|s.settled|].id == n;
      }
    }
  }

  lemma LineKeepsInv(s: State, line: string, parse: Parse)
    requires InvButExit(s)
    ensures InvButExit(ConsumeLine(s, line, parse)) && ConsumeLine(s, line, parse).exited == s.exited
    ensures s.failure.Some? ==> ConsumeLine(s, line, parse).failure == s.failure
                                && ConsumeLine(s, line, parse).settled == s.settled
  {
    var read := s.(lines := s.lines + [line]);
    var m := parse(line);
    assert InvButExit(read);
    if m.None? {
      FailKeepsInv(read, Malformed(line));
    } else if m.value.kind == EventKind {
    } else if s.pending.None? {
      FailKeepsInv(read, Unsolicited(m.value.kind));
    } else {
      var t := Answer(read, s.pending.value, m.value);
      SettleKeepsInv(read, t, t.settled[|s.settled|].outcome);
    }
  }

  lemma {:induction false} LinesKeepInv(s: State, lines: seq<string>, parse: Parse)
    requires InvButExit(s)
    ensures InvButExit(ConsumeAll(s, lines, parse)) && ConsumeAll(s, lines, parse).exited == s.exited
    ensures s.failure.Some? ==> ConsumeAll(s, lines, parse).failure == s.failure
                                && ConsumeAll(s, lines, parse).settled == s.settled
    decreases |lines|
  {
    hide ConsumeLine, InvButExit;
    if lines != [] {
      LinesKeepInv(s, lines[..|lines| - 1], parse);
      LineKeepsInv(ConsumeAll(s, lines[..|lines| - 1], parse), lines[|lines| - 1], parse);
    }
  }

  /** Every step keeps the invariant. A failure, once there, is never replaced; whatever is asked
      afterwards is rejected with it at once. */
  lemma StepKeepsInv(s: State, input: Input, parse: Parse)
    requires Inv(s)
    ensures Inv(Step(s, input, parse))
    ensures s.failure.Some? ==> Step(s, input, parse).failure == s.failure
    ensures s.failure.Some? ==>
      Step(s, input, parse).settled
      == s.settled + if input.Ask? then [Settlement(|s.waits|, Rejected(s.failure.value))] else []
    ensures input.Closed? ==> Step(s, input, parse).exited
  {
    match input
    case Ask(kind) => WaitKeepsInv(s, kind);
    case Say(_) =>
    case Chunk(chunk) =>
      if Overflows(s.buffer, chunk) {
        FailKeepsInv(s.(buffer := ""), Overlong);
      } else {
        LinesKeepInv(s.(buffer := Remainder(s.buffer + chunk)), Delivered(Complete(s.buffer + chunk)), parse);
      }
    case Timer(_) =>
      if s.pending.Some? {
        FailKeepsInv(s, TimedOut(s.pending.value.kind));
      }
    case SpawnError => FailKeepsInv(s, SpawnFailed);
    case Closed =>
      var closing := s.(exited := true, buffer := "");
      LinesKeepInv(closing, Delivered([s.buffer]), parse);
      FailKeepsInv(ConsumeAll(closing, Delivered([s.buffer]), parse), Exited);
  }

  lemma {:induction false} RunKeepsInv(inputs: seq<Input>, parse: Parse)
    ensures Inv(Run(FRESH, inputs, parse))
    decreases |inputs|
  {
    hide Step;
    if inputs != [] {
      RunKeepsInv(inputs[..|inputs| - 1], parse);
      StepKeepsInv(Run(FRESH, inputs[..|inputs| - 1], parse), inputs[|inputs| - 1], parse);
    }
  }

  lemma RunOne(s: State, inputs: seq<Input>, input: Input, parse: Parse)
    ensures Run(s, inputs + [input], parse) == Step(Run(s, inputs, parse), input, parse)
  {
    assert (inputs + [input])[..|inputs|] == inputs;
  }

  lemma {:induction false} RunSplits(s: State, a: seq<Input>, b: seq<Input>, parse: Parse)
    ensures Run(s, a + b, parse) == Run(Run(s, a, parse), b, parse)
    decreases |b|
  {
    hide Step;
    if b == [] {
      assert a + b == a;
    } else {
      RunSplits(s, a, b[..|b| - 1], parse);
      assert (a + b)[..|a + b| - 1] == a + b[..|b| - 1];
    }
  }

  /** From a failure on: the same failure, nothing pending, every later request refused with it. */
  lemma {:induction false} FailureIsPermanent(s: State, inputs: seq<Input>, parse: Parse)
    requires Inv(s) && s.failure.Some?
    ensures var t := Run(s, inputs, parse);
            && Inv(t) && t.failure == s.failure && t.pending.None?
            && |t.settled| >= |s.settled| && t.settled[..|s.settled|] == s.settled
            && forall k :: |s.settled| <= k < |t.settled| ==> t.settled[k].outcome == Rejected(s.failure.value)
    decreases |inputs|
  {
    hide Step, SettledOnce, Fitting, IsSettled;
    if inputs != [] {
      FailureIsPermanent(s, inputs[..|inputs| - 1], parse);
      StepKeepsInv(Run(s, inputs[..|inputs| - 1], parse), inputs[|inputs| - 1], parse);
    }
  }

  /** No wait outlives the close: whatever happened before and after it, every request ever made is
      settled, exactly once, by one that was there at the close or rejected at once since. */
  lemma {:induction false} CloseSettlesEverything(before: seq<Input>, after: seq<Input>, parse: Parse)
    ensures var closed := Run(FRESH, before + [Closed], parse);
            var s := Run(FRESH, before + [Closed] + after, parse);
            && closed.exited && closed.failure.Some? && s.failure == closed.failure
            && (forall id :: 0 <= id < |closed.waits| ==> IsSettled(closed.settled, id))
            && (forall id :: 0 <= id < |s.waits| ==> IsSettled(s.settled, id))
            && SettledOnce(s.settled)
  {
    hide Step, SettledOnce, Fitting, IsSettled, Run;
    RunKeepsInv(before, parse);
    RunOne(FRESH, before, Closed, parse);
    StepKeepsInv(Run(FRESH, before, parse), Closed, parse);
    RunSplits(FRESH, before + [Closed], after, parse);
    FailureIsPermanent(Run(FRESH, before + [Closed], parse), after, parse);
  }

  // ----- Which answer goes where

  /** The replies among the lines read: every message that is not an event, in order. */
  function Replies(lines: seq<string>, parse: Parse): seq<Message> {
    if lines == [] then []
    else
      var m := parse(lines[|lines| - 1]);
      Replies(lines[..|lines| - 1], parse) + if m.Some? && m.value.kind != EventKind then [m.value] else []
  }

  function EventsIn(lines: seq<string>, parse: Parse): seq<string> {
    if lines == [] then []
    else
      var m := parse(lines[|lines| - 1]);
      EventsIn(lines[..|lines| - 1], parse) + if m.Some? && m.value.kind == EventKind then [m.value.body] else []
  }

  /** The messages that settled a request, in the order they settled one. */
  function Answers(settled: seq<Settlement>): seq<Message> {
    if settled == [] then []
    else
      var o := settled[|settled| - 1].outcome;
      Answers(settled[..|settled| - 1]) + if o.Resolved? || o.Reported? then [o.message] else []
  }

  /** While nothing has failed, every line was a message, and the replies are exactly the answers the
      requests got, in order; the events are passed on in order whether or not anything failed. */
  ghost predicate Accounted(s: State, parse: Parse) {
    && s.events == EventsIn(s.lines, parse)
    && (s.failure.None? ==>
          && Answers(s.settled) == Replies(s.lines, parse)
          && forall k :: 0 <= k < |s.lines| ==> parse(s.lines[k]).Some?)
  }

  lemma AnswersOne(settled: seq<Settlement>, x: Settlement)
    ensures Answers(settled + [x])
            == Answers(settled) + if x.outcome.Resolved? || x.outcome.Reported? then [x.outcome.message] else []
  {
    assert (settled + [x])[..|settled|] == settled;
  }

  lemma LinesOne(lines: seq<string>, line: string, parse: Parse)
    ensures var m := parse(line);
            && Replies(lines + [line], parse)
               == Replies(lines, parse) + (if m.Some? && m.value.kind != EventKind then [m.value] else [])
            && EventsIn(lines + [line], parse)
               == EventsIn(lines, parse) + (if m.Some? && m.value.kind == EventKind then [m.value.body] else [])
  {
    assert (lines + [line])[..|lines|] == lines;
  }

  lemma LineIsAccounted(s: State, line: string, parse: Parse)
    requires Accounted(s, parse)
    ensures Accounted(ConsumeLine(s, line, parse), parse)
  {
    hide Answers, Replies, EventsIn;
    var t := ConsumeLine(s, line, parse);
    LinesOne(s.lines, line, parse);
    if |t.settled| > |s.settled| {
      AnswersOne(s.settled, t.settled[|s.settled|]);
    }
  }

  lemma {:induction false} LinesAreAccounted(s: State, lines: seq<string>, parse: Parse)
    requires Accounted(s, parse)
    ensures Accounted(ConsumeAll(s, lines, parse), parse)
    decreases |lines|
  {
    hide ConsumeLine, Accounted;
    if lines != [] {
      LinesAreAccounted(s, lines[..|lines| - 1], parse);
      LineIsAccounted(ConsumeAll(s, lines[..|lines| - 1], parse), lines[|lines| - 1], parse);
    }
  }

  lemma StepIsAccounted(s: State, input: Input, parse: Parse)
    requires Accounted(s, parse)
    ensures Accounted(Step(s, input, parse), parse)
  {
    hide Answers, Replies, EventsIn, Complete, Remainder, Delivered, Units, ConsumeLine, ConsumeAll;
    match input
    case Ask(kind) =>
      if s.pending.Some? {
        AnswersOne(s.settled, Settlement(|s.waits|, Busy));
      }
    case Chunk(chunk) =>
      LinesAreAccounted(s.(buffer := Remainder(s.buffer + chunk)), Delivered(Complete(s.buffer + chunk)), parse);
    case Closed =>
      LinesAreAccounted(s.(exited := true, buffer := ""), Delivered([s.buffer]), parse);
    case _ =>
  }

  /** No reply is lost, given twice or given out of order; no event is lost. */
  lemma {:induction false} RepliesAnswerInOrder(inputs: seq<Input>, parse: Parse)
    ensures Accounted(Run(FRESH, inputs, parse), parse)
    decreases |inputs|
  {
    hide Step;
    if inputs != [] {
      RepliesAnswerInOrder(inputs[..|inputs| - 1], parse);
      StepIsAccounted(Run(FRESH, inputs[..|inputs| - 1], parse), inputs[|inputs| - 1], parse);
    }
  }

  // ----- Why a process has failed

  /** A timer that fires while its request is pending fails it, and the process, as timed out; a timer of
      any other request does nothing. */
  lemma TimerRejectsItsOwn(s: State, id: nat)
    requires Inv(s)
    ensures var t := TimeOut(s, id);
            if s.pending.Some? && s.pending.value.id == id then
              var e := TimedOut(s.pending.value.kind);
              && t.pending.None? && t.failure == Some(e) && t.settled == s.settled + [Settlement(id, Rejected(e))]
            else t == s
  {
  }

  /** What a line does to a process that has not failed: an event passes; a reply of the kind asked for
      resolves the request, and an error of the agent's own is reported to it; and each other line fails
      the process for what it was, the pending request with it. */
  lemma LineMeans(s: State, line: string, parse: Parse)
    requires Inv(s) && s.failure.None?
    ensures var t := ConsumeLine(s, line, parse);
            match parse(line)
            case None => t.failure == Some(Malformed(line)) && IsRejected(s, t, Malformed(line))
            case Some(m) =>
              if m.kind == EventKind then t == s.(lines := s.lines + [line], events := s.events + [m.body])
              else if s.pending.None? then t.failure == Some(Unsolicited(m.kind)) && t.settled == s.settled
              else if m.kind == ErrorKind then
                t.failure.None? && t.pending.None? && t.settled == s.settled + [Settlement(s.pending.value.id, Reported(m))]
              else if m.kind == s.pending.value.kind then
                t.failure.None? && t.pending.None? && t.settled == s.settled + [Settlement(s.pending.value.id, Resolved(m))]
              else
                var e := Mismatched(s.pending.value.kind, m.kind);
                t.failure == Some(e) && t.pending.None? && IsRejected(s, t, e)
  {
  }

  /** The request that was pending, if one was, has been rejected with this. */
  predicate IsRejected(s: State, t: State, e: Error) {
    && t.pending.None?
    && t.settled == s.settled + if s.pending.Some? then [Settlement(s.pending.value.id, Rejected(e))] else []
  }

  /** The other ways: text that outgrows its line, a child that could not be started, and its end. */
  lemma EndingMeans(s: State, input: Input, parse: Parse)
    requires Inv(s) && s.failure.None?
    ensures input.Chunk? && Overflows(s.buffer, input.chunk) ==>
      var t := Step(s, input, parse);
      t.failure == Some(Overlong) && IsRejected(s, t, Overlong) && t.buffer == "" && t.lines == s.lines
    ensures input.SpawnError? ==>
      Step(s, input, parse).failure == Some(SpawnFailed) && IsRejected(s, Step(s, input, parse), SpawnFailed)
    ensures input.Closed? && s.buffer == "" ==>
      Step(s, input, parse).failure == Some(Exited) && IsRejected(s, Step(s, input, parse), Exited)
  {
    hide Complete, Remainder, Units, Overflows;
    if input.Closed? && s.buffer == "" {
      NothingIsDelivered();
    }
  }

  lemma NothingIsDelivered()
    ensures Delivered([""]) == []
  {
    DeliveredOne([], "");
    assert [] + [""] == [""];
  }

  /** A request made of a working process waits, or is told that another does. */
  lemma AskingMeans(s: State, kind: Kind)
    requires Inv(s) && s.failure.None?
    ensures var t := Awaited(s, kind);
            if s.pending.None? then t.pending == Some(Wait(|s.waits|, kind)) && t.settled == s.settled
            else t.pending == s.pending && t.settled == s.settled + [Settlement(|s.waits|, Busy)]
    ensures Awaited(s, kind).waits == s.waits + [kind]
  {
  }

  // ----- What the agent reads

  /** What was said that fits on a line. */
  function Said(inputs: seq<Input>): seq<string> {
    if inputs == [] then []
    else
      var last := inputs[|inputs| - 1];
      Said(inputs[..|inputs| - 1]) + if last.Say? && '\n' !in last.message then [last.message] else []
  }

  lemma {:induction false} LinesWriteNothing(s: State, lines: seq<string>, parse: Parse)
    ensures ConsumeAll(s, lines, parse).written == s.written
    ensures s.failure.Some? ==> ConsumeAll(s, lines, parse).failure.Some?
    decreases |lines|
  {
    if lines != [] {
      LinesWriteNothing(s, lines[..|lines| - 1], parse);
    }
  }

  lemma StepWrites(s: State, input: Input, parse: Parse)
    ensures Step(s, input, parse).written
            == if input.Say? && s.failure.None? && !s.exited && '\n' !in input.message
               then s.written + [input.message + "\n"] else s.written
    ensures s.failure.Some? ==> Step(s, input, parse).failure.Some?
  {
    hide Complete, Remainder, Delivered, ConsumeLine, ConsumeAll;
    match input
    case Chunk(chunk) =>
      LinesWriteNothing(s.(buffer := Remainder(s.buffer + chunk)), Delivered(Complete(s.buffer + chunk)), parse);
    case Closed =>
      LinesWriteNothing(s.(exited := true, buffer := ""), Delivered([s.buffer]), parse);
    case _ =>
  }

  lemma WrittenOne(written: seq<string>, message: string)
    requires Remainder(Join(written)) == "" && '\n' !in message
    ensures var more := Join(written + [message + "\n"]);
            Complete(more) == Complete(Join(written)) + [message] && Remainder(more) == ""
  {
    hide Complete, Remainder;
    assert (written + [message + "\n"])[..|written|] == written;
    CutAnywhere(Join(written), message + "\n");
    assert "" + (message + "\n") == message + "\n";
    FramedIsOneLine(message);
  }

  /** While nothing has failed, the lines an agent reads are the messages said to it, whole and in order. */
  lemma {:induction false} AgentReadsWhatIsSaid(inputs: seq<Input>, parse: Parse)
    ensures var s := Run(FRESH, inputs, parse);
            && Remainder(Join(s.written)) == ""
            && (s.failure.None? ==> Complete(Join(s.written)) == Said(inputs))
    decreases |inputs|
  {
    hide Step, Complete, Remainder;
    if inputs == [] {
      NoLines();
    } else {
      var init, last := inputs[..|inputs| - 1], inputs[|inputs| - 1];
      AgentReadsWhatIsSaid(init, parse);
      var s := Run(FRESH, init, parse);
      RunKeepsInv(init, parse);
      StepWrites(s, last, parse);
      if last.Say? && '\n' !in last.message {
        WrittenOne(s.written, last.message);
      }
    }
  }

  lemma NoLines()
    ensures Complete("") == [] && Remainder("") == ""
  {
  }

  lemma {:induction false} NothingIsWrittenAfterFailure(s: State, inputs: seq<Input>, parse: Parse)
    requires s.failure.Some?
    ensures Run(s, inputs, parse).failure.Some? && Run(s, inputs, parse).written == s.written
    decreases |inputs|
  {
    hide Step;
    if inputs != [] {
      NothingIsWrittenAfterFailure(s, inputs[..|inputs| - 1], parse);
      StepWrites(Run(s, inputs[..|inputs| - 1], parse), inputs[|inputs| - 1], parse);
    }
  }

  /** What the agent reads in all is what was said before the first failure, the close included; whatever
      is said afterwards is refused with that failure, and nothing of it is written. */
  lemma OnlyWhatIsSaidInTimeIsWritten(before: seq<Input>, x: Input, after: seq<Input>, parse: Parse, message: string)
    requires Run(FRESH, before, parse).failure.None? && Run(FRESH, before + [x], parse).failure.Some?
    ensures var failed := Run(FRESH, before + [x], parse);
            var s := Run(FRESH, before + [x] + after, parse);
            && Complete(Join(s.written)) == Said(before) && Remainder(Join(s.written)) == ""
            && Sent(s, message) == (failed.failure, s)
  {
    hide Step, Complete, Remainder, Join, Run, Inv;
    AgentReadsWhatIsSaid(before, parse);
    RunOne(FRESH, before, x, parse);
    StepWrites(Run(FRESH, before, parse), x, parse);
    SayingFailsNothing(Run(FRESH, before, parse), x, parse);
    RunSplits(FRESH, before + [x], after, parse);
    RunKeepsInv(before + [x], parse);
    var failed := Run(FRESH, before + [x], parse);
    NothingIsWrittenAfterFailure(failed, after, parse);
    FailureIsPermanent(failed, after, parse);
  }

  lemma SayingFailsNothing(s: State, x: Input, parse: Parse)
    requires s.failure.None? && Step(s, x, parse).failure.Some?
    ensures !x.Say?
  {
  }

  // ----- Chunking

  lemma {:induction false} ConsumeSplits(s: State, a: seq<string>, b: seq<string>, parse: Parse)
    ensures ConsumeAll(s, a + b, parse) == ConsumeAll(ConsumeAll(s, a, parse), b, parse)
    decreases |b|
  {
    hide ConsumeLine;
    if b == [] {
      assert a + b == a;
    } else {
      ConsumeSplits(s, a, b[..|b| - 1], parse);
      assert (a + b)[..|a + b| - 1] == a + b[..|b| - 1];
    }
  }

  lemma LineIgnoresBuffer(s: State, buffer: string, line: string, parse: Parse)
    ensures ConsumeLine(s.(buffer := buffer), line, parse) == ConsumeLine(s, line, parse).(buffer := buffer)
  {
    hide Answer, Fail;
    var m := parse(line);
    var read, other := s.(lines := s.lines + [line]), s.(buffer := buffer, lines := s.lines + [line]);
    assert other == read.(buffer := buffer);
    if m.Some? && s.pending.Some? {
      AnswerIgnoresBuffer(read, buffer, s.pending.value, m.value);
    }
    FailIgnoresBuffer(read, buffer, Malformed(line));
    if m.Some? {
      FailIgnoresBuffer(read, buffer, Unsolicited(m.value.kind));
    }
  }

  lemma AnswerIgnoresBuffer(s: State, buffer: string, w: Wait, m: Message)
    ensures Answer(s.(buffer := buffer), w, m) == Answer(s, w, m).(buffer := buffer)
  {
  }

  lemma FailIgnoresBuffer(s: State, buffer: string, e: Error)
    ensures Fail(s.(buffer := buffer), e) == Fail(s, e).(buffer := buffer)
  {
  }

  lemma {:induction false} ConsumingIgnoresBuffer(s: State, buffer: string, lines: seq<string>, parse: Parse)
    ensures ConsumeAll(s.(buffer := buffer), lines, parse) == ConsumeAll(s, lines, parse).(buffer := buffer)
    decreases |lines|
  {
    hide ConsumeLine;
    if lines != [] {
      ConsumingIgnoresBuffer(s, buffer, lines[..|lines| - 1], parse);
      LineIgnoresBuffer(ConsumeAll(s, lines[..|lines| - 1], parse), buffer, lines[|lines| - 1], parse);
    }
  }

  /** A chunk cut in two leaves the driver exactly where the whole chunk does, unless a leftover of
      the cutting outgrows the cap. */
  lemma {:induction false} CutChunksAreOneChunk(s: State, a: string, b: string, parse: Parse)
    requires !Overflows(s.buffer, a) && !Overflows(s.buffer, a + b)
    ensures Feed(Feed(s, a, parse), b, parse) == Feed(s, a + b, parse)
  {
    hide Units, Complete, Remainder, Delivered, ConsumeLine;
    var whole := s.buffer + a;
    assert s.buffer + (a + b) == whole + b;
    CutAnywhere(whole, b);
    var left, end := Remainder(whole), Remainder(whole + b);
    var one, two := Delivered(Complete(whole)), Delivered(Complete(left + b));
    DeliveredSplits(Complete(whole), Complete(left + b));
    ConsumingIgnoresBuffer(s, left, one, parse);
    var mid := ConsumeAll(s, one, parse);
    ConsumingIgnoresBuffer(mid, left, two, parse);
    ConsumingIgnoresBuffer(mid, end, two, parse);
    ConsumingIgnoresBuffer(s, end, one + two, parse);
    ConsumeSplits(s, one, two, parse);
  }

  // ----- The driver itself

  class AgentProcess {
    const parse: Parse
    const decoder: JsonLineDecoder
    var pending: Option<Wait>
    var failure: Option<Error>
    var exited: bool
    var settled: seq<Settlement>
    var events: seq<string>
    var written: seq<string>
    ghost var waits: seq<Kind>
    ghost var lines: seq<string>
    var asked: nat

    ghost predicate Valid()
      reads this
    {
      asked == |waits|
    }

    ghost function Now(): State
      reads this, decoder
    {
      State(decoder.buffer, pending, failure, exited, waits, settled, events, written, lines)
    }

    constructor (parse: Parse)
      ensures Valid() && fresh(decoder) && this.parse == parse && Now() == FRESH
    {
      this.parse := parse;
      decoder := new JsonLineDecoder();
      pending, failure, exited := None, None, false;
      settled, events, written, waits, lines, asked := [], [], [], [], [], 0;
    }

    method Send(message: string) returns (refused: Option<Error>)
      requires Valid()
      modifies this`written
      ensures Valid() && (refused, Now()) == Sent(old(Now()), message)
    {
      if failure.Some? {
        return failure;
      }
      if exited {
        return Some(Exited);
      }
      if '\n' in message {
        return Some(Unframed);
      }
      written := written + [message + "\n"];
      return None;
    }

    method WaitFor(kind: Kind) returns (id: nat)
      requires Valid()
      modifies this
      ensures Valid() && id == |old(waits)| && Now() == Awaited(old(Now()), kind)
    {
      id := asked;
      asked, waits := asked + 1, waits + [kind];
      if failure.Some? {
        settled := settled + [Settlement(id, Rejected(failure.value))];
      } else if pending.Some? {
        settled := settled + [Settlement(id, Busy)];
      } else {
        pending := Some(Wait(id, kind));
      }
    }

    method FailWith(e: Error)
      requires Valid()
      modifies this`failure, this`pending, this`settled
      ensures Valid() && Now() == Fail(old(Now()), e)
    {
      if failure.None? {
        failure := Some(e);
      }
      if pending.Some? {
        var id := pending.value.id;
        pending := None;
        settled := settled + [Settlement(id, Rejected(failure.value))];
      }
    }

    method OnLine(line: string)
      requires Valid()
      modifies this
      ensures Valid() && Now() == ConsumeLine(old(Now()), line, parse)
    {
      lines := lines + [line];
      var message := parse(line);
      if message.None? {
        FailWith(Malformed(line));
        return;
      }
      if message.value.kind == EventKind {
        events := events + [message.value.body];
        return;
      }
      if pending.None? {
        FailWith(Unsolicited(message.value.kind));
        return;
      }
      var waiting := pending.value;
      pending := None;
      if message.value.kind == ErrorKind {
        settled := settled + [Settlement(waiting.id, Reported(message.value))];
        return;
      }
      if message.value.kind != waiting.kind {
        var error := Mismatched(waiting.kind, message.value.kind);
        settled := settled + [Settlement(waiting.id, Rejected(error))];
        if failure.None? {
          failure := Some(error);
        }
        return;
      }
      settled := settled + [Settlement(waiting.id, Resolved(message.value))];
    }

    method OnLines(all: seq<string>)
      requires Valid()
      modifies this
      ensures Valid() && Now() == ConsumeAll(old(Now()), all, parse)
    {
      hide ConsumeLine;
      for i := 0 to |all|
        invariant Valid() && Now() == ConsumeAll(old(Now()), all[..i], parse)
      {
        assert all[..i + 1][..i] == all[..i];
        OnLine(all[i]);
      }
      assert all[..|all|] == all;
    }

    method OnData(chunk: string)
      requires Valid()
      modifies this, decoder
      ensures Valid() && Now() == Feed(old(Now()), chunk, parse)
    {
      hide ConsumeLine, Complete, Remainder, Delivered, Units;
      var r := decoder.Push(chunk);
      if r.TooLong? {
        FailWith(Overlong);
        return;
      }
      OnLines(r.lines);
    }

    method OnTimer(id: nat)
      requires Valid()
      modifies this
      ensures Valid() && Now() == TimeOut(old(Now()), id)
    {
      if pending.Some? && pending.value.id == id {
        FailWith(TimedOut(pending.value.kind));
      }
    }

    method OnClose()
      requires Valid()
      modifies this, decoder
      ensures Valid() && Now() == Close(old(Now()), parse)
    {
      hide ConsumeLine, Delivered;
      exited := true;
      var rest := decoder.Flush();
      OnLines(rest);
      FailWith(Exited);
    }
  }
}

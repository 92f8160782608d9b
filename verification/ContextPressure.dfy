/** Watching a run's context occupancy and its bill, off the lines it streams.

Figures are reals: the source adds up whatever finite numbers the stream carries.
Parsing a line is a parameter; a line that does not parse is `Other`.
*/
module ContextPressure {
  import opened LineStream
  import opened Optional
  import opened WhiteSpace

  datatype Usage = Usage(input: real, cacheCreation: real, cacheRead: real, output: real)

  datatype Event =
    | User
    /** `id` is empty when the event names no message. */
    | Assistant(id: string, usage: Option<Usage>)
    | CompactBoundary(manual: bool, preTokens: real, postTokens: Option<real>, droppedTokens: Option<real>)
    | Other

  datatype Signal =
    | Turn(contextTokens: real, outputTokens: real)
    | Compaction(manual: bool, preTokens: real, postTokens: Option<real>, droppedTokens: Option<real>)

  datatype Bill = Bill(total: real, input: real, output: real, cacheRead: real, cacheCreation: real, ids: set<string>)

  datatype State = State(
    latest: Option<real>,
    peak: real,
    turns: nat,
    compactions: seq<Signal>,
    dropped: real,
    stale: bool,
    bill: Bill)

  const INITIAL := State(None, 0.0, 0, [], 0.0, false, Bill(0.0, 0.0, 0.0, 0.0, 0.0, {}))

  function Max(a: real, b: real): real {
    if a >= b then a else b
  }

  function Occupancy(u: Usage): real {
    u.input + u.cacheCreation + u.cacheRead
  }

  function ReadSignal(e: Event): Option<Signal> {
    match e
    case Assistant(_, Some(u)) => Some(Turn(Occupancy(u), u.output))
    case CompactBoundary(manual, pre, post, dropped) => Some(Compaction(manual, pre, post, dropped))
    case _ => None
  }

  /** Charges a turn once per message id, or once per change of occupancy where there is no id. */
  function Charge(b: Bill, id: string, u: Usage, changed: bool): Bill {
    if (if id != "" then id in b.ids else !changed) then b
    else
      Bill(b.total + Occupancy(u) + u.output, b.input + u.input, b.output + u.output,
           b.cacheRead + u.cacheRead, b.cacheCreation + u.cacheCreation,
           if id != "" then b.ids + {id} else b.ids)
  }

  function Observe(s: State, e: Event): State {
    match e
    case User => s.(stale := true)
    case Assistant(id, Some(u)) =>
      var changed := s.latest != Some(Occupancy(u));
      s.(turns := if changed then s.turns + 1 else s.turns,
         bill := Charge(s.bill, id, u, changed),
         latest := Some(Occupancy(u)),
         peak := Max(s.peak, Occupancy(u)),
         stale := false)
    case CompactBoundary(_, pre, post, dropped) =>
      s.(compactions := s.compactions + [ReadSignal(e).value],
         peak := Max(s.peak, pre),
         dropped := if dropped.Some? then dropped.value
                    else s.dropped + Max(0.0, pre - if post.Some? then post.value else pre))
    case _ => s
  }

  function ObserveAll(s: State, events: seq<Event>): State {
    if events == [] then s else Observe(ObserveAll(s, events[..|events| - 1]), events[|events| - 1])
  }

  function Signals(events: seq<Event>): seq<Signal> {
    if events == [] then []
    else
      var signal := ReadSignal(events[|events| - 1]);
      Signals(events[..|events| - 1]) + if signal.Some? then [signal.value] else []
  }

  /** The events of the lines that are not blank. */
  function EventsOf(lines: seq<string>, parse: string -> Event): seq<Event> {
    if lines == [] then []
    else
      var line := Trim(lines[|lines| - 1]);
      EventsOf(lines[..|lines| - 1], parse) + if line == "" then [] else [parse(line)]
  }

  lemma {:induction false} EventsSplit(a: seq<string>, b: seq<string>, parse: string -> Event)
    ensures EventsOf(a + b, parse) == EventsOf(a, parse) + EventsOf(b, parse)
    decreases |b|
  {
    if b == [] {
      assert a + b == a;
    } else {
      hide EventsOf, Trim;
      var init, last := b[..|b| - 1], b[|b| - 1];
      assert b == init + [last] && a + b == (a + init) + [last];
      EventsOne(a + init, last, parse);
      EventsOne(init, last, parse);
      EventsSplit(a, init, parse);
    }
  }

  lemma {:induction false} ObserveSplits(s: State, a: seq<Event>, b: seq<Event>)
    ensures ObserveAll(s, a + b) == ObserveAll(ObserveAll(s, a), b)
    ensures Signals(a + b) == Signals(a) + Signals(b)
  {
    if b == [] {
      assert a + b == a;
    } else {
      ObserveSplits(s, a, b[..|b| - 1]);
      assert (a + b)[..|a + b| - 1] == a + b[..|b| - 1];
    }
  }

  lemma EventsOne(lines: seq<string>, line: string, parse: string -> Event)
    ensures EventsOf(lines + [line], parse)
            == EventsOf(lines, parse) + if Trim(line) == "" then [] else [parse(Trim(line))]
  {
    assert (lines + [line])[..|lines|] == lines;
  }

  lemma ObserveOne(s: State, events: seq<Event>, e: Event)
    ensures ObserveAll(s, events + [e]) == Observe(ObserveAll(s, events), e)
    ensures Signals(events + [e]) == Signals(events) + if ReadSignal(e).Some? then [ReadSignal(e).value] else []
  {
    assert (events + [e])[..|events|] == events;
  }

  lemma OneMoreLine(s: State, read: seq<string>, line: string, parse: string -> Event)
    ensures var (so, now) := (EventsOf(read, parse), EventsOf(read + [line], parse));
            if Trim(line) == "" then now == so
            else
              && ObserveAll(s, now) == Observe(ObserveAll(s, so), parse(Trim(line)))
              && Signals(now) == Signals(so) + if ReadSignal(parse(Trim(line))).Some?
                                               then [ReadSignal(parse(Trim(line))).value] else []
  {
    EventsOne(read, line, parse);
    ObserveOne(s, EventsOf(read, parse), parse(Trim(line)));
  }

  class ContextPressureMonitor {
    const parse: string -> Event
    var pending: string
    var latest: Option<real>
    var peak: real
    var turnCount: nat
    var seenCompactions: seq<Signal>
    var dropped: real
    var toolResultSinceTurn: bool
    var billedMessageIds: set<string>
    var billedTotal: real
    var billedInput: real
    var billedOutput: real
    var billedCacheRead: real
    var billedCacheCreation: real

    constructor (parse: string -> Event)
      ensures Snapshot() == INITIAL && pending == "" && this.parse == parse
    {
      this.parse := parse;
      pending := "";
      latest, peak, turnCount, seenCompactions, dropped, toolResultSinceTurn := None, 0.0, 0, [], 0.0, false;
      billedMessageIds := {};
      billedTotal, billedInput, billedOutput, billedCacheRead, billedCacheCreation := 0.0, 0.0, 0.0, 0.0, 0.0;
    }

    ghost function Snapshot(): State
      reads this
    {
      State(latest, peak, turnCount, seenCompactions, dropped, toolResultSinceTurn,
            Bill(billedTotal, billedInput, billedOutput, billedCacheRead, billedCacheCreation, billedMessageIds))
    }

    method BillTurn(id: string, u: Usage, changed: bool)
      modifies this`billedMessageIds, this`billedTotal, this`billedInput, this`billedOutput,
               this`billedCacheRead, this`billedCacheCreation
      ensures Snapshot() == old(Snapshot()).(bill := Charge(old(Snapshot()).bill, id, u, changed))
    {
      if id != "" {
        if id in billedMessageIds {
          return;
        }
        billedMessageIds := billedMessageIds + {id};
      } else if !changed {
        return;
      }
      billedTotal := billedTotal + Occupancy(u) + u.output;
      billedOutput := billedOutput + u.output;
      billedInput := billedInput + u.input;
      billedCacheRead := billedCacheRead + u.cacheRead;
      billedCacheCreation := billedCacheCreation + u.cacheCreation;
    }

    method ConsumeLine(line: string) returns (signal: Option<Signal>)
      modifies this
      ensures Snapshot() == Observe(old(Snapshot()), parse(line))
      ensures signal == ReadSignal(parse(line)) && pending == old(pending)
    {
      var event := parse(line);
      signal := ReadSignal(event);
      match event {
        case User =>
          toolResultSinceTurn := true;
        case Assistant(id, Some(u)) =>
          var changed := latest != Some(Occupancy(u));
          if changed {
            turnCount := turnCount + 1;
          }
          BillTurn(id, u, changed);
          latest := Some(Occupancy(u));
          peak := Max(peak, Occupancy(u));
          toolResultSinceTurn := false;
        case CompactBoundary(_, pre, post, cumulative) =>
          seenCompactions := seenCompactions + [signal.value];
          peak := Max(peak, pre);
          dropped := if cumulative.Some? then cumulative.value
                     else dropped + Max(0.0, pre - if post.Some? then post.value else pre);
        case _ =>
      }
    }

    method Write(chunk: string) returns (signals: seq<Signal>)
      modifies this
      ensures var all := old(pending) + chunk;
              var events := EventsOf(Complete(all), parse);
              && Snapshot() == ObserveAll(old(Snapshot()), events)
              && signals == Signals(events)
              && pending == if Units(Remainder(all)) > MAX_MESSAGE_LENGTH then "" else Remainder(all)
      ensures '\n' !in pending
    {
      ghost var start := Snapshot();
      WriteBegins(start, parse);
      hide Observe, ObserveAll, Signals, EventsOf, Trim, Units, Complete, Remainder;
      var all := pending + chunk;
      pending := all;
      signals := [];
      var newline := FirstNewline(pending);
      ghost var read: seq<string> := [];
      while newline < |pending|
        invariant newline == FirstNewline(pending)
        invariant read + Complete(pending) == Complete(all)
        invariant Remainder(pending) == Remainder(all)
        invariant Snapshot() == ObserveAll(start, EventsOf(read, parse))
        invariant signals == Signals(EventsOf(read, parse))
        decreases |pending|
      {
        CompleteStep(pending);
        NextLine(pending, read);
        var line := Trim(pending[..newline]);
        OneMoreLine(start, read, pending[..newline], parse);
        read := read + [pending[..newline]];
        pending := pending[newline + 1..];
        if line != "" {
          var signal := ConsumeLine(line);
          if signal.Some? {
            signals := signals + [signal.value];
          }
        }
        newline := FirstNewline(pending);
      }
      NoMoreLines(pending);
      assert read == Complete(all);
      if Units(pending) > MAX_MESSAGE_LENGTH {
        pending := "";
      }
    }
  }

  lemma WriteBegins(s: State, parse: string -> Event)
    ensures EventsOf([], parse) == [] && ObserveAll(s, []) == s && Signals([]) == []
  {
  }

  lemma NoMoreLines(text: string)
    requires FirstNewline(text) == |text|
    ensures Complete(text) == [] && Remainder(text) == text
  {
  }

  /** Whatever way a stream is cut, as long as no leftover outgrows the cap, the monitor ends in the
      state, and has given the signals, of the stream's complete lines. */
  method Watch(chunks: seq<string>, parse: string -> Event) returns (monitor: ContextPressureMonitor, signals: seq<Signal>)
    requires Fits(chunks)
    ensures monitor.Snapshot() == ObserveAll(INITIAL, EventsOf(Complete(Join(chunks)), parse))
    ensures signals == Signals(EventsOf(Complete(Join(chunks)), parse))
    ensures monitor.pending == Remainder(Join(chunks))
  {
    hide Observe, ObserveAll, Signals, EventsOf, Complete, Remainder, Units, Trim;
    WatchBegins(parse);
    monitor := new ContextPressureMonitor(parse);
    signals := [];
    var n := 0;
    while n < |chunks|
      invariant 0 <= n <= |chunks| && monitor.parse == parse && fresh(monitor)
      invariant monitor.pending == Remainder(Join(chunks[..n]))
      invariant monitor.Snapshot() == ObserveAll(INITIAL, EventsOf(Complete(Join(chunks[..n])), parse))
      invariant signals == Signals(EventsOf(Complete(Join(chunks[..n])), parse))
    {
      var so, next := chunks[..n], chunks[..n + 1];
      assert next[..|next| - 1] == so;
      CutAnywhere(Join(so), chunks[n]);
      var had, got := Complete(Join(so)), Complete(Remainder(Join(so)) + chunks[n]);
      EventsSplit(had, got, parse);
      ObserveSplits(INITIAL, EventsOf(had, parse), EventsOf(got, parse));
      FitsPrefix(chunks, n + 1);
      var more := monitor.Write(chunks[n]);
      signals := signals + more;
      n := n + 1;
    }
    assert chunks[..|chunks|] == chunks;
  }

  lemma WatchBegins(parse: string -> Event)
    ensures Remainder("") == "" && EventsOf(Complete(""), parse) == []
    ensures ObserveAll(INITIAL, []) == INITIAL && Signals([]) == []
  {
  }

  lemma {:induction false} FitsPrefix(chunks: seq<string>, n: nat)
    requires Fits(chunks) && n <= |chunks|
    ensures Fits(chunks[..n])
  {
    if n < |chunks| {
      FitsPrefix(chunks[..|chunks| - 1], n);
      assert chunks[..|chunks| - 1][..n] == chunks[..n];
    } else {
      assert chunks[..n] == chunks;
    }
  }

  // The bill.

  predicate IsReport(e: Event) {
    e.Assistant? && e.usage.Some?
  }

  function ReportedIds(events: seq<Event>): set<string> {
    set e | e in events && IsReport(e) :: e.id
  }

  datatype Report = Report(id: string, usage: Usage)

  /** The reports whose id was not reported before. */
  function FirstReports(events: seq<Event>): seq<Report> {
    if events == [] then []
    else
      var init, last := events[..|events| - 1], events[|events| - 1];
      FirstReports(init)
      + if IsReport(last) && last.id !in ReportedIds(init) then [Report(last.id, last.usage.value)] else []
  }

  predicate FirstAt(events: seq<Event>, k: nat) {
    k < |events| && IsReport(events[k]) && events[k].id !in ReportedIds(events[..k])
  }

  function Plus(a: Usage, b: Usage): Usage {
    Usage(a.input + b.input, a.cacheCreation + b.cacheCreation, a.cacheRead + b.cacheRead, a.output + b.output)
  }

  function Sum(reports: seq<Report>): Usage {
    if reports == [] then Usage(0.0, 0.0, 0.0, 0.0)
    else Plus(Sum(reports[..|reports| - 1]), reports[|reports| - 1].usage)
  }

  predicate Identified(events: seq<Event>) {
    forall i :: 0 <= i < |events| && IsReport(events[i]) ==> events[i].id != ""
  }

  lemma IdsOne(init: seq<Event>, last: Event)
    ensures ReportedIds(init + [last]) == ReportedIds(init) + if IsReport(last) then {last.id} else {}
  {
  }

  /** Of every message reported, the first report of it and no other is counted, once. */
  ghost predicate OnePerMessage(events: seq<Event>, reports: seq<Report>) {
    && (forall i, j :: 0 <= i < j < |reports| ==> reports[i].id != reports[j].id)
    && (forall r :: r in reports <==> exists k :: IsFirst(events, k, r))
  }

  predicate IsFirst(events: seq<Event>, k: nat, r: Report) {
    FirstAt(events, k) && r == Report(events[k].id, events[k].usage.value)
  }

  lemma FirstOne(init: seq<Event>, last: Event, k: nat, r: Report)
    ensures IsFirst(init + [last], k, r)
            <==> || IsFirst(init, k, r)
                 || (k == |init| && IsReport(last) && last.id !in ReportedIds(init) && r == Report(last.id, last.usage.value))
  {
    hide ReportedIds;
    var events := init + [last];
    assert k <= |init| ==> events[..k] == init[..k];
    assert init[..|init|] == init;
  }

  lemma FirstIsReported(events: seq<Event>, k: nat, r: Report)
    requires IsFirst(events, k, r)
    ensures r.id in ReportedIds(events)
  {
    assert events[k] in events;
  }

  lemma {:induction false} FirstReportsAreFirst(events: seq<Event>)
    ensures OnePerMessage(events, FirstReports(events))
  {
    hide ReportedIds, IsFirst, FirstReports;
    if events == [] {
      NothingReported();
    } else {
      var init, last := events[..|events| - 1], events[|events| - 1];
      assert events == init + [last];
      FirstReportsAreFirst(init);
      FirstReportsOne(init, last);
      var so, now := FirstReports(init), FirstReports(events);
      forall r ensures r in now <==> exists k :: IsFirst(events, k, r) {
        if r in so {
          var k :| IsFirst(init, k, r);
          FirstOne(init, last, k, r);
        }
        if r in now {
          FirstOne(init, last, |init|, r);
        }
        if k :| IsFirst(events, k, r) {
          FirstOne(init, last, k, r);
        }
      }
      forall i | 0 <= i < |so| ensures so[i].id in ReportedIds(init) {
        assert so[i] in so;
        var k :| IsFirst(init, k, so[i]);
        FirstIsReported(init, k, so[i]);
      }
    }
  }

  lemma NothingReported()
    ensures FirstReports([]) == [] && forall k, r :: !IsFirst([], k, r)
  {
  }

  /** The bill charges exactly these messages, for exactly this usage. */
  predicate Charges(b: Bill, ids: set<string>, sum: Usage) {
    && b.ids == ids
    && b.total == Occupancy(sum) + sum.output
    && b.input == sum.input && b.output == sum.output
    && b.cacheRead == sum.cacheRead && b.cacheCreation == sum.cacheCreation
  }

  lemma SumOne(reports: seq<Report>, r: Report)
    ensures Sum(reports + [r]) == Plus(Sum(reports), r.usage)
  {
    hide Plus;
    assert (reports + [r])[..|reports|] == reports;
  }

  lemma ChargeAdds(b: Bill, ids: set<string>, sum: Usage, r: Report, changed: bool)
    requires Charges(b, ids, sum) && r.id != ""
    ensures Charges(Charge(b, r.id, r.usage, changed), ids + {r.id}, if r.id in ids then sum else Plus(sum, r.usage))
  {
    assert r.id in ids ==> ids + {r.id} == ids;
  }

  lemma ChargeKeepsSum(b: Bill, ids: set<string>, reports: seq<Report>, r: Report, changed: bool)
    requires Charges(b, ids, Sum(reports)) && r.id != ""
    ensures Charges(Charge(b, r.id, r.usage, changed), ids + {r.id},
                    Sum(if r.id in ids then reports else reports + [r]))
  {
    hide Charge, Charges, Sum, Plus;
    ChargeAdds(b, ids, Sum(reports), r, changed);
    SumOne(reports, r);
  }

  lemma {:induction false} FirstReportsOne(init: seq<Event>, last: Event)
    ensures FirstReports(init + [last])
            == FirstReports(init)
               + if IsReport(last) && last.id !in ReportedIds(init) then [Report(last.id, last.usage.value)] else []
  {
    assert (init + [last])[..|init|] == init;
  }

  lemma {:induction false} ObserveCharges(s: State, e: Event)
    ensures !IsReport(e) ==> Observe(s, e).bill == s.bill
    ensures IsReport(e) ==>
      Observe(s, e).bill == Charge(s.bill, e.id, e.usage.value, s.latest != Some(Occupancy(e.usage.value)))
  {
  }

  lemma {:induction false} BilledOneMore(init: seq<Event>, last: Event)
    requires Charges(ObserveAll(INITIAL, init).bill, ReportedIds(init), Sum(FirstReports(init)))
    requires IsReport(last) ==> last.id != ""
    ensures Charges(Observe(ObserveAll(INITIAL, init), last).bill, ReportedIds(init + [last]),
                    Sum(FirstReports(init + [last])))
  {
    hide Charge, Charges, Sum, FirstReports, ReportedIds, Observe, ObserveAll;
    var so := ObserveAll(INITIAL, init);
    ObserveCharges(so, last);
    IdsOne(init, last);
    FirstReportsOne(init, last);
    if IsReport(last) {
      ChargeKeepsSum(so.bill, ReportedIds(init), FirstReports(init), Report(last.id, last.usage.value),
                     so.latest != Some(Occupancy(last.usage.value)));
    } else {
      assert ReportedIds(init + [last]) == ReportedIds(init);
    }
    assert !(IsReport(last) && last.id !in ReportedIds(init)) ==> FirstReports(init + [last]) == FirstReports(init);
  }

  lemma NothingBilled()
    ensures Charges(INITIAL.bill, ReportedIds([]), Sum(FirstReports([])))
  {
  }

  lemma SnocView(events: seq<Event>)
    requires events != []
    ensures events[..|events| - 1] + [events[|events| - 1]] == events
  {
  }

  /** Where every report names its message, each figure of the bill is the sum, over the distinct
      messages, of the first usage reported for it. */
  lemma {:induction false} BilledOncePerMessage(events: seq<Event>)
    requires Identified(events)
    ensures Charges(ObserveAll(INITIAL, events).bill, ReportedIds(events), Sum(FirstReports(events)))
    ensures OnePerMessage(events, FirstReports(events))
  {
    hide OnePerMessage;
    FirstReportsAreFirst(events);
    hide Charges, Sum, FirstReports, ReportedIds, Observe;
    if events != [] {
      var init, last := events[..|events| - 1], events[|events| - 1];
      assert forall i :: 0 <= i < |init| ==> init[i] == events[i];
      BilledOncePerMessage(init);
      BilledOneMore(init, last);
      SnocView(events);
    } else {
      NothingBilled();
    }
  }

  /** A message reported again costs nothing, however often and wherever its content blocks repeat. */
  lemma {:induction false} RepeatsAreFree(before: seq<Event>, again: Event, after: seq<Event>)
    requires IsReport(again) && again.id in ReportedIds(before)
    ensures FirstReports(before + [again] + after) == FirstReports(before + after)
    ensures ReportedIds(before + [again] + after) == ReportedIds(before + after)
  {
    hide FirstReports, ReportedIds, IsReport;
    if after == [] {
      assert before + [again] + after == before + [again] && before + after == before;
      IdsOne(before, again);
      FirstReportsOne(before, again);
    } else {
      var init, last := after[..|after| - 1], after[|after| - 1];
      RepeatsAreFree(before, again, init);
      assert before + [again] + after == (before + [again] + init) + [last];
      assert before + after == (before + init) + [last];
      IdsOne(before + [again] + init, last);
      IdsOne(before + init, last);
      FirstReportsOne(before + [again] + init, last);
      FirstReportsOne(before + init, last);
    }
  }

  // ----- Turns that name no message

  /** The occupancy last reported. */
  function LatestOf(events: seq<Event>): Option<real> {
    if events == [] then None
    else
      var last := events[|events| - 1];
      if IsReport(last) then Some(last.usage.value.input + last.usage.value.cacheCreation + last.usage.value.cacheRead)
      else LatestOf(events[..|events| - 1])
  }

  /** The report adds to the bill: the first of its message, or without one, of another occupancy than the
      report before it. */
  predicate IsCharged(before: seq<Event>, e: Event) {
    IsReport(e) && if e.id != "" then e.id !in ReportedIds(before) else LatestOf(before) != Some(Occupancy(e.usage.value))
  }

  function Charged(events: seq<Event>): seq<Report> {
    if events == [] then []
    else
      var init, last := events[..|events| - 1], events[|events| - 1];
      Charged(init) + if IsCharged(init, last) then [Report(last.id, last.usage.value)] else []
  }

  lemma {:induction false} LatestIsKept(events: seq<Event>)
    ensures ObserveAll(INITIAL, events).latest == LatestOf(events)
    ensures ObserveAll(INITIAL, events).bill.ids == ReportedIds(events) - {""}
  {
    if events != [] {
      var init, last := events[..|events| - 1], events[|events| - 1];
      assert events == init + [last];
      LatestIsKept(init);
      IdsOne(init, last);
    }
  }

  /** The bill is the sum of what was charged, whether or not reports name their messages. */
  lemma {:induction false} BilledAsCharged(events: seq<Event>)
    ensures var b, sum := ObserveAll(INITIAL, events).bill, Sum(Charged(events));
            && b.input == sum.input && b.output == sum.output
            && b.cacheRead == sum.cacheRead && b.cacheCreation == sum.cacheCreation
  {
    hide ReportedIds, Sum, LatestOf;
    if events == [] {
      assert Sum([]) == Usage(0.0, 0.0, 0.0, 0.0) by {
        SumOfNothing();
      }
    } else {
      var init, last := events[..|events| - 1], events[|events| - 1];
      BilledAsCharged(init);
      LatestIsKept(init);
      ObserveCharges(ObserveAll(INITIAL, init), last);
      assert Charged(init) + [] == Charged(init);
      if IsReport(last) {
        SumOne(Charged(init), Report(last.id, last.usage.value));
      }
    }
  }

  lemma SumOfNothing()
    ensures Sum([]) == Usage(0.0, 0.0, 0.0, 0.0)
  {
  }

  // ----- What else the monitor keeps

  /** The occupancies reported, in order. */
  function Occupancies(events: seq<Event>): seq<real> {
    if events == [] then []
    else
      var last := events[|events| - 1];
      Occupancies(events[..|events| - 1]) + if IsReport(last) then [Occupancy(last.usage.value)] else []
  }

  /** How often the occupancy changed, the first report included. */
  function Changes(figures: seq<real>): nat {
    if figures == [] then 0
    else
      var last := |figures| - 1;
      Changes(figures[..last]) + if last == 0 || figures[last - 1] != figures[last] then 1 else 0
  }

  /** A turn is counted for each change of the occupancy reported. */
  lemma {:induction false} TurnsAreChanges(events: seq<Event>)
    ensures ObserveAll(INITIAL, events).turns == Changes(Occupancies(events))
    ensures ObserveAll(INITIAL, events).latest
            == if Occupancies(events) == [] then None else Some(Occupancies(events)[|Occupancies(events)| - 1])
  {
    if events != [] {
      var init, last := events[..|events| - 1], events[|events| - 1];
      TurnsAreChanges(init);
      ObserveTurns(ObserveAll(INITIAL, init), last);
      hide Observe, Occupancy;
      assert Occupancies(init) + [] == Occupancies(init);
      if IsReport(last) {
        ChangesOne(Occupancies(init), Occupancy(last.usage.value));
      }
    }
  }

  lemma ObserveTurns(s: State, e: Event)
    ensures !IsReport(e) ==> Observe(s, e).turns == s.turns && Observe(s, e).latest == s.latest
    ensures IsReport(e) ==>
      var figure := Occupancy(e.usage.value);
      Observe(s, e).latest == Some(figure) && Observe(s, e).turns == s.turns + if s.latest == Some(figure) then 0 else 1
  {
    hide Charge;
  }

  lemma ChangesOne(figures: seq<real>, figure: real)
    ensures Changes(figures + [figure])
            == Changes(figures) + if figures == [] || figures[|figures| - 1] != figure then 1 else 0
  {
    assert (figures + [figure])[..|figures|] == figures;
  }

  /** The compactions seen are the boundaries streamed, in order, each with its own figures. */
  lemma {:induction false} CompactionsAreKept(events: seq<Event>)
    ensures ObserveAll(INITIAL, events).compactions == Compactions(events)
  {
    if events != [] {
      CompactionsAreKept(events[..|events| - 1]);
    }
  }

  function Compactions(events: seq<Event>): seq<Signal> {
    if events == [] then []
    else
      var e := events[|events| - 1];
      Compactions(events[..|events| - 1])
      + if e.CompactBoundary? then [Compaction(e.manual, e.preTokens, e.postTokens, e.droppedTokens)] else []
  }

  /** The reading is stale exactly when somebody has spoken since the last report. */
  lemma {:induction false} StaleIff(events: seq<Event>)
    ensures ObserveAll(INITIAL, events).stale
            <==> exists i :: 0 <= i < |events| && events[i].User? && NoReportSince(events, i)
  {
    if events != [] {
      var init, last := events[..|events| - 1], events[|events| - 1];
      StaleIff(init);
      assert forall i :: 0 <= i < |init| ==> (NoReportSince(events, i) <==> NoReportSince(init, i) && !IsReport(last));
      if last.User? {
        assert NoReportSince(events, |init|);
      }
      if i :| 0 <= i < |init| && init[i].User? && NoReportSince(init, i) {
        assert events[i].User? && (!IsReport(last) ==> NoReportSince(events, i));
      }
    }
  }

  predicate NoReportSince(events: seq<Event>, i: nat) {
    forall j :: i < j < |events| ==> !IsReport(events[j])
  }

  /** What the boundaries freed by their own figures; one that says nothing of after frees nothing. */
  function FreedIn(events: seq<Event>): real {
    if events == [] then 0.0
    else
      var e := events[|events| - 1];
      FreedIn(events[..|events| - 1])
      + if e.CompactBoundary? && e.postTokens.Some? && e.preTokens > e.postTokens.value then e.preTokens - e.postTokens.value
        else 0.0
  }

  /** The tokens dropped: the last running total streamed, and what was freed after it; or without one, all
      that was freed. */
  lemma {:induction false} DroppedIs(before: seq<Event>, total: Event, after: seq<Event>)
    requires total.CompactBoundary? && total.droppedTokens.Some?
    requires forall e :: e in after && e.CompactBoundary? ==> e.droppedTokens.None?
    ensures ObserveAll(INITIAL, before + [total] + after).dropped == total.droppedTokens.value + FreedIn(after)
    ensures ObserveAll(INITIAL, after).dropped == FreedIn(after)
    decreases |after|
  {
    if after == [] {
      assert before + [total] + after == before + [total];
      ObserveOne(INITIAL, before, total);
    } else {
      var init, last := after[..|after| - 1], after[|after| - 1];
      DroppedIs(before, total, init);
      assert before + [total] + after == (before + [total] + init) + [last] && after == init + [last];
      ObserveOne(INITIAL, before + [total] + init, last);
      assert last in after;
    }
  }

  /** What a signal says: the whole occupancy of a turn and its output, and a compaction's own figures. */
  lemma SignalTells(e: Event)
    ensures match ReadSignal(e)
            case Some(Turn(context, output)) =>
              && e.Assistant? && e.usage.Some? && output == e.usage.value.output
              && context == e.usage.value.input + e.usage.value.cacheCreation + e.usage.value.cacheRead
            case Some(Compaction(manual, pre, post, dropped)) => e == CompactBoundary(manual, pre, post, dropped)
            case None => !e.CompactBoundary? && !(e.Assistant? && e.usage.Some?)
  {
  }

  /** The total is always the sum of its four parts. */
  lemma {:induction false} TotalIsItsParts(events: seq<Event>)
    ensures var b := ObserveAll(INITIAL, events).bill;
            b.total == b.input + b.output + b.cacheRead + b.cacheCreation
  {
    if events != [] {
      TotalIsItsParts(events[..|events| - 1]);
    }
  }

  /** What a signal says the context held. */
  function Reported(e: Event): Option<real> {
    match e
    case Assistant(_, Some(u)) => Some(Occupancy(u))
    case CompactBoundary(_, pre, _, _) => Some(pre)
    case _ => None
  }

  /** The peak bounds every reported occupancy and pre-compaction figure, and is one of them or zero. */
  lemma {:induction false} PeakIsTheMaximum(events: seq<Event>)
    ensures var peak := ObserveAll(INITIAL, events).peak;
            && peak >= 0.0
            && (forall e :: e in events && Reported(e).Some? ==> Reported(e).value <= peak)
            && (peak == 0.0 || exists e :: e in events && Reported(e) == Some(peak))
  {
    if events != [] {
      var init, last := events[..|events| - 1], events[|events| - 1];
      PeakIsTheMaximum(init);
      assert events == init + [last];
      var peak := ObserveAll(INITIAL, events).peak;
      if Reported(last) == Some(peak) {
        assert last in events;
      } else if peak != 0.0 {
        var e :| e in init && Reported(e) == Some(peak);
        assert e in events;
      }
    }
  }
}

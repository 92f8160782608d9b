/** The asks and readings of holders that run on somebody else's machine.

The module-level maps are the fields of a class; a promise somebody waits on is a waiter's number,
and what it was answered is its entry in `resolved`. A session closure is known by its number.
*/
module RemoteHolders {
  import opened Optional

  type Task = string
  type Changes = set<string>
  type Waiter = nat
  type Serial = nat
  type Session = nat

  const READING_FRESHNESS_MS := 25_000

  datatype Declaration = Declaration(files: set<string>, symbols: set<string>)

  datatype Reading = Reading(changes: Changes, at: int)

  datatype AskId = AskId(lease: string, at: int)

  /** `serial` tells asks apart even where the clock does not. */
  datatype Ask = Ask(serial: Serial, id: AskId, delivered: bool, waiters: seq<Waiter>)

  datatype Registration = Registration(task: Task, lease: string)

  datatype Resolution = Resolution(waiter: Waiter, declaration: Option<Declaration>)

  /** `joined` says which ask each waiter joined; `delivered` lists the asks handed to a heartbeat. */
  datatype State = State(
    holders: map<Task, Session>,
    readings: map<Task, Reading>,
    asks: map<Task, Ask>,
    disposers: map<Task, Session>,
    sessions: seq<Registration>,
    joined: seq<Serial>,
    serials: nat,
    resolved: seq<Resolution>,
    delivered: seq<Serial>)

  const EMPTY := State(map[], map[], map[], map[], [], [], 0, [], [])

  function Resolutions(waiters: seq<Waiter>, declaration: Option<Declaration>): (r: seq<Resolution>)
    ensures |r| == |waiters|
  {
    seq(|waiters|, i requires 0 <= i < |waiters| => Resolution(waiters[i], declaration))
  }

  /** Closes a task's ask, telling everyone who waits on it the same thing. */
  function Answer(s: State, t: Task, declaration: Option<Declaration>): State
    requires t in s.asks
  {
    s.(asks := s.asks - {t}, resolved := s.resolved + Resolutions(s.asks[t].waiters, declaration))
  }

  /** A session's own release, whether or not it is still the task's current one. */
  function Released(s: State, session: Session): State
    requires session < |s.sessions|
  {
    var t := s.sessions[session].task;
    var gone := s.(holders := if t in s.holders && s.holders[t] == session then s.holders - {t} else s.holders,
                   readings := s.readings - {t},
                   disposers := s.disposers - {t});
    if t in s.asks then Answer(gone, t, None) else gone
  }

  function Registered(s: State, r: Registration): State
    requires SessionsKnown(s)
  {
    var session := |s.sessions|;
    var published := s.(sessions := s.sessions + [r], holders := s.holders[r.task := session]);
    var let := if r.task in s.disposers then Released(published, s.disposers[r.task]) else published;
    let.(disposers := let.disposers[r.task := session])
  }

  /** An ask through a session: a new one, or joining the one already out for the task. */
  function Declared(s: State, session: Session, now: int): State
    requires session < |s.sessions|
  {
    var r := s.sessions[session];
    var waiter := |s.joined|;
    if r.task in s.asks then
      var ask := s.asks[r.task];
      s.(joined := s.joined + [ask.serial], asks := s.asks[r.task := ask.(waiters := ask.waiters + [waiter])])
    else
      s.(joined := s.joined + [s.serials], serials := s.serials + 1,
         asks := s.asks[r.task := Ask(s.serials, AskId(r.lease, now), false, [waiter])])
  }

  function Remembered(s: State, t: Task, changes: Changes, now: int): State {
    s.(readings := s.readings[t := Reading(changes, now)])
  }

  function Delivered(s: State, t: Task): (Option<AskId>, State) {
    if t !in s.asks || s.asks[t].delivered then (None, s)
    else
      (Some(s.asks[t].id),
       s.(asks := s.asks[t := s.asks[t].(delivered := true)], delivered := s.delivered + [s.asks[t].serial]))
  }

  function Settled(s: State, t: Task, id: AskId, declaration: Option<Declaration>, changes: Option<Changes>, now: int)
    : (bool, State)
  {
    if t !in s.asks || s.asks[t].id != id then (false, s)
    else (true, Answer(if changes.Some? then Remembered(s, t, changes.value, now) else s, t, declaration))
  }

  function ReleasedTask(s: State, t: Task): State
    requires SessionsKnown(s)
  {
    if t in s.disposers then Released(s, s.disposers[t]) else s
  }

  /** The reading worth freezing on, if there is one. */
  function Fresh(s: State, t: Task, now: int): Option<Changes> {
    if t !in s.readings || now - s.readings[t].at > READING_FRESHNESS_MS then None else Some(s.readings[t].changes)
  }

  // ----- Runs

  datatype Step =
    | Register(registration: Registration)
    | Declare(session: Session, now: int)
    | Heartbeat(task: Task, changes: Changes, now: int)
    | Deliver(task: Task)
    | Settle(task: Task, id: AskId, declaration: Option<Declaration>, reading: Option<Changes>, now: int)
    | ReleaseTask(task: Task)
    /** A registration's own closure, called by whoever kept it. */
    | Release(session: Session)

  predicate Enabled(s: State, step: Step) {
    match step
    case Declare(session, _) => session < |s.sessions|
    case Release(session) => session < |s.sessions|
    case _ => true
  }

  function Next(s: State, step: Step): State
    requires SessionsKnown(s) && Enabled(s, step)
  {
    match step
    case Register(r) => Registered(s, r)
    case Declare(session, now) => Declared(s, session, now)
    case Heartbeat(t, changes, now) => Remembered(s, t, changes, now)
    case Deliver(t) => Delivered(s, t).1
    case Settle(t, id, declaration, changes, now) => Settled(s, t, id, declaration, changes, now).1
    case ReleaseTask(t) => ReleasedTask(s, t)
    case Release(session) => Released(s, session)
  }

  predicate SessionsKnown(s: State) {
    forall t :: t in s.disposers ==> s.disposers[t] < |s.sessions| && s.sessions[s.disposers[t]].task == t
  }

  // ----- Every waiter is answered once, with everyone else who waited on the same ask

  predicate Waits(asks: map<Task, Ask>, w: int) {
    exists t :: t in asks && WaitsOn(asks[t], w)
  }

  predicate WaitsOn(ask: Ask, w: int) {
    exists k :: 0 <= k < |ask.waiters| && ask.waiters[k] == w
  }

  predicate IsResolved(resolved: seq<Resolution>, w: int) {
    exists k :: 0 <= k < |resolved| && resolved[k].waiter == w
  }

  /** An open ask's waiters are distinct and joined it. */
  ghost predicate AskOk(s: State, ask: Ask) {
    && ask.serial < s.serials
    && (forall k :: 0 <= k < |ask.waiters| ==> ask.waiters[k] < |s.joined| && s.joined[ask.waiters[k]] == ask.serial)
    && (forall j, k :: 0 <= j < k < |ask.waiters| ==> ask.waiters[j] != ask.waiters[k])
    && (ask.delivered <==> ask.serial in s.delivered)
  }

  ghost predicate AsksOk(s: State) {
    && (forall t :: t in s.asks ==> AskOk(s, s.asks[t]))
    && (forall t, u :: t in s.asks && u in s.asks && t != u ==> s.asks[t].serial != s.asks[u].serial)
    && (forall w :: 0 <= w < |s.joined| ==> s.joined[w] < s.serials)
  }

  /** No ask is handed to a heartbeat twice. */
  ghost predicate DeliveredOnce(s: State) {
    && (forall k :: 0 <= k < |s.delivered| ==> s.delivered[k] < s.serials)
    && (forall j, k :: 0 <= j < k < |s.delivered| ==> s.delivered[j] != s.delivered[k])
  }

  ghost predicate ResolvedKnown(s: State) {
    forall k :: 0 <= k < |s.resolved| ==> s.resolved[k].waiter < |s.joined|
  }

  ghost predicate ResolvedOnce(s: State) {
    && (forall j, k :: 0 <= j < k < |s.resolved| ==> s.resolved[j].waiter != s.resolved[k].waiter)
    && (forall w :: 0 <= w < |s.joined| ==> (IsResolved(s.resolved, w) <==> !Waits(s.asks, w)))
  }

  /** Everyone who joined one ask is told the same thing, all of them at once. */
  ghost predicate ToldTheSame(s: State)
    requires ResolvedKnown(s)
  {
    forall j, k :: 0 <= j < |s.resolved| && 0 <= k < |s.resolved|
      && s.joined[s.resolved[j].waiter] == s.joined[s.resolved[k].waiter]
      ==> s.resolved[j].declaration == s.resolved[k].declaration
  }

  ghost predicate OpenIsUnanswered(s: State)
    requires ResolvedKnown(s)
  {
    forall t, k :: t in s.asks && 0 <= k < |s.resolved| ==> s.joined[s.resolved[k].waiter] != s.asks[t].serial
  }

  ghost predicate Inv(s: State) {
    && SessionsKnown(s)
    && AsksOk(s) && DeliveredOnce(s) && ResolvedKnown(s) && ResolvedOnce(s)
    && ToldTheSame(s) && OpenIsUnanswered(s)
  }

  lemma AnswerResolves(s: State, t: Task, declaration: Option<Declaration>, w: int)
    requires t in s.asks
    ensures IsResolved(Answer(s, t, declaration).resolved, w) <==> IsResolved(s.resolved, w) || WaitsOn(s.asks[t], w)
  {
    var resolved := Answer(s, t, declaration).resolved;
    var ask, n := s.asks[t], |s.resolved|;
    assert forall k :: 0 <= k < |ask.waiters| ==> resolved[n + k].waiter == ask.waiters[k];
    assert forall k :: 0 <= k < n ==> resolved[k] == s.resolved[k];
    if IsResolved(resolved, w) {
      var k :| 0 <= k < |resolved| && resolved[k].waiter == w;
      if k >= n {
        assert ask.waiters[k - n] == w;
      }
    }
  }

  lemma AnswerFrees(s: State, t: Task, declaration: Option<Declaration>, w: int)
    requires AsksOk(s) && t in s.asks
    ensures Waits(Answer(s, t, declaration).asks, w) <==> Waits(s.asks, w) && !WaitsOn(s.asks[t], w)
  {
    var asks := Answer(s, t, declaration).asks;
    assert AskOk(s, s.asks[t]);
    if Waits(asks, w) {
      var u :| u in asks && WaitsOn(asks[u], w);
      assert AskOk(s, s.asks[u]) && WaitsOn(s.asks[u], w);
    }
    if Waits(s.asks, w) && !WaitsOn(s.asks[t], w) {
      var u :| u in s.asks && WaitsOn(s.asks[u], w);
      assert u in asks && WaitsOn(asks[u], w);
    }
  }

  lemma AnswerKeepsResolved(s: State, t: Task, declaration: Option<Declaration>)
    requires AsksOk(s) && ResolvedKnown(s) && ResolvedOnce(s) && OpenIsUnanswered(s) && t in s.asks
    ensures ResolvedOnce(Answer(s, t, declaration))
  {
    var s' := Answer(s, t, declaration);
    var ask, n := s.asks[t], |s.resolved|;
    assert AskOk(s, ask);
    forall w | 0 <= w < |s.joined|
      ensures IsResolved(s'.resolved, w) <==> !Waits(s'.asks, w)
    {
      AnswerResolves(s, t, declaration, w);
      AnswerFrees(s, t, declaration, w);
      if WaitsOn(ask, w) {
        assert Waits(s.asks, w);
      }
    }
    assert forall k :: n <= k < |s'.resolved| ==> s'.resolved[k].waiter == ask.waiters[k - n];
    forall j, k | 0 <= j < k < |s'.resolved| ensures s'.resolved[j].waiter != s'.resolved[k].waiter {
      if j < n <= k {
        assert s.joined[s.resolved[j].waiter] != ask.serial;
      }
    }
  }

  lemma AnswerTellsTheSame(s: State, t: Task, declaration: Option<Declaration>)
    requires AsksOk(s) && ResolvedKnown(s) && ToldTheSame(s) && OpenIsUnanswered(s) && t in s.asks
    ensures var s' := Answer(s, t, declaration);
            ResolvedKnown(s') && ToldTheSame(s') && OpenIsUnanswered(s')
  {
    var s', ask, n := Answer(s, t, declaration), s.asks[t], |s.resolved|;
    assert AskOk(s, ask);
    hide AskOk, AsksOk;
    assert forall k :: n <= k < |s'.resolved| ==>
      s'.resolved[k] == Resolution(ask.waiters[k - n], declaration) && s.joined[s'.resolved[k].waiter] == ask.serial;
    assert forall k :: 0 <= k < n ==> s'.resolved[k] == s.resolved[k] && s.joined[s.resolved[k].waiter] != ask.serial;
  }

  lemma AnswerKeepsInv(s: State, t: Task, declaration: Option<Declaration>)
    requires Inv(s) && t in s.asks
    ensures Inv(Answer(s, t, declaration))
  {
    hide AskOk, ResolvedOnce, ToldTheSame, OpenIsUnanswered, ResolvedKnown;
    AnswerKeepsResolved(s, t, declaration);
    AnswerTellsTheSame(s, t, declaration);
    var s' := Answer(s, t, declaration);
    forall u | u in s'.asks ensures AskOk(s', s'.asks[u]) {
      OtherAskStands(s, s.asks[u], s');
    }
  }

  lemma ReleaseKeepsInv(s: State, session: Session)
    requires Inv(s) && session < |s.sessions|
    ensures Inv(Released(s, session))
  {
    hide ToldTheSame, OpenIsUnanswered, ResolvedOnce, DeliveredOnce, AsksOk, Answer;
    var t := s.sessions[session].task;
    var gone := s.(holders := if t in s.holders && s.holders[t] == session then s.holders - {t} else s.holders,
                   readings := s.readings - {t},
                   disposers := s.disposers - {t});
    Unrelated(s, gone);
    if t in s.asks {
      AnswerKeepsInv(gone, t, None);
    }
  }

  lemma JoinKeepsAsk(s: State, ask: Ask, s': State)
    requires AskOk(s, ask) && s'.joined == s.joined + [ask.serial]
    requires s'.serials == s.serials && s'.delivered == s.delivered
    ensures AskOk(s', ask.(waiters := ask.waiters + [|s.joined|]))
  {
  }

  lemma OtherAskStands(s: State, ask: Ask, s': State)
    requires AskOk(s, ask) && s.joined <= s'.joined && s.serials <= s'.serials && s'.delivered == s.delivered
    ensures AskOk(s', ask)
  {
  }

  lemma NewAskKeepsAsks(s: State, session: Session, now: int)
    requires AsksOk(s) && session < |s.sessions| && s.sessions[session].task !in s.asks
    requires forall k :: 0 <= k < |s.delivered| ==> s.delivered[k] < s.serials
    ensures AsksOk(Declared(s, session, now))
  {
    var s', t := Declared(s, session, now), s.sessions[session].task;
    assert AskOk(s', s'.asks[t]);
    SerialsKnown(s);
    hide AskOk;
    forall u | u in s'.asks ensures AskOk(s', s'.asks[u]) {
      if u != t {
        OtherAskStands(s, s.asks[u], s');
      }
    }
  }

  lemma JoiningKeepsAsks(s: State, session: Session, now: int)
    requires AsksOk(s) && session < |s.sessions| && s.sessions[session].task in s.asks
    ensures AsksOk(Declared(s, session, now))
  {
    var s', t := Declared(s, session, now), s.sessions[session].task;
    SerialsKnown(s);
    hide AskOk;
    forall u | u in s'.asks ensures AskOk(s', s'.asks[u]) {
      if u != t {
        OtherAskStands(s, s.asks[u], s');
      } else {
        JoinKeepsAsk(s, s.asks[u], s');
      }
    }
  }

  lemma SerialsKnown(s: State)
    requires AsksOk(s)
    ensures forall t :: t in s.asks ==> s.asks[t].serial < s.serials
  {
    assert forall t :: t in s.asks ==> AskOk(s, s.asks[t]);
  }

  lemma DeclareKeepsResolved(s: State, session: Session, now: int)
    requires AsksOk(s) && ResolvedKnown(s) && ResolvedOnce(s) && session < |s.sessions|
    ensures ResolvedOnce(Declared(s, session, now)) && ResolvedKnown(Declared(s, session, now))
  {
    var s' := Declared(s, session, now);
    var t := s.sessions[session].task;
    var waiter := |s.joined|;
    var ask' := s'.asks[t];
    assert ask'.waiters[|ask'.waiters| - 1] == waiter && WaitsOn(ask', waiter);
    forall w | 0 <= w < |s'.joined| ensures IsResolved(s'.resolved, w) <==> !Waits(s'.asks, w) {
      if w < waiter {
        WaitsAsBefore(s, s', t, w);
      } else {
        assert Waits(s'.asks, w);
      }
    }
  }

  lemma DeclareKeepsInv(s: State, session: Session, now: int)
    requires Inv(s) && session < |s.sessions|
    ensures Inv(Declared(s, session, now))
  {
    hide ResolvedOnce, AskOk, IsResolved, Waits, WaitsOn;
    if s.sessions[session].task in s.asks {
      JoiningKeepsAsks(s, session, now);
    } else {
      NewAskKeepsAsks(s, session, now);
    }
    DeclareKeepsResolved(s, session, now);
    var s' := Declared(s, session, now);
    assert forall k :: 0 <= k < |s.resolved| ==> s'.joined[s.resolved[k].waiter] == s.joined[s.resolved[k].waiter];
    assert forall w :: 0 <= w < |s.joined| ==> s.joined[w] < s.serials;
  }

  lemma WaitsAsBefore(s: State, s': State, t: Task, w: int)
    requires t in s'.asks && 0 <= w < |s.joined|
    requires forall u :: u != t ==> (u in s'.asks <==> u in s.asks)
    requires forall u :: u != t && u in s.asks ==> s'.asks[u] == s.asks[u]
    requires t in s.asks ==> s'.asks[t].waiters == s.asks[t].waiters + [|s.joined|]
    requires t !in s.asks ==> s'.asks[t].waiters == [|s.joined|]
    ensures Waits(s'.asks, w) <==> Waits(s.asks, w)
  {
    if t in s.asks && WaitsOn(s.asks[t], w) {
      var k :| 0 <= k < |s.asks[t].waiters| && s.asks[t].waiters[k] == w;
      assert s'.asks[t].waiters[k] == w;
    }
    if Waits(s.asks, w) {
      var u :| u in s.asks && WaitsOn(s.asks[u], w);
      assert u in s'.asks && WaitsOn(s'.asks[u], w);
    }
    if Waits(s'.asks, w) {
      var u :| u in s'.asks && WaitsOn(s'.asks[u], w);
      assert u in s.asks && WaitsOn(s.asks[u], w);
    }
  }

  lemma DeliveryKeepsAsks(s: State, t: Task)
    requires AsksOk(s) && DeliveredOnce(s) && t in s.asks && !s.asks[t].delivered
    ensures AsksOk(Delivered(s, t).1) && DeliveredOnce(Delivered(s, t).1)
  {
    var s' := Delivered(s, t).1;
    assert AskOk(s, s.asks[t]);
    forall u | u in s'.asks ensures AskOk(s', s'.asks[u]) {
      assert AskOk(s, s.asks[u]);
    }
    hide AskOk;
  }

  lemma DeliveryKeepsWaits(s: State, t: Task, w: int)
    requires t in s.asks
    ensures Waits(Delivered(s, t).1.asks, w) <==> Waits(s.asks, w)
  {
    var s' := Delivered(s, t).1;
    if Waits(s.asks, w) {
      var u :| u in s.asks && WaitsOn(s.asks[u], w);
      assert u in s'.asks && WaitsOn(s'.asks[u], w);
    }
    if Waits(s'.asks, w) {
      var u :| u in s'.asks && WaitsOn(s'.asks[u], w);
      assert u in s.asks && WaitsOn(s.asks[u], w);
    }
  }

  lemma DeliverKeepsInv(s: State, t: Task)
    requires Inv(s)
    ensures Inv(Delivered(s, t).1)
  {
    hide AsksOk, DeliveredOnce, Waits, IsResolved;
    if t in s.asks && !s.asks[t].delivered {
      DeliveryKeepsAsks(s, t);
      forall w | 0 <= w < |s.joined| ensures Waits(Delivered(s, t).1.asks, w) <==> Waits(s.asks, w) {
        DeliveryKeepsWaits(s, t, w);
      }
    }
  }

  /** What the invariant says does not depend on holders, readings, or the sessions registered since. */
  lemma Unrelated(s: State, s': State)
    requires Inv(s) && SessionsKnown(s')
    requires s'.asks == s.asks && s'.joined == s.joined && s'.serials == s.serials
    requires s'.resolved == s.resolved && s'.delivered == s.delivered
    ensures Inv(s')
  {
    hide WaitsOn;
    assert forall u :: u in s.asks ==> AskOk(s, s.asks[u]) && AskOk(s', s'.asks[u]);
  }

  lemma RegisterKeepsInv(s: State, r: Registration)
    requires Inv(s)
    ensures Inv(Registered(s, r))
  {
    hide ToldTheSame, OpenIsUnanswered, ResolvedOnce, DeliveredOnce, AsksOk;
    var published := s.(sessions := s.sessions + [r], holders := s.holders[r.task := |s.sessions|]);
    Unrelated(s, published);
    if r.task in s.disposers {
      ReleaseKeepsInv(published, s.disposers[r.task]);
      Unrelated(Released(published, s.disposers[r.task]), Registered(s, r));
    } else {
      Unrelated(published, Registered(s, r));
    }
  }

  /** Whatever happens, stale closures and declarations included, an ask is delivered at most once and
      its waiters are all resolved exactly once with one declaration. */
  lemma StepKeepsInv(s: State, step: Step)
    requires Inv(s) && Enabled(s, step)
    ensures Inv(Next(s, step))
  {
    hide ToldTheSame, OpenIsUnanswered, ResolvedOnce, DeliveredOnce, AsksOk, Answer;
    match step
    case Register(r) => RegisterKeepsInv(s, r);
    case Declare(session, now) => DeclareKeepsInv(s, session, now);
    case Heartbeat(t, changes, now) => Unrelated(s, Remembered(s, t, changes, now));
    case Deliver(t) => DeliverKeepsInv(s, t);
    case Settle(t, id, declaration, changes, now) =>
      if Settled(s, t, id, declaration, changes, now).0 {
        var read := if changes.Some? then Remembered(s, t, changes.value, now) else s;
        Unrelated(s, read);
        AnswerKeepsInv(read, t, declaration);
      }
    case ReleaseTask(t) =>
      if t in s.disposers {
        ReleaseKeepsInv(s, s.disposers[t]);
      }
    case Release(session) => ReleaseKeepsInv(s, session);
  }

  ghost predicate Chain(states: seq<State>, steps: seq<Step>) {
    && |states| == |steps| + 1 && states[0] == EMPTY
    && forall i :: 0 <= i < |steps| ==>
         SessionsKnown(states[i]) && Enabled(states[i], steps[i]) && states[i + 1] == Next(states[i], steps[i])
  }

  lemma {:induction false} RunKeepsInv(states: seq<State>, steps: seq<Step>, n: nat)
    requires Chain(states, steps) && n <= |steps|
    ensures Inv(states[n])
    decreases n
  {
    hide Next, Inv;
    if n == 0 {
      EmptyIsInv();
    } else {
      RunKeepsInv(states, steps, n - 1);
      assert states[n - 1 + 1] == Next(states[n - 1], steps[n - 1]);
      StepKeepsInv(states[n - 1], steps[n - 1]);
    }
  }

  lemma EmptyIsInv()
    ensures Inv(EMPTY)
  {
  }

  /** A settlement names the ask it answers: the right id tells exactly that ask's waiters, in the
      order they joined, and nobody else; any other id changes nothing at all. */
  lemma SettleAnswersItsAsk(s: State, t: Task, id: AskId, declaration: Option<Declaration>, changes: Option<Changes>,
                            now: int)
    requires Inv(s)
    ensures var (taken, s') := Settled(s, t, id, declaration, changes, now);
            && (taken <==> t in s.asks && s.asks[t].id == id)
            && (!taken ==> s' == s)
            && (taken ==>
                  && t !in s'.asks && s'.asks == s.asks - {t}
                  && |s'.resolved| >= |s.resolved| && s'.resolved[..|s.resolved|] == s.resolved
                  && (forall k :: |s.resolved| <= k < |s'.resolved| ==> s'.resolved[k].declaration == declaration)
                  && (forall w :: 0 <= w < |s.joined| ==>
                        (IsResolved(s'.resolved, w) <==> IsResolved(s.resolved, w) || s.joined[w] == s.asks[t].serial)))
  {
    var (taken, s') := Settled(s, t, id, declaration, changes, now);
    if taken {
      var ask := s.asks[t];
      assert AskOk(s, ask);
      var read := if changes.Some? then Remembered(s, t, changes.value, now) else s;
      forall w | 0 <= w < |s.joined|
        ensures IsResolved(s'.resolved, w) <==> IsResolved(s.resolved, w) || s.joined[w] == ask.serial
      {
        AnswerResolves(read, t, declaration, w);
        if s.joined[w] == ask.serial {
          WaiterOfAsk(s, t, w);
        }
      }
    }
  }

  /** A waiter that joined an open ask is waiting on it. */
  lemma WaiterOfAsk(s: State, t: Task, w: int)
    requires Inv(s) && t in s.asks && 0 <= w < |s.joined| && s.joined[w] == s.asks[t].serial
    ensures WaitsOn(s.asks[t], w)
  {
    assert Waits(s.asks, w);
    var u :| u in s.asks && WaitsOn(s.asks[u], w);
    assert AskOk(s, s.asks[u]);
    assert u == t;
  }

  // ----- What a release leaves behind

  /** Nothing of this task is left. */
  predicate Clear(s: State, t: Task) {
    t !in s.asks && t !in s.readings && t !in s.disposers
  }

  /** Releasing by task leaves nothing exactly when the task has a disposer, or had nothing to leave. */
  lemma ReleaseLeavesNothingIff(s: State, t: Task)
    requires Inv(s)
    ensures Clear(ReleasedTask(s, t), t) <==> t in s.disposers || (t !in s.asks && t !in s.readings)
    ensures forall u :: u != t ==>
      (u in ReleasedTask(s, t).asks <==> u in s.asks) && (u in ReleasedTask(s, t).readings <==> u in s.readings)
  {
  }

  /** Every ask and every reading belongs to a registered holder, and the disposer is that holder's. */
  predicate Tidy(s: State) {
    && s.asks.Keys <= s.disposers.Keys && s.readings.Keys <= s.disposers.Keys
    && s.holders == s.disposers
  }

  /** Asks go through the registered session, readings come from registered holders, and a closure is
      called only while it is its task's current one. */
  predicate Orderly(s: State, step: Step) {
    match step
    case Declare(session, _) =>
      session < |s.sessions| && s.sessions[session].task in s.holders && s.holders[s.sessions[session].task] == session
    case Heartbeat(t, _, _) => t in s.holders
    case Release(session) =>
      session < |s.sessions|
      && (s.sessions[session].task in s.disposers ==> s.disposers[s.sessions[session].task] == session)
    case _ => true
  }

  lemma ReleaseKeepsTidy(s: State, session: Session)
    requires SessionsKnown(s) && Tidy(s) && session < |s.sessions|
    requires var t := s.sessions[session].task; t in s.disposers ==> s.disposers[t] == session
    ensures Tidy(Released(s, session)) && Clear(Released(s, session), s.sessions[session].task)
  {
    var s', t := Released(s, session), s.sessions[session].task;
    assert s'.holders == s.holders - {t} && s'.disposers == s.disposers - {t};
  }

  lemma RegisterKeepsTidy(s: State, r: Registration)
    requires SessionsKnown(s) && Tidy(s)
    ensures Tidy(Registered(s, r))
  {
    assert Registered(s, r).holders == Registered(s, r).disposers;
  }

  /** Orderly use keeps every release complete. */
  lemma OrderlyKeepsTidy(s: State, step: Step)
    requires SessionsKnown(s) && Tidy(s) && Enabled(s, step) && Orderly(s, step)
    ensures Tidy(Next(s, step))
    ensures step.ReleaseTask? ==> Clear(Next(s, step), step.task)
  {
    hide Registered;
    match step
    case Register(r) => RegisterKeepsTidy(s, r);
    case ReleaseTask(t) =>
      if t in s.disposers {
        ReleaseKeepsTidy(s, s.disposers[t]);
      }
    case Release(session) => ReleaseKeepsTidy(s, session);
    case _ =>
  }

  /** The closure of a registration that has since been replaced is not harmless: it answers the new
      holder's ask and drops the new holder's disposer, so that an ask made afterwards outlives a
      release of the task. From a tidy state, this happens exactly when the closure is a stale one. */
  lemma StaleReleaseLeavesAnAsk(s: State, session: Session, now: int)
    requires SessionsKnown(s) && Tidy(s) && session < |s.sessions| && s.sessions[session].task in s.holders
    ensures var t := s.sessions[session].task;
            var current := s.disposers[t];
            var after := Released(s, session);
            var asked := Declared(after, current, now);
            && (current != session <==> !Tidy(after))
            && (current != session
                <==> Orderly(after, Declare(current, now)) && t in ReleasedTask(asked, t).asks)
  {
    var t := s.sessions[session].task;
    if s.disposers[t] == session {
      ReleaseKeepsTidy(s, session);
    }
  }

  /** Two registrations of one task leave a tidy state with a stale closure in it. */
  lemma ReplacedClosureIsStale(task: Task, first: string, second: string)
    ensures SessionsKnown(EMPTY) && SessionsKnown(Registered(EMPTY, Registration(task, first)))
    ensures var s := Registered(Registered(EMPTY, Registration(task, first)), Registration(task, second));
            && Inv(s) && Tidy(s) && task in s.holders && |s.sessions| == 2
            && s.sessions[0].task == task && task in s.disposers && s.disposers[task] == 1
  {
    EmptyIsInv();
    RegisterKeepsInv(EMPTY, Registration(task, first));
    var once := Registered(EMPTY, Registration(task, first));
    RegisterKeepsInv(once, Registration(task, second));
    hide AsksOk, DeliveredOnce, ResolvedOnce, ToldTheSame, OpenIsUnanswered;
    OrderlyKeepsTidy(EMPTY, Register(Registration(task, first)));
    OrderlyKeepsTidy(once, Register(Registration(task, second)));
  }

  // ----- Which reading is fresh

  function ReadingOf(s: State, t: Task): Option<Reading> {
    if t in s.readings then Some(s.readings[t]) else None
  }

  /** The reading of the task that a step brings: a heartbeat's, or that of a settlement that was taken. */
  function Brings(s: State, step: Step, t: Task): Option<Reading> {
    match step
    case Heartbeat(u, changes, now) => if u == t then Some(Reading(changes, now)) else None
    case Settle(u, id, _, changes, now) =>
      if u == t && u in s.asks && s.asks[u].id == id && changes.Some? then Some(Reading(changes.value, now)) else None
    case _ => None
  }

  /** The step releases the task: by name, by one of its closures, or by registering another holder. */
  predicate Forgets(s: State, step: Step, t: Task) {
    match step
    case Register(r) => r.task == t && t in s.disposers
    case ReleaseTask(u) => u == t && t in s.disposers
    case Release(session) => session < |s.sessions| && s.sessions[session].task == t
    case _ => false
  }

  lemma StepReads(s: State, step: Step, t: Task)
    requires SessionsKnown(s) && Enabled(s, step)
    ensures ReadingOf(Next(s, step), t)
            == if Brings(s, step, t).Some? then Brings(s, step, t)
               else if Forgets(s, step, t) then None else ReadingOf(s, t)
  {
  }

  /** The step brought a reading of the task, and none since has brought another or released the task. */
  ghost predicate IsLatest(states: seq<State>, steps: seq<Step>, n: nat, t: Task, i: int)
    requires Chain(states, steps) && n <= |steps|
  {
    && 0 <= i < n && Brings(states[i], steps[i], t).Some?
    && forall j :: i < j < n ==> Brings(states[j], steps[j], t).None? && !Forgets(states[j], steps[j], t)
  }

  lemma {:induction false} ReadingIsTheLatest(states: seq<State>, steps: seq<Step>, n: nat, t: Task)
    requires Chain(states, steps) && n <= |steps|
    ensures ReadingOf(states[n], t).None? ==> forall i :: !IsLatest(states, steps, n, t, i)
    ensures ReadingOf(states[n], t).Some? ==>
      exists i :: IsLatest(states, steps, n, t, i) && Brings(states[i], steps[i], t) == ReadingOf(states[n], t)
    decreases n
  {
    hide Next, ReadingOf, Brings, Forgets, SessionsKnown, Enabled;
    if n == 0 {
      assert states[0] == EMPTY;
      EmptyReads(t);
    } else {
      var m := n - 1;
      ReadingIsTheLatest(states, steps, m, t);
      assert states[m + 1] == Next(states[m], steps[m]);
      StepReads(states[m], steps[m], t);
      if Brings(states[m], steps[m], t).Some? {
        assert IsLatest(states, steps, n, t, m);
      } else if Forgets(states[m], steps[m], t) {
        assert forall i :: !IsLatest(states, steps, n, t, i);
      } else {
        assert forall i :: IsLatest(states, steps, n, t, i) <==> IsLatest(states, steps, m, t, i);
      }
    }
  }

  lemma EmptyReads(t: Task)
    ensures ReadingOf(EMPTY, t).None?
  {
  }

  lemma LatestIsOne(states: seq<State>, steps: seq<Step>, n: nat, t: Task, i: int, j: int)
    requires Chain(states, steps) && n <= |steps|
    requires IsLatest(states, steps, n, t, i) && IsLatest(states, steps, n, t, j)
    ensures i == j
  {
  }

  /** A freeze is offered exactly the latest reading brought since the task was last released, and only
      while that one is no older than the bound. */
  lemma FreshIsTheLatest(states: seq<State>, steps: seq<Step>, n: nat, t: Task, now: int, changes: Changes)
    requires Chain(states, steps) && n <= |steps|
    ensures Fresh(states[n], t, now) == Some(changes)
            <==> exists i :: && IsLatest(states, steps, n, t, i)
                             && Brings(states[i], steps[i], t).value.changes == changes
                             && now - Brings(states[i], steps[i], t).value.at <= READING_FRESHNESS_MS
  {
    hide Brings, Forgets, Next;
    ReadingIsTheLatest(states, steps, n, t);
    if ReadingOf(states[n], t).Some? {
      var i :| IsLatest(states, steps, n, t, i) && Brings(states[i], steps[i], t) == ReadingOf(states[n], t);
      forall j | IsLatest(states, steps, n, t, j) ensures j == i {
        LatestIsOne(states, steps, n, t, i, j);
      }
    }
  }

  // ----- Which ask a heartbeat is told of

  function AskOf(s: State, t: Task): Option<Ask> {
    if t in s.asks then Some(s.asks[t]) else None
  }

  /** The step makes a new ask of the task: a holder is asked that is not being asked already. */
  function Opens(s: State, step: Step, t: Task): Option<AskId> {
    if step.Declare? && step.session < |s.sessions| && s.sessions[step.session].task == t && t !in s.asks
    then Some(AskId(s.sessions[step.session].lease, step.now)) else None
  }

  /** The step answers the task's ask, or lets go of the task. */
  predicate Closes(s: State, step: Step, t: Task) {
    (step.Settle? && step.task == t && t in s.asks && s.asks[t].id == step.id) || Forgets(s, step, t)
  }

  predicate Tells(step: Step, t: Task) {
    step.Deliver? && step.task == t
  }

  lemma StepAsks(s: State, step: Step, t: Task)
    requires SessionsKnown(s) && Enabled(s, step)
    ensures var before, after := AskOf(s, t), AskOf(Next(s, step), t);
            match Opens(s, step, t)
            case Some(id) =>
              before.None? && after.Some? && after.value.id == id && after.value.serial == s.serials && !after.value.delivered
            case None =>
              && (after.None? <==> before.None? || Closes(s, step, t))
              && (after.Some? ==>
                    && after.value.id == before.value.id && after.value.serial == before.value.serial
                    && after.value.delivered == (before.value.delivered || Tells(step, t)))
  {
  }

  /** The ask made by the step is still out: nothing since has answered it or let go of the task. */
  ghost predicate IsOut(states: seq<State>, steps: seq<Step>, n: nat, t: Task, i: int)
    requires Chain(states, steps) && n <= |steps|
  {
    0 <= i < n && Opens(states[i], steps[i], t).Some? && forall j :: i < j < n ==> !Closes(states[j], steps[j], t)
  }

  ghost predicate IsUntold(steps: seq<Step>, n: nat, t: Task, i: int)
    requires n <= |steps|
  {
    forall j :: i < j < n && 0 <= j ==> !Tells(steps[j], t)
  }

  lemma {:induction false} AsksAreThoseOut(states: seq<State>, steps: seq<Step>, n: nat, t: Task)
    requires Chain(states, steps) && n <= |steps|
    ensures AskOf(states[n], t).None? ==> forall i :: !IsOut(states, steps, n, t, i)
    ensures AskOf(states[n], t).Some? ==>
      exists i :: && IsOut(states, steps, n, t, i) && Opens(states[i], steps[i], t) == Some(AskOf(states[n], t).value.id)
                  && (AskOf(states[n], t).value.delivered <==> !IsUntold(steps, n, t, i))
    decreases n
  {
    hide Next, AskOf, Opens, Closes, Tells, SessionsKnown, Enabled;
    if n == 0 {
      NothingAsked(t);
    } else {
      var m := n - 1;
      AsksAreThoseOut(states, steps, m, t);
      assert states[m + 1] == Next(states[m], steps[m]);
      StepAsks(states[m], steps[m], t);
      if Opens(states[m], steps[m], t).Some? {
        assert IsOut(states, steps, n, t, m) && IsUntold(steps, n, t, m);
      } else if AskOf(states[n], t).None? {
        assert forall i :: IsOut(states, steps, n, t, i) <==>
          (i == m && Opens(states[m], steps[m], t).Some?) || (IsOut(states, steps, m, t, i) && !Closes(states[m], steps[m], t));
      } else {
        var i :| && IsOut(states, steps, m, t, i) && Opens(states[i], steps[i], t) == Some(AskOf(states[m], t).value.id)
                 && (AskOf(states[m], t).value.delivered <==> !IsUntold(steps, m, t, i));
        assert IsOut(states, steps, n, t, i);
        assert IsUntold(steps, n, t, i) <==> IsUntold(steps, m, t, i) && !Tells(steps[m], t);
      }
    }
  }

  lemma NothingAsked(t: Task)
    ensures AskOf(EMPTY, t).None?
  {
  }

  lemma OneAskIsOut(states: seq<State>, steps: seq<Step>, n: nat, t: Task, i: int, j: int)
    requires Chain(states, steps) && n <= |steps|
    requires IsOut(states, steps, n, t, i) && IsOut(states, steps, n, t, j)
    ensures i == j
  {
    if i < j {
      AskStaysOut(states, steps, j, t, i);
    } else if j < i {
      AskStaysOut(states, steps, i, t, j);
    }
  }

  lemma {:induction false} AskStaysOut(states: seq<State>, steps: seq<Step>, n: nat, t: Task, i: int)
    requires Chain(states, steps) && n <= |steps| && IsOut(states, steps, n, t, i)
    ensures AskOf(states[n], t).Some? && Opens(states[i], steps[i], t) == Some(AskOf(states[n], t).value.id)
    decreases n
  {
    hide Next, AskOf, Opens, Closes, SessionsKnown, Enabled;
    var m := n - 1;
    assert states[m + 1] == Next(states[m], steps[m]);
    StepAsks(states[m], steps[m], t);
    if i < m {
      assert IsOut(states, steps, m, t, i);
      AskStaysOut(states, steps, m, t, i);
      assert Opens(states[m], steps[m], t).None?;
    }
  }

  /** A heartbeat is told of an ask exactly when one is out and none before it has been told: the first
      after the ask is made, and no other; and it is told that ask's own id. */
  lemma HeartbeatIsToldIff(states: seq<State>, steps: seq<Step>, n: nat, t: Task, id: AskId)
    requires Chain(states, steps) && n <= |steps|
    ensures Delivered(states[n], t).0 == Some(id)
            <==> exists i :: IsOut(states, steps, n, t, i) && Opens(states[i], steps[i], t) == Some(id) && IsUntold(steps, n, t, i)
  {
    hide Next, IsUntold, Opens;
    AsksAreThoseOut(states, steps, n, t);
    if AskOf(states[n], t).Some? {
      var i :| && IsOut(states, steps, n, t, i) && Opens(states[i], steps[i], t) == Some(AskOf(states[n], t).value.id)
               && (AskOf(states[n], t).value.delivered <==> !IsUntold(steps, n, t, i));
      forall j | IsOut(states, steps, n, t, j) ensures j == i {
        OneAskIsOut(states, steps, n, t, i, j);
      }
    }
  }

  /** The id a heartbeat was told answers its ask for as long as that is out: whenever it is settled, those
      who joined that ask, and nobody else, are told the declaration it brings. */
  lemma ToldIdSettlesItsAsk(states: seq<State>, steps: seq<Step>, n: nat, m: nat, t: Task, id: AskId,
                            declaration: Option<Declaration>, changes: Option<Changes>, now: int)
    requires Chain(states, steps) && n <= m <= |steps| && Delivered(states[n], t).0 == Some(id)
    requires forall j :: n <= j < m ==> !Closes(states[j], steps[j], t)
    ensures t in states[n].asks
    ensures var (taken, s') := Settled(states[m], t, id, declaration, changes, now);
            && taken && |s'.resolved| >= |states[m].resolved| && s'.resolved[..|states[m].resolved|] == states[m].resolved
            && (forall k :: |states[m].resolved| <= k < |s'.resolved| ==> s'.resolved[k].declaration == declaration)
            && (forall w :: 0 <= w < |states[m].joined| ==>
                  (IsResolved(s'.resolved, w)
                   <==> IsResolved(states[m].resolved, w) || states[m].joined[w] == states[n].asks[t].serial))
  {
    AskIsKept(states, steps, n, m, t);
    RunKeepsInv(states, steps, m);
    SettleAnswersItsAsk(states[m], t, id, declaration, changes, now);
  }

  lemma {:induction false} AskIsKept(states: seq<State>, steps: seq<Step>, n: nat, m: nat, t: Task)
    requires Chain(states, steps) && n <= m <= |steps| && t in states[n].asks
    requires forall j :: n <= j < m ==> !Closes(states[j], steps[j], t)
    ensures t in states[m].asks && states[m].asks[t].id == states[n].asks[t].id
    ensures states[m].asks[t].serial == states[n].asks[t].serial
    decreases m
  {
    hide Next, Closes, SessionsKnown, Enabled;
    if n < m {
      AskIsKept(states, steps, n, m - 1, t);
      assert states[m - 1 + 1] == Next(states[m - 1], steps[m - 1]);
      StepAsks(states[m - 1], steps[m - 1], t);
    }
  }

  /** Letting go of a task tells everyone who waits on it that no answer is coming. */
  lemma ReleaseAnswersNobody(s: State, session: Session)
    requires Inv(s) && session < |s.sessions|
    ensures var t, s' := s.sessions[session].task, Released(s, session);
            && Clear(s', t) && |s'.resolved| >= |s.resolved| && s'.resolved[..|s.resolved|] == s.resolved
            && (forall k :: |s.resolved| <= k < |s'.resolved| ==> s'.resolved[k].declaration.None?)
            && (forall w :: 0 <= w < |s.joined| ==>
                  (IsResolved(s'.resolved, w)
                   <==> IsResolved(s.resolved, w) || (t in s.asks && s.joined[w] == s.asks[t].serial)))
            && (t in s'.holders <==> t in s.holders && s.holders[t] != session)
            && forall u :: u != t ==>
                 && (u in s'.asks <==> u in s.asks) && (u in s'.asks ==> s'.asks[u] == s.asks[u])
                 && (u in s'.holders <==> u in s.holders) && (u in s'.holders ==> s'.holders[u] == s.holders[u])
  {
    var t := s.sessions[session].task;
    if t in s.asks {
      assert AskOk(s, s.asks[t]);
      var gone := s.(holders := if t in s.holders && s.holders[t] == session then s.holders - {t} else s.holders,
                     readings := s.readings - {t},
                     disposers := s.disposers - {t});
      forall w | 0 <= w < |s.joined|
        ensures IsResolved(Released(s, session).resolved, w) <==> IsResolved(s.resolved, w) || s.joined[w] == s.asks[t].serial
      {
        AnswerResolves(gone, t, None, w);
        if s.joined[w] == s.asks[t].serial {
          WaiterOfAsk(s, t, w);
        }
      }
    }
  }

  // ----- The module's own maps

  class Registry {
    var holders: map<Task, Session>
    var readings: map<Task, Reading>
    var asks: map<Task, Ask>
    var disposers: map<Task, Session>
    var sessions: seq<Registration>
    var waiters: nat
    var serials: nat
    var resolved: seq<Resolution>
    ghost var joined: seq<Serial>
    ghost var delivered: seq<Serial>

    ghost predicate Valid()
      reads this
    {
      waiters == |joined| && SessionsKnown(Now())
    }

    ghost function Now(): State
      reads this
    {
      State(holders, readings, asks, disposers, sessions, joined, serials, resolved, delivered)
    }

    constructor ()
      ensures Valid() && Now() == EMPTY
    {
      holders, readings, asks, disposers := map[], map[], map[], map[];
      sessions, waiters, serials, resolved, joined, delivered := [], 0, 0, [], [], [];
    }

    /** The chain of `settle` closures, called from the first that waited to the last. */
    method ResolveAll(ask: Ask, declaration: Option<Declaration>)
      modifies this`resolved
      ensures resolved == old(resolved) + Resolutions(ask.waiters, declaration)
    {
      for i := 0 to |ask.waiters|
        invariant resolved == old(resolved) + Resolutions(ask.waiters, declaration)[..i]
      {
        resolved := resolved + [Resolution(ask.waiters[i], declaration)];
      }
    }

    method Remember(t: Task, changes: Changes, now: int)
      requires Valid()
      modifies this`readings
      ensures Valid() && Now() == Remembered(old(Now()), t, changes, now)
    {
      readings := readings[t := Reading(changes, now)];
    }

    method FreshWorkingChanges(t: Task, now: int) returns (r: Option<Changes>)
      ensures r == Fresh(Now(), t, now)
    {
      if t !in readings || now - readings[t].at > READING_FRESHNESS_MS {
        return None;
      }
      return Some(readings[t].changes);
    }

    method AskToDeliver(t: Task) returns (id: Option<AskId>)
      requires Valid()
      modifies this`asks, this`delivered
      ensures Valid() && (id, Now()) == Delivered(old(Now()), t)
    {
      if t !in asks || asks[t].delivered {
        return None;
      }
      var ask := asks[t];
      asks := asks[t := ask.(delivered := true)];
      delivered := delivered + [ask.serial];
      return Some(ask.id);
    }

    /** Closes a task's ask, if one is out. */
    method CloseAsk(t: Task, declaration: Option<Declaration>)
      requires Valid()
      modifies this`asks, this`resolved
      ensures Valid() && Now() == if t in old(asks) then Answer(old(Now()), t, declaration) else old(Now())
    {
      if t in asks {
        var ask := asks[t];
        asks := asks - {t};
        ResolveAll(ask, declaration);
      }
    }

    method SettleDeclaration(t: Task, id: AskId, declaration: Option<Declaration>, changes: Option<Changes>, now: int)
      returns (taken: bool)
      requires Valid()
      modifies this`asks, this`readings, this`resolved
      ensures Valid() && (taken, Now()) == Settled(old(Now()), t, id, declaration, changes, now)
    {
      if t !in asks || asks[t].id != id {
        return false;
      }
      if changes.Some? {
        Remember(t, changes.value, now);
      }
      CloseAsk(t, declaration);
      return true;
    }

    method Declare(session: Session, now: int) returns (waiter: Waiter)
      requires Valid() && session < |sessions|
      modifies this`asks, this`waiters, this`serials, this`joined
      ensures Valid() && waiter == |old(joined)| && Now() == Declared(old(Now()), session, now)
    {
      var r := sessions[session];
      waiter := waiters;
      waiters := waiters + 1;
      if r.task in asks {
        var existing := asks[r.task];
        joined := joined + [existing.serial];
        asks := asks[r.task := existing.(waiters := existing.waiters + [waiter])];
        return;
      }
      joined := joined + [serials];
      asks := asks[r.task := Ask(serials, AskId(r.lease, now), false, [waiter])];
      serials := serials + 1;
    }

    method Release(session: Session)
      requires Valid() && session < |sessions|
      modifies this`holders, this`readings, this`asks, this`disposers, this`resolved
      ensures Valid() && Now() == Released(old(Now()), session)
    {
      var t := sessions[session].task;
      if t in holders && holders[t] == session {
        holders := holders - {t};
      }
      readings := readings - {t};
      CloseAsk(t, None);
      disposers := disposers - {t};
    }

    method RegisterRemoteHolder(r: Registration) returns (session: Session)
      requires Valid()
      modifies this
      ensures Valid() && session == |old(sessions)| && Now() == Registered(old(Now()), r)
    {
      session := |sessions|;
      sessions := sessions + [r];
      holders := holders[r.task := session];
      if r.task in disposers {
        Release(disposers[r.task]);
      }
      disposers := disposers[r.task := session];
    }

    method ReleaseRemoteHolder(t: Task)
      requires Valid()
      modifies this`holders, this`readings, this`asks, this`disposers, this`resolved
      ensures Valid() && Now() == ReleasedTask(old(Now()), t)
    {
      if t in disposers {
        Release(disposers[t]);
      }
    }
  }
}

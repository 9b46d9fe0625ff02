/** A run of PoolMachine in which getMuxStream calls take turns and yet open a session too many: a stream is closed
    on a session that the search has passed, which SessionEconomy rules out and atomic calls would. */
module EconomyRun {
  import opened Prelude
  import opened PoolMachine
  import opened SessionEconomy

  /** The run leads to the state e with calls taking turns, no failure of OpenStream and never more than `peak`
      streams. */
  ghost predicate Leads(s: State, ls: seq<Label>, e: State, peak: nat) {
    Feasible(s, ls) && InTurn(s, ls) && OpensHonoured(ls) && Exec(s, ls) == e && Peak(s, ls) <= peak
  }

  lemma {:induction false} Extend(s: State, ls: seq<Label>, l: Label, e: State, peak: nat)
    requires Leads(s, ls, e, peak) && Enabled(e, l) && TurnStep(e, l) && !l.OpenFails?
    requires |Streams(Step(e, l))| <= peak
    ensures Leads(s, ls + [l], Step(e, l), peak)
    decreases |ls|
  {
    if ls == [] {
      assert [l][1..] == [] && ls + [l] == [l];
      assert Peak(Step(s, l), []) == |Streams(Step(s, l))|;
    } else {
      assert (ls + [l])[1..] == ls[1..] + [l];
      assert OpensHonoured(ls[1..]);
      Extend(Step(s, ls[0]), ls[1..], l, e, peak);
    }
  }

  lemma {:induction false} PeakOfEnd(s: State, ls: seq<Label>)
    requires Feasible(s, ls)
    ensures |Streams(Exec(s, ls))| <= Peak(s, ls)
    decreases |ls|
  {
    if ls != [] {
      PeakOfEnd(Step(s, ls[0]), ls[1..]);
    }
  }

  ghost predicate Reaches(s: State, e: State, peak: nat) {
    exists ls :: Leads(s, ls, e, peak)
  }

  /** The streams after a step are those before and the one that it opens. */
  lemma StepStreams(e: State, l: Label)
    requires Enabled(e, l)
    ensures Streams(Step(e, l)) <= Streams(e) + if l.Go? && e.calls[l.t].pc.Opening? then {l.t} else {}
  {
    forall x | x in Streams(Step(e, l))
      ensures x in Streams(e) || (l.Go? && e.calls[l.t].pc.Opening? && x == l.t)
    {
      var j :| j in Step(e, l).sessions && x in Step(e, l).sessions[j].streams;
      if j in e.sessions && x in e.sessions[j].streams { assert x in StreamsOf(e)[j]; }
    }
  }

  /** Takes one more step, which opens no stream or keeps to the peak. */
  lemma Then(s: State, e: State, l: Label, peak: nat)
    requires Reaches(s, e, peak) && Enabled(e, l) && TurnStep(e, l) && !l.OpenFails?
    requires l.Go? && e.calls[l.t].pc.Opening? ==> |Streams(e) + {l.t}| <= peak
    ensures Reaches(s, Step(e, l), peak)
  {
    var ls :| Leads(s, ls, e, peak);
    PeakOfEnd(s, ls);
    StepStreams(e, l);
    SubsetCardinality(Streams(Step(e, l)),
                      Streams(e) + if l.Go? && e.calls[l.t].pc.Opening? then {l.t} else {});
    Extend(s, ls, l, e, peak);
  }

  // ---- calls that run alone --------------------------------------------------------------------------

  /** The state with call t at pc on session sid, which is x. */
  function Placed(e: State, t: nat, pc: Pc, sid: nat, stream: nat, x: Session): State {
    e.(calls := e.calls[t := Call(pc, sid, stream)], sessions := e.sessions[sid := x])
  }

  /** The next step of call t, which is at pc on session sid. */
  lemma Goes(s: State, e: State, t: nat, pc: Pc, sid: nat, k: nat, x: Session, peak: nat)
    requires Reaches(s, Placed(e, t, pc, sid, k, x), peak) && Enabled(Placed(e, t, pc, sid, k, x), Go(t))
    requires !pc.Storing? && !pc.Deleting?
    requires pc.Opening? ==> |Streams(Placed(e, t, pc, sid, k, x)) + {t}| <= peak
    ensures var (pc', x') := Advance(pc, x, t, k, e.limit); Reaches(s, Placed(e, t, pc', sid, k, x'), peak)
  {
    Then(s, Placed(e, t, pc, sid, k, x), Go(t), peak);
    var (pc', x') := Advance(pc, x, t, k, e.limit);
    assert Step(Placed(e, t, pc, sid, k, x), Go(t)) == Placed(e, t, pc', sid, k, x');
  }

  /** The streams of the rest, whatever those of session sid. */
  lemma StreamsUnder(e: State, t: nat, pc: Pc, sid: nat, x: Session, rest: set<nat>)
    requires forall j :: j in e.sessions && j != sid ==> e.sessions[j].streams <= rest
    ensures |Streams(Placed(e, t, pc, sid, 0, x)) + {t}| <= |rest + x.streams + {t}|
  {
    var e' := Placed(e, t, pc, sid, 0, x);
    assert Streams(e') <= rest + x.streams;
    SubsetCardinality(Streams(e') + {t}, rest + x.streams + {t});
  }

  /** Call t runs openStream and is served; the other sessions have the streams `rest` at most. */
  lemma Opens(s: State, e: State, t: nat, o: Origin, sid: nat, x: Session, rest: set<nat>, peak: nat)
    requires Reaches(s, Placed(e, t, Locking(o), sid, 0, x), peak)
    requires !x.closed && x.holder.None? && |x.streams| < e.limit
    requires forall j :: j in e.sessions && j != sid ==> e.sessions[j].streams <= rest
    requires |rest + x.streams + {t}| <= peak
    ensures Reaches(s, Placed(e, t, Got, sid, 0, x.(streams := x.streams + {t})), peak)
  {
    var held := x.(holder := Some(t));
    Goes(s, e, t, Locking(o), sid, 0, x, peak);
    Goes(s, e, t, Checking(o), sid, 0, held, peak);
    StreamsUnder(e, t, Opening(o), sid, held, rest);
    Goes(s, e, t, Opening(o), sid, 0, held, peak);
    Goes(s, e, t, Leaving(o, Opened), sid, 0, held.(streams := x.streams + {t}), peak);
  }

  /** Call t finds the session full and goes on ranging. */
  lemma Refuses(s: State, e: State, t: nat, seen: set<nat>, sid: nat, x: Session, peak: nat)
    requires Reaches(s, Placed(e, t, Locking(Pooled(seen)), sid, 0, x), peak)
    requires x.holder.None? && |x.streams| >= e.limit
    ensures Reaches(s, Placed(e, t, Ranging(seen), sid, 0, x), peak)
  {
    var held := x.(holder := Some(t));
    Goes(s, e, t, Locking(Pooled(seen)), sid, 0, x, peak);
    Goes(s, e, t, Checking(Pooled(seen)), sid, 0, held, peak);
    Goes(s, e, t, Leaving(Pooled(seen), TooMany), sid, 0, held, peak);
  }

  /** A call starts and meets session sid. */
  lemma Visits(s: State, e: State, t: nat, sid: nat, peak: nat)
    requires Reaches(s, e, peak) && NoGet(e) && t !in e.calls
    requires sid in e.sessions && e.sessions[sid].stored && !e.sessions[sid].closed
    ensures Reaches(s, Placed(e, t, Locking(Pooled({sid})), sid, 0, e.sessions[sid]), peak)
  {
    var x := e.sessions[sid];
    var e1 := e.(calls := e.calls[t := Call(Ranging({}), 0, 0)]);
    Then(s, e, StartGet(t), peak);
    assert Step(e, StartGet(t)) == e1;
    Then(s, e1, Visit(t, sid), peak);
    assert {} + {sid} == {sid} && e.sessions[sid := x] == e.sessions;
    assert Step(e1, Visit(t, sid)) == Placed(e, t, Probing({sid}), sid, 0, x);
    Goes(s, e, t, Probing({sid}), sid, 0, x, peak);
  }

  /** Call t runs the library's Close of stream k of session x. */
  lemma Drops(s: State, e: State, t: nat, k: nat, sid: nat, x: Session, peak: nat)
    requires Reaches(s, Placed(e, t, Dropping, sid, k, x), peak) && t !in e.calls && !Begun(e, k)
    ensures Reaches(s, Placed(e, t, IdleLocking, sid, k, x.(streams := x.streams - {k})), peak)
  {
    assert !Begun(Placed(e, t, Dropping, sid, k, x), k);
    Goes(s, e, t, Dropping, sid, k, x, peak);
    Goes(s, e, t, Removing, sid, k, x, peak);
  }

  /** Call t closes the stream of call k, which is not the last of its session x. */
  lemma Closes(s: State, e: State, t: nat, k: nat, sid: nat, x: Session, peak: nat)
    requires Reaches(s, e, peak) && k in e.calls && e.calls[k] == Call(Got, sid, 0) && t !in e.calls
    requires sid in e.sessions && e.sessions[sid] == x && x.holder.None? && x.streams - {k} != {} && !Begun(e, k)
    ensures Reaches(s, Placed(e, t, Closed, sid, k, x.(streams := x.streams - {k})), peak)
  {
    var less := x.(streams := x.streams - {k});
    var held := less.(holder := Some(t));
    Then(s, e, StartClose(t, k), peak);
    assert Step(e, StartClose(t, k)) == Placed(e, t, Dropping, sid, k, x);
    Drops(s, e, t, k, sid, x, peak);
    Goes(s, e, t, IdleLocking, sid, k, less, peak);
    Goes(s, e, t, IdleChecking, sid, k, held, peak);
    Goes(s, e, t, IdleLeaving, sid, k, held, peak);
  }

  /** The dialed session is stored. */
  lemma Stores(s: State, e: State, t: nat, sid: nat, peak: nat)
    requires Reaches(s, Placed(e, t, Storing, sid, 0, NEW_SESSION), peak)
    ensures var x := NEW_SESSION.(stored := true);
            Reaches(s, Placed(e.(pool := e.pool + {sid}), t, Locking(Fresh), sid, 0, x), peak)
  {
    var e', x := Placed(e, t, Storing, sid, 0, NEW_SESSION), NEW_SESSION.(stored := true);
    Then(s, e', Go(t), peak);
    assert Step(e', Go(t)) == Placed(e.(pool := e.pool + {sid}), t, Locking(Fresh), sid, 0, x);
  }

  /** Call t has seen the whole pool, dials session sid and stores it. */
  lemma Dials(s: State, e: State, t: nat, sid: nat, peak: nat)
    requires Reaches(s, e, peak) && t in e.calls && e.calls[t].pc.Ranging?
    requires e.pool <= e.calls[t].pc.visited && sid !in e.sessions
    ensures var x := NEW_SESSION.(stored := true);
            Reaches(s, Placed(e.(pool := e.pool + {sid}), t, Locking(Fresh), sid, 0, x), peak)
  {
    var e' := Goto(e, t, Dialing);
    Then(s, e, EndRange(t), peak);
    assert Step(e, EndRange(t)) == e';
    Then(s, e', DialOk(t, sid), peak);
    assert Step(e', DialOk(t, sid)) == Placed(e, t, Storing, sid, 0, NEW_SESSION);
    Stores(s, e, t, sid, peak);
  }

  // ---- the run ---------------------------------------------------------------------------------------

  const FULL := Session(false, {1} + {2}, None, true)
  const LESS := Session(false, {1} + {2} - {1}, None, true)

  /** Call 1 has opened session 7. */
  const OPENED := State(2, map[7 := Session(false, {} + {1}, None, true)], {} + {7}, map[1 := Call(Got, 7, 0)])

  /** Call 2 has filled it. */
  const FILLED := State(2, map[7 := FULL], {7}, map[1 := Call(Got, 7, 0), 2 := Call(Got, 7, 0)])

  /** Call 3 has found it full. */
  const REFUSED := State(2, map[7 := FULL], {7},
                         map[1 := Call(Got, 7, 0), 2 := Call(Got, 7, 0), 3 := Call(Ranging({7}), 7, 0)])

  /** Call 4 has then closed stream 1. */
  const ROOM_LOST := State(2, map[7 := LESS], {7},
                           map[1 := Call(Got, 7, 0), 2 := Call(Got, 7, 0), 3 := Call(Ranging({7}), 7, 0),
                               4 := Call(Closed, 7, 1)])

  lemma RunToOpened(s: State)
    requires Init(s) && s.limit == 2
    ensures Reaches(s, OPENED, 2)
  {
    var e := State(2, map[], {}, map[1 := Call(Ranging({}), 0, 0)]);
    var x := NEW_SESSION.(stored := true);
    assert Leads(s, [], s, 2) by { assert Streams(s) == {}; }
    Then(s, s, StartGet(1), 2);
    assert Step(s, StartGet(1)) == e;
    Dials(s, e, 1, 7, 2);
    Opens(s, e.(pool := {} + {7}), 1, Fresh, 7, x, {}, 2);
    assert Placed(e.(pool := {} + {7}), 1, Got, 7, 0, x.(streams := {} + {1})) == OPENED;
  }

  lemma RunToFilled(s: State)
    requires Init(s) && s.limit == 2
    ensures Reaches(s, FILLED, 2)
  {
    RunToOpened(s);
    Visits(s, OPENED, 2, 7, 2);
    Opens(s, OPENED, 2, Pooled({7}), 7, OPENED.sessions[7], {}, 2);
    assert Placed(OPENED, 2, Got, 7, 0, FULL) == FILLED;
  }

  lemma RunToRefused(s: State)
    requires Init(s) && s.limit == 2
    ensures Reaches(s, REFUSED, 2)
  {
    RunToFilled(s);
    Visits(s, FILLED, 3, 7, 2);
    Refuses(s, FILLED, 3, {7}, 7, FULL, 2);
    assert Placed(FILLED, 3, Ranging({7}), 7, 0, FULL) == REFUSED;
  }

  lemma RunToRoomLost(s: State)
    requires Init(s) && s.limit == 2
    ensures Reaches(s, ROOM_LOST, 2)
  {
    RunToRefused(s);
    Closes(s, REFUSED, 4, 1, 7, FULL, 2);
    assert Placed(REFUSED, 4, Closed, 7, 1, LESS) == ROOM_LOST;
  }

  /** Call 3 has dialed session 8 all the same. */
  const BOTH_OPEN := Placed(ROOM_LOST.(pool := {7} + {8}), 3, Got, 8, 0, Session(false, {} + {3}, None, true))

  lemma RunToBothOpen(s: State)
    requires Init(s) && s.limit == 2
    ensures Reaches(s, BOTH_OPEN, 2)
  {
    RunToRoomLost(s);
    Dials(s, ROOM_LOST, 3, 8, 2);
    Opens(s, ROOM_LOST.(pool := {7} + {8}), 3, Fresh, 8, NEW_SESSION.(stored := true), {2}, 2);
  }

  /** Calls that only take turns can open more sessions than their streams ever needed: with a limit of two and
      never more than two streams open, two sessions are left open with every call at rest.  A search found the
      first session full, and a stream of it was closed before the call dialed. */
  lemma AtomicityMatters(s: State) returns (ls: seq<Label>)
    requires Init(s) && s.limit == 2
    ensures Feasible(s, ls) && InTurn(s, ls) && OpensHonoured(ls)
    ensures forall t :: t in Exec(s, ls).calls ==> AtRest(Exec(s, ls).calls[t].pc)
    ensures |Kept(Exec(s, ls))| == 2 && Needed(Peak(s, ls), s.limit) <= 1
  {
    RunToBothOpen(s);
    ls :| Leads(s, ls, BOTH_OPEN, 2);
    assert Kept(BOTH_OPEN) == {7, 8};
    NeededMonotone(Peak(s, ls), 2, 2);
  }
}

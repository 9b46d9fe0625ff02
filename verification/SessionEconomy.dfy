/** How many sessions the client keeps open when getMuxStream calls take turns and what a call has passed stays
    full, as when calls are atomic.

    The runs are those of PoolMachine in which no other getMuxStream call starts while one is under way, and no
    stream is closed in the meantime on a session that its search has passed.  Sessions may die, other streams
    may be closed and the rest of a close, from its wait for the mutex on, may go on at any time.  EconomyRun
    shows that taking turns alone is not enough. */
module SessionEconomy {
  import opened Prelude
  import opened PoolMachine

  /** The number of sessions of `limit` streams that hold `streams` streams, rounded up. */
  function Needed(streams: nat, limit: nat): nat
    requires limit >= 1
  {
    if streams == 0 then 0 else 1 + Needed(if streams <= limit then 0 else streams - limit, limit)
  }

  /** The quotient rounded up. */
  lemma {:induction false} NeededIsCeiling(streams: nat, limit: nat)
    requires limit >= 1
    ensures limit * Needed(streams, limit) >= streams
    ensures streams > 0 ==> limit * (Needed(streams, limit) - 1) < streams
  {
    if streams > limit {
      var n := Needed(streams - limit, limit);
      NeededIsCeiling(streams - limit, limit);
      Multiply(limit, n, n + 1);
      Multiply(limit, n - 1, n);
    } else if streams > 0 {
      assert Needed(0, limit) == 0;
      Multiply(limit, 0, 1);
    }
  }

  lemma {:induction false} NeededMonotone(a: nat, b: nat, limit: nat)
    requires limit >= 1 && a <= b
    ensures Needed(a, limit) <= Needed(b, limit)
  {
    if a > 0 {
      NeededMonotone(if a <= limit then 0 else a - limit, if b <= limit then 0 else b - limit, limit);
    }
  }

  lemma {:induction false} NeededOneMore(n: nat, streams: nat, limit: nat)
    requires limit >= 1 && streams >= limit * n + 1
    ensures Needed(streams, limit) >= n + 1
  {
    if n > 0 {
      Multiply(limit, n - 1, n);
      NeededOneMore(n - 1, streams - limit, limit);
    }
  }

  // ---- calls that take turns --------------------------------------------------------------------------

  /** A getMuxStream call is under way. */
  predicate Getting(pc: Pc) {
    !AtRest(pc) && !IsClosing(pc)
  }

  ghost predicate NoGet(s: State) {
    forall t :: t in s.calls ==> !Getting(s.calls[t].pc)
  }

  /** Calls take turns: none starts while another is under way, a search without success has seen the whole
      pool, and OpenStream does not fail on a session just dialed and still open. */
  ghost predicate TurnStep(s: State, l: Label)
    requires Enabled(s, l)
  {
    match l
    case StartGet(_) => NoGet(s)
    case EndRange(t) => s.pool <= s.calls[t].pc.visited
    case OpenFails(t) => s.calls[t].pc.origin.Pooled? || s.sessions[s.calls[t].sid].closed
    case _ => true
  }

  ghost predicate InTurn(s: State, ls: seq<Label>)
    requires Feasible(s, ls)
    decreases |ls|
  {
    ls == [] || (TurnStep(s, ls[0]) && InTurn(Step(s, ls[0]), ls[1..]))
  }

  ghost function Streams(s: State): set<nat> {
    Members(StreamsOf(s), s.sessions.Keys)
  }

  function Max(a: nat, b: nat): nat {
    if a < b then b else a
  }

  /** The largest number of streams open at the same time in the run. */
  ghost function Peak(s: State, ls: seq<Label>): nat
    requires Feasible(s, ls)
    decreases |ls|
  {
    Max(|Streams(s)|, if ls == [] then 0 else Peak(Step(s, ls[0]), ls[1..]))
  }

  /** The open sessions of the pool. */
  ghost function Kept(s: State): set<nat> {
    OpenSessions(s) * s.pool
  }

  // ---- the invariant ---------------------------------------------------------------------------------

  ghost predicate OneGet(s: State) {
    forall t, u :: t in s.calls && u in s.calls && Getting(s.calls[t].pc) && Getting(s.calls[u].pc) ==> t == u
  }

  /** What openStream's caller has searched before. */
  function Searched(s: State, o: Origin): set<nat> {
    if o.Fresh? then s.pool else o.visited
  }

  /** The sessions that call c has searched in vain. */
  function Passed(s: State, c: Call): set<nat> {
    match c.pc
    case Ranging(seen) => seen
    case Probing(seen) => seen - {c.sid}
    case Deleting(seen) => seen - {c.sid}
    case Locking(o) => Searched(s, o) - {c.sid}
    case Checking(o) => Searched(s, o) - {c.sid}
    case Opening(o) => Searched(s, o) - {c.sid}
    case Leaving(o, v) =>
      if o.Fresh? || v.Opened? then {} else if v.TooMany? then o.visited else o.visited - {c.sid}
    case Dialing => s.pool
    case Storing => s.pool
    case _ => {}
  }

  ghost predicate AllFull(s: State, sids: set<nat>) {
    forall m :: m in sids && m in Kept(s) ==> |s.sessions[m].streams| >= s.limit
  }

  /** Whatever a call has passed and is still open in the pool is full. */
  ghost predicate PassedFull(s: State) {
    forall t :: t in s.calls ==> AllFull(s, Passed(s, s.calls[t]))
  }

  /** A stream is taken off an open, pooled session that a call under way has passed. */
  ghost predicate MakesRoom(s: State, l: Label) {
    && l.Go? && l.t in s.calls && s.calls[l.t].pc.Removing?
    && var sid := s.calls[l.t].sid;
    && sid in Kept(s) && s.calls[l.t].stream in s.sessions[sid].streams
    && exists t :: t in s.calls && sid in Passed(s, s.calls[t])
  }

  /** The call has stored the session it dialed and not opened its stream yet. */
  predicate Awaiting(pc: Pc) {
    (pc.Locking? || pc.Checking? || pc.Opening?) && pc.origin.Fresh?
  }

  /** A session just dialed has no stream before its own call opens one, and is pooled once stored. */
  ghost predicate FreshInv(s: State, c: Call) {
    && (c.pc.Storing? || Awaiting(c.pc) ==> c.sid in s.sessions && s.sessions[c.sid].streams == {})
    && (c.pc.Storing? ==> c.sid !in s.pool)
    && (c.pc.Leaving? && c.pc.origin.Fresh? ==>
          !c.pc.v.TooMany? && (c.pc.v.Failed? ==> c.sid !in OpenSessions(s)))
  }

  /** The bound, without the session that waits for its first stream. */
  ghost predicate BoundInv(s: State, peak: nat)
    requires s.limit >= 1
  {
    && (forall t :: t in s.calls && Awaiting(s.calls[t].pc) ==>
          |Kept(s) - {s.calls[t].sid}| <= Needed(peak, s.limit))
    && ((forall t :: t in s.calls ==> !Awaiting(s.calls[t].pc)) ==> |Kept(s)| <= Needed(peak, s.limit))
  }

  ghost predicate TurnInv(s: State) {
    && Inv(s) && s.pool <= s.sessions.Keys && OneGet(s)
    && forall t :: t in s.calls ==> FreshInv(s, s.calls[t])
  }

  lemma StepOneGet(s: State, l: Label)
    requires OneGet(s) && Enabled(s, l) && TurnStep(s, l)
    ensures OneGet(Step(s, l))
  {
    var s' := Step(s, l);
    forall t, u | t in s'.calls && u in s'.calls && Getting(s'.calls[t].pc) && Getting(s'.calls[u].pc)
      ensures t == u
    {
      StepGetting(s, l, t);
      StepGetting(s, l, u);
    }
  }

  lemma StepGetting(s: State, l: Label, t: nat)
    requires Enabled(s, l) && t in Step(s, l).calls && Getting(Step(s, l).calls[t].pc)
    ensures l == StartGet(t) || (t in s.calls && Getting(s.calls[t].pc))
  {
  }

  lemma StepIdle(s: State, l: Label, t: nat)
    requires Enabled(s, l) && t in Step(s, l).calls && (t in s.calls ==> !Getting(s.calls[t].pc))
    ensures !Getting(Step(s, l).calls[t].pc) || Step(s, l).calls[t].pc == Ranging({})
  {
  }

  lemma StepPool(s: State, l: Label)
    requires Enabled(s, l) && s.pool <= s.sessions.Keys
    ensures Step(s, l).pool <= Step(s, l).sessions.Keys
  {
  }

  /** While call t is under way the steps of others do not touch the pool, add no stream, and take none off a
      session that stays open and that the call has passed, unless they make room. */
  lemma StepOfOthers(s: State, l: Label, t: nat)
    requires OneGet(s) && Enabled(s, l) && TurnStep(s, l) && OfOthers(l, t)
    requires t in s.calls && Getting(s.calls[t].pc)
    ensures Step(s, l).calls[t] == s.calls[t] && t in Step(s, l).calls && Step(s, l).pool == s.pool
    ensures forall m :: m in OpenSessions(Step(s, l)) ==>
              && m in OpenSessions(s) && Step(s, l).sessions[m].streams <= s.sessions[m].streams
              && (m in Passed(s, s.calls[t]) && m in s.pool && !MakesRoom(s, l) ==>
                    Step(s, l).sessions[m].streams == s.sessions[m].streams)
  {
    if !l.StartClose? && !l.Die? {
      assert l.t in s.calls && !Getting(s.calls[l.t].pc);
    }
  }

  /** A step of call t takes no stream off a session and adds to what the call has passed full sessions only. */
  lemma StepOwnPassed(s: State, l: Label, t: nat, m: nat)
    requires Enabled(s, l) && TurnStep(s, l) && !OfOthers(l, t)
    requires t in s.calls && Getting(s.calls[t].pc) && CallInv(s, t) && s.pool <= s.sessions.Keys
    requires m in Passed(Step(s, l), Step(s, l).calls[t]) && m in Kept(Step(s, l))
    ensures m in OpenSessions(s) && s.sessions[m].streams <= Step(s, l).sessions[m].streams
    ensures |s.sessions[m].streams| >= s.limit || (m in Passed(s, s.calls[t]) && m in s.pool)
  {
  }

  lemma StepOthersFull(s: State, l: Label, t: nat)
    requires OneGet(s) && Enabled(s, l) && TurnStep(s, l) && OfOthers(l, t) && !MakesRoom(s, l)
    requires t in s.calls && Getting(s.calls[t].pc) && AllFull(s, Passed(s, s.calls[t]))
    ensures t in Step(s, l).calls && AllFull(Step(s, l), Passed(Step(s, l), Step(s, l).calls[t]))
  {
    StepOfOthers(s, l, t);
  }

  lemma StepOwnFull(s: State, l: Label, t: nat)
    requires Enabled(s, l) && TurnStep(s, l) && !OfOthers(l, t) && s.pool <= s.sessions.Keys
    requires t in s.calls && Getting(s.calls[t].pc) && CallInv(s, t) && AllFull(s, Passed(s, s.calls[t]))
    ensures t in Step(s, l).calls && AllFull(Step(s, l), Passed(Step(s, l), Step(s, l).calls[t]))
  {
    var s' := Step(s, l);
    forall m | m in Passed(s', s'.calls[t]) && m in Kept(s')
      ensures |s'.sessions[m].streams| >= s.limit
    {
      StepOwnPassed(s, l, t, m);
      SubsetCardinality(s.sessions[m].streams, s'.sessions[m].streams);
    }
  }

  lemma StepOwnFresh(s: State, l: Label, t: nat)
    requires Enabled(s, l) && TurnStep(s, l) && !OfOthers(l, t) && s.limit >= 1 && s.pool <= s.sessions.Keys
    requires t in s.calls && Getting(s.calls[t].pc) && CallInv(s, t) && FreshInv(s, s.calls[t])
    ensures FreshInv(Step(s, l), Step(s, l).calls[t])
  {
  }

  lemma StepOthersFresh(s: State, l: Label, t: nat)
    requires OneGet(s) && Enabled(s, l) && TurnStep(s, l) && OfOthers(l, t)
    requires t in s.calls && Getting(s.calls[t].pc) && FreshInv(s, s.calls[t])
    ensures t in Step(s, l).calls && FreshInv(Step(s, l), Step(s, l).calls[t])
  {
    StepOfOthers(s, l, t);
  }

  lemma NothingFound(s: State, c: Call)
    requires !Getting(c.pc) || c.pc == Ranging({})
    ensures AllFull(s, Passed(s, c)) && FreshInv(s, c)
  {
  }

  lemma StepFresh(s: State, l: Label, t: nat)
    requires TurnInv(s) && Enabled(s, l) && TurnStep(s, l) && t in Step(s, l).calls
    ensures FreshInv(Step(s, l), Step(s, l).calls[t])
  {
    if t in s.calls && Getting(s.calls[t].pc) {
      assert CallInv(s, t) && FreshInv(s, s.calls[t]);
      if OfOthers(l, t) { StepOthersFresh(s, l, t); } else { StepOwnFresh(s, l, t); }
    } else {
      StepIdle(s, l, t);
      NothingFound(Step(s, l), Step(s, l).calls[t]);
    }
  }

  lemma StepTurn(s: State, l: Label)
    requires TurnInv(s) && Enabled(s, l) && TurnStep(s, l)
    ensures TurnInv(Step(s, l))
  {
    var s' := Step(s, l);
    StepInv(s, l);
    StepOneGet(s, l);
    StepPool(s, l);
    forall t | t in s'.calls ensures FreshInv(s', s'.calls[t]) { StepFresh(s, l, t); }
  }

  lemma StepFullOf(s: State, l: Label, t: nat)
    requires TurnInv(s) && PassedFull(s) && Enabled(s, l) && TurnStep(s, l) && !MakesRoom(s, l)
    requires t in Step(s, l).calls
    ensures AllFull(Step(s, l), Passed(Step(s, l), Step(s, l).calls[t]))
  {
    if t in s.calls && Getting(s.calls[t].pc) {
      assert CallInv(s, t) && AllFull(s, Passed(s, s.calls[t]));
      if OfOthers(l, t) { StepOthersFull(s, l, t); } else { StepOwnFull(s, l, t); }
    } else {
      StepIdle(s, l, t);
      NothingFound(Step(s, l), Step(s, l).calls[t]);
    }
  }

  /** The session on which room is made stays passed, open and pooled, and is not full any more. */
  lemma RoomMade(s: State, l: Label)
    requires Inv(s) && Enabled(s, l) && MakesRoom(s, l)
    ensures !PassedFull(Step(s, l))
  {
    var s', c := Step(s, l), s.calls[l.t];
    var t :| t in s.calls && c.sid in Passed(s, s.calls[t]);
    assert t != l.t && s'.calls[t] == s.calls[t];
    var before, after := s.sessions[c.sid].streams, s'.sessions[c.sid].streams;
    assert after == before - {c.stream} && |after| < |before| <= s.limit;
    assert c.sid in Kept(s') && c.sid in Passed(s', s'.calls[t]);
  }

  lemma StepPassedFull(s: State, l: Label)
    requires TurnInv(s) && PassedFull(s) && Enabled(s, l) && TurnStep(s, l)
    ensures PassedFull(Step(s, l)) <==> !MakesRoom(s, l)
  {
    if MakesRoom(s, l) {
      RoomMade(s, l);
    } else {
      var s' := Step(s, l);
      forall t | t in s'.calls ensures AllFull(s', Passed(s', s'.calls[t])) { StepFullOf(s, l, t); }
    }
  }

  /** No step of the run makes room on a session already passed. */
  ghost predicate RoomFree(s: State, ls: seq<Label>)
    requires Feasible(s, ls)
    decreases |ls|
  {
    ls == [] || (!MakesRoom(s, ls[0]) && RoomFree(Step(s, ls[0]), ls[1..]))
  }

  /** What calls have passed is full in every state of the run. */
  ghost predicate AlwaysFull(s: State, ls: seq<Label>)
    requires Feasible(s, ls)
    decreases |ls|
  {
    PassedFull(s) && (ls == [] || AlwaysFull(Step(s, ls[0]), ls[1..]))
  }

  lemma {:induction false} RunFull(s: State, ls: seq<Label>)
    requires TurnInv(s) && PassedFull(s) && Feasible(s, ls) && InTurn(s, ls)
    ensures AlwaysFull(s, ls) <==> RoomFree(s, ls)
    ensures RoomFree(s, ls) ==> TurnInv(Exec(s, ls)) && PassedFull(Exec(s, ls))
    decreases |ls|
  {
    if ls != [] {
      StepTurn(s, ls[0]);
      StepPassedFull(s, ls[0]);
      if !MakesRoom(s, ls[0]) {
        RunFull(Step(s, ls[0]), ls[1..]);
      }
    }
  }

  /** When calls take turns, the sessions that a search has passed stay full until it ends, or die, if and only
      if no stream is closed on one of them in the meantime. */
  lemma PassedStaysFull(s: State, ls: seq<Label>)
    requires Init(s) && Feasible(s, ls) && InTurn(s, ls)
    ensures AlwaysFull(s, ls) <==> RoomFree(s, ls)
  {
    InitInv(s);
    RunFull(s, ls);
  }

  // ---- the bound -------------------------------------------------------------------------------------

  lemma FullCount(s: State, sids: set<nat>)
    requires Inv(s) && AllFull(s, sids) && sids <= Kept(s)
    ensures |Streams(s)| >= s.limit * |sids|
  {
    StreamsDisjoint(s);
    BlocksCover(StreamsOf(s), sids, s.limit);
    SubsetCardinality(Members(StreamsOf(s), sids), Streams(s));
  }

  lemma OpenedStreams(s: State, t: nat)
    requires Enabled(s, Go(t)) && s.calls[t].pc.Opening? && !s.sessions[s.calls[t].sid].closed
    ensures Streams(s) + {t} <= Streams(Step(s, Go(t)))
  {
    var s', sid := Step(s, Go(t)), s.calls[t].sid;
    assert t in StreamsOf(s')[sid];
    forall j, x | j in s.sessions && x in StreamsOf(s)[j]
      ensures x in Streams(s')
    {
      assert j in s'.sessions.Keys && x in StreamsOf(s')[j];
    }
  }

  lemma UnopenedNowhere(s: State, t: nat)
    requires Inv(s) && t in s.calls && !HasOpened(s.calls[t].pc)
    ensures t !in Streams(s)
  {
    forall j | j in s.sessions
      ensures t !in StreamsOf(s)[j]
    {
      assert OwnersInv(s, j);
    }
  }

  /** The stream just opened is one more. */
  lemma OpenedCount(s: State, t: nat)
    requires Inv(s) && Enabled(s, Go(t)) && s.calls[t].pc.Opening? && !s.sessions[s.calls[t].sid].closed
    ensures |Streams(Step(s, Go(t)))| >= |Streams(s)| + 1
  {
    var s' := Step(s, Go(t));
    OpenedStreams(s, t);
    UnopenedNowhere(s, t);
    SubsetCardinality(Streams(s) + {t}, Streams(s'));
  }

  lemma OpeningKeeps(s: State, t: nat)
    requires Enabled(s, Go(t)) && s.calls[t].pc.Opening?
    ensures Kept(Step(s, Go(t))) <= Kept(s)
    ensures s.sessions[s.calls[t].sid].closed ==> s.calls[t].sid !in Kept(Step(s, Go(t)))
  {
  }

  lemma StepFirstStream(s: State, t: nat, peak: nat)
    requires Inv(s) && Enabled(s, Go(t)) && s.calls[t].pc == Opening(Fresh) && AllFull(s, s.pool - {s.calls[t].sid})
    requires |Kept(s) - {s.calls[t].sid}| <= Needed(peak, s.limit) && |Streams(Step(s, Go(t)))| <= peak
    ensures |Kept(Step(s, Go(t)))| <= Needed(peak, s.limit)
  {
    var kept', sid := Kept(Step(s, Go(t))), s.calls[t].sid;
    var others := Kept(s) - {sid};
    OpeningKeeps(s, t);
    if s.sessions[sid].closed {
      SubsetCardinality(kept', others);
    } else {
      FullCount(s, others);
      OpenedCount(s, t);
      NeededOneMore(|others|, peak, s.limit);
      SubsetCardinality(kept', others + {sid});
    }
  }

  /** The session that the step stores. */
  function Stored(s: State, l: Label): set<nat>
    requires Enabled(s, l)
  {
    if l.Go? && s.calls[l.t].pc.Storing? then {s.calls[l.t].sid} else {}
  }

  lemma StepStored(s: State, l: Label)
    requires TurnInv(s) && Enabled(s, l)
    ensures Kept(Step(s, l)) <= Kept(s) + Stored(s, l)
  {
    if l.Go? { assert CallInv(s, l.t); }
  }

  /** A call that stores and a call that awaits its first stream are not there at the same time. */
  lemma StoresAlone(s: State, l: Label, t: nat)
    requires OneGet(s) && Enabled(s, l) && t in s.calls && Awaiting(s.calls[t].pc)
    ensures Stored(s, l) == {}
  {
  }

  lemma AwaitBegins(s: State, l: Label, t: nat)
    requires Enabled(s, l) && t in Step(s, l).calls && Awaiting(Step(s, l).calls[t].pc)
    ensures t in s.calls && s.calls[t].sid == Step(s, l).calls[t].sid
    ensures Awaiting(s.calls[t].pc) || (l == Go(t) && s.calls[t].pc.Storing?)
  {
  }

  lemma AwaitEnds(s: State, l: Label, t: nat)
    requires Enabled(s, l) && TurnStep(s, l) && s.limit >= 1
    requires t in s.calls && Awaiting(s.calls[t].pc) && CallInv(s, t) && FreshInv(s, s.calls[t])
    ensures t in Step(s, l).calls
    ensures !Awaiting(Step(s, l).calls[t].pc) ==>
              && s.calls[t].pc == Opening(Fresh)
              && (l == Go(t) || (l == OpenFails(t) && s.calls[t].sid !in OpenSessions(s)))
  {
  }

  lemma StepAwaited(s: State, l: Label, t: nat, peak: nat)
    requires OneGet(s) && Enabled(s, l) && Kept(Step(s, l)) <= Kept(s) + Stored(s, l)
    requires s.limit >= 1 && BoundInv(s, peak)
    requires t in Step(s, l).calls && Awaiting(Step(s, l).calls[t].pc)
    ensures |Kept(Step(s, l)) - {Step(s, l).calls[t].sid}| <= Needed(peak, s.limit)
  {
    var kept', sid := Kept(Step(s, l)), Step(s, l).calls[t].sid;
    AwaitBegins(s, l, t);
    if Awaiting(s.calls[t].pc) {
      StoresAlone(s, l, t);
      SubsetCardinality(kept' - {sid}, Kept(s) - {sid});
    } else {
      forall u | u in s.calls && Awaiting(s.calls[u].pc)
        ensures false
      {
        StoresAlone(s, l, u);
      }
      SubsetCardinality(kept' - {sid}, Kept(s));
    }
  }

  lemma StepUsed(s: State, l: Label, t: nat, peak: nat)
    requires TurnInv(s) && PassedFull(s) && Enabled(s, l) && TurnStep(s, l) && BoundInv(s, peak)
    requires |Streams(Step(s, l))| <= peak
    requires t in s.calls && Awaiting(s.calls[t].pc)
    requires t in Step(s, l).calls && !Awaiting(Step(s, l).calls[t].pc)
    ensures |Kept(Step(s, l))| <= Needed(peak, s.limit)
  {
    assert CallInv(s, t) && FreshInv(s, s.calls[t]);
    AwaitEnds(s, l, t);
    StepStored(s, l);
    if l == Go(t) {
      assert AllFull(s, Passed(s, s.calls[t]));
      StepFirstStream(s, t, peak);
    } else {
      SubsetCardinality(Kept(Step(s, l)), Kept(s) - {s.calls[t].sid});
    }
  }

  lemma StoringAwaits(s: State, l: Label)
    requires Enabled(s, l) && forall t :: t in Step(s, l).calls ==> !Awaiting(Step(s, l).calls[t].pc)
    ensures Stored(s, l) == {}
  {
    assert l.Go? ==> l.t in Step(s, l).calls;
  }

  lemma StepUnawaited(s: State, l: Label, peak: nat)
    requires TurnInv(s) && PassedFull(s) && Enabled(s, l) && TurnStep(s, l) && BoundInv(s, peak)
    requires |Streams(Step(s, l))| <= peak
    requires forall t :: t in Step(s, l).calls ==> !Awaiting(Step(s, l).calls[t].pc)
    ensures |Kept(Step(s, l))| <= Needed(peak, s.limit)
  {
    if t :| t in s.calls && Awaiting(s.calls[t].pc) {
      assert CallInv(s, t) && FreshInv(s, s.calls[t]);
      AwaitEnds(s, l, t);
      StepUsed(s, l, t, peak);
    } else {
      StepStored(s, l);
      StoringAwaits(s, l);
      SubsetCardinality(Kept(Step(s, l)), Kept(s));
    }
  }

  lemma StepBound(s: State, l: Label, peak: nat)
    requires TurnInv(s) && PassedFull(s) && Enabled(s, l) && TurnStep(s, l) && BoundInv(s, peak)
    requires |Streams(Step(s, l))| <= peak
    ensures BoundInv(Step(s, l), peak)
  {
    var s' := Step(s, l);
    StepStored(s, l);
    forall t | t in s'.calls && Awaiting(s'.calls[t].pc)
      ensures |Kept(s') - {s'.calls[t].sid}| <= Needed(peak, s.limit)
    {
      StepAwaited(s, l, t, peak);
    }
    if forall t :: t in s'.calls ==> !Awaiting(s'.calls[t].pc) {
      StepUnawaited(s, l, peak);
    }
  }

  lemma {:induction false} RunBound(s: State, ls: seq<Label>, peak: nat)
    requires TurnInv(s) && PassedFull(s) && BoundInv(s, peak)
    requires Feasible(s, ls) && InTurn(s, ls) && RoomFree(s, ls) && Peak(s, ls) <= peak
    ensures Exec(s, ls).limit == s.limit && BoundInv(Exec(s, ls), peak)
    decreases |ls|
  {
    if ls != [] {
      var s' := Step(s, ls[0]);
      assert Peak(s', ls[1..]) <= peak;
      StepTurn(s, ls[0]);
      StepPassedFull(s, ls[0]);
      StepBound(s, ls[0], peak);
      RunBound(s', ls[1..], peak);
    }
  }

  lemma BoundFromStart(s: State, ls: seq<Label>)
    requires Init(s) && Feasible(s, ls) && InTurn(s, ls) && RoomFree(s, ls)
    ensures Exec(s, ls).limit == s.limit && BoundInv(Exec(s, ls), Peak(s, ls))
  {
    assert Kept(s) == {};
    InitInv(s);
    RunBound(s, ls, Peak(s, ls));
  }

  /** If getMuxStream calls take turns and no stream is closed on a session that the call under way has passed,
      the client never keeps more sessions open in its pool than its largest number of simultaneous streams
      needs, once each call has used the session it dialed. */
  lemma SessionEconomyBound(s: State, ls: seq<Label>)
    requires Init(s) && Feasible(s, ls) && InTurn(s, ls) && RoomFree(s, ls)
    requires forall t :: t in Exec(s, ls).calls ==> !Awaiting(Exec(s, ls).calls[t].pc)
    ensures |Kept(Exec(s, ls))| <= Needed(Peak(s, ls), s.limit)
  {
    BoundFromStart(s, ls);
  }

  /** With the one that a call has dialed and not yet used there is at most one more. */
  lemma SessionEconomyAlways(s: State, ls: seq<Label>)
    requires Init(s) && Feasible(s, ls) && InTurn(s, ls) && RoomFree(s, ls)
    ensures |Kept(Exec(s, ls))| <= Needed(Peak(s, ls), s.limit) + 1
  {
    var e := Exec(s, ls);
    BoundFromStart(s, ls);
    if t :| t in e.calls && Awaiting(e.calls[t].pc) {
      var sid := e.calls[t].sid;
      SubsetCardinality(Kept(e), (Kept(e) - {sid}) + {sid});
    }
  }

  /** If moreover the search deletes closed sessions only, then between calls those are all the open sessions
      there are. */
  lemma OpenSessionsBound(s: State, ls: seq<Label>)
    requires Init(s) && Feasible(s, ls) && InTurn(s, ls) && RoomFree(s, ls)
    requires LossFree(s, ls) && NoGet(Exec(s, ls))
    ensures |OpenSessions(Exec(s, ls))| <= Needed(Peak(s, ls), s.limit)
  {
    var e := Exec(s, ls);
    SessionEconomyBound(s, ls);
    InitInv(s);
    RunNoneLost(s, ls);
    assert OpenSessions(e) == Kept(e);
  }

  /** When a dial happens every open session of the pool is full. */
  lemma DialsWhenFull(s: State, ls: seq<Label>, t: nat)
    requires Init(s) && Feasible(s, ls) && InTurn(s, ls) && RoomFree(s, ls)
    requires t in Exec(s, ls).calls && Exec(s, ls).calls[t].pc.Dialing?
    ensures forall m :: m in Kept(Exec(s, ls)) ==> |Exec(s, ls).sessions[m].streams| == s.limit
    ensures |Streams(Exec(s, ls))| >= s.limit * |Kept(Exec(s, ls))|
  {
    var e := Exec(s, ls);
    InitInv(s);
    RunFull(s, ls);
    RunInv(s, ls);
    assert AllFull(e, Passed(e, e.calls[t]));
    FullCount(e, Kept(e));
    forall m | m in Kept(e)
      ensures |e.sessions[m].streams| == s.limit
    {
      assert Sound(e.sessions[m], e.limit);
    }
  }

  // ---- atomic calls ----------------------------------------------------------------------------------

  /** Calls that no other call and no close of a stream comes between. */
  ghost predicate Atomic(s: State, ls: seq<Label>)
    requires Feasible(s, ls)
    decreases |ls|
  {
    ls == [] ||
      (&& TurnStep(s, ls[0]) && (ls[0].Go? && s.calls[ls[0].t].pc.Removing? ==> NoGet(s))
       && Atomic(Step(s, ls[0]), ls[1..]))
  }

  /** Atomic calls, for one, take turns and leave what they have passed alone. */
  lemma {:induction false} AtomicCalls(s: State, ls: seq<Label>)
    requires Feasible(s, ls) && Atomic(s, ls)
    ensures InTurn(s, ls) && RoomFree(s, ls)
    decreases |ls|
  {
    if ls != [] {
      AtomicCalls(Step(s, ls[0]), ls[1..]);
    }
  }
}

/** One call at a time.  A run of PoolMachine in which a single call takes steps, from a state in which no other
    call is inside a mutex or the library's Close, has the effect that ClientPool proves of the code: the
    machine's steps add up to the contracts of ClientPool.Client.GetMuxStream and ClientPool.MuxStream.Close. */
module PoolAlone {
  import opened Prelude
  import opened PoolMachine
  import ClientPool

  /** The library's OpenStream fails on closed sessions and on those of `broken`. */
  function ViewOf(x: Session, sid: nat, broken: set<nat>): ClientPool.View {
    ClientPool.View(x.closed, sid in broken, x.streams)
  }

  predicate Usable(s: State, sid: nat, broken: set<nat>) {
    sid in s.sessions && ClientPool.Usable(ViewOf(s.sessions[sid], sid, broken), s.limit)
  }

  predicate Dropped(s: State, sid: nat, broken: set<nat>) {
    sid in s.sessions && ClientPool.Dropped(ViewOf(s.sessions[sid], sid, broken), s.limit)
  }

  /** The step is one of call t; its Range shows the sessions of the pool, each of them before it ends; and
      OpenStream fails where it should. */
  predicate AloneStep(s: State, l: Label, t: nat, broken: set<nat>)
    requires Enabled(s, l)
  {
    !OfOthers(l, t) &&
    match l
    case Visit(_, sid) => sid in s.pool
    case EndRange(_) => s.pool <= s.calls[t].pc.visited
    case OpenFails(_) => s.calls[t].sid in broken
    case Go(_) =>
      var c := s.calls[t];
      c.pc.Opening? && !s.sessions[c.sid].closed ==> c.sid !in broken
    case _ => true
  }

  ghost predicate Alone(s: State, ls: seq<Label>, t: nat, broken: set<nat>)
    requires Feasible(s, ls)
    decreases |ls|
  {
    ls == [] || (AloneStep(s, ls[0], t, broken) && Alone(Step(s, ls[0]), ls[1..], t, broken))
  }

  /** The other calls are outside every mutex and the library's Close, and the pool holds stored sessions. */
  ghost predicate Quiet(s: State) {
    && Inv(s) && AllClosing(s)
    && (forall sid :: sid in s.pool ==> sid in s.sessions && s.sessions[sid].stored)
    && (forall sid :: sid in s.sessions ==> s.sessions[sid].holder == None)
    && (forall t :: t in s.calls ==> !s.calls[t].pc.Removing?)
  }

  // ---- getMuxStream ----------------------------------------------------------------------------------

  /** The pool when the sessions `done` of it have been tried. */
  function Kept(b: State, done: set<nat>, broken: set<nat>): set<nat> {
    set m | m in b.pool && !(m in done && Dropped(b, m, broken))
  }

  ghost predicate NoneUsable(b: State, done: set<nat>, broken: set<nat>) {
    done <= b.pool && forall m :: m in done ==> !Usable(b, m, broken)
  }

  /** The session that a call works on, as it was or as it is stored after a dial. */
  function Base(b: State, sid: nat): Session {
    if sid in b.sessions then b.sessions[sid] else NEW_SESSION.(stored := true)
  }

  function With(b: State, sid: nat, holder: Option<nat>, more: set<nat>): map<nat, Session> {
    b.sessions[sid := Base(b, sid).(holder := holder, streams := Base(b, sid).streams + more)]
  }

  /** The sessions when call t, which began in state b, is at c. */
  function SessionsAt(b: State, c: Call, t: nat): map<nat, Session> {
    match c.pc
    case Locking(_) => With(b, c.sid, None, {})
    case Checking(_) => With(b, c.sid, Some(t), {})
    case Opening(_) => With(b, c.sid, Some(t), {})
    case Leaving(_, v) => With(b, c.sid, Some(t), if v.Opened? then {t} else {})
    case Storing => b.sessions[c.sid := NEW_SESSION]
    case Got => With(b, c.sid, None, {t})
    case Refused(_) => With(b, c.sid, None, {})
    case _ => b.sessions
  }

  /** The search has come to session sid, having tried the others it has seen. */
  ghost predicate CameTo(b: State, pool: set<nat>, seen: set<nat>, sid: nat, broken: set<nat>) {
    sid in seen && seen <= b.pool && NoneUsable(b, seen - {sid}, broken) && pool == Kept(b, seen - {sid}, broken)
  }

  /** The search has tried all the pool. */
  ghost predicate TriedAll(b: State, pool: set<nat>, broken: set<nat>) {
    NoneUsable(b, b.pool, broken) && pool == Kept(b, b.pool, broken)
  }

  /** And the call has stored the session sid. */
  ghost predicate HasDialed(b: State, pool: set<nat>, sid: nat, broken: set<nat>) {
    sid !in b.sessions && NoneUsable(b, b.pool, broken) && pool == Kept(b, b.pool, broken) + {sid}
  }

  ghost predicate At(b: State, pool: set<nat>, o: Origin, sid: nat, broken: set<nat>) {
    if o.Fresh? then HasDialed(b, pool, sid, broken)
    else CameTo(b, pool, o.visited, sid, broken) && !Base(b, sid).closed
  }

  /** What the call has found out. */
  ghost predicate Found(b: State, c: Call, pool: set<nat>, broken: set<nat>) {
    match c.pc
    case Ranging(seen) => NoneUsable(b, seen, broken) && pool == Kept(b, seen, broken)
    case Probing(seen) => CameTo(b, pool, seen, c.sid, broken)
    case Deleting(seen) => CameTo(b, pool, seen, c.sid, broken) && Dropped(b, c.sid, broken)
    case Locking(o) => At(b, pool, o, c.sid, broken)
    case Checking(o) => At(b, pool, o, c.sid, broken)
    case Opening(o) => At(b, pool, o, c.sid, broken) && |Base(b, c.sid).streams| < b.limit
    case Leaving(o, v) => At(b, pool, o, c.sid, broken) && v == Answer(b, c.sid, broken)
    case Dialing => TriedAll(b, pool, broken)
    case NoDial => TriedAll(b, pool, broken)
    case Storing => TriedAll(b, pool, broken) && c.sid !in b.sessions
    case Got => Answer(b, c.sid, broken) == Opened && Served(b, pool, c.sid, broken)
    case Refused(v) => HasDialed(b, pool, c.sid, broken) && v == Answer(b, c.sid, broken) == Failed
    case _ => false
  }

  /** What ClientPool's Refusal says of openStream on the session. */
  function Answer(b: State, sid: nat, broken: set<nat>): Verdict {
    match ClientPool.Refusal(ViewOf(Base(b, sid), sid, broken), b.limit)
    case None => Opened
    case Some(e) => if e.TooManyStreams? then TooMany else Failed
  }

  ghost predicate Served(b: State, pool: set<nat>, sid: nat, broken: set<nat>) {
    HasDialed(b, pool, sid, broken) || exists seen :: CameTo(b, pool, seen, sid, broken)
  }

  ghost predicate AloneInv(b: State, e: State, t: nat, broken: set<nat>) {
    && t in e.calls && e.limit == b.limit && e.calls == b.calls[t := e.calls[t]]
    && e.sessions == SessionsAt(b, e.calls[t], t) && Found(b, e.calls[t], e.pool, broken)
  }

  ghost predicate NextStep(b: State, e: State, l: Label, t: nat, broken: set<nat>) {
    Quiet(b) && t !in b.calls && AloneInv(b, e, t, broken) && Enabled(e, l) && AloneStep(e, l, t, broken)
  }

  lemma StepRange(b: State, e: State, l: Label, t: nat, broken: set<nat>)
    requires NextStep(b, e, l, t, broken) && (e.calls[t].pc.Ranging? || e.calls[t].pc.Dialing?)
    ensures AloneInv(b, Step(e, l), t, broken)
  {
    var c := e.calls[t];
    if l.Visit? {
      assert c.pc.visited + {l.sid} - {l.sid} == c.pc.visited by { assert l.sid !in c.pc.visited; }
    } else if l.EndRange? {
      assert b.pool <= c.pc.visited;
      assert c.pc.visited == b.pool;
    }
  }

  /** A session that is left alone is as it was. */
  lemma BackToBase(b: State, sid: nat)
    requires Quiet(b) && sid in b.sessions
    ensures With(b, sid, None, {}) == b.sessions
  {
    assert b.sessions[sid].streams + {} == b.sessions[sid].streams;
  }

  lemma StepProbe(b: State, e: State, l: Label, t: nat, broken: set<nat>)
    requires NextStep(b, e, l, t, broken) && (e.calls[t].pc.Probing? || e.calls[t].pc.Deleting?)
    ensures AloneInv(b, Step(e, l), t, broken)
  {
    var c := e.calls[t];
    var seen := c.pc.visited;
    assert b.sessions[c.sid := b.sessions[c.sid]] == b.sessions;
    BackToBase(b, c.sid);
    if c.pc.Deleting? {
      assert Kept(b, seen, broken) == Kept(b, seen - {c.sid}, broken) - {c.sid};
    }
  }

  lemma StepStore(b: State, e: State, l: Label, t: nat, broken: set<nat>)
    requires NextStep(b, e, l, t, broken) && e.calls[t].pc.Storing?
    ensures AloneInv(b, Step(e, l), t, broken)
  {
  }

  /** A step of call t on its session x, the only one that differs from b. */
  lemma GoSession(b: State, e: State, t: nat, x: Session)
    requires t in e.calls && e.calls == b.calls[t := e.calls[t]] && Enabled(e, Go(t))
    requires e.sessions == b.sessions[e.calls[t].sid := x]
    ensures var c := e.calls[t];
            var (pc, x') := Advance(c.pc, x, t, c.stream, e.limit);
            var s' := Step(e, Go(t));
            && s'.sessions == b.sessions[c.sid := x'] && s'.calls == b.calls[t := c.(pc := pc)]
            && (!c.pc.Storing? && !c.pc.Deleting? ==> s'.pool == e.pool)
  {
  }

  /** openStream up to its answer, on the session x. */
  lemma OpenFinds(b: State, c: Call, pool: set<nat>, t: nat, x: Session, broken: set<nat>)
    requires (c.pc.Locking? || c.pc.Checking? || c.pc.Opening?) && Found(b, c, pool, broken)
    requires x == Base(b, c.sid).(holder := if c.pc.Locking? then None else Some(t))
    requires c.pc.Opening? && !x.closed ==> c.sid !in broken
    ensures var (pc, x') := Advance(c.pc, x, t, 0, b.limit);
            && Found(b, c.(pc := pc), pool, broken)
            && b.sessions[c.sid := x'] == SessionsAt(b, c.(pc := pc), t)
  {
    assert x.streams + {} == x.streams;
  }

  /** OpenStream fails where it should. */
  lemma FailureFinds(b: State, c: Call, pool: set<nat>, t: nat, broken: set<nat>)
    requires c.pc.Opening? && Found(b, c, pool, broken) && c.sid in broken
    ensures var c' := c.(pc := Leaving(c.pc.origin, Failed));
            Found(b, c', pool, broken) && SessionsAt(b, c', t) == SessionsAt(b, c, t)
  {
  }

  lemma StepOpen(b: State, e: State, l: Label, t: nat, broken: set<nat>)
    requires NextStep(b, e, l, t, broken)
    requires e.calls[t].pc.Locking? || e.calls[t].pc.Checking? || e.calls[t].pc.Opening?
    ensures AloneInv(b, Step(e, l), t, broken)
  {
    var c := e.calls[t];
    var x := Base(b, c.sid).(holder := if c.pc.Locking? then None else Some(t));
    assert x.streams + {} == x.streams;
    assert e.sessions == b.sessions[c.sid := x];
    if l == Go(t) {
      GoSession(b, e, t, x);
      OpenFinds(b, c, e.pool, t, x, broken);
    } else {
      FailureFinds(b, c, e.pool, t, broken);
    }
  }

  lemma LeaveSessions(b: State, e: State, t: nat, broken: set<nat>)
    requires Quiet(b) && AloneInv(b, e, t, broken) && Enabled(e, Go(t)) && e.calls[t].pc.Leaving?
    ensures var c, s' := e.calls[t], Step(e, Go(t));
            && s'.pool == e.pool && s'.calls == b.calls[t := c.(pc := AfterOpen(c.pc.origin, c.pc.v))]
            && s'.sessions == With(b, c.sid, None, if c.pc.v.Opened? then {t} else {})
  {
    var c := e.calls[t];
    var x := Base(b, c.sid);
    GoSession(b, e, t, x.(holder := Some(t), streams := x.streams + if c.pc.v.Opened? then {t} else {}));
  }

  /** What getMuxStream makes of openStream's answer. */
  lemma LeaveFinds(b: State, c: Call, pool: set<nat>, broken: set<nat>)
    requires c.pc.Leaving? && Found(b, c, pool, broken) && b.pool <= b.sessions.Keys && b.limit >= 1
    ensures Found(b, c.(pc := AfterOpen(c.pc.origin, c.pc.v)), pool, broken)
    ensures c.pc.origin.Pooled? ==> c.sid in b.pool
  {
    if c.pc.origin.Pooled? {
      var seen := c.pc.origin.visited;
      assert CameTo(b, pool, seen, c.sid, broken);
      if c.pc.v.TooMany? {
        assert Kept(b, seen, broken) == Kept(b, seen - {c.sid}, broken);
      }
    }
  }

  lemma StepLeave(b: State, e: State, l: Label, t: nat, broken: set<nat>)
    requires NextStep(b, e, l, t, broken) && e.calls[t].pc.Leaving?
    ensures AloneInv(b, Step(e, l), t, broken)
  {
    var c := e.calls[t];
    LeaveSessions(b, e, t, broken);
    LeaveFinds(b, c, e.pool, broken);
    if c.pc.origin.Pooled? {
      BackToBase(b, c.sid);
    }
  }

  lemma {:induction false} RunAlone(b: State, e: State, ls: seq<Label>, t: nat, broken: set<nat>)
    requires Quiet(b) && t !in b.calls && AloneInv(b, e, t, broken) && Feasible(e, ls) && Alone(e, ls, t, broken)
    ensures AloneInv(b, Exec(e, ls), t, broken)
    decreases |ls|
  {
    if ls != [] {
      var l, pc := ls[0], e.calls[t].pc;
      if pc.Ranging? || pc.Dialing? {
        StepRange(b, e, l, t, broken);
      } else if pc.Probing? || pc.Deleting? {
        StepProbe(b, e, l, t, broken);
      } else if pc.Storing? {
        StepStore(b, e, l, t, broken);
      } else if pc.Leaving? {
        StepLeave(b, e, l, t, broken);
      } else {
        StepOpen(b, e, l, t, broken);
      }
      RunAlone(b, Step(e, l), ls[1..], t, broken);
    }
  }

  /** Of the pool of b, the sessions in `seen` that were closed, or on which OpenStream fails with room left, are
      gone, and no others. */
  ghost predicate DropsFrom(b: State, pool: set<nat>, seen: set<nat>, broken: set<nat>) {
    forall m :: m in b.pool ==>
      && m in b.sessions
      && var x := b.sessions[m];
         (m !in pool <==> m in seen && (x.closed || (m in broken && |x.streams| < b.limit)))
  }

  /** None of the sessions can serve a stream. */
  ghost predicate NoRoom(b: State, seen: set<nat>, broken: set<nat>) {
    forall m :: m in seen ==>
      m in b.sessions && (b.sessions[m].closed || m in broken || |b.sessions[m].streams| >= b.limit)
  }

  /** The effect of a whole getMuxStream call t, from state b to state e: a pooled session has served it, having
      room while those tried before had none, or none of the pool has room and it has dialed. */
  ghost predicate GetEffect(b: State, e: State, t: nat, broken: set<nat>) {
    t in e.calls && e.calls == b.calls[t := e.calls[t]] &&
    var c := e.calls[t];
    if !NoRoom(b, b.pool, broken) then
      && c.pc == Got && c.sid in b.sessions && e.pool <= b.pool
      && var x := b.sessions[c.sid];
      && !x.closed && c.sid !in broken && |x.streams| < b.limit
      && e.sessions == b.sessions[c.sid := x.(streams := x.streams + {t})]
      && exists seen: set<nat> ::
           c.sid in seen && seen <= b.pool && NoRoom(b, seen - {c.sid}, broken) && DropsFrom(b, e.pool, seen, broken)
    else if c.pc.NoDial? then e.sessions == b.sessions && e.pool <= b.pool && DropsFrom(b, e.pool, b.pool, broken)
    else
      && c.sid !in b.sessions && c.sid in e.pool && e.pool <= b.pool + {c.sid} && DropsFrom(b, e.pool, b.pool, broken)
      && c.pc == (if c.sid in broken then Refused(Failed) else Got)
      && e.sessions == b.sessions[c.sid := Session(false, if c.sid in broken then {} else {t}, None, true)]
  }

  /** A getMuxStream call that runs alone dials if and only if no pooled session can serve it, drops the closed
      and failing sessions it has tried and no other, gives one session one stream on success, and leaves all
      else as it was: the contract of ClientPool.Client.GetMuxStream. */
  lemma GetAlone(b: State, ls: seq<Label>, t: nat, broken: set<nat>)
    requires Quiet(b) && Feasible(b, [StartGet(t)] + ls) && Alone(b, [StartGet(t)] + ls, t, broken)
    requires var e := Exec(b, [StartGet(t)] + ls); t in e.calls && AtRest(e.calls[t].pc)
    ensures GetEffect(b, Exec(b, [StartGet(t)] + ls), t, broken)
    ensures var e := Exec(b, [StartGet(t)] + ls);
            e.calls[t].pc.Got? && e.calls[t].sid in b.pool <==>
              exists m :: m in b.pool && !b.sessions[m].closed && m !in broken && |b.sessions[m].streams| < b.limit
    ensures var e := Exec(b, [StartGet(t)] + ls);
            !(e.calls[t].pc.Got? && e.calls[t].sid in b.pool) ==>
              forall m :: m in b.pool ==>
                (m !in e.pool <==> b.sessions[m].closed || (m in broken && |b.sessions[m].streams| < b.limit))
  {
    var s := Step(b, StartGet(t));
    assert ([StartGet(t)] + ls)[1..] == ls;
    RunAlone(b, s, ls, t, broken);
    RestEffect(b, Exec(s, ls), t, broken);
  }

  lemma KeptDrops(b: State, seen: set<nat>, broken: set<nat>)
    requires Quiet(b)
    ensures Kept(b, seen, broken) <= b.pool && DropsFrom(b, Kept(b, seen, broken), seen, broken)
  {
  }

  lemma NoneUsableIsNoRoom(b: State, seen: set<nat>, broken: set<nat>)
    requires Quiet(b) && seen <= b.pool
    ensures NoneUsable(b, seen, broken) <==> NoRoom(b, seen, broken)
  {
    if NoneUsable(b, seen, broken) {
      forall m | m in seen
        ensures b.sessions[m].closed || m in broken || |b.sessions[m].streams| >= b.limit
      {
        assert !Usable(b, m, broken);
      }
    }
  }

  lemma ServedEffect(b: State, e: State, t: nat, seen: set<nat>, broken: set<nat>)
    requires Quiet(b) && AloneInv(b, e, t, broken) && e.calls[t].pc.Got? && e.calls[t].sid in b.sessions
    requires CameTo(b, e.pool, seen, e.calls[t].sid, broken)
    ensures GetEffect(b, e, t, broken)
  {
    var sid := e.calls[t].sid;
    assert Usable(b, sid, broken) && sid in b.pool;
    NoneUsableIsNoRoom(b, b.pool, broken);
    NoneUsableIsNoRoom(b, seen - {sid}, broken);
    KeptDrops(b, seen - {sid}, broken);
    assert DropsFrom(b, e.pool, seen, broken);
  }

  lemma DialedEffect(b: State, e: State, t: nat, broken: set<nat>)
    requires Quiet(b) && AloneInv(b, e, t, broken) && AtRest(e.calls[t].pc)
    requires NoneUsable(b, b.pool, broken) && (e.calls[t].pc.NoDial? || e.calls[t].sid !in b.sessions)
    ensures GetEffect(b, e, t, broken)
  {
    NoneUsableIsNoRoom(b, b.pool, broken);
    KeptDrops(b, b.pool, broken);
    assert {} + {t} == {t};
    if e.calls[t].pc.Got? {
      assert forall seen :: !CameTo(b, e.pool, seen, e.calls[t].sid, broken);
    }
  }

  lemma RestEffect(b: State, e: State, t: nat, broken: set<nat>)
    requires Quiet(b) && AloneInv(b, e, t, broken) && AtRest(e.calls[t].pc)
    ensures GetEffect(b, e, t, broken)
  {
    var c := e.calls[t];
    if c.pc.Got? && c.sid in b.sessions {
      var seen :| CameTo(b, e.pool, seen, c.sid, broken);
      ServedEffect(b, e, t, seen, broken);
    } else {
      DialedEffect(b, e, t, broken);
    }
  }

  // ---- muxStream.Close -------------------------------------------------------------------------------

  /** The session when call t, which closes stream c.stream of the session x, is at c. */
  function SessionAt(x: Session, c: Call, t: nat): Session {
    var less := x.(streams := x.streams - {c.stream});
    match c.pc
    case IdleLocking => less
    case IdleChecking => less.(holder := Some(t))
    case IdleClosing => less.(holder := Some(t))
    case IdleLeaving => less.(holder := Some(t), closed := x.closed || less.streams == {})
    case Closed => less.(closed := x.closed || less.streams == {})
    case _ => x
  }

  ghost predicate CloseInv(b: State, e: State, t: nat, k: nat) {
    && t in e.calls && e.limit == b.limit && e.calls == b.calls[t := e.calls[t]] && e.pool == b.pool
    && var c := e.calls[t];
    && c.stream == k && k in b.calls && c.sid == b.calls[k].sid && c.sid in b.sessions && IsClosing(c.pc)
    && (c.pc.IdleClosing? ==> b.sessions[c.sid].streams <= {k})
    && e.sessions == b.sessions[c.sid := SessionAt(b.sessions[c.sid], c, t)]
  }

  /** A Close that comes too late finds its stream gone. */
  lemma LateClose(b: State, e: State, t: nat, k: nat)
    requires Quiet(b) && t !in b.calls && k in b.calls && HasOpened(b.calls[k].pc)
    requires CloseInv(b, e, t, k) && Enabled(e, Repeat(t))
    ensures k !in b.sessions[b.calls[k].sid].streams
  {
    if Begun(e, k) {
      var u :| u in e.calls && e.calls[u].stream == k && IsClosing(e.calls[u].pc) && !e.calls[u].pc.Dropping?;
      assert u in b.calls && b.calls[u] == e.calls[u] && ClosingInv(b, u);
    } else {
      assert Sound(b.sessions[b.calls[k].sid], b.limit);
    }
  }

  lemma AdvanceClose(x: Session, c: Call, t: nat, limit: nat)
    requires IsClosing(c.pc) && !c.pc.Closed? && x.holder == None && (x.closed ==> x.streams == {})
    requires c.pc.IdleClosing? ==> x.streams <= {c.stream}
    ensures var (pc, x') := Advance(c.pc, SessionAt(x, c, t), t, c.stream, limit);
            && IsClosing(pc) && x' == SessionAt(x, c.(pc := pc), t)
            && (pc.IdleClosing? ==> x.streams <= {c.stream})
  {
    assert x.streams - {c.stream} == {} <==> x.streams <= {c.stream};
  }

  lemma StepLateClose(b: State, e: State, t: nat, k: nat)
    requires Quiet(b) && t !in b.calls && k in b.calls && HasOpened(b.calls[k].pc)
    requires CloseInv(b, e, t, k) && Enabled(e, Repeat(t))
    ensures CloseInv(b, Step(e, Repeat(t)), t, k)
  {
    var x := b.sessions[b.calls[k].sid];
    LateClose(b, e, t, k);
    assert x.streams - {k} == x.streams;
  }

  lemma StepClose(b: State, e: State, l: Label, t: nat, k: nat)
    requires Quiet(b) && t !in b.calls && k in b.calls && HasOpened(b.calls[k].pc)
    requires CloseInv(b, e, t, k) && Enabled(e, l) && !OfOthers(l, t)
    ensures CloseInv(b, Step(e, l), t, k)
  {
    var x := b.sessions[b.calls[k].sid];
    assert Sound(x, b.limit) && x.holder == None;
    if l.Repeat? {
      StepLateClose(b, e, t, k);
    } else {
      GoSession(b, e, t, SessionAt(x, e.calls[t], t));
      AdvanceClose(x, e.calls[t], t, e.limit);
    }
  }

  lemma {:induction false} RunClose(b: State, e: State, ls: seq<Label>, t: nat, k: nat)
    requires Quiet(b) && t !in b.calls && k in b.calls && HasOpened(b.calls[k].pc)
    requires CloseInv(b, e, t, k) && Feasible(e, ls) && Alone(e, ls, t, {})
    ensures CloseInv(b, Exec(e, ls), t, k)
    decreases |ls|
  {
    if ls != [] {
      StepClose(b, e, ls[0], t, k);
      RunClose(b, Step(e, ls[0]), ls[1..], t, k);
    }
  }

  /** A Close of stream k that runs alone, the first or a repeated one, takes the stream off, closes the session
      if it was closed or that leaves it empty, and leaves all else as it was: the contract of
      ClientPool.MuxStream.Close. */
  lemma CloseAlone(b: State, ls: seq<Label>, t: nat, k: nat)
    requires Quiet(b) && Feasible(b, [StartClose(t, k)] + ls) && Alone(b, [StartClose(t, k)] + ls, t, {})
    requires var e := Exec(b, [StartClose(t, k)] + ls); t in e.calls && e.calls[t].pc.Closed?
    ensures var e := Exec(b, [StartClose(t, k)] + ls);
            var sid := b.calls[k].sid;
            var x := b.sessions[sid];
            && e.pool == b.pool && e.calls == b.calls[t := Call(Closed, sid, k)]
            && e.sessions == b.sessions[sid := Session(x.closed || x.streams <= {k}, x.streams - {k}, None, x.stored)]
  {
    var s := Step(b, StartClose(t, k));
    assert ([StartClose(t, k)] + ls)[1..] == ls;
    assert b.sessions[b.calls[k].sid := b.sessions[b.calls[k].sid]] == b.sessions;
    RunClose(b, s, ls, t, k);
    var x := b.sessions[b.calls[k].sid];
    assert x.streams - {k} == {} <==> x.streams <= {k};
  }
}

/** The client's session pool under concurrency (internal/core/client.go, internal/core/cmux.go).

    Any number of getMuxStream and muxStream.Close calls run interleaved.  Each call has a program counter
    and takes one step per lock operation, pool operation or library call, and any session may die at any
    moment.  A stream bears the number of the getMuxStream call that opened it; a stream may be closed any
    number of times, by calls of their own.  The library's Stream.Close takes its stream off the session in a
    second step, after its FIN is written, and a repeated one does not wait for that. */
module PoolMachine {
  import opened Prelude

  /** `holder` is the call that holds the session's mutex, `stored` whether the session has ever been put in
      the pool. */
  datatype Session = Session(closed: bool, streams: set<nat>, holder: Option<nat>, stored: bool)

  /** Where openStream was called: on a pooled session while ranging, or on the session just dialed. */
  datatype Origin = Pooled(visited: set<nat>) | Fresh

  datatype Verdict = Opened | TooMany | Failed

  datatype Pc =
    // getMuxStream
    | Ranging(visited: set<nat>)
    | Probing(visited: set<nat>)          // before IsClosed
    | Deleting(visited: set<nat>)         // before the pool's Delete
    | Locking(origin: Origin)             // before mu.Lock of openStream
    | Checking(origin: Origin)            // before NumStreams
    | Opening(origin: Origin)             // before the library's OpenStream
    | Leaving(origin: Origin, v: Verdict) // before mu.Unlock
    | Dialing
    | Storing                             // before the pool's Store
    | Got
    | Refused(v: Verdict)
    | NoDial
    // muxStream.Close
    | Dropping                            // before the library's Stream.Close
    | Removing                            // in it, before the stream is taken off the session
    | IdleLocking                         // before mu.Lock of tryCloseOnIdle
    | IdleChecking                        // before NumStreams
    | IdleClosing                         // before the library's Session.Close
    | IdleLeaving                         // before mu.Unlock
    | Closed

  /** `sid` is the session the call is working on, `stream` the stream a closing call closes. */
  datatype Call = Call(pc: Pc, sid: nat, stream: nat)

  datatype State = State(limit: nat, sessions: map<nat, Session>, pool: set<nat>, calls: map<nat, Call>)

  datatype Label =
    | StartGet(t: nat)
    | StartClose(t: nat, stream: nat)
    | Visit(t: nat, sid: nat)
    | EndRange(t: nat)
    | DialOk(t: nat, sid: nat)
    | DialFails(t: nat)
    | OpenFails(t: nat)                   // OpenStream fails on an open session
    | Repeat(t: nat)                      // a Stream.Close that is not the stream's first returns
    | Wait(t: nat)                        // a call tries a mutex that is held
    | Go(t: nat)                          // the next step of a call, where there is one only
    | Die(sid: nat)

  const NEW_SESSION := Session(false, {}, None, false)

  ghost predicate Init(s: State) {
    s.limit >= 1 && s.sessions == map[] && s.pool == {} && s.calls == map[]
  }

  /** Every call works on a known session, where it works on one. */
  predicate OnSession(pc: Pc) {
    !(pc.Ranging? || pc.Dialing? || pc.NoDial?)
  }

  predicate Live(s: State, t: nat) {
    t in s.calls && (OnSession(s.calls[t].pc) ==> s.calls[t].sid in s.sessions)
  }

  /** A Close of stream k has begun, and a later one will do nothing. */
  predicate Begun(s: State, k: nat) {
    exists t :: t in s.calls && s.calls[t].stream == k && IsClosing(s.calls[t].pc) && !s.calls[t].pc.Dropping?
  }

  predicate IsClosing(pc: Pc) {
    pc.Dropping? || pc.Removing? || pc.IdleLocking? || pc.IdleChecking? || pc.IdleClosing? || pc.IdleLeaving?
    || pc.Closed?
  }

  predicate Enabled(s: State, l: Label) {
    match l
    case StartGet(t) => t !in s.calls
    case StartClose(t, k) => t !in s.calls && Live(s, k) && s.calls[k].pc.Got?
    case Visit(t, sid) =>
      && Live(s, t) && s.calls[t].pc.Ranging?
      && sid in s.sessions && s.sessions[sid].stored && sid !in s.calls[t].pc.visited
    case EndRange(t) => Live(s, t) && s.calls[t].pc.Ranging?
    case DialOk(t, sid) => Live(s, t) && s.calls[t].pc.Dialing? && sid !in s.sessions
    case DialFails(t) => Live(s, t) && s.calls[t].pc.Dialing?
    case OpenFails(t) => Live(s, t) && s.calls[t].pc.Opening?
    case Repeat(t) =>
      Live(s, t) && s.calls[t].pc.Dropping? && (Begun(s, s.calls[t].stream) || s.sessions[s.calls[t].sid].closed)
    case Wait(t) =>
      && Live(s, t) && (s.calls[t].pc.Locking? || s.calls[t].pc.IdleLocking?)
      && s.sessions[s.calls[t].sid].holder.Some?
    case Go(t) =>
      && Live(s, t)
      && match s.calls[t].pc {
        case Ranging(_) => false
        case Dialing => false
        case Got => false
        case Refused(_) => false
        case NoDial => false
        case Closed => false
        case Locking(_) => s.sessions[s.calls[t].sid].holder.None?
        case IdleLocking => s.sessions[s.calls[t].sid].holder.None?
        case Dropping => !Begun(s, s.calls[t].stream)
        case _ => true
      }
    case Die(sid) => sid in s.sessions
  }

  /** The label of a step that is not one of call t. */
  predicate OfOthers(l: Label, t: nat) {
    match l
    case StartGet(u) => u != t
    case StartClose(u, _) => u != t
    case Visit(u, _) => u != t
    case EndRange(u) => u != t
    case DialOk(u, _) => u != t
    case DialFails(u) => u != t
    case OpenFails(u) => u != t
    case Repeat(u) => u != t
    case Wait(u) => u != t
    case Go(u) => u != t
    case Die(_) => true
  }

  function Goto(s: State, t: nat, pc: Pc): State
    requires t in s.calls
  {
    s.(calls := s.calls[t := s.calls[t].(pc := pc)])
  }

  function Put(s: State, sid: nat, x: Session): State {
    s.(sessions := s.sessions[sid := x])
  }

  function Kill(x: Session): Session {
    x.(closed := true, streams := {})
  }

  /** Where openStream returns to. */
  function AfterOpen(o: Origin, v: Verdict): Pc {
    if v.Opened? then Got
    else if o.Fresh? then Refused(v)
    else if v.TooMany? then Ranging(o.visited)
    else Deleting(o.visited)
  }

  /** The next step of call t on its session x, as the new state of both. */
  function Advance(pc: Pc, x: Session, t: nat, stream: nat, limit: nat): (Pc, Session) {
    match pc
    case Probing(seen) => (if x.closed then Deleting(seen) else Locking(Pooled(seen)), x)
    case Deleting(seen) => (Ranging(seen), x)
    case Locking(o) => (Checking(o), x.(holder := Some(t)))
    case Checking(o) => (if |x.streams| >= limit then Leaving(o, TooMany) else Opening(o), x)
    case Opening(o) =>
      if x.closed then (Leaving(o, Failed), x) else (Leaving(o, Opened), x.(streams := x.streams + {t}))
    case Leaving(o, v) => (AfterOpen(o, v), x.(holder := None))
    case Storing => (Locking(Fresh), x.(stored := true))
    case Dropping => (Removing, x)
    case Removing => (IdleLocking, x.(streams := x.streams - {stream}))
    case IdleLocking => (IdleChecking, x.(holder := Some(t)))
    case IdleChecking => (if x.streams == {} then IdleClosing else IdleLeaving, x)
    case IdleClosing => (IdleLeaving, Kill(x))
    case IdleLeaving => (Closed, x.(holder := None))
    case _ => (pc, x)
  }

  function Step(s: State, l: Label): State
    requires Enabled(s, l)
  {
    match l
    case StartGet(t) => s.(calls := s.calls[t := Call(Ranging({}), 0, 0)])
    case StartClose(t, k) => s.(calls := s.calls[t := Call(Dropping, s.calls[k].sid, k)])
    case Visit(t, sid) => s.(calls := s.calls[t := Call(Probing(s.calls[t].pc.visited + {sid}), sid, 0)])
    case EndRange(t) => Goto(s, t, Dialing)
    case DialOk(t, sid) => Put(s.(calls := s.calls[t := Call(Storing, sid, 0)]), sid, NEW_SESSION)
    case DialFails(t) => Goto(s, t, NoDial)
    case OpenFails(t) => Goto(s, t, Leaving(s.calls[t].pc.origin, Failed))
    case Repeat(t) => Goto(s, t, IdleLocking)
    case Wait(t) => s
    case Go(t) =>
      var c := s.calls[t];
      var (pc, x) := Advance(c.pc, s.sessions[c.sid], t, c.stream, s.limit);
      var pool := if c.pc.Storing? then s.pool + {c.sid} else if c.pc.Deleting? then s.pool - {c.sid} else s.pool;
      Put(Goto(s, t, pc), c.sid, x).(pool := pool)
    case Die(sid) => Put(s, sid, Kill(s.sessions[sid]))
  }

  ghost predicate Feasible(s: State, ls: seq<Label>)
    decreases |ls|
  {
    ls == [] || (Enabled(s, ls[0]) && Feasible(Step(s, ls[0]), ls[1..]))
  }

  ghost function Exec(s: State, ls: seq<Label>): State
    requires Feasible(s, ls)
    decreases |ls|
  {
    if ls == [] then s else Exec(Step(s, ls[0]), ls[1..])
  }

  // ---- locks, capacity and idle close ----------------------------------------------------------------

  /** The part of a call that runs with the mutex held. */
  predicate InsideLock(pc: Pc) {
    pc.Checking? || pc.Opening? || pc.Leaving? || pc.IdleChecking? || pc.IdleClosing? || pc.IdleLeaving?
  }

  /** The stream of call t has been opened. */
  predicate HasOpened(pc: Pc) {
    pc.Got? || (pc.Leaving? && pc.v.Opened?)
  }

  /** What a call may rely on at its program counter. */
  ghost predicate CallInv(s: State, t: nat)
    requires t in s.calls
  {
    var c := s.calls[t];
    OnSession(c.pc) ==>
      && c.sid in s.sessions
      && var x := s.sessions[c.sid];
      && (InsideLock(c.pc) ==> x.holder == Some(t))
      && (c.pc.Opening? ==> |x.streams| < s.limit)
      && (c.pc.IdleClosing? ==> x.streams == {})
  }

  predicate Sound(x: Session, limit: nat) {
    |x.streams| <= limit && (x.closed ==> x.streams == {})
  }

  /** A mutex is held by a call that is inside it. */
  ghost predicate HolderInv(s: State, sid: nat)
    requires sid in s.sessions
  {
    var h := s.sessions[sid].holder;
    h.Some? ==> h.value in s.calls && s.calls[h.value].sid == sid && InsideLock(s.calls[h.value].pc)
  }

  /** The streams of a session are those of calls that opened them there. */
  ghost predicate OwnersInv(s: State, sid: nat)
    requires sid in s.sessions
  {
    forall k :: k in s.sessions[sid].streams ==> k in s.calls && s.calls[k].sid == sid && HasOpened(s.calls[k].pc)
  }

  ghost predicate Inv(s: State) {
    && s.limit >= 1
    && (forall t :: t in s.calls ==> CallInv(s, t))
    && (forall sid :: sid in s.sessions ==> Sound(s.sessions[sid], s.limit) && HolderInv(s, sid) && OwnersInv(s, sid))
  }

  /** What one step of a call does to its session. */
  lemma AdvanceSound(pc: Pc, x: Session, t: nat, stream: nat, limit: nat)
    requires Sound(x, limit) && (pc.Opening? ==> |x.streams| < limit)
    ensures Sound(Advance(pc, x, t, stream, limit).1, limit)
  {
  }

  lemma StepSound(s: State, l: Label, sid: nat)
    requires Inv(s) && Enabled(s, l) && sid in Step(s, l).sessions
    ensures Sound(Step(s, l).sessions[sid], s.limit)
  {
    if l.Go? {
      assert CallInv(s, l.t);
      var c := s.calls[l.t];
      AdvanceSound(c.pc, s.sessions[c.sid], l.t, c.stream, s.limit);
    }
  }

  lemma StepHolder(s: State, l: Label, sid: nat)
    requires Inv(s) && Enabled(s, l) && sid in Step(s, l).sessions
    ensures HolderInv(Step(s, l), sid)
  {
    if sid in s.sessions { assert HolderInv(s, sid); }
    if l.Go? { assert CallInv(s, l.t); }
  }

  lemma StepOwners(s: State, l: Label, sid: nat)
    requires Inv(s) && Enabled(s, l) && sid in Step(s, l).sessions
    ensures OwnersInv(Step(s, l), sid)
  {
    if sid in s.sessions { assert OwnersInv(s, sid); }
    if l.Go? { assert CallInv(s, l.t); }
  }

  lemma StepCallOther(s: State, l: Label, t: nat)
    requires Inv(s) && Enabled(s, l) && l.Go? && l.t != t && t in s.calls
    ensures CallInv(Step(s, l), t)
  {
    assert CallInv(s, t) && CallInv(s, l.t);
  }

  lemma StepCallOwn(s: State, l: Label)
    requires Inv(s) && Enabled(s, l) && l.Go?
    ensures CallInv(Step(s, l), l.t)
  {
    assert CallInv(s, l.t);
  }

  lemma StepCall(s: State, l: Label, t: nat)
    requires Inv(s) && Enabled(s, l) && t in Step(s, l).calls
    ensures CallInv(Step(s, l), t)
  {
    if l.Go? && l.t == t {
      StepCallOwn(s, l);
    } else if l.Go? {
      StepCallOther(s, l, t);
    } else if t in s.calls {
      assert CallInv(s, t);
    }
  }

  lemma StepInv(s: State, l: Label)
    requires Inv(s) && Enabled(s, l)
    ensures Inv(Step(s, l))
  {
    var s' := Step(s, l);
    forall t | t in s'.calls ensures CallInv(s', t) { StepCall(s, l, t); }
    forall sid | sid in s'.sessions
      ensures Sound(s'.sessions[sid], s'.limit) && HolderInv(s', sid) && OwnersInv(s', sid)
    {
      StepSound(s, l, sid);
      StepHolder(s, l, sid);
      StepOwners(s, l, sid);
    }
  }

  lemma {:induction false} RunInv(s: State, ls: seq<Label>)
    requires Inv(s) && Feasible(s, ls)
    ensures Inv(Exec(s, ls)) && Exec(s, ls).limit == s.limit
    decreases |ls|
  {
    if ls != [] {
      StepInv(s, ls[0]);
      RunInv(Step(s, ls[0]), ls[1..]);
    }
  }

  lemma InitInv(s: State)
    requires Init(s)
    ensures Inv(s)
  {
  }

  /** However opens, closes and deaths interleave, no session ever has more streams than the limit. */
  lemma CapacityNeverExceeded(s: State, ls: seq<Label>, sid: nat)
    requires Init(s) && Feasible(s, ls) && sid in Exec(s, ls).sessions
    ensures |Exec(s, ls).sessions[sid].streams| <= s.limit
  {
    InitInv(s);
    RunInv(s, ls);
  }

  /** The Close of tryCloseOnIdle runs with the session's mutex held and no stream on the session, so it
      takes no stream off any session. */
  lemma IdleCloseKillsNoStream(s: State, ls: seq<Label>, t: nat, sid: nat)
    requires Init(s) && Feasible(s, ls)
    requires var e := Exec(s, ls); Enabled(e, Go(t)) && e.calls[t].pc.IdleClosing? && sid in e.sessions
    ensures var e := Exec(s, ls);
            && e.sessions[e.calls[t].sid].streams == {} && e.sessions[e.calls[t].sid].holder == Some(t)
            && Step(e, Go(t)).sessions[sid].streams == e.sessions[sid].streams
  {
    InitInv(s);
    RunInv(s, ls);
    assert CallInv(Exec(s, ls), t);
  }

  /** A stream leaves its session only by a close of that very stream or by the death of the session. */
  lemma StreamLeaves(s: State, l: Label, sid: nat, k: nat)
    requires Inv(s) && Enabled(s, l) && sid in s.sessions
    requires k in s.sessions[sid].streams && k !in Step(s, l).sessions[sid].streams
    ensures l == Die(sid) || (l.Go? && s.calls[l.t] == Call(Removing, sid, k))
  {
    if l.Go? { assert CallInv(s, l.t); }
  }

  /** Call k has opened its stream and the stream is on no session any more. */
  ghost predicate Gone(s: State, k: nat) {
    && k in s.calls && HasOpened(s.calls[k].pc)
    && forall sid :: sid in s.sessions ==> k !in s.sessions[sid].streams
  }

  lemma StepGone(s: State, l: Label, k: nat)
    requires Inv(s) && Enabled(s, l) && Gone(s, k)
    ensures Gone(Step(s, l), k)
  {
  }

  /** A stream that has left its session never comes back, so its repeated closes, the tunnel's two and the
      deferred one, take it off once at most. */
  lemma {:induction false} RemovedOnce(s: State, ls: seq<Label>, k: nat)
    requires Inv(s) && Feasible(s, ls) && Gone(s, k)
    ensures Gone(Exec(s, ls), k)
    decreases |ls|
  {
    if ls != [] {
      StepInv(s, ls[0]);
      StepGone(s, ls[0], k);
      RemovedOnce(Step(s, ls[0]), ls[1..], k);
    }
  }

  /** Call t is about to take stream k off its session. */
  predicate TakesOff(s: State, t: nat, k: nat) {
    t in s.calls && s.calls[t].stream == k && s.calls[t].pc.Removing?
  }

  /** The stream is off, or the first Close of it is about to take it off. */
  ghost predicate GoneSoon(s: State, k: nat) {
    Gone(s, k) || exists t :: TakesOff(s, t, k)
  }

  /** A closing call knows the stream it closes, and a Close of it has begun once the call is past its own. */
  ghost predicate ClosingInv(s: State, t: nat)
    requires t in s.calls
  {
    var c := s.calls[t];
    IsClosing(c.pc) ==>
      && c.stream in s.calls && HasOpened(s.calls[c.stream].pc) && s.calls[c.stream].sid == c.sid
      && (!c.pc.Dropping? ==> GoneSoon(s, c.stream))
  }

  ghost predicate AllClosing(s: State) {
    forall t :: t in s.calls ==> ClosingInv(s, t)
  }

  lemma RemovalTakesOff(s: State, t: nat)
    requires Inv(s) && Enabled(s, Go(t)) && s.calls[t].pc.Removing? && ClosingInv(s, t)
    ensures Gone(Step(s, Go(t)), s.calls[t].stream)
  {
    var c := s.calls[t];
    var s' := Step(s, Go(t));
    forall sid | sid in s'.sessions
      ensures c.stream !in s'.sessions[sid].streams
    {
      assert OwnersInv(s, sid);
    }
  }

  lemma DeadTakesOff(s: State, k: nat)
    requires Inv(s) && k in s.calls && HasOpened(s.calls[k].pc)
    requires s.calls[k].sid in s.sessions && s.sessions[s.calls[k].sid].closed
    ensures Gone(s, k)
  {
    forall sid | sid in s.sessions
      ensures k !in s.sessions[sid].streams
    {
      assert OwnersInv(s, sid) && Sound(s.sessions[sid], s.limit);
    }
  }

  /** A stream that is off or about to be stays so. */
  lemma StepGoneSoon(s: State, l: Label, k: nat)
    requires Inv(s) && AllClosing(s) && Enabled(s, l) && GoneSoon(s, k)
    ensures GoneSoon(Step(s, l), k)
  {
    if Gone(s, k) {
      StepGone(s, l, k);
    } else {
      var t :| TakesOff(s, t, k);
      if l == Go(t) {
        assert ClosingInv(s, t);
        RemovalTakesOff(s, t);
      } else {
        assert TakesOff(Step(s, l), t, k);
      }
    }
  }

  /** A repeated Close finds the stream off, or the first Close at work. */
  lemma RepeatedClose(s: State, t: nat)
    requires Inv(s) && AllClosing(s) && Enabled(s, Repeat(t))
    ensures GoneSoon(s, s.calls[t].stream)
  {
    assert ClosingInv(s, t);
    var k := s.calls[t].stream;
    if Begun(s, k) {
      var u :| u in s.calls && s.calls[u].stream == k && IsClosing(s.calls[u].pc) && !s.calls[u].pc.Dropping?;
      assert ClosingInv(s, u);
    } else {
      DeadTakesOff(s, k);
    }
  }

  lemma StepClosing(s: State, l: Label, t: nat)
    requires Inv(s) && AllClosing(s) && Enabled(s, l) && t in Step(s, l).calls
    ensures ClosingInv(Step(s, l), t)
  {
    var s' := Step(s, l);
    if t in s.calls && IsClosing(s.calls[t].pc) {
      assert ClosingInv(s, t);
      var k := s.calls[t].stream;
      StepOpened(s, l, k);
      if l == Repeat(t) { RepeatedClose(s, t); }
      if l == Go(t) && s.calls[t].pc.Dropping? {
        assert TakesOff(s', t, k);
      } else if GoneSoon(s, k) {
        StepGoneSoon(s, l, k);
      }
    }
  }

  lemma StepOpened(s: State, l: Label, k: nat)
    requires Enabled(s, l) && k in s.calls && HasOpened(s.calls[k].pc)
    ensures var s' := Step(s, l); k in s'.calls && HasOpened(s'.calls[k].pc) && s'.calls[k].sid == s.calls[k].sid
  {
  }

  lemma {:induction false} RunClosing(s: State, ls: seq<Label>)
    requires Inv(s) && Feasible(s, ls) && AllClosing(s)
    ensures AllClosing(Exec(s, ls))
    decreases |ls|
  {
    if ls != [] {
      var s' := Step(s, ls[0]);
      forall t | t in s'.calls ensures ClosingInv(s', t) { StepClosing(s, ls[0], t); }
      StepInv(s, ls[0]);
      RunClosing(s', ls[1..]);
    }
  }

  /** Once a call is past the library's Close, whatever else goes on, the stream it closes is on no session, or
      an earlier Close of the same stream is still about to take it off. */
  lemma CloseTakesOff(s: State, ls: seq<Label>, t: nat)
    requires Init(s) && Feasible(s, ls)
    requires var e := Exec(s, ls);
             t in e.calls && IsClosing(e.calls[t].pc) && !e.calls[t].pc.Dropping? && !e.calls[t].pc.Removing?
    ensures var e := Exec(s, ls);
            var k := e.calls[t].stream;
            Gone(e, k) || exists u :: u != t && TakesOff(e, u, k)
  {
    InitInv(s);
    RunClosing(s, ls);
    assert ClosingInv(Exec(s, ls), t);
  }

  /** Call t has found the session it dialed full. */
  predicate FoundFull(s: State, t: nat) {
    t in s.calls && (s.calls[t].pc == Leaving(Fresh, TooMany) || s.calls[t].pc == Refused(TooMany))
  }

  /** Other calls hold the limit of streams on session sid. */
  ghost predicate HeldByOthers(s: State, sid: nat, t: nat) {
    && sid in s.sessions && |s.sessions[sid].streams| == s.limit
    && forall k :: k in s.sessions[sid].streams ==>
         k in s.calls && k != t && s.calls[k].sid == sid && HasOpened(s.calls[k].pc)
  }

  lemma StepFindsFull(s: State, l: Label, t: nat)
    requires Inv(s) && Enabled(s, l) && FoundFull(Step(s, l), t) && !FoundFull(s, t)
    ensures l == Go(t) && HeldByOthers(s, Step(s, l).calls[t].sid, t)
  {
    var sid := s.calls[t].sid;
    assert Sound(s.sessions[sid], s.limit) && OwnersInv(s, sid);
  }

  lemma {:induction false} RunFoundFull(s: State, ls: seq<Label>, t: nat)
    requires Feasible(s, ls) && FoundFull(s, t)
    ensures t in Exec(s, ls).calls && Exec(s, ls).calls[t].sid == s.calls[t].sid
    decreases |ls|
  {
    if ls != [] {
      RunFoundFull(Step(s, ls[0]), ls[1..], t);
    }
  }

  lemma {:induction false} FullWhenChecked(s: State, ls: seq<Label>, t: nat) returns (i: nat)
    requires Inv(s) && Feasible(s, ls) && !FoundFull(s, t) && FoundFull(Exec(s, ls), t)
    ensures i < |ls| && ls[i] == Go(t) && Feasible(s, ls[..i])
    ensures HeldByOthers(Exec(s, ls[..i]), Exec(s, ls).calls[t].sid, t)
    decreases |ls|
  {
    var s' := Step(s, ls[0]);
    if FoundFull(s', t) {
      StepFindsFull(s, ls[0], t);
      RunFoundFull(s', ls[1..], t);
      i := 0;
    } else {
      StepInv(s, ls[0]);
      var j := FullWhenChecked(s', ls[1..], t);
      i := j + 1;
      assert ls[..i][0] == ls[0] && ls[..i][1..] == ls[1..][..j];
    }
  }

  /** When getMuxStream has answered "too many streams" for the session it dialed, other calls held the limit
      of live streams on that session at the moment the call checked it. */
  lemma FreshRefusalNeedsOthers(s: State, ls: seq<Label>, t: nat) returns (i: nat)
    requires Init(s) && Feasible(s, ls) && t in Exec(s, ls).calls && Exec(s, ls).calls[t].pc == Refused(TooMany)
    ensures i < |ls| && ls[i] == Go(t) && Feasible(s, ls[..i])
    ensures HeldByOthers(Exec(s, ls[..i]), Exec(s, ls).calls[t].sid, t)
    ensures |Exec(s, ls[..i]).sessions[Exec(s, ls).calls[t].sid].streams| == s.limit
  {
    InitInv(s);
    i := FullWhenChecked(s, ls, t);
    RunInv(s, ls[..i]);
  }

  /** Call t is about to be served: it holds the mutex of its session, which is open and below the limit. */
  predicate BeingServed(s: State, t: nat) {
    && t in s.calls && s.calls[t].pc.Opening?
    && var sid := s.calls[t].sid;
    && sid in s.sessions && !s.sessions[sid].closed && s.sessions[sid].holder == Some(t)
    && |s.sessions[sid].streams| < s.limit && t !in s.sessions[sid].streams
  }

  lemma StepServes(s: State, l: Label, t: nat)
    requires Inv(s) && Enabled(s, l) && t in Step(s, l).calls && HasOpened(Step(s, l).calls[t].pc)
    requires !(t in s.calls && HasOpened(s.calls[t].pc))
    ensures l == Go(t) && BeingServed(s, t) && Step(s, l).calls[t].sid == s.calls[t].sid
    ensures t in Step(s, l).sessions[s.calls[t].sid].streams
  {
    assert CallInv(s, t) && OwnersInv(s, s.calls[t].sid);
  }

  lemma {:induction false} RunOpened(s: State, ls: seq<Label>, t: nat)
    requires Feasible(s, ls) && t in s.calls && HasOpened(s.calls[t].pc)
    ensures t in Exec(s, ls).calls && Exec(s, ls).calls[t].sid == s.calls[t].sid
    decreases |ls|
  {
    if ls != [] {
      StepOpened(s, ls[0], t);
      RunOpened(Step(s, ls[0]), ls[1..], t);
    }
  }

  /** Behind every stream that a call has got there is one step that put it on the call's session, which was
      open and below the limit then and locked by the call. */
  lemma {:induction false} ServedOnce(s: State, ls: seq<Label>, t: nat) returns (i: nat)
    requires Inv(s) && Feasible(s, ls) && !(t in s.calls && HasOpened(s.calls[t].pc))
    requires t in Exec(s, ls).calls && HasOpened(Exec(s, ls).calls[t].pc)
    ensures i < |ls| && ls[i] == Go(t) && Feasible(s, ls[..i]) && BeingServed(Exec(s, ls[..i]), t)
    ensures Exec(s, ls[..i]).calls[t].sid == Exec(s, ls).calls[t].sid
    decreases |ls|
  {
    var s' := Step(s, ls[0]);
    if t in s'.calls && HasOpened(s'.calls[t].pc) {
      StepServes(s, ls[0], t);
      RunOpened(s', ls[1..], t);
      i := 0;
    } else {
      StepInv(s, ls[0]);
      var j := ServedOnce(s', ls[1..], t);
      i := j + 1;
      assert ls[..i][0] == ls[0] && ls[..i][1..] == ls[1..][..j];
    }
  }

  // ---- a session found dead goes first ---------------------------------------------------------------

  ghost predicate BeingStored(s: State, sid: nat) {
    exists t :: t in s.calls && s.calls[t].sid == sid && s.calls[t].pc.Storing?
  }

  /** The session is known and no call is about to put it in the pool. */
  ghost predicate OutOfPool(s: State, sid: nat) {
    sid in s.sessions && sid !in s.pool && !BeingStored(s, sid)
  }

  lemma StepOut(s: State, l: Label, sid: nat)
    requires Enabled(s, l) && OutOfPool(s, sid)
    ensures OutOfPool(Step(s, l), sid)
  {
  }

  /** A session about to be stored has never been, and is one call's alone; a search works on stored ones. */
  ghost predicate StoredInv(s: State, t: nat)
    requires t in s.calls
  {
    var c := s.calls[t];
    && (c.pc.Storing? ==>
          && c.sid in s.sessions && !s.sessions[c.sid].stored
          && forall u :: u in s.calls && u != t && s.calls[u].pc.Storing? ==> s.calls[u].sid != c.sid)
    && (c.pc.Probing? || c.pc.Deleting? || AtPooled(c.pc) ==> c.sid in s.sessions && s.sessions[c.sid].stored)
  }

  /** In openStream on a pooled session. */
  predicate AtPooled(pc: Pc) {
    (pc.Locking? || pc.Checking? || pc.Opening? || pc.Leaving?) && pc.origin.Pooled?
  }

  ghost predicate AllStored(s: State) {
    forall t :: t in s.calls ==> StoredInv(s, t)
  }

  lemma StepStored(s: State, l: Label, t: nat)
    requires AllStored(s) && Enabled(s, l) && t in Step(s, l).calls
    ensures StoredInv(Step(s, l), t)
  {
    if t in s.calls { assert StoredInv(s, t); }
    if l.Go? { assert StoredInv(s, l.t); }
  }

  lemma {:induction false} RunStored(s: State, ls: seq<Label>)
    requires AllStored(s) && Feasible(s, ls)
    ensures AllStored(Exec(s, ls))
    decreases |ls|
  {
    if ls != [] {
      var s' := Step(s, ls[0]);
      forall t | t in s'.calls ensures StoredInv(s', t) { StepStored(s, ls[0], t); }
      RunStored(s', ls[1..]);
    }
  }

  /** The search of call t has met session sid closed, or OpenStream has failed on it, and has not deleted it. */
  ghost predicate OnItsWayOut(s: State, t: nat, sid: nat) {
    && t in s.calls && s.calls[t].sid == sid && sid in s.sessions
    && match s.calls[t].pc {
      case Probing(_) => s.sessions[sid].closed
      case Leaving(o, v) => o.Pooled? && v.Failed?
      case Deleting(_) => true
      case _ => false
    }
  }

  lemma StepWayOut(s: State, l: Label, t: nat, sid: nat)
    requires AllStored(s) && Enabled(s, l) && OnItsWayOut(s, t, sid)
    ensures OnItsWayOut(Step(s, l), t, sid) || OutOfPool(Step(s, l), sid)
  {
    assert StoredInv(s, t);
    assert forall u :: u in s.calls && s.calls[u].pc.Storing? ==> s.calls[u].sid != sid by {
      assert forall u :: u in s.calls ==> StoredInv(s, u);
    }
  }

  lemma {:induction false} RunWayOut(s: State, ls: seq<Label>, t: nat, sid: nat)
    requires AllStored(s) && Feasible(s, ls) && (OnItsWayOut(s, t, sid) || OutOfPool(s, sid))
    ensures OnItsWayOut(Exec(s, ls), t, sid) || OutOfPool(Exec(s, ls), sid)
    decreases |ls|
  {
    if ls != [] {
      var s' := Step(s, ls[0]);
      if OutOfPool(s, sid) { StepOut(s, ls[0], sid); } else { StepWayOut(s, ls[0], t, sid); }
      forall u | u in s'.calls ensures StoredInv(s', u) { StepStored(s, ls[0], u); }
      RunWayOut(s', ls[1..], t, sid);
    }
  }

  /** A search that has met a closed session, or one on which OpenStream failed, goes on to another session, to a
      dial or to any end only when that session is out of the pool, where it stays. */
  lemma DeadGoFirst(s: State, before: seq<Label>, ls: seq<Label>, t: nat)
    requires Init(s) && Feasible(s, before) && Feasible(Exec(s, before), ls)
    requires var m := Exec(s, before);
             && t in m.calls && m.calls[t].sid in m.sessions
             && var (pc, x) := (m.calls[t].pc, m.sessions[m.calls[t].sid]);
             (pc.Probing? && x.closed) || (pc.Leaving? && pc.origin.Pooled? && pc.v == Failed)
    ensures var m, e := Exec(s, before), Exec(Exec(s, before), ls);
            var sid := m.calls[t].sid;
            || sid !in e.pool
            || (t in e.calls && e.calls[t].sid == sid
                && (e.calls[t].pc.Probing? || e.calls[t].pc.Leaving? || e.calls[t].pc.Deleting?))
  {
    var m := Exec(s, before);
    RunStored(s, before);
    RunWayOut(m, ls, t, m.calls[t].sid);
  }

  // ---- no idle session is leaked ---------------------------------------------------------------------

  /** Call c will give the empty session sid a stream, or close it, or is about to store it. */
  predicate Tends(c: Call, sid: nat) {
    c.sid == sid && match c.pc {
      case Storing => true
      case Locking(o) => o.Fresh?
      case Checking(o) => o.Fresh?
      case Opening(o) => o.Fresh?
      case IdleLocking => true
      case IdleChecking => true
      case IdleClosing => true
      case _ => false
    }
  }

  ghost predicate Tended(s: State, sid: nat) {
    exists t :: t in s.calls && Tends(s.calls[t], sid)
  }

  ghost function OpenSessions(s: State): set<nat> {
    set sid | sid in s.sessions && !s.sessions[sid].closed
  }

  /** Every open session has a stream, or a call is about to open its first, or a call is about to close it. */
  ghost predicate NoneIdle(s: State) {
    forall sid :: sid in OpenSessions(s) ==> s.sessions[sid].streams != {} || Tended(s, sid)
  }

  /** OpenStream fails on the session just dialed, which is open and empty and which no other call tends: the
      last return of getMuxStream leaves it behind. */
  ghost predicate Leaks(s: State, l: Label) {
    && l.OpenFails? && l.t in s.calls && s.calls[l.t].pc == Opening(Fresh)
    && var sid := s.calls[l.t].sid;
    && sid in OpenSessions(s) && s.sessions[sid].streams == {}
    && forall u :: u in s.calls && Tends(s.calls[u], sid) ==> u == l.t
  }

  /** A tending call that does not finish its task in this step still tends. */
  lemma StepTended(s: State, l: Label, sid: nat)
    requires Inv(s) && Enabled(s, l) && !Leaks(s, l) && Tended(s, sid)
    requires sid in OpenSessions(s) && s.sessions[sid].streams == {}
    requires sid in OpenSessions(Step(s, l)) && Step(s, l).sessions[sid].streams == {}
    ensures Tended(Step(s, l), sid)
  {
    var t :| t in s.calls && Tends(s.calls[t], sid) && l != OpenFails(t);
    assert CallInv(s, t);
    if l.Go? { assert CallInv(s, l.t); }
    assert t in Step(s, l).calls && Tends(Step(s, l).calls[t], sid);
  }

  lemma StepEmptied(s: State, l: Label, sid: nat)
    requires Inv(s) && Enabled(s, l) && sid in s.sessions
    requires s.sessions[sid].streams != {}
    requires !Step(s, l).sessions[sid].closed && Step(s, l).sessions[sid].streams == {}
    ensures Tended(Step(s, l), sid)
  {
    var k :| k in s.sessions[sid].streams;
    StreamLeaves(s, l, sid, k);
    assert l.t in Step(s, l).calls && Tends(Step(s, l).calls[l.t], sid);
  }

  lemma StepOpenBefore(s: State, l: Label, sid: nat)
    requires Inv(s) && Enabled(s, l) && sid in OpenSessions(Step(s, l))
    ensures sid in OpenSessions(s) || (l.DialOk? && l.sid == sid)
  {
  }

  lemma StepNoneIdle(s: State, l: Label)
    requires Inv(s) && Enabled(s, l) && NoneIdle(s) && !Leaks(s, l)
    ensures NoneIdle(Step(s, l))
  {
    var s' := Step(s, l);
    forall sid | sid in OpenSessions(s')
      ensures s'.sessions[sid].streams != {} || Tended(s', sid)
    {
      StepOpenBefore(s, l, sid);
      if sid !in OpenSessions(s) {
        assert l.t in s'.calls && Tends(s'.calls[l.t], sid);
      } else if s'.sessions[sid].streams == {} {
        if s.sessions[sid].streams == {} { StepTended(s, l, sid); } else { StepEmptied(s, l, sid); }
      }
    }
  }

  lemma LeakLeavesIdle(s: State, l: Label)
    requires Enabled(s, l) && Leaks(s, l)
    ensures !NoneIdle(Step(s, l))
  {
    var s', sid := Step(s, l), s.calls[l.t].sid;
    assert sid in OpenSessions(s') && s'.sessions[sid].streams == {};
    forall u | u in s'.calls
      ensures !Tends(s'.calls[u], sid)
    {
      assert u != l.t ==> s'.calls[u] == s.calls[u];
    }
  }

  /** No step of the run leaks. */
  ghost predicate LeakFree(s: State, ls: seq<Label>)
    requires Feasible(s, ls)
    decreases |ls|
  {
    ls == [] || (!Leaks(s, ls[0]) && LeakFree(Step(s, ls[0]), ls[1..]))
  }

  /** No open session is idle in any state of the run. */
  ghost predicate NeverIdle(s: State, ls: seq<Label>)
    requires Feasible(s, ls)
    decreases |ls|
  {
    NoneIdle(s) && (ls == [] || NeverIdle(Step(s, ls[0]), ls[1..]))
  }

  lemma {:induction false} RunNoneIdle(s: State, ls: seq<Label>)
    requires Inv(s) && Feasible(s, ls) && NoneIdle(s)
    ensures NeverIdle(s, ls) <==> LeakFree(s, ls)
    ensures LeakFree(s, ls) ==> NoneIdle(Exec(s, ls))
    decreases |ls|
  {
    if ls != [] {
      StepInv(s, ls[0]);
      if Leaks(s, ls[0]) {
        LeakLeavesIdle(s, ls[0]);
      } else {
        StepNoneIdle(s, ls[0]);
        RunNoneIdle(Step(s, ls[0]), ls[1..]);
      }
    }
  }

  /** At every moment of a run an open session has a live stream, or some call is between dialing it and its
      first openStream, or some call is between closing a stream of it and the end of tryCloseOnIdle, if and
      only if the run never leaks. */
  lemma IdleOnlyByLeak(s: State, ls: seq<Label>)
    requires Init(s) && Feasible(s, ls)
    ensures NeverIdle(s, ls) <==> LeakFree(s, ls)
  {
    InitInv(s);
    RunNoneIdle(s, ls);
  }

  // ---- no open session is lost from the pool ---------------------------------------------------------

  /** Every open session is in the pool, or not yet. */
  ghost predicate NoneLost(s: State) {
    forall sid :: sid in OpenSessions(s) ==> if s.sessions[sid].stored then sid in s.pool else BeingStored(s, sid)
  }

  /** The search deletes a session that is still open: OpenStream failed on it although it was not closed. */
  ghost predicate Loses(s: State, l: Label) {
    && l.Go? && l.t in s.calls && s.calls[l.t].pc.Deleting?
    && var sid := s.calls[l.t].sid;
    sid in OpenSessions(s) && s.sessions[sid].stored
  }

  lemma StepNoneLost(s: State, l: Label)
    requires Inv(s) && Enabled(s, l) && NoneLost(s)
    ensures NoneLost(Step(s, l)) <==> !Loses(s, l)
  {
    var s' := Step(s, l);
    if l.Go? { assert CallInv(s, l.t); }
    if Loses(s, l) {
      assert s.calls[l.t].sid in OpenSessions(s');
    } else {
      forall sid | sid in OpenSessions(s')
        ensures if s'.sessions[sid].stored then sid in s'.pool else BeingStored(s', sid)
      {
        StepPlaced(s, l, sid);
      }
    }
  }

  lemma StepPlaced(s: State, l: Label, sid: nat)
    requires Inv(s) && Enabled(s, l) && NoneLost(s) && !Loses(s, l) && sid in OpenSessions(Step(s, l))
    ensures if Step(s, l).sessions[sid].stored then sid in Step(s, l).pool else BeingStored(Step(s, l), sid)
  {
    var s' := Step(s, l);
    StepOpenBefore(s, l, sid);
    if l.Go? { assert CallInv(s, l.t); }
    if sid !in OpenSessions(s) {
      assert l.t in s'.calls && s'.calls[l.t].sid == sid && s'.calls[l.t].pc.Storing?;
    } else if !s.sessions[sid].stored {
      var t :| t in s.calls && s.calls[t].sid == sid && s.calls[t].pc.Storing?;
      assert s'.sessions[sid].stored || (t in s'.calls && s'.calls[t].sid == sid && s'.calls[t].pc.Storing?);
    }
  }

  /** No step of the run loses a session. */
  ghost predicate LossFree(s: State, ls: seq<Label>)
    requires Feasible(s, ls)
    decreases |ls|
  {
    ls == [] || (!Loses(s, ls[0]) && LossFree(Step(s, ls[0]), ls[1..]))
  }

  /** No open session is lost in any state of the run. */
  ghost predicate NeverLost(s: State, ls: seq<Label>)
    requires Feasible(s, ls)
    decreases |ls|
  {
    NoneLost(s) && (ls == [] || NeverLost(Step(s, ls[0]), ls[1..]))
  }

  lemma {:induction false} RunNoneLost(s: State, ls: seq<Label>)
    requires Inv(s) && Feasible(s, ls) && NoneLost(s)
    ensures NeverLost(s, ls) <==> LossFree(s, ls)
    ensures LossFree(s, ls) ==> NoneLost(Exec(s, ls))
    decreases |ls|
  {
    if ls != [] {
      StepInv(s, ls[0]);
      StepNoneLost(s, ls[0]);
      if !Loses(s, ls[0]) {
        RunNoneLost(Step(s, ls[0]), ls[1..]);
      }
    }
  }

  /** At every moment of a run an open session is in the pool, unless it is still to be stored, if and only if
      the search never deletes a session that is open. */
  lemma LostOnlyByDelete(s: State, ls: seq<Label>)
    requires Init(s) && Feasible(s, ls)
    ensures NeverLost(s, ls) <==> LossFree(s, ls)
  {
    InitInv(s);
    RunNoneLost(s, ls);
  }

  // ---- when OpenStream fails on closed sessions only -------------------------------------------------

  /** Calls drop closed sessions only. */
  ghost predicate DropInv(s: State, t: nat)
    requires t in s.calls
  {
    var c := s.calls[t];
    c.pc.Deleting? || (c.pc.Leaving? && c.pc.v.Failed?) ==> c.sid in s.sessions && s.sessions[c.sid].closed
  }

  ghost predicate DropsClosed(s: State) {
    forall t :: t in s.calls ==> DropInv(s, t)
  }

  lemma StepDrop(s: State, l: Label, t: nat)
    requires Inv(s) && DropsClosed(s) && Enabled(s, l) && !l.OpenFails? && t in Step(s, l).calls
    ensures DropInv(Step(s, l), t)
  {
    if t in s.calls { assert DropInv(s, t); }
    if l.Go? { assert CallInv(s, l.t); }
  }

  ghost predicate OpensHonoured(ls: seq<Label>) {
    forall l :: l in ls ==> !l.OpenFails?
  }

  lemma {:induction false} HonouredRun(s: State, ls: seq<Label>)
    requires Inv(s) && Feasible(s, ls) && DropsClosed(s) && OpensHonoured(ls)
    ensures LeakFree(s, ls) && LossFree(s, ls)
    decreases |ls|
  {
    if ls != [] {
      var s' := Step(s, ls[0]);
      assert ls[0] in ls;
      StepInv(s, ls[0]);
      if ls[0].Go? { assert DropInv(s, ls[0].t); }
      forall t | t in s'.calls ensures DropInv(s', t) { StepDrop(s, ls[0], t); }
      HonouredRun(s', ls[1..]);
    }
  }

  /** If OpenStream fails on closed sessions only, no open session is ever idle or lost. */
  lemma NoIdleSessionLeaked(s: State, ls: seq<Label>)
    requires Init(s) && Feasible(s, ls) && OpensHonoured(ls)
    ensures NeverIdle(s, ls) && NeverLost(s, ls)
  {
    InitInv(s);
    HonouredRun(s, ls);
    IdleOnlyByLeak(s, ls);
    LostOnlyByDelete(s, ls);
  }

  predicate AtRest(pc: Pc) {
    pc.Got? || pc.Refused? || pc.NoDial? || pc.Closed?
  }

  ghost function StreamsOf(s: State): map<nat, set<nat>> {
    map sid | sid in s.sessions :: s.sessions[sid].streams
  }

  /** When no call is in flight after a run without a leak every open session has a stream, and there are no
      more of them than live streams; after a run without a loss they are all in the pool. */
  lemma QuiescentPool(s: State, ls: seq<Label>)
    requires Init(s) && Feasible(s, ls)
    requires forall t :: t in Exec(s, ls).calls ==> AtRest(Exec(s, ls).calls[t].pc)
    ensures var e := Exec(s, ls);
            && (LeakFree(s, ls) ==>
                  && (forall sid :: sid in OpenSessions(e) ==> e.sessions[sid].streams != {})
                  && |OpenSessions(e)| <= |Members(StreamsOf(e), OpenSessions(e))|)
            && (LossFree(s, ls) ==> OpenSessions(e) <= e.pool)
  {
    var e := Exec(s, ls);
    InitInv(s);
    RunInv(s, ls);
    RunNoneIdle(s, ls);
    RunNoneLost(s, ls);
    StreamsDisjoint(e);
    if LeakFree(s, ls) {
      forall sid | sid in OpenSessions(e)
        ensures |StreamsOf(e)[sid]| >= 1
      {
        assert e.sessions[sid].streams != {};
      }
      BlocksCover(StreamsOf(e), OpenSessions(e), 1);
    }
  }

  lemma StreamsDisjoint(s: State)
    requires Inv(s)
    ensures Disjoint(StreamsOf(s))
  {
    var fam := StreamsOf(s);
    forall j, k | j in fam && k in fam && j != k
      ensures fam[j] !! fam[k]
    {
      assert OwnersInv(s, j) && OwnersInv(s, k);
    }
  }

  lemma {:induction false} ExtendRun(s: State, ls: seq<Label>, l: Label)
    requires Feasible(s, ls) && Enabled(Exec(s, ls), l)
    ensures Feasible(s, ls + [l]) && Exec(s, ls + [l]) == Step(Exec(s, ls), l)
    decreases |ls|
  {
    if ls == [] {
      assert [l][1..] == [] && ls + [l] == [l];
    } else {
      assert (ls + [l])[1..] == ls[1..] + [l];
      ExtendRun(Step(s, ls[0]), ls[1..], l);
    }
  }

  /** Runs do leak: a failed OpenStream on the session just dialed leaves it open, pooled and empty with no call
      in flight. */
  lemma FailedOpenLeaks(s: State) returns (ls: seq<Label>)
    requires Init(s)
    ensures Feasible(s, ls)
    ensures var e := Exec(s, ls);
            && (forall t :: t in e.calls ==> AtRest(e.calls[t].pc))
            && 7 in e.pool && 7 in e.sessions && !e.sessions[7].closed && e.sessions[7].streams == {}
  {
    ls := FailedOpenDials(s);
    ls := FailedOpenLocks(s, ls);
    ExtendRun(s, ls, Go(1));
    ls := ls + [Go(1)];
    ExtendRun(s, ls, OpenFails(1));
    ls := ls + [OpenFails(1)];
    ExtendRun(s, ls, Go(1));
    ls := ls + [Go(1)];
  }

  lemma FailedOpenDials(s: State) returns (ls: seq<Label>)
    requires Init(s)
    ensures Feasible(s, ls)
    ensures Exec(s, ls) == State(s.limit, map[7 := NEW_SESSION], {}, map[1 := Call(Storing, 7, 0)])
  {
    ls := [];
    ExtendRun(s, ls, StartGet(1));
    ls := ls + [StartGet(1)];
    ExtendRun(s, ls, EndRange(1));
    ls := ls + [EndRange(1)];
    ExtendRun(s, ls, DialOk(1, 7));
    ls := ls + [DialOk(1, 7)];
  }

  lemma FailedOpenLocks(s: State, before: seq<Label>) returns (ls: seq<Label>)
    requires s.limit >= 1 && Feasible(s, before)
    requires Exec(s, before) == State(s.limit, map[7 := NEW_SESSION], {}, map[1 := Call(Storing, 7, 0)])
    ensures Feasible(s, ls)
    ensures Exec(s, ls) == State(s.limit, map[7 := Session(false, {}, Some(1), true)], {7},
                                 map[1 := Call(Checking(Fresh), 7, 0)])
  {
    ls := before;
    ExtendRun(s, ls, Go(1));
    ls := ls + [Go(1)];
    ExtendRun(s, ls, Go(1));
    ls := ls + [Go(1)];
  }

  // ---- the pool --------------------------------------------------------------------------------------

  /** A session taken out of the pool never comes back. */
  lemma {:induction false} DroppedForGood(s: State, ls: seq<Label>, sid: nat)
    requires Feasible(s, ls) && OutOfPool(s, sid)
    ensures sid !in Exec(s, ls).pool
    decreases |ls|
  {
    if ls != [] {
      StepOut(s, ls[0], sid);
      DroppedForGood(Step(s, ls[0]), ls[1..], sid);
    }
  }
}

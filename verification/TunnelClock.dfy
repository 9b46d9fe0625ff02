/** The timeout of openTunnel (internal/core/common.go): how long a tunnel lives without traffic. */
module TunnelClock {
  import opened Prelude
  import opened CopyLoop
  import opened Tunnel

  /** A loop lets time pass only while it waits in a call on an open connection whose deadline has not been
      reached, or when it has ended. */
  predicate Waits(s: State, x: Side, d: nat) {
    match s.loops.Get(x).pc
    case Reading =>
      var src := s.conns.Get(Other(x));
      !src.closed && src.readDeadline.Some? && s.now + d <= src.readDeadline.value
    case Writing(_, _) =>
      var dst := s.conns.Get(x);
      !dst.closed && dst.writeDeadline.Some? && s.now + d <= dst.writeDeadline.value
    case Ended => true
    case _ => false
  }

  /** The steps of a run in which local steps take no time, calls return by their deadline and a Read
      that returns no error returns some bytes. */
  predicate Timely(s: State, l: Label) {
    match l
    case Tick(d) => d == 0 || (Waits(s, A, d) && Waits(s, B, d))
    case ReadReturns(_, data, er) => data != [] || er.Some?
    case _ => true
  }

  predicate Reached(deadline: Option<int>, now: int) {
    deadline.Some? && deadline.value <= now
  }

  /** A call that times out has reached its deadline. */
  predicate Punctual(s: State, l: Label) {
    match l
    case ReadReturns(x, _, er) => er == Some(TIMEOUT) ==> Reached(s.conns.Get(Other(x)).readDeadline, s.now)
    case WriteReturns(x, _, ew) => ew == Some(TIMEOUT) ==> Reached(s.conns.Get(x).writeDeadline, s.now)
    case _ => true
  }

  ghost predicate TimelyRun(s: State, ls: seq<Label>)
    requires Feasible(s, ls)
    decreases |ls|
  {
    ls == [] || (Timely(s, ls[0]) && TimelyRun(Step(s, ls[0]), ls[1..]))
  }

  ghost predicate PunctualRun(s: State, ls: seq<Label>)
    requires Feasible(s, ls)
    decreases |ls|
  {
    ls == [] || (Punctual(s, ls[0]) && PunctualRun(Step(s, ls[0]), ls[1..]))
  }

  // ---- at the latest ---------------------------------------------------------------------------------

  /** When direction x has been idle for the timeout. */
  function Until(s: State, x: Side): int {
    s.loops.Get(x).moved + s.timeout
  }

  /** A running loop is either at the instant it last moved a byte or inside a call whose deadline is at most
      the timeout after that. */
  ghost predicate LoopClock(s: State, x: Side) {
    var l := s.loops.Get(x);
    LONG_TIME_AGO < l.moved <= s.now &&
    match l.pc
    case NowRead => s.now == l.moved
    case LoadRead(at) => at == s.now == l.moved
    case SetRead(at, t) => at == s.now == l.moved && t <= s.timeout
    case NowWrite(data, _) => data != [] && s.now == l.moved
    case LoadWrite(data, _, at) => data != [] && at == s.now == l.moved
    case SetWrite(data, _, at, t) => data != [] && at == s.now == l.moved && t <= s.timeout
    case Reading => var d := s.conns.Get(Other(x)).readDeadline; d.Some? && d.value <= Until(s, x)
    case Writing(data, _) => var d := s.conns.Get(x).writeDeadline; data != [] && d.Some? && d.value <= Until(s, x)
    case _ => true
  }

  ghost predicate ClockInv(s: State) {
    && s.cell <= s.timeout
    && (BothEnded(s) || (s.now <= Until(s, A) && s.now <= Until(s, B)))
    && LoopClock(s, A) && LoopClock(s, B)
  }

  lemma OwnLoopClock(s: State, l: Label, x: Side)
    requires ClockInv(s) && Enabled(s, l) && Timely(s, l) && LoopClock(s, x) && Takes(l, x)
    ensures LoopClock(Step(s, l), x)
  {
  }

  lemma TickLoopClock(s: State, d: nat, x: Side)
    requires Timely(s, Tick(d)) && LoopClock(s, x)
    ensures LoopClock(Step(s, Tick(d)), x)
  {
  }

  lemma OtherLoopClock(s: State, l: Label, x: Side)
    requires Enabled(s, l) && LoopClock(s, x) && (Takes(l, Other(x)) || l.Return?)
    ensures LoopClock(Step(s, l), x)
  {
    assert Step(s, l).loops.Get(x) == s.loops.Get(x);
  }

  lemma StepLoopClock(s: State, l: Label, x: Side)
    requires ClockInv(s) && Enabled(s, l) && Timely(s, l) && LoopClock(s, x)
    ensures LoopClock(Step(s, l), x)
  {
    if Takes(l, x) {
      OwnLoopClock(s, l, x);
    } else if l.Tick? {
      TickLoopClock(s, l.d, x);
    } else {
      OtherLoopClock(s, l, x);
    }
  }

  /** Time stands still while one loop has ended and the other has not: both connections are closed then. */
  lemma StepDue(s: State, l: Label)
    requires Inv(s) && ClockInv(s) && Enabled(s, l) && Timely(s, l)
    ensures var s' := Step(s, l); BothEnded(s') || (s'.now <= Until(s', A) && s'.now <= Until(s', B))
  {
    if l.Tick? {
      assert TeardownInv(s, A) && TeardownInv(s, B);
      assert s.loops.Get(A) == s.loops.a && s.loops.Get(B) == s.loops.b;
    } else {
      StepMoved(s, l, A);
      StepMoved(s, l, B);
    }
  }

  lemma StepMoved(s: State, l: Label, x: Side)
    requires Enabled(s, l) && !l.Tick? && s.loops.Get(x).moved <= s.now
    ensures var s' := Step(s, l);
            s'.now == s.now && s'.timeout == s.timeout && s'.loops.Get(x).moved >= s.loops.Get(x).moved
    ensures BothEnded(s) ==> BothEnded(Step(s, l))
  {
  }

  lemma StepClock(s: State, l: Label)
    requires Inv(s) && ClockInv(s) && Enabled(s, l) && Timely(s, l)
    ensures ClockInv(Step(s, l)) && Step(s, l).timeout == s.timeout
  {
    StepLoopClock(s, l, A);
    StepLoopClock(s, l, B);
    StepDue(s, l);
  }

  lemma {:induction false} RunClock(s: State, ls: seq<Label>)
    requires Inv(s) && ClockInv(s) && Feasible(s, ls) && TimelyRun(s, ls)
    ensures Inv(Exec(s, ls)) && ClockInv(Exec(s, ls)) && Exec(s, ls).timeout == s.timeout
    decreases |ls|
  {
    if ls != [] {
      StepInv(s, ls[0]);
      StepClock(s, ls[0]);
      RunClock(Step(s, ls[0]), ls[1..]);
    }
  }

  /** The step moves a byte in direction x. */
  predicate Moves(l: Label, x: Side) {
    (l.ReadReturns? && l.x == x && l.data != []) || (l.WriteReturns? && l.x == x && l.nw > 0)
  }

  lemma {:induction false} StillRun(s: State, ls: seq<Label>, x: Side)
    requires Feasible(s, ls) && forall l :: l in ls ==> !Moves(l, x)
    ensures Exec(s, ls).loops.Get(x).moved == s.loops.Get(x).moved
    decreases |ls|
  {
    if ls != [] {
      assert ls[0] in ls;
      StillRun(Step(s, ls[0]), ls[1..], x);
    }
  }

  /** If from some moment of a run on no byte moves in one of the two directions, both loops have ended by the
      time the timeout has passed, wherever in its iteration each loop was at that moment, and however much
      moves in the other direction. */
  lemma IdleBound(s0: State, before: seq<Label>, idle: seq<Label>, x: Side)
    requires Init(s0) && Feasible(s0, before) && TimelyRun(s0, before)
    requires var t := Exec(s0, before); Feasible(t, idle) && TimelyRun(t, idle)
    requires forall l :: l in idle ==> !Moves(l, x)
    ensures var t := Exec(s0, before);
            Exec(t, idle).now > t.now + s0.timeout ==> BothEnded(Exec(t, idle))
  {
    InitInv(s0);
    RunClock(s0, before);
    var t := Exec(s0, before);
    RunClock(t, idle);
    StillRun(t, idle, x);
  }

  /** A loop that has ended its copying and not its teardown lets no time pass, nor does one on closed
      connections. */
  lemma TeardownStep(s: State, l: Label, x: Side)
    requires Inv(s) && Finished(s.loops.Get(x).pc) && Enabled(s, l) && Timely(s, l) && !BothEnded(s)
    ensures Step(s, l).now == s.now
  {
    assert TeardownInv(s, A) && TeardownInv(s, B);
    assert s.loops.Get(A) == s.loops.a && s.loops.Get(B) == s.loops.b;
  }

  /** From the moment the copying of one direction has ended no time passes until both have: the teardown leaves
      nothing to wait for. */
  lemma {:induction false} TeardownTakesNoTime(s: State, ls: seq<Label>, x: Side)
    requires Inv(s) && Finished(s.loops.Get(x).pc) && Feasible(s, ls) && TimelyRun(s, ls)
    ensures BothEnded(Exec(s, ls)) || Exec(s, ls).now == s.now
    decreases |ls|
  {
    if ls != [] {
      var s' := Step(s, ls[0]);
      StepInv(s, ls[0]);
      StepKeepsResult(s, ls[0], x);
      if BothEnded(s) {
        EndedStays(s', ls[1..]);
      } else {
        TeardownStep(s, ls[0], x);
        TeardownTakesNoTime(s', ls[1..], x);
      }
    }
  }

  lemma {:induction false} EndedStays(s: State, ls: seq<Label>)
    requires BothEnded(s) && Feasible(s, ls)
    ensures BothEnded(Exec(s, ls))
    decreases |ls|
  {
    if ls != [] {
      assert s.loops.Get(A) == s.loops.a && s.loops.Get(B) == s.loops.b;
      EndedStays(Step(s, ls[0]), ls[1..]);
    }
  }

  // ---- the deadlines are exact -----------------------------------------------------------------------

  /** Until a direction reports, deadlines are exactly the timeout after the loop's own last byte. */
  ghost predicate ExactClock(s: State, x: Side) {
    s.first.Unreported? ==>
      var l := s.loops.Get(x);
      match l.pc
      case NowRead => s.now == l.moved
      case LoadRead(at) => at == s.now == l.moved
      case SetRead(at, t) => at == s.now == l.moved && t == s.timeout
      case NowWrite(data, _) => data != [] && s.now == l.moved
      case LoadWrite(data, _, at) => data != [] && at == s.now == l.moved
      case SetWrite(data, _, at, t) => data != [] && at == s.now == l.moved && t == s.timeout
      case Reading => s.conns.Get(Other(x)).readDeadline == Some(Until(s, x))
      case Writing(data, _) => data != [] && s.conns.Get(x).writeDeadline == Some(Until(s, x))
      case _ => true
  }

  lemma OwnExact(s: State, l: Label, x: Side)
    requires UnreportedInv(s) && ExactClock(s, x) && Enabled(s, l) && Timely(s, l) && Takes(l, x)
    requires TeardownInv(s, x)
    ensures ExactClock(Step(s, l), x)
  {
  }

  lemma OtherExact(s: State, l: Label, x: Side)
    requires ExactClock(s, x) && Enabled(s, l) && Timely(s, l) && !Takes(l, x)
    requires TeardownInv(s, Other(x))
    ensures ExactClock(Step(s, l), x)
  {
    assert Step(s, l).loops.Get(x) == s.loops.Get(x);
  }

  lemma StepExact(s: State, l: Label, x: Side)
    requires Inv(s) && ExactClock(s, x) && Enabled(s, l) && Timely(s, l)
    ensures ExactClock(Step(s, l), x)
  {
    assert TeardownInv(s, x) && TeardownInv(s, Other(x));
    if Takes(l, x) { OwnExact(s, l, x); } else { OtherExact(s, l, x); }
  }

  lemma {:induction false} RunExact(s: State, ls: seq<Label>, x: Side)
    requires Inv(s) && ExactClock(s, x) && Feasible(s, ls) && TimelyRun(s, ls)
    ensures ExactClock(Exec(s, ls), x)
    decreases |ls|
  {
    if ls != [] {
      StepExact(s, ls[0], x);
      StepInv(s, ls[0]);
      RunExact(Step(s, ls[0]), ls[1..], x);
    }
  }

  /** Until a direction has reported its result, a call that waits has a deadline exactly the timeout after the
      last byte its own direction moved. */
  lemma DeadlineIsOwnIdle(s: State, ls: seq<Label>, x: Side)
    requires Init(s) && Feasible(s, ls) && TimelyRun(s, ls) && Exec(s, ls).first.Unreported?
    ensures var e := Exec(s, ls);
            var l := e.loops.Get(x);
            && (l.pc.Reading? ==> e.conns.Get(Other(x)).readDeadline == Some(l.moved + e.timeout))
            && (l.pc.Writing? ==> e.conns.Get(x).writeDeadline == Some(l.moved + e.timeout))
  {
    InitInv(s);
    RunExact(s, ls, x);
  }
}

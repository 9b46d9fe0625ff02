/** When the timeout of openTunnel (internal/core/common.go) ends a tunnel: neither earlier nor later than a
    direction has been idle for it. */
module IdleTimeout {
  import opened Prelude
  import opened CopyLoop
  import opened Tunnel
  import opened TunnelClock

  // ---- never early -----------------------------------------------------------------------------------

  /** A timeout has reached the loop: it is the loop's result, or will be after the Write in hand. */
  predicate HasTimeout(l: Loop) {
    if Finished(l.pc) then l.result == Some(TIMEOUT)
    else (l.pc.NowWrite? || l.pc.LoadWrite? || l.pc.SetWrite? || l.pc.Writing?) && l.pc.er == Some(TIMEOUT)
  }

  /** A call of loop x times out. */
  predicate TimesOut(l: Label, x: Side) {
    match l
    case ReadReturns(y, _, er) => y == x && er == Some(TIMEOUT)
    case WriteReturns(y, _, ew) => y == x && ew == Some(TIMEOUT)
    case _ => false
  }

  lemma StepTimeout(s: State, l: Label, x: Side)
    requires Enabled(s, l) && HasTimeout(Step(s, l).loops.Get(x)) && !HasTimeout(s.loops.Get(x))
    ensures TimesOut(l, x) && !Finished(s.loops.Get(x).pc)
  {
  }

  /** A call that times out on time does so when its direction has been idle for exactly the timeout. */
  lemma TimesOutIdle(s: State, l: Label, x: Side)
    requires ClockInv(s) && ExactClock(s, x) && s.first.Unreported? && Enabled(s, l) && Punctual(s, l) && TimesOut(l, x)
    ensures s.now == Until(s, x)
  {
    assert s.loops.Get(A) == s.loops.a && s.loops.Get(B) == s.loops.b;
  }

  lemma {:induction false} FirstStays(s: State, ls: seq<Label>)
    requires Feasible(s, ls) && s.first.Reported?
    ensures Exec(s, ls).first == s.first
    decreases |ls|
  {
    if ls != [] {
      FirstStays(Step(s, ls[0]), ls[1..]);
    }
  }

  ghost predicate Clocked(s: State) {
    Inv(s) && ClockInv(s) && ExactClock(s, A) && ExactClock(s, B)
  }

  lemma StepClocked(s: State, l: Label)
    requires Clocked(s) && Enabled(s, l) && Timely(s, l)
    ensures Clocked(Step(s, l)) && Step(s, l).timeout == s.timeout
  {
    StepInv(s, l);
    StepClock(s, l);
    StepExact(s, l, A);
    StepExact(s, l, B);
  }

  lemma {:induction false} TimeoutCall(s: State, ls: seq<Label>, x: Side) returns (i: nat)
    requires Clocked(s) && Feasible(s, ls) && TimelyRun(s, ls) && PunctualRun(s, ls)
    requires !HasTimeout(s.loops.Get(x)) && HasTimeout(Exec(s, ls).loops.Get(x))
    requires Exec(s, ls).first.Reported? && Exec(s, ls).first.who == x
    ensures i < |ls| && Feasible(s, ls[..i]) && TimesOut(ls[i], x)
    ensures var e := Exec(s, ls[..i]); e.first.Unreported? && e.now == Until(e, x)
    decreases |ls|
  {
    var s' := Step(s, ls[0]);
    if HasTimeout(s'.loops.Get(x)) {
      StepTimeout(s, ls[0], x);
      if s.first.Reported? { FirstStays(s, ls); }
      TimesOutIdle(s, ls[0], x);
      i := 0;
    } else {
      StepClocked(s, ls[0]);
      var j := TimeoutCall(s', ls[1..], x);
      i := j + 1;
      assert ls[..i][0] == ls[0] && ls[..i][1..] == ls[1..][..j];
    }
  }

  /** If openTunnel returns its timeout, then in one direction a call timed out before anything was reported, at
      the moment when no byte had moved in that direction for exactly the timeout. */
  lemma TimeoutNeedsIdle(s: State, ls: seq<Label>) returns (who: Side, i: nat)
    requires Init(s) && Feasible(s, ls) && TimelyRun(s, ls) && PunctualRun(s, ls)
    requires Exec(s, ls).returned == Some(Some(TIMEOUT))
    ensures i < |ls| && Feasible(s, ls[..i]) && TimesOut(ls[i], who)
    ensures var e := Exec(s, ls[..i]); e.first.Unreported? && e.now == e.loops.Get(who).moved + e.timeout
  {
    InitInv(s);
    RunInv(s, ls);
    who := Exec(s, ls).first.who;
    i := TimeoutCall(s, ls, who);
  }

  /** Until something is reported, no direction has been idle for the timeout in any state of the run. */
  ghost predicate StaysBusy(s: State, ls: seq<Label>)
    requires Feasible(s, ls)
    decreases |ls|
  {
    && (s.first.Unreported? ==> s.now < Until(s, A) && s.now < Until(s, B))
    && (ls == [] || StaysBusy(Step(s, ls[0]), ls[1..]))
  }

  lemma {:induction false} BusyAt(s: State, ls: seq<Label>, i: nat, x: Side)
    requires Feasible(s, ls) && StaysBusy(s, ls) && i <= |ls| && Feasible(s, ls[..i])
    requires Exec(s, ls[..i]).first.Unreported?
    ensures Exec(s, ls[..i]).now < Until(Exec(s, ls[..i]), x)
    decreases |ls|
  {
    if i > 0 {
      assert ls[..i][0] == ls[0] && ls[..i][1..] == ls[1..][..i - 1];
      BusyAt(Step(s, ls[0]), ls[1..], i - 1, x);
    }
  }

  /** If no direction is ever idle for the timeout, openTunnel does not return its timeout. */
  lemma BusyTunnelLives(s: State, ls: seq<Label>)
    requires Init(s) && Feasible(s, ls) && TimelyRun(s, ls) && PunctualRun(s, ls) && StaysBusy(s, ls)
    ensures Exec(s, ls).returned != Some(Some(TIMEOUT))
  {
    if Exec(s, ls).returned == Some(Some(TIMEOUT)) {
      var who, i := TimeoutNeedsIdle(s, ls);
      BusyAt(s, ls, i, who);
    }
  }

  // ---- neither early nor late ------------------------------------------------------------------------

  predicate Running(s: State) {
    !Finished(s.loops.a.pc) && !Finished(s.loops.b.pc)
  }

  /** The call whose return first ended the copying of a direction. */
  ghost function FirstEnd(s: State, ls: seq<Label>): Option<Label>
    requires Feasible(s, ls)
    decreases |ls|
  {
    if ls == [] then None
    else if Running(s) && !Running(Step(s, ls[0])) then Some(ls[0])
    else FirstEnd(Step(s, ls[0]), ls[1..])
  }

  /** A timeout of a call that moved no byte. */
  predicate PlainTimeout(l: Label) {
    match l
    case ReadReturns(_, data, er) => data == [] && er == Some(TIMEOUT)
    case WriteReturns(_, nw, ew) => nw == 0 && ew == Some(TIMEOUT)
    case _ => false
  }

  /** Something else than the timeout came first: an end of stream, a failure, or a call that timed out having
      moved bytes. */
  ghost predicate EndedOtherwise(s: State, ls: seq<Label>)
    requires Feasible(s, ls)
  {
    FirstEnd(s, ls).Some? && !PlainTimeout(FirstEnd(s, ls).value)
  }

  lemma {:induction false} FirstEndIff(s: State, ls: seq<Label>)
    requires Feasible(s, ls)
    ensures Running(s) ==> (FirstEnd(s, ls).Some? <==> !Running(Exec(s, ls)))
    ensures !Running(s) ==> FirstEnd(s, ls).None? && !Running(Exec(s, ls))
    decreases |ls|
  {
    if ls != [] {
      if !Running(s) {
        var x := if Finished(s.loops.a.pc) then A else B;
        StepKeepsResult(s, ls[0], x);
      }
      FirstEndIff(Step(s, ls[0]), ls[1..]);
    }
  }

  /** A direction that has ended moves no byte any more. */
  lemma {:induction false} EndedMovesNothing(s: State, ls: seq<Label>, x: Side)
    requires Feasible(s, ls) && Finished(s.loops.Get(x).pc)
    ensures Until(Exec(s, ls), x) == Until(s, x) && Exec(s, ls).now >= s.now
    decreases |ls|
  {
    if ls != [] {
      StepKeepsResult(s, ls[0], x);
      EndedMovesNothing(Step(s, ls[0]), ls[1..], x);
    }
  }

  /** A plain timeout ends its direction, and says that it has been idle for the timeout. */
  lemma PlainTimeoutEnds(s: State, l: Label)
    requires Clocked(s) && Running(s) && Enabled(s, l) && Punctual(s, l) && PlainTimeout(l)
    ensures var s' := Step(s, l); Finished(s'.loops.Get(l.x).pc) && s'.now == Until(s', l.x)
  {
    assert s.first.Unreported?;
    TimesOutIdle(s, l, l.x);
  }

  lemma {:induction false} PlainEndIsIdle(s: State, ls: seq<Label>) returns (x: Side)
    requires Clocked(s) && Running(s) && Feasible(s, ls) && TimelyRun(s, ls) && PunctualRun(s, ls)
    requires FirstEnd(s, ls).Some? && PlainTimeout(FirstEnd(s, ls).value)
    ensures Until(Exec(s, ls), x) <= Exec(s, ls).now
    decreases |ls|
  {
    var s' := Step(s, ls[0]);
    if Running(s') {
      StepClocked(s, ls[0]);
      x := PlainEndIsIdle(s', ls[1..]);
    } else {
      x := ls[0].x;
      PlainTimeoutEnds(s, ls[0]);
      EndedMovesNothing(s', ls[1..], x);
    }
  }

  /** While time passes and the tunnel has not ended, both its loops wait for a deadline that is not past. */
  lemma WaitingIsRunning(s: State, d: nat)
    requires Inv(s) && ClockInv(s) && d > 0 && Timely(s, Tick(d)) && !BothEnded(s)
    ensures Running(s) && s.now + d <= Until(s, A) && s.now + d <= Until(s, B)
  {
    assert TeardownInv(s, A) && TeardownInv(s, B);
    assert s.loops.Get(A) == s.loops.a && s.loops.Get(B) == s.loops.b;
  }

  /** Whenever time passes, the tunnel has ended if and only if a direction is by then idle for longer than the
      timeout, or something else has ended the tunnel before: the timeout strikes neither early nor late. */
  lemma TimeoutIsExact(s: State, ls: seq<Label>, d: nat)
    requires Init(s) && Feasible(s, ls) && TimelyRun(s, ls) && PunctualRun(s, ls)
    requires d > 0 && Timely(Exec(s, ls), Tick(d))
    ensures var e := Exec(s, ls);
            BothEnded(e) <==>
              || e.now + d > e.loops.a.moved + e.timeout
              || e.now + d > e.loops.b.moved + e.timeout
              || EndedOtherwise(s, ls)
  {
    var e := Exec(s, ls);
    InitInv(s);
    RunClock(s, ls);
    FirstEndIff(s, ls);
    assert e.loops.Get(A) == e.loops.a && e.loops.Get(B) == e.loops.b;
    if !BothEnded(e) {
      WaitingIsRunning(e, d);
    } else if !EndedOtherwise(s, ls) {
      var x := PlainEndIsIdle(s, ls);
    }
  }
}

/** A run of openTunnel in which a silent direction ends a busy one: direction A never moves a byte, direction B
    is never idle for more than one unit of time, and the tunnel has ended when the timeout has passed. */
module BusyTunnel {
  import opened Prelude
  import opened CopyLoop
  import opened Tunnel
  import opened TunnelClock

  /** In no state of the run has direction x been idle for longer than d. */
  ghost predicate BusyWithin(s: State, ls: seq<Label>, x: Side, d: nat)
    requires Feasible(s, ls)
    decreases |ls|
  {
    s.now - s.loops.Get(x).moved <= d && (ls == [] || BusyWithin(Step(s, ls[0]), ls[1..], x, d))
  }

  ghost predicate Leads(s: State, ls: seq<Label>, e: State) {
    && Feasible(s, ls) && TimelyRun(s, ls) && PunctualRun(s, ls) && BusyWithin(s, ls, B, 1)
    && (forall l :: l in ls ==> !Moves(l, A)) && Exec(s, ls) == e
  }

  lemma {:induction false} Extend(s: State, ls: seq<Label>, l: Label, e: State)
    requires Leads(s, ls, e) && Enabled(e, l) && Timely(e, l) && Punctual(e, l) && !Moves(l, A)
    requires Step(e, l).now - Step(e, l).loops.b.moved <= 1
    ensures Leads(s, ls + [l], Step(e, l))
    decreases |ls|
  {
    if ls == [] {
      assert [l][1..] == [] && ls + [l] == [l];
      assert BusyWithin(Step(s, l), [], B, 1);
    } else {
      assert (ls + [l])[1..] == ls[1..] + [l];
      assert Leads(Step(s, ls[0]), ls[1..], e);
      Extend(Step(s, ls[0]), ls[1..], l, e);
    }
  }

  ghost predicate Reaches(s: State, e: State) {
    exists ls :: Leads(s, ls, e)
  }

  lemma Then(s: State, e: State, l: Label)
    requires Reaches(s, e) && Enabled(e, l) && Timely(e, l) && Punctual(e, l) && !Moves(l, A)
    requires Step(e, l).now - Step(e, l).loops.b.moved <= 1
    ensures Reaches(s, Step(e, l))
  {
    var ls :| Leads(s, ls, e);
    Extend(s, ls, l, e);
  }

  // ---- the calls of one loop -------------------------------------------------------------------------

  /** The loop is about to wait in a Read. */
  function InRead(e: State, x: Side): State {
    var deadline := Some(e.now + e.cell);
    Tunnel.Goto(SetConn(e, Other(x), e.conns.Get(Other(x)).(readDeadline := deadline)), x, Reading)
  }

  lemma BeginsRead(s: State, e: State, x: Side)
    requires Reaches(s, e) && e.loops.Get(x).pc.NowRead? && e.now - e.loops.b.moved <= 1
    ensures Reaches(s, InRead(e, x))
  {
    var e1, e2 := Tunnel.Goto(e, x, LoadRead(e.now)), Tunnel.Goto(e, x, SetRead(e.now, e.cell));
    Then(s, e, Local(x));
    assert Step(e, Local(x)) == e1;
    Then(s, e1, Local(x));
    assert Step(e1, Local(x)) == e2;
    Then(s, e2, Local(x));
    assert Step(e2, Local(x)) == InRead(e, x);
  }

  /** Loop B is about to wait in a Write. */
  function InWrite(e: State, data: seq<Byte>): State {
    Tunnel.Goto(SetConn(e, B, e.conns.b.(writeDeadline := Some(e.now + e.cell))), B, Writing(data, None))
  }

  lemma BeginsWrite(s: State, e: State, data: seq<Byte>)
    requires Reaches(s, e) && e.loops.b.pc == NowWrite(data, None) && e.now - e.loops.b.moved <= 1
    ensures Reaches(s, InWrite(e, data))
  {
    var e1 := Tunnel.Goto(e, B, LoadWrite(data, None, e.now));
    var e2 := Tunnel.Goto(e, B, SetWrite(data, None, e.now, e.cell));
    Then(s, e, Local(B));
    assert Step(e, Local(B)) == e1;
    Then(s, e1, Local(B));
    assert Step(e1, Local(B)) == e2;
    Then(s, e2, Local(B));
    assert Step(e2, Local(B)) == InWrite(e, data);
  }

  // ---- the busy part ---------------------------------------------------------------------------------

  /** Both loops wait in a Read: A since the time `start`, B since it passed a byte on just now. */
  ghost predicate Waiting(e: State, start: int, timeout: nat) {
    && e.timeout == e.cell == timeout && e.cap > 0 && e.first == Unreported && e.returned == None
    && e.loops.a.pc == Reading && !e.conns.b.closed && e.conns.b.readDeadline == Some(start + timeout)
    && e.loops.b.pc == Reading && !e.conns.a.closed && e.conns.a.readDeadline == Some(e.now + timeout)
    && e.loops.b.moved == e.now && start <= e.now
  }

  lemma Begins(s: State) returns (e: State)
    requires Init(s)
    ensures Reaches(s, e) && Waiting(e, s.now, s.timeout) && e.now == s.now
  {
    assert Leads(s, [], s);
    BeginsRead(s, s, A);
    BeginsRead(s, InRead(s, A), B);
    e := InRead(InRead(s, A), B);
  }

  /** Loop B reads a byte and is about to wait in the Write of it. */
  lemma ReadsByte(s: State, e: State) returns (r: State)
    requires Reaches(s, e) && e.loops.b.pc == Reading && e.cap > 0 && e.now - e.loops.b.moved <= 1
    requires !e.conns.a.closed
    ensures Reaches(s, r)
    ensures r == e.(conns := Pair(e.conns.a, e.conns.b.(writeDeadline := Some(e.now + e.cell))),
                    loops := Pair(e.loops.a, r.loops.b))
    ensures r.loops.b.pc == Writing([0], None) && r.loops.b.moved == e.now
  {
    Then(s, e, ReadReturns(B, [0], None));
    var e1 := Step(e, ReadReturns(B, [0], None));
    BeginsWrite(s, e1, [0]);
    r := InWrite(e1, [0]);
  }

  lemma PassesByte(s: State, e: State) returns (r: State)
    requires Reaches(s, e) && e.loops.b.pc == Reading && e.cap > 0 && e.now - e.loops.b.moved <= 1
    requires !e.conns.a.closed && !e.conns.b.closed
    ensures Reaches(s, r)
    ensures r == e.(conns := Pair(e.conns.a.(readDeadline := Some(e.now + e.cell)), r.conns.b),
                    loops := Pair(e.loops.a, r.loops.b))
    ensures r.conns.b == e.conns.b.(writeDeadline := Some(e.now + e.cell))
    ensures r.loops.b.pc == Reading && r.loops.b.moved == e.now
  {
    var e2 := ReadsByte(s, e);
    Then(s, e2, WriteReturns(B, 1, None));
    var e3 := Step(e2, WriteReturns(B, 1, None));
    BeginsRead(s, e3, B);
    r := InRead(e3, B);
  }

  /** One unit of time later another byte has passed. */
  lemma OneMore(s: State, e: State, start: int, timeout: nat) returns (r: State)
    requires Reaches(s, e) && Waiting(e, start, timeout) && e.now < start + timeout
    ensures Reaches(s, r) && Waiting(r, start, timeout) && r.now == e.now + 1
  {
    Then(s, e, Tick(1));
    r := PassesByte(s, e.(now := e.now + 1));
  }

  lemma {:induction false} Busy(s: State, i: nat) returns (e: State)
    requires Init(s) && i <= s.timeout
    ensures Reaches(s, e) && Waiting(e, s.now, s.timeout) && e.now == s.now + i
  {
    if i == 0 {
      e := Begins(s);
    } else {
      e := Busy(s, i - 1);
      e := OneMore(s, e, s.now, s.timeout);
    }
  }

  // ---- the end ---------------------------------------------------------------------------------------

  /** One step of a loop's teardown. */
  lemma TearsOn(s: State, e: State, x: Side)
    requires Reaches(s, e) && 1 <= Rank(e.loops.Get(x).pc) <= 6 && e.now - e.loops.b.moved <= 1
    ensures var r := LocalStep(e, x);
            && Reaches(s, r)
            && Rank(r.loops.Get(x).pc) == Rank(e.loops.Get(x).pc) - 1
            && r.now == e.now && r.returned == e.returned && r.loops.b.moved == e.loops.b.moved
  {
    Then(s, e, Local(x));
  }

  lemma TearsOnThrice(s: State, e: State, x: Side)
    requires Reaches(s, e) && 3 <= Rank(e.loops.Get(x).pc) <= 6 && e.now - e.loops.b.moved <= 1
    ensures var r := LocalStep(LocalStep(LocalStep(e, x), x), x);
            && Reaches(s, r) && Rank(r.loops.Get(x).pc) == Rank(e.loops.Get(x).pc) - 3
            && r.now == e.now && r.returned == e.returned && r.loops.b.moved == e.loops.b.moved
  {
    TearsOn(s, e, x);
    TearsOn(s, LocalStep(e, x), x);
    TearsOn(s, LocalStep(LocalStep(e, x), x), x);
  }

  /** Loop x reports and closes both connections at once. */
  lemma TearsDown(s: State, e: State, x: Side) returns (r: State)
    requires Reaches(s, e) && e.loops.Get(x).pc.Report? && e.now - e.loops.b.moved <= 1
    ensures Reaches(s, r) && r.now == e.now && r.returned == e.returned && r.loops.b.moved == e.loops.b.moved
    ensures r.first == if e.first.Unreported? then Reported(x, e.loops.Get(x).result) else e.first
    ensures BothClosed(r) && r.loops.Get(x).pc == Ended && r.loops.Get(Other(x)) == e.loops.Get(Other(x))
    ensures r.conns.a.readDeadline == r.conns.b.readDeadline == Some(LONG_TIME_AGO)
  {
    var e3 := LocalStep(LocalStep(LocalStep(e, x), x), x);
    TearsOnThrice(s, e, x);
    TearsOnThrice(s, e3, x);
    UninterruptedTeardown(e, x);
    r := LocalStep(LocalStep(LocalStep(e3, x), x), x);
  }

  /** The deadline of A's Read is reached, and both loops end. */
  lemma Ends(s: State, e: State, start: int) returns (r: State)
    requires Reaches(s, e) && Waiting(e, start, e.timeout) && e.now == start + e.timeout > LONG_TIME_AGO
    ensures Reaches(s, r) && r.now == e.now && BothEnded(r) && BothClosed(r) && r.loops.b.moved == e.loops.b.moved
    ensures r.returned == Some(Some(TIMEOUT))
  {
    Then(s, e, ReadReturns(A, [], Some(TIMEOUT)));
    r := TearsDown(s, Step(e, ReadReturns(A, [], Some(TIMEOUT))), A);
    var e1 := r;
    Then(s, e1, ReadReturns(B, [], Some(TIMEOUT)));
    r := TearsDown(s, Step(e1, ReadReturns(B, [], Some(TIMEOUT))), B);
    Then(s, r, Return);
    r := Step(r, Return);
  }

  /** The timeout does not ask whether the connection is idle: for every timeout there is a run in which
      direction B moves a byte in each unit of time, up to the very last instant, and yet openTunnel has closed
      both connections and returned the timeout of the silent direction A once that much time has passed. */
  lemma SilentDirectionEndsBusyTunnel(s: State) returns (ls: seq<Label>)
    requires Init(s)
    ensures Feasible(s, ls) && TimelyRun(s, ls) && PunctualRun(s, ls) && forall l :: l in ls ==> !Moves(l, A)
    ensures BusyWithin(s, ls, B, 1) && Exec(s, ls).loops.b.moved == Exec(s, ls).now == s.now + s.timeout
    ensures BothEnded(Exec(s, ls)) && BothClosed(Exec(s, ls)) && Exec(s, ls).returned == Some(Some(TIMEOUT))
  {
    var e := Busy(s, s.timeout);
    e := Ends(s, e, s.now);
    ls :| Leads(s, ls, e);
  }
}

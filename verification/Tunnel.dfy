/** openTunnel (internal/core/common.go): two copy loops over a pair of connections, as a machine.

    Each loop has a program counter; one step is one atomic operation or one library call, and any
    interleaving of the two loops is a run.  Time passes in steps of its own.  What the peers and the
    network do is in the labels.  Assumed of a connection: after its Close a Read and a Write return an
    error, and a Write takes a prefix of its argument. */
module Tunnel {
  import opened Prelude
  import opened CopyLoop

  /** The loop of side x writes to connection x and reads from the other one, as in
      openOneWayTunnel(dst, src). */
  datatype Side = A | B

  function Other(x: Side): Side {
    if x == A then B else A
  }

  datatype Pair<T> = Pair(a: T, b: T) {
    function Get(x: Side): T {
      if x == A then a else b
    }
    function Set(x: Side, v: T): (r: Pair<T>)
      ensures r.Get(x) == v && r.Get(Other(x)) == Get(Other(x))
    {
      if x == A then Pair(v, b) else Pair(a, v)
    }
  }

  /** A deadline is absent until it is first set. */
  datatype Conn = Conn(closed: bool, readDeadline: Option<int>, writeDeadline: Option<int>)

  /** time.Unix(0, 1), the deadline in the past. */
  const LONG_TIME_AGO := 1

  datatype Pc =
    | NowRead                                 // before time.Now
    | LoadRead(at: int)                       // before the timeout is loaded
    | SetRead(at: int, timeout: nat)          // before SetReadDeadline
    | Reading
    | NowWrite(data: seq<Byte>, er: Option<IoError>)
    | LoadWrite(data: seq<Byte>, er: Option<IoError>, at: int)
    | SetWrite(data: seq<Byte>, er: Option<IoError>, at: int, timeout: nat)
    | Writing(data: seq<Byte>, er: Option<IoError>)
    | Report
    | StoreZero
    | ExpireSrc
    | ExpireDst
    | CloseSrc
    | CloseDst
    | Ended

  /** `result` is what copyBuffer returned and `untouched` whether, when it returned, no teardown step had
      been taken; `consumed` and `out` are the bytes read from the source and taken by the destination, and
      `moved` is the time the loop last moved a byte, or started. */
  datatype Loop = Loop(
    pc: Pc, result: Option<IoError>, untouched: bool, consumed: seq<Byte>, out: seq<Byte>, moved: int)

  /** firstErr: the first report wins, and a nil report counts. */
  datatype FirstErr = Unreported | Reported(who: Side, err: Option<IoError>)

  function ReportTo(fe: FirstErr, who: Side, err: Option<IoError>): FirstErr {
    if fe.Unreported? then Reported(who, err) else fe
  }

  /** `cell` is the shared timeout and `timeout` its initial value. */
  datatype State = State(
    now: int, timeout: nat, cell: nat, cap: nat,
    conns: Pair<Conn>, loops: Pair<Loop>, first: FirstErr, returned: Option<Option<IoError>>)

  datatype Label =
    | Local(x: Side)
    | ReadReturns(x: Side, data: seq<Byte>, er: Option<IoError>)
    | WriteReturns(x: Side, nw: nat, ew: Option<IoError>)
    | Return
    | Tick(d: nat)

  const NEW_CONN := Conn(false, None, None)

  function FreshLoop(now: int): Loop {
    Loop(NowRead, None, false, [], [], now)
  }

  ghost predicate Init(s: State) {
    && s.now > LONG_TIME_AGO && s.cell == s.timeout && s.cap > 0
    && s.conns == Pair(NEW_CONN, NEW_CONN) && s.loops == Pair(FreshLoop(s.now), FreshLoop(s.now))
    && s.first == Unreported && s.returned == None
  }

  /** No teardown step has been taken: the timeout is the configured one, both connections are open and
      neither carries the deadline in the past. */
  predicate Untouched(s: State) {
    s.cell == s.timeout && Pristine(s.conns.a) && Pristine(s.conns.b)
  }

  predicate Pristine(c: Conn) {
    !c.closed && c.readDeadline != Some(LONG_TIME_AGO) && c.writeDeadline != Some(LONG_TIME_AGO)
  }

  predicate BothClosed(s: State) {
    s.conns.a.closed && s.conns.b.closed
  }

  predicate BothEnded(s: State) {
    s.loops.a.pc.Ended? && s.loops.b.pc.Ended?
  }

  /** The step is taken by loop x. */
  predicate Takes(l: Label, x: Side) {
    (l.Local? || l.ReadReturns? || l.WriteReturns?) && l.x == x
  }

  predicate Enabled(s: State, l: Label) {
    match l
    case Local(x) =>
      var pc := s.loops.Get(x).pc;
      !pc.Reading? && !pc.Writing? && !pc.Ended?
    case ReadReturns(x, data, er) =>
      && s.loops.Get(x).pc.Reading? && |data| <= s.cap
      && (s.conns.Get(Other(x)).closed ==> er.Some?)
    case WriteReturns(x, nw, ew) =>
      && s.loops.Get(x).pc.Writing? && nw <= |s.loops.Get(x).pc.data|
      && (s.conns.Get(x).closed ==> ew.Some?)
    case Return => BothEnded(s) && s.returned.None?
    case Tick(d) => true
  }

  function SetLoop(s: State, x: Side, l: Loop): State {
    s.(loops := s.loops.Set(x, l))
  }

  function SetConn(s: State, x: Side, c: Conn): State {
    s.(conns := s.conns.Set(x, c))
  }

  function Goto(s: State, x: Side, pc: Pc): State {
    SetLoop(s, x, s.loops.Get(x).(pc := pc))
  }

  /** Another iteration, or out of the loop with its result. */
  function Proceed(l: Loop, o: Outcome, untouched: bool): Loop {
    match o
    case Continue => l.(pc := NowRead)
    case Stop(e) => l.(pc := Report, result := e, untouched := untouched)
  }

  function ReadStep(l: Loop, data: seq<Byte>, er: Option<IoError>, untouched: bool, now: int): Loop {
    if data == [] then Proceed(l, AfterRead(er), untouched)
    else l.(pc := NowWrite(data, er), consumed := l.consumed + data, moved := now)
  }

  function WriteStep(l: Loop, nw: nat, ew: Option<IoError>, untouched: bool, now: int): Loop
    requires l.pc.Writing? && nw <= |l.pc.data|
  {
    var data := l.pc.data;
    var l' := l.(out := l.out + data[..nw], moved := if nw > 0 then now else l.moved);
    Proceed(l', AfterWrite(|data|, nw, ew, l.pc.er), untouched)
  }

  function Expire(c: Conn): Conn {
    c.(readDeadline := Some(LONG_TIME_AGO), writeDeadline := Some(LONG_TIME_AGO))
  }

  function LocalStep(s: State, x: Side): State {
    var src, dst := s.conns.Get(Other(x)), s.conns.Get(x);
    match s.loops.Get(x).pc
    case NowRead => Goto(s, x, LoadRead(s.now))
    case LoadRead(at) => Goto(s, x, SetRead(at, s.cell))
    case SetRead(at, t) => Goto(SetConn(s, Other(x), src.(readDeadline := Some(at + t))), x, Reading)
    case NowWrite(data, er) => Goto(s, x, LoadWrite(data, er, s.now))
    case LoadWrite(data, er, at) => Goto(s, x, SetWrite(data, er, at, s.cell))
    case SetWrite(data, er, at, t) =>
      Goto(SetConn(s, x, dst.(writeDeadline := Some(at + t))), x, Writing(data, er))
    case Report => Goto(s.(first := ReportTo(s.first, x, s.loops.Get(x).result)), x, StoreZero)
    case StoreZero => Goto(s.(cell := 0), x, ExpireSrc)
    case ExpireSrc => Goto(SetConn(s, Other(x), Expire(src)), x, ExpireDst)
    case ExpireDst => Goto(SetConn(s, x, Expire(dst)), x, CloseSrc)
    case CloseSrc => Goto(SetConn(s, Other(x), src.(closed := true)), x, CloseDst)
    case CloseDst => Goto(SetConn(s, x, dst.(closed := true)), x, Ended)
    case _ => s
  }

  function Step(s: State, l: Label): State
    requires Enabled(s, l)
  {
    match l
    case Local(x) => LocalStep(s, x)
    case ReadReturns(x, data, er) =>
      SetLoop(s, x, ReadStep(s.loops.Get(x), data, er, Untouched(s), s.now))
    case WriteReturns(x, nw, ew) =>
      SetLoop(s, x, WriteStep(s.loops.Get(x), nw, ew, Untouched(s), s.now))
    case Return => s.(returned := Some(if s.first.Reported? then s.first.err else None))
    case Tick(d) => s.(now := s.now + d)
  }

  ghost predicate Feasible(s: State, ls: seq<Label>)
    decreases |ls|
  {
    ls == [] || (Enabled(s, ls[0]) && Feasible(Step(s, ls[0]), ls[1..]))
  }

  ghost function Exec(s: State, ls: seq<Label>): State
    requires Feasible(s, ls)
    decreases |ls|
  {
    if ls == [] then s else Exec(Step(s, ls[0]), ls[1..])
  }

  // ---- what every step keeps -----------------------------------------------------------------------

  predicate TearingDown(pc: Pc) {
    pc.StoreZero? || pc.ExpireSrc? || pc.ExpireDst? || pc.CloseSrc? || pc.CloseDst? || pc.Ended?
  }

  predicate Finished(pc: Pc) {
    pc.Report? || TearingDown(pc)
  }

  /** The bytes a loop has read and not yet passed on. */
  function InHand(pc: Pc): seq<Byte> {
    if pc.NowWrite? || pc.LoadWrite? || pc.SetWrite? || pc.Writing? then pc.data else []
  }

  /** Nothing is lost or reordered while the loop runs, at most one buffer is in hand, and a nil result
      means that everything read was passed on. */
  ghost predicate DataInv(l: Loop, cap: nat) {
    && |InHand(l.pc)| <= cap
    && if !Finished(l.pc) then l.consumed == l.out + InHand(l.pc)
       else l.out <= l.consumed && |l.consumed| - |l.out| <= cap && (l.result == None ==> l.out == l.consumed)
  }

  /** How far one loop's own teardown has come. */
  ghost predicate TeardownInv(s: State, x: Side) {
    var pc := s.loops.Get(x).pc;
    && (TearingDown(pc) ==> s.first.Reported?)
    && (pc.CloseDst? || pc.Ended? ==> s.conns.Get(Other(x)).closed)
    && (pc.Ended? ==> s.conns.Get(x).closed)
  }

  /** The time that a loop has read and not used yet. */
  ghost predicate ClockReadInv(s: State, x: Side) {
    match s.loops.Get(x).pc
    case LoadRead(at) => LONG_TIME_AGO < at <= s.now
    case SetRead(at, _) => LONG_TIME_AGO < at <= s.now
    case LoadWrite(_, _, at) => LONG_TIME_AGO < at <= s.now
    case SetWrite(_, _, at, _) => LONG_TIME_AGO < at <= s.now
    case _ => true
  }

  /** Before the first report nothing is torn down, so a result waiting to be reported is untouched. */
  ghost predicate UnreportedInv(s: State) {
    s.first.Unreported? ==>
      && s.cell == s.timeout && Pristine(s.conns.a) && Pristine(s.conns.b)
      && (s.loops.a.pc.Report? ==> s.loops.a.untouched)
      && (s.loops.b.pc.Report? ==> s.loops.b.untouched)
  }

  ghost predicate ReportedInv(s: State) {
    s.first.Reported? ==>
      var w := s.loops.Get(s.first.who);
      TearingDown(w.pc) && w.untouched && w.result == s.first.err
  }

  ghost predicate CauseInv(s: State) {
    && UnreportedInv(s)
    && ReportedInv(s)
    && (s.returned.Some? ==> BothEnded(s) && s.first.Reported? && s.returned.value == s.first.err)
  }

  ghost predicate Inv(s: State) {
    && s.now > LONG_TIME_AGO
    && CauseInv(s)
    && forall x: Side :: DataInv(s.loops.Get(x), s.cap) && TeardownInv(s, x) && ClockReadInv(s, x)
  }

  lemma InitInv(s: State)
    requires Init(s)
    ensures Inv(s)
  {
  }

  lemma ReadStepData(l: Loop, cap: nat, data: seq<Byte>, er: Option<IoError>, untouched: bool, now: int)
    requires l.pc.Reading? && DataInv(l, cap) && |data| <= cap
    ensures DataInv(ReadStep(l, data, er, untouched, now), cap)
  {
    assert l.out + [] == l.out;
  }

  lemma WriteStepData(l: Loop, cap: nat, nw: nat, ew: Option<IoError>, untouched: bool, now: int)
    requires l.pc.Writing? && DataInv(l, cap) && nw <= |l.pc.data|
    ensures DataInv(WriteStep(l, nw, ew, untouched, now), cap)
  {
    var data := l.pc.data;
    var out := l.out + data[..nw];
    assert l.consumed == out + data[nw..];
    assert nw == |data| ==> l.consumed == out;
    assert out + [] == out;
  }

  lemma LocalStepData(s: State, x: Side)
    requires DataInv(s.loops.Get(x), s.cap) && Enabled(s, Local(x))
    ensures DataInv(LocalStep(s, x).loops.Get(x), s.cap) && LocalStep(s, x).cap == s.cap
  {
  }

  lemma StepData(s: State, l: Label, x: Side)
    requires DataInv(s.loops.Get(x), s.cap) && Enabled(s, l)
    ensures DataInv(Step(s, l).loops.Get(x), Step(s, l).cap)
  {
    if l.ReadReturns? && l.x == x {
      ReadStepData(s.loops.Get(x), s.cap, l.data, l.er, Untouched(s), s.now);
    } else if l.WriteReturns? && l.x == x {
      WriteStepData(s.loops.Get(x), s.cap, l.nw, l.ew, Untouched(s), s.now);
    } else if l == Local(x) {
      LocalStepData(s, x);
    } else {
      assert Step(s, l).loops.Get(x) == s.loops.Get(x);
    }
  }

  lemma StepTeardown(s: State, l: Label, x: Side)
    requires TeardownInv(s, x) && Enabled(s, l)
    ensures TeardownInv(Step(s, l), x)
  {
  }

  lemma StepUnreported(s: State, l: Label)
    requires UnreportedInv(s) && s.now > LONG_TIME_AGO && Enabled(s, l)
    requires TeardownInv(s, A) && TeardownInv(s, B) && ClockReadInv(s, A) && ClockReadInv(s, B)
    ensures UnreportedInv(Step(s, l))
  {
  }

  lemma StepClockRead(s: State, l: Label, x: Side)
    requires ClockReadInv(s, x) && s.now > LONG_TIME_AGO && Enabled(s, l)
    ensures ClockReadInv(Step(s, l), x)
  {
    if !Takes(l, x) { assert Step(s, l).loops.Get(x) == s.loops.Get(x); }
  }

  lemma StepReported(s: State, l: Label)
    requires UnreportedInv(s) && ReportedInv(s) && Enabled(s, l)
    ensures ReportedInv(Step(s, l))
  {
  }

  lemma StepInv(s: State, l: Label)
    requires Inv(s) && Enabled(s, l)
    ensures Inv(Step(s, l))
  {
    assert TeardownInv(s, A) && TeardownInv(s, B) && ClockReadInv(s, A) && ClockReadInv(s, B);
    StepUnreported(s, l);
    StepReported(s, l);
    forall x: Side
      ensures DataInv(Step(s, l).loops.Get(x), Step(s, l).cap) && TeardownInv(Step(s, l), x)
      ensures ClockReadInv(Step(s, l), x)
    {
      StepData(s, l, x);
      StepTeardown(s, l, x);
      StepClockRead(s, l, x);
    }
  }

  lemma {:induction false} RunInv(s: State, ls: seq<Label>)
    requires Inv(s) && Feasible(s, ls)
    ensures Inv(Exec(s, ls))
    decreases |ls|
  {
    if ls != [] {
      StepInv(s, ls[0]);
      RunInv(Step(s, ls[0]), ls[1..]);
    }
  }

  // ---- bytes -----------------------------------------------------------------------------------------

  /** In every run, in either direction, the bytes delivered are a prefix of the bytes read and lag them by
      at most one buffer; a direction that ended with nil has delivered everything it read. */
  lemma DeliversPrefix(s: State, ls: seq<Label>, x: Side)
    requires Init(s) && Feasible(s, ls)
    ensures var l := Exec(s, ls).loops.Get(x);
            && l.out <= l.consumed && |l.consumed| - |l.out| <= Exec(s, ls).cap
            && (Finished(l.pc) && l.result == None ==> l.out == l.consumed)
  {
    InitInv(s);
    RunInv(s, ls);
    assert DataInv(Exec(s, ls).loops.Get(x), Exec(s, ls).cap);
  }

  // ---- the reported error ----------------------------------------------------------------------------

  /** The step is the Read or Write of loop x that ends its copying with result e: a failed Write's own error, a
      "short write", or the error of the Read, with nil for EOF. */
  ghost predicate Produces(s: State, l: Label, x: Side, e: Option<IoError>) {
    match l
    case ReadReturns(y, data, er) => y == x && data == [] && er.Some? && e == if er == Some(Eof) then None else er
    case WriteReturns(y, nw, ew) =>
      && y == x && s.loops.Get(x).pc.Writing?
      && var pc := s.loops.Get(x).pc;
      if ew.Some? then e == ew
      else if nw < |pc.data| then e == Some(ShortWrite)
      else pc.er.Some? && e == if pc.er == Some(Eof) then None else pc.er
    case _ => false
  }

  lemma StepFinishes(s: State, l: Label, x: Side)
    requires Enabled(s, l) && !Finished(s.loops.Get(x).pc) && Finished(Step(s, l).loops.Get(x).pc)
    ensures Produces(s, l, x, Step(s, l).loops.Get(x).result)
    ensures Step(s, l).loops.Get(x).untouched == Untouched(s)
  {
  }

  lemma StepKeepsResult(s: State, l: Label, x: Side)
    requires Enabled(s, l) && Finished(s.loops.Get(x).pc)
    ensures var before, after := s.loops.Get(x), Step(s, l).loops.Get(x);
            Finished(after.pc) && after.result == before.result && after.untouched == before.untouched
  {
  }

  lemma {:induction false} RunKeepsResult(s: State, ls: seq<Label>, x: Side)
    requires Feasible(s, ls) && Finished(s.loops.Get(x).pc)
    ensures var before, after := s.loops.Get(x), Exec(s, ls).loops.Get(x);
            after.result == before.result && after.untouched == before.untouched
    decreases |ls|
  {
    if ls != [] {
      StepKeepsResult(s, ls[0], x);
      RunKeepsResult(Step(s, ls[0]), ls[1..], x);
    }
  }

  /** The step of a run at which loop x got its result. */
  lemma {:induction false} ResultProduced(s: State, ls: seq<Label>, x: Side) returns (i: nat)
    requires Feasible(s, ls) && !Finished(s.loops.Get(x).pc) && Finished(Exec(s, ls).loops.Get(x).pc)
    ensures i < |ls| && Feasible(s, ls[..i])
    ensures Produces(Exec(s, ls[..i]), ls[i], x, Exec(s, ls).loops.Get(x).result)
    ensures Exec(s, ls).loops.Get(x).untouched == Untouched(Exec(s, ls[..i]))
    decreases |ls|
  {
    var s' := Step(s, ls[0]);
    if Finished(s'.loops.Get(x).pc) {
      StepFinishes(s, ls[0], x);
      RunKeepsResult(s', ls[1..], x);
      i := 0;
    } else {
      var j := ResultProduced(s', ls[1..], x);
      i := j + 1;
      assert ls[..i][0] == ls[0] && ls[..i][1..] == ls[1..][..j];
    }
  }

  /** Whatever openTunnel returns is the result of one direction, produced by a Read or a Write that
      returned before any teardown step of either direction, and both connections are closed. */
  lemma ReportedErrorIsCause(s: State, ls: seq<Label>) returns (who: Side, i: nat)
    requires Init(s) && Feasible(s, ls) && Exec(s, ls).returned.Some?
    ensures i < |ls| && Feasible(s, ls[..i])
    ensures Produces(Exec(s, ls[..i]), ls[i], who, Exec(s, ls).returned.value)
    ensures Untouched(Exec(s, ls[..i]))
    ensures BothClosed(Exec(s, ls))
  {
    InitInv(s);
    RunInv(s, ls);
    var end := Exec(s, ls);
    assert TeardownInv(end, A) && TeardownInv(end, B);
    who := end.first.who;
    i := ResultProduced(s, ls, who);
  }

  // ---- teardown --------------------------------------------------------------------------------------

  /** The steps a loop can still take once both connections are closed. */
  function Rank(pc: Pc): nat {
    match pc
    case NowRead => 14
    case LoadRead(_) => 13
    case SetRead(_, _) => 12
    case Reading => 11
    case NowWrite(_, _) => 10
    case LoadWrite(_, _, _) => 9
    case SetWrite(_, _, _, _) => 8
    case Writing(_, _) => 7
    case Report => 6
    case StoreZero => 5
    case ExpireSrc => 4
    case ExpireDst => 3
    case CloseSrc => 2
    case CloseDst => 1
    case Ended => 0
  }

  function Measure(s: State): nat {
    Rank(s.loops.a.pc) + Rank(s.loops.b.pc) + if s.returned.None? then 1 else 0
  }

  lemma StepRank(s: State, l: Label, x: Side)
    requires BothClosed(s) && Enabled(s, l)
    ensures var pc, pc' := s.loops.Get(x).pc, Step(s, l).loops.Get(x).pc;
            if Takes(l, x) then Rank(pc') < Rank(pc) else pc' == pc
  {
    if !Takes(l, x) { assert Step(s, l).loops.Get(x) == s.loops.Get(x); }
  }

  lemma StepDrains(s: State, l: Label)
    requires BothClosed(s) && Enabled(s, l)
    ensures BothClosed(Step(s, l))
    ensures if l.Tick? then Measure(Step(s, l)) == Measure(s) else Measure(Step(s, l)) < Measure(s)
  {
    StepRank(s, l, A);
    StepRank(s, l, B);
    assert s.loops.Get(A) == s.loops.a && s.loops.Get(B) == s.loops.b;
    var s' := Step(s, l);
    assert s'.loops.Get(A) == s'.loops.a && s'.loops.Get(B) == s'.loops.b;
  }

  function Work(ls: seq<Label>): nat {
    if ls == [] then 0 else (if ls[0].Tick? then 0 else 1) + Work(ls[1..])
  }

  /** The Reads and Writes of loop x that return. */
  function Reads(ls: seq<Label>, x: Side): nat {
    if ls == [] then 0 else (if ls[0].ReadReturns? && ls[0].x == x then 1 else 0) + Reads(ls[1..], x)
  }

  function Writes(ls: seq<Label>, x: Side): nat {
    if ls == [] then 0 else (if ls[0].WriteReturns? && ls[0].x == x then 1 else 0) + Writes(ls[1..], x)
  }

  function ReadsLeft(pc: Pc): nat {
    if Rank(pc) >= 11 then 1 else 0
  }

  function WritesLeft(pc: Pc): nat {
    if Rank(pc) >= 7 then 1 else 0
  }

  lemma StepSpends(s: State, l: Label, x: Side)
    requires BothClosed(s) && Enabled(s, l)
    ensures var pc, pc' := s.loops.Get(x).pc, Step(s, l).loops.Get(x).pc;
            && ReadsLeft(pc') + (if l.ReadReturns? && l.x == x then 1 else 0) <= ReadsLeft(pc)
            && WritesLeft(pc') + (if l.WriteReturns? && l.x == x then 1 else 0) <= WritesLeft(pc)
            && (l.ReadReturns? && l.x == x && l.data == [] ==> WritesLeft(pc') == 0)
  {
    if !Takes(l, x) { assert Step(s, l).loops.Get(x) == s.loops.Get(x); }
  }

  /** Once both connections are closed a run has at most Measure(s) <= 29 steps left, whatever a late
      deadline or a loaded timeout says, and in them each loop does at most one more Read and one more
      Write.  A Read that delivers nothing, as on a connection that drops its data when closed, is its
      loop's last call. */
  lemma {:induction false} ClosedRunEnds(s: State, ls: seq<Label>, x: Side)
    requires BothClosed(s) && Feasible(s, ls)
    ensures Work(ls) + Measure(Exec(s, ls)) <= Measure(s) <= 29
    ensures Reads(ls, x) <= 1 && Writes(ls, x) <= 1
    ensures Reads(ls, x) <= ReadsLeft(s.loops.Get(x).pc) && Writes(ls, x) <= WritesLeft(s.loops.Get(x).pc)
    ensures (forall l :: l in ls && l.ReadReturns? ==> l.data == []) ==> Reads(ls, x) + Writes(ls, x) <= 1
    decreases |ls|
  {
    if ls != [] {
      StepDrains(s, ls[0]);
      StepSpends(s, ls[0], x);
      ClosedRunEnds(Step(s, ls[0]), ls[1..], x);
    }
  }

  /** A step that is not the passing of time is possible until openTunnel returns. */
  lemma NoDeadlock(s: State) returns (l: Label)
    requires s.returned.None?
    ensures !l.Tick? && Enabled(s, l)
  {
    var x := if s.loops.a.pc.Ended? then B else A;
    match s.loops.Get(x).pc
    case Reading => l := ReadReturns(x, [], Some(TIMEOUT));
    case Writing(_, _) => l := WriteReturns(x, 0, Some(TIMEOUT));
    case Ended => l := Return;
    case _ => l := Local(x);
  }

  function OwnSteps(ls: seq<Label>, x: Side): nat {
    if ls == [] then 0 else (if ls[0] == Local(x) then 1 else 0) + OwnSteps(ls[1..], x)
  }

  lemma StepOwn(s: State, l: Label, x: Side)
    requires Enabled(s, l) && Finished(s.loops.Get(x).pc)
    ensures Finished(Step(s, l).loops.Get(x).pc)
    ensures Rank(Step(s, l).loops.Get(x).pc) + (if l == Local(x) then 1 else 0) == Rank(s.loops.Get(x).pc)
  {
    if !Takes(l, x) { assert Step(s, l).loops.Get(x) == s.loops.Get(x); }
  }

  /** A direction whose copying has ended never waits: at most six steps of its own, always enabled and
      undisturbed by the other direction, close both connections. */
  lemma {:induction false} OwnTeardown(s: State, ls: seq<Label>, x: Side)
    requires Inv(s) && Feasible(s, ls) && Finished(s.loops.Get(x).pc)
    ensures var pc := Exec(s, ls).loops.Get(x).pc;
            && Rank(pc) + OwnSteps(ls, x) == Rank(s.loops.Get(x).pc) <= 6
            && (Rank(pc) > 0 ==> Enabled(Exec(s, ls), Local(x)))
            && (Rank(pc) == 0 ==> BothClosed(Exec(s, ls)))
    decreases |ls|
  {
    if ls == [] {
      assert TeardownInv(s, x);
    } else {
      StepInv(s, ls[0]);
      StepOwn(s, ls[0], x);
      OwnTeardown(Step(s, ls[0]), ls[1..], x);
    }
  }

  /** A run of openTunnel that can only let time pass any more has returned the first reported result with
      both connections closed. */
  lemma TunnelCompletes(s: State, ls: seq<Label>)
    requires Init(s) && Feasible(s, ls)
    requires forall l :: Enabled(Exec(s, ls), l) ==> l.Tick?
    ensures BothClosed(Exec(s, ls)) && Exec(s, ls).first.Reported?
    ensures Exec(s, ls).returned == Some(Exec(s, ls).first.err)
  {
    InitInv(s);
    RunInv(s, ls);
    var end := Exec(s, ls);
    if end.returned.None? {
      var l := NoDeadlock(end);
    }
    assert TeardownInv(end, A) && TeardownInv(end, B);
  }

  /** The steps of openOneWayTunnel after copyBuffer, run alone: the result is reported unless another was, the
      timeout is zero, all four deadlines are in the past and both connections are closed. */
  lemma UninterruptedTeardown(s: State, x: Side)
    requires s.loops.Get(x).pc.Report?
    ensures var s3 := LocalStep(LocalStep(LocalStep(s, x), x), x);
            var end := LocalStep(LocalStep(LocalStep(s3, x), x), x);
            && end.first == (if s.first.Unreported? then Reported(x, s.loops.Get(x).result) else s.first)
            && end.cell == 0
            && end.conns.a == end.conns.b == Conn(true, Some(LONG_TIME_AGO), Some(LONG_TIME_AGO))
            && end.loops.Get(x).pc == Ended && end.loops.Get(Other(x)) == s.loops.Get(Other(x))
  {
    var src, dst := s.conns.Get(Other(x)), s.conns.Get(x);
    var s2 := LocalStep(LocalStep(s, x), x);
    assert s2.loops.Get(x).pc == ExpireSrc && s2.cell == 0 && s2.conns == s.conns;
    var s4 := LocalStep(LocalStep(s2, x), x);
    assert s4.loops.Get(x).pc == CloseSrc;
    assert s4.conns.Get(Other(x)) == Expire(src) && s4.conns.Get(x) == Expire(dst);
  }

  /** Every waiting call of loop x has a deadline that has passed, and so will its later ones. */
  ghost predicate NoMoreWaiting(s: State, x: Side) {
    && s.cell == 0 && s.now > LONG_TIME_AGO
    && match s.loops.Get(x).pc {
      case LoadRead(at) => at <= s.now
      case LoadWrite(_, _, at) => at <= s.now
      case SetRead(at, t) => at <= s.now && t == 0
      case SetWrite(_, _, at, t) => at <= s.now && t == 0
      case Reading => var d := s.conns.Get(Other(x)).readDeadline; d.Some? && d.value <= s.now
      case Writing(_, _) => var d := s.conns.Get(x).writeDeadline; d.Some? && d.value <= s.now
      case _ => true
    }
  }

  lemma OwnNoMoreWaiting(s: State, l: Label, x: Side)
    requires NoMoreWaiting(s, x) && Enabled(s, l) && Takes(l, x)
    ensures NoMoreWaiting(Step(s, l), x)
  {
  }

  lemma OtherNoMoreWaiting(s: State, l: Label, x: Side)
    requires NoMoreWaiting(s, x) && Enabled(s, l) && !Takes(l, x)
    ensures NoMoreWaiting(Step(s, l), x)
  {
    assert Step(s, l).loops.Get(x) == s.loops.Get(x);
  }

  /** Once the shared timeout is zero, a loop that begins another iteration, or another Write, never waits again:
      the deadline of each of its calls has passed when the call is made. */
  lemma {:induction false} ZeroTimeoutEndsWaiting(s: State, ls: seq<Label>, x: Side)
    requires s.cell == 0 && s.now > LONG_TIME_AGO && Feasible(s, ls)
    requires s.loops.Get(x).pc.NowRead? || s.loops.Get(x).pc.NowWrite? || NoMoreWaiting(s, x)
    ensures NoMoreWaiting(Exec(s, ls), x)
    decreases |ls|
  {
    if ls != [] {
      if Takes(ls[0], x) { OwnNoMoreWaiting(s, ls[0], x); } else { OtherNoMoreWaiting(s, ls[0], x); }
      ZeroTimeoutEndsWaiting(Step(s, ls[0]), ls[1..], x);
    }
  }

  // ---- the race on the read deadline -----------------------------------------------------------------

  lemma {:induction false} ExtendRun(s: State, ls: seq<Label>, l: Label)
    requires Feasible(s, ls) && Enabled(Exec(s, ls), l)
    ensures Feasible(s, ls + [l]) && Exec(s, ls + [l]) == Step(Exec(s, ls), l)
    decreases |ls|
  {
    if ls == [] {
      assert [l][1..] == [] && ls + [l] == [l];
    } else {
      assert (ls + [l])[1..] == ls[1..] + [l];
      ExtendRun(Step(s, ls[0]), ls[1..], l);
    }
  }

  /** Loop A reports, zeroes the timeout and expires both connections. */
  lemma RaceExpires(s: State, before: seq<Label>) returns (ls: seq<Label>)
    requires Feasible(s, before) && Exec(s, before).loops.a.pc == Report
    ensures Feasible(s, ls)
    ensures var e, end := Exec(s, before), Exec(s, ls);
            && end.first.Reported? && end.cell == 0 && end.loops.a.pc == CloseSrc && end.loops.b == e.loops.b
            && end.conns == Pair(Expire(e.conns.a), Expire(e.conns.b))
  {
    ls := before;
    ExtendRun(s, ls, Local(A));
    ls := ls + [Local(A)];
    ExtendRun(s, ls, Local(A));
    ls := ls + [Local(A)];
    ExtendRun(s, ls, Local(A));
    ls := ls + [Local(A)];
    ExtendRun(s, ls, Local(A));
    ls := ls + [Local(A)];
  }

  /** The deadline in the past alone would not stop the other loop.  In the run built here B loads the
      configured timeout, A meets the end of its stream and expires both connections, and then B's
      SetReadDeadline puts the deadline of connection A back into the future, with the connection still open
      and B about to wait in Read.  Only the close that follows ends that Read. */
  lemma ExpiryCanBeOverwritten(s: State) returns (ls: seq<Label>)
    requires Init(s)
    ensures Feasible(s, ls)
    ensures var end := Exec(s, ls);
            && end.first.Reported? && end.cell == 0 && end.loops.a.pc == CloseSrc && end.loops.b.pc == Reading
            && end.conns.b.readDeadline == Some(LONG_TIME_AGO)
            && end.conns.a.readDeadline == Some(s.now + s.timeout) && !end.conns.a.closed
  {
    ls := RaceLoads(s);
    ls := RaceUpToReport(s, ls);
    ls := RaceExpires(s, ls);
    ExtendRun(s, ls, Local(B));
    ls := ls + [Local(B)];
  }

  lemma RaceLoads(s: State) returns (ls: seq<Label>)
    requires Init(s)
    ensures Feasible(s, ls)
    ensures Exec(s, ls) == s.(loops := Pair(s.loops.a, s.loops.b.(pc := SetRead(s.now, s.timeout))))
  {
    ls := [];
    ExtendRun(s, ls, Local(B));
    ls := ls + [Local(B)];
    ExtendRun(s, ls, Local(B));
    ls := ls + [Local(B)];
  }

  lemma RaceUpToReport(s: State, before: seq<Label>) returns (ls: seq<Label>)
    requires Feasible(s, before) && Exec(s, before).loops.a.pc == NowRead
    ensures Feasible(s, ls)
    ensures var e, end := Exec(s, before), Exec(s, ls);
            && end.loops.a.pc == Report && end.loops.b == e.loops.b
            && end.conns.a == e.conns.a && end.conns.b.closed == e.conns.b.closed
  {
    ls := before;
    ExtendRun(s, ls, Local(A));
    ls := ls + [Local(A)];
    ExtendRun(s, ls, Local(A));
    ls := ls + [Local(A)];
    ExtendRun(s, ls, Local(A));
    ls := ls + [Local(A)];
    ExtendRun(s, ls, ReadReturns(A, [], Some(Eof)));
    ls := ls + [ReadReturns(A, [], Some(Eof))];
  }
}

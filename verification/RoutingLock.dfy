/** The routing table under concurrent use (internal/core/multi_user_http_mux.go).

    Commands take the write lock and change the table one entry a step; lookups take the read lock; WebSocket
    sessions dial the destination their upgrade request looked up, whenever one of their streams arrives. */
module RoutingLock {
  import opened Prelude
  import opened Routing

  /** Thread t holds the write lock and has applied the first `done` entries of its command. */
  datatype Writer = Writer(t: nat, cmd: Command, done: nat)

  /** A finished get or len, and how many commands had been completed when it read the table. */
  datatype Observation = Found(path: string, dst: Option<string>, at: nat) | Counted(n: nat, at: nat)

  /** A session upgraded on the strength of observation `obs`. */
  datatype Session = Session(dst: string, obs: nat)

  datatype Dial = Dial(session: nat, dst: string)

  /** `log` holds the completed commands, `seen` the observations and `dials` the dials made, in order. */
  datatype State = State(
    table: Table, writer: Option<Writer>, readers: set<nat>, log: seq<Command>,
    seen: seq<Observation>, sessions: map<nat, Session>, dials: seq<Dial>)

  datatype Label =
    | Lock(t: nat, cmd: Command)
    | ApplyEntry
    | Unlock
    | RLock(t: nat)
    | Get(t: nat, path: string)
    | Len(t: nat)
    | RUnlock(t: nat)
    | Upgrade(session: nat, obs: nat)
    | StreamArrives(session: nat)

  ghost predicate Init(s: State) {
    s == State(map[], None, {}, [], [], map[], [])
  }

  /** The commands that take the write lock. */
  predicate Changes(c: Command) {
    c.opt == OPT_RESET || ((c.opt == OPT_ADD || c.opt == OPT_DEL) && c.args != [])
  }

  function Entries(c: Command): nat {
    if c.opt == OPT_RESET then 1 else |c.args|
  }

  /** The table when the first n entries of a command have been applied. */
  function Partial(t: Table, c: Command, n: nat): Table
    requires n <= Entries(c)
  {
    if c.opt == OPT_RESET then (if n == 0 then t else map[])
    else if c.opt == OPT_ADD then AddAll(t, c.args[..n])
    else DelAll(t, c.args[..n])
  }

  function ApplyOne(t: Table, c: Command, n: nat): Table
    requires n < Entries(c)
  {
    if c.opt == OPT_RESET then map[]
    else if c.opt == OPT_ADD then t[c.args[n].path := c.args[n].dst]
    else t - {c.args[n].path}
  }

  predicate Enabled(s: State, l: Label) {
    match l
    case Lock(_, cmd) => s.writer.None? && s.readers == {} && Changes(cmd)
    case ApplyEntry => s.writer.Some? && s.writer.value.done < Entries(s.writer.value.cmd)
    case Unlock => s.writer.Some? && s.writer.value.done == Entries(s.writer.value.cmd)
    case RLock(t) => s.writer.None? && t !in s.readers
    case Get(t, _) => t in s.readers
    case Len(t) => t in s.readers
    case RUnlock(t) => t in s.readers
    case Upgrade(k, obs) => k !in s.sessions && obs < |s.seen| && s.seen[obs].Found? && s.seen[obs].dst.Some?
    case StreamArrives(k) => k in s.sessions
  }

  function Step(s: State, l: Label): State
    requires Enabled(s, l)
  {
    match l
    case Lock(t, cmd) => s.(writer := Some(Writer(t, cmd, 0)))
    case ApplyEntry =>
      var w := s.writer.value;
      s.(table := ApplyOne(s.table, w.cmd, w.done), writer := Some(w.(done := w.done + 1)))
    case Unlock => s.(writer := None, log := s.log + [s.writer.value.cmd])
    case RLock(t) => s.(readers := s.readers + {t})
    case Get(_, path) => s.(seen := s.seen + [Found(path, Lookup(s.table, path), |s.log|)])
    case Len(_) => s.(seen := s.seen + [Counted(|s.table|, |s.log|)])
    case RUnlock(t) => s.(readers := s.readers - {t})
    case Upgrade(k, obs) => s.(sessions := s.sessions[k := Session(s.seen[obs].dst.value, obs)])
    case StreamArrives(k) => s.(dials := s.dials + [Dial(k, s.sessions[k].dst)])
  }

  ghost predicate Feasible(s: State, ls: seq<Label>)
    decreases |ls|
  {
    ls == [] || (Enabled(s, ls[0]) && Feasible(Step(s, ls[0]), ls[1..]))
  }

  ghost function Exec(s: State, ls: seq<Label>): State
    requires Feasible(s, ls)
    decreases |ls|
  {
    if ls == [] then s else Exec(Step(s, ls[0]), ls[1..])
  }

  // ---- what every step keeps -------------------------------------------------------------------------

  /** The table is that of the completed commands, and of a part of one more under the write lock. */
  ghost predicate TableInv(s: State) {
    match s.writer
    case None => s.table == TableAfter(s.log)
    case Some(w) =>
      && s.readers == {} && Changes(w.cmd) && w.done <= Entries(w.cmd)
      && s.table == Partial(TableAfter(s.log), w.cmd, w.done)
  }

  /** The observation shows the table after the first `at` commands. */
  ghost predicate Shows(log: seq<Command>, o: Observation) {
    && o.at <= |log|
    && match o {
      case Found(path, dst, at) => dst == Lookup(TableAfter(log[..at]), path)
      case Counted(n, at) => n == |TableAfter(log[..at])|
    }
  }

  ghost predicate SeenInv(s: State) {
    && (forall i :: 0 <= i < |s.seen| ==> Shows(s.log, s.seen[i]))
    && (forall i, j :: 0 <= i < j < |s.seen| ==> s.seen[i].at <= s.seen[j].at)
  }

  ghost predicate SessionsInv(s: State) {
    && (forall k :: k in s.sessions ==>
          s.sessions[k].obs < |s.seen| && s.seen[s.sessions[k].obs].Found?
          && s.seen[s.sessions[k].obs].dst == Some(s.sessions[k].dst))
    && (forall i :: 0 <= i < |s.dials| ==>
          s.dials[i].session in s.sessions && s.dials[i].dst == s.sessions[s.dials[i].session].dst)
  }

  ghost predicate Inv(s: State) {
    TableInv(s) && SeenInv(s) && SessionsInv(s)
  }

  lemma PartialStep(t: Table, c: Command, n: nat)
    requires Changes(c) && n < Entries(c)
    ensures ApplyOne(Partial(t, c, n), c, n) == Partial(t, c, n + 1)
  {
    if c.opt != OPT_RESET {
      assert c.args[..n + 1][..n] == c.args[..n];
    }
  }

  lemma PartialWhole(t: Table, c: Command)
    requires Changes(c)
    ensures Partial(t, c, Entries(c)) == Apply(t, c) && Partial(t, c, 0) == t
  {
    assert c.args[..|c.args|] == c.args;
  }

  lemma StepTable(s: State, l: Label)
    requires TableInv(s) && Enabled(s, l)
    ensures TableInv(Step(s, l))
  {
    match l
    case Lock(_, cmd) => PartialWhole(TableAfter(s.log), cmd);
    case ApplyEntry => PartialStep(TableAfter(s.log), s.writer.value.cmd, s.writer.value.done);
    case Unlock =>
      PartialWhole(TableAfter(s.log), s.writer.value.cmd);
      assert Step(s, l).log[..|s.log|] == s.log;
    case _ =>
  }

  lemma ShowsLater(log: seq<Command>, c: Command, o: Observation)
    requires Shows(log, o)
    ensures Shows(log + [c], o)
  {
    assert (log + [c])[..o.at] == log[..o.at];
  }

  lemma StepSeen(s: State, l: Label)
    requires TableInv(s) && SeenInv(s) && Enabled(s, l)
    ensures SeenInv(Step(s, l))
  {
    if l.Unlock? {
      forall i | 0 <= i < |s.seen|
        ensures Shows(Step(s, l).log, s.seen[i])
      {
        ShowsLater(s.log, s.writer.value.cmd, s.seen[i]);
      }
    }
    assert s.log[..|s.log|] == s.log;
  }

  lemma StepSessions(s: State, l: Label)
    requires SessionsInv(s) && Enabled(s, l)
    ensures SessionsInv(Step(s, l))
  {
  }

  lemma {:induction false} RunInv(s: State, ls: seq<Label>)
    requires Inv(s) && Feasible(s, ls)
    ensures Inv(Exec(s, ls))
    decreases |ls|
  {
    if ls != [] {
      StepTable(s, ls[0]);
      StepSeen(s, ls[0]);
      StepSessions(s, ls[0]);
      RunInv(Step(s, ls[0]), ls[1..]);
    }
  }

  /** However commands and lookups overlap, every get and len shows the table after some number of complete
      commands, never part of one, and later lookups show no earlier tables. */
  lemma LookupsSeeWholeCommands(s: State, ls: seq<Label>, i: nat)
    requires Init(s) && Feasible(s, ls) && i < |Exec(s, ls).seen|
    ensures var e := Exec(s, ls);
            && e.seen[i].at <= |e.log|
            && (e.seen[i].Found? ==> e.seen[i].dst == Lookup(TableAfter(e.log[..e.seen[i].at]), e.seen[i].path))
            && (e.seen[i].Counted? ==> e.seen[i].n == |Routed(e.log[..e.seen[i].at])|)
            && forall j :: 0 <= j < i ==> e.seen[j].at <= e.seen[i].at
  {
    RunInv(s, ls);
    var e := Exec(s, ls);
    assert Shows(e.log, e.seen[i]);
    RoutedIsTable(e.log[..e.seen[i].at]);
  }

  lemma {:induction false} SessionsStay(s: State, ls: seq<Label>, k: nat)
    requires Feasible(s, ls) && k in s.sessions
    ensures k in Exec(s, ls).sessions && Exec(s, ls).sessions[k] == s.sessions[k]
    decreases |ls|
  {
    if ls != [] {
      SessionsStay(Step(s, ls[0]), ls[1..], k);
    }
  }

  /** Whatever is added, deleted or reset after its upgrade, every stream of a session is dialed to the
      destination its path had at the one lookup of the upgrade. */
  lemma SessionsStick(s: State, before: seq<Label>, after: seq<Label>, k: nat, i: nat)
    requires Init(s) && Feasible(s, before) && Feasible(Exec(s, before), after)
    requires k in Exec(s, before).sessions
    requires var e := Exec(Exec(s, before), after); i < |e.dials| && e.dials[i].session == k
    ensures var m, e := Exec(s, before), Exec(Exec(s, before), after);
            && e.dials[i].dst == m.sessions[k].dst
            && m.sessions[k].obs < |m.seen| && m.seen[m.sessions[k].obs].Found?
            && var o := m.seen[m.sessions[k].obs];
               o.at <= |m.log| && Lookup(TableAfter(m.log[..o.at]), o.path) == Some(e.dials[i].dst)
  {
    RunInv(s, before);
    var m := Exec(s, before);
    RunInv(m, after);
    SessionsStay(m, after, k);
    assert Shows(m.log, m.seen[m.sessions[k].obs]);
  }
}

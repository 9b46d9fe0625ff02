/** What a client can do about the server's limit (internal/core/common.go), which counts streams the client does
    not hold any more: open a stream only while few of its streams have not had the server's FIN.  This helps
    when a FIN reaches the client after its stream is off the server's count, and only then: the library's
    Stream.Close sends the FIN first. */
module MuxWindow {
  import opened Prelude
  import opened MuxAgreement

  /** The streams the client has opened and not received the server's FIN of. */
  function Outstanding(s: State): int {
    s.next - |s.acked|
  }

  /** The client opens a stream only while fewer than `window` are outstanding. */
  ghost predicate Windowed(s: State, ls: seq<Label>, window: nat)
    requires Feasible(s, ls)
    decreases |ls|
  {
    ls == [] || ((ls[0].ClientOpen? ==> Outstanding(s) < window) && Windowed(Step(s, ls[0]), ls[1..], window))
  }

  /** A FIN reaches the client when its stream is off the server's count. */
  ghost predicate FinsLast(s: State, ls: seq<Label>)
    requires Feasible(s, ls)
    decreases |ls|
  {
    ls == [] || ((ls[0].ToClient? ==> s.toClient[0] !in s.table) && FinsLast(Step(s, ls[0]), ls[1..]))
  }

  // ---- the window holds ------------------------------------------------------------------------------

  lemma {:induction false} Below(ids: set<nat>, n: nat)
    requires forall k :: k in ids ==> k < n
    ensures |ids| <= n
    decreases n
  {
    if n == 0 {
      assert ids == {};
    } else {
      Below(ids - {n - 1}, n - 1);
    }
  }

  /** The server counts outstanding streams only. */
  lemma TableOutstanding(s: State)
    requires Inv(s) && s.table !! s.acked
    ensures |s.table| <= Outstanding(s)
  {
    Below(s.table + s.acked, s.next);
  }

  lemma StepOutstanding(s: State, l: Label)
    requires Inv(s) && Enabled(s, l)
    ensures Outstanding(Step(s, l)) <= Outstanding(s) + if l.ClientOpen? then 1 else 0
  {
    if l.ToClient? { SubsetCardinality(s.acked, s.acked + {s.toClient[0]}); }
  }

  lemma StepFinsLast(s: State, l: Label)
    requires Inv(s) && s.table !! s.acked && Enabled(s, l) && (l.ToClient? ==> s.toClient[0] !in s.table)
    ensures Step(s, l).table !! Step(s, l).acked
  {
  }

  lemma {:induction false} WindowHolds(s: State, ls: seq<Label>, window: nat)
    requires Inv(s) && Feasible(s, ls) && Windowed(s, ls, window) && Outstanding(s) <= window <= s.max
    requires s.table !! s.acked && FinsLast(s, ls)
    ensures !Trips(Exec(s, ls))
    decreases |ls|
  {
    TableOutstanding(s);
    if ls != [] {
      StepInv(s, ls[0]);
      StepLimit(s, ls[0]);
      StepOutstanding(s, ls[0]);
      StepFinsLast(s, ls[0]);
      WindowHolds(Step(s, ls[0]), ls[1..], window);
    }
  }

  /** A run without FINs that opens no more than `window` streams keeps to the window. */
  lemma {:induction false} FewOpens(s: State, ls: seq<Label>, window: nat)
    requires Feasible(s, ls) && Exec(s, ls).next <= window && Exec(s, ls).acked == {}
    ensures s.next <= window && s.acked == {} && Windowed(s, ls, window) && FinsLast(s, ls)
    decreases |ls|
  {
    if ls != [] {
      FewOpens(Step(s, ls[0]), ls[1..], window);
    }
  }

  ghost predicate SafeWindow(s: State, window: nat) {
    forall ls :: Feasible(s, ls) && Windowed(s, ls, window) && FinsLast(s, ls) ==> !Trips(Exec(s, ls))
  }

  /** If FINs come last, the windows with which a client is never cut off are those up to the server's limit. */
  lemma WindowIsExact(s: State, window: nat)
    requires Init(s) && s.limit >= 1
    ensures SafeWindow(s, window) <==> window <= s.max
  {
    if window <= s.max {
      forall ls | Feasible(s, ls) && Windowed(s, ls, window) && FinsLast(s, ls)
        ensures !Trips(Exec(s, ls))
      {
        WindowHolds(s, ls, window);
      }
    } else {
      var ls := ChurnTrips(s);
      FewOpens(s, ls, window);
    }
  }

  // ---- no window helps otherwise ---------------------------------------------------------------------

  /** The run leads to e with never more than one stream open or outstanding. */
  ghost predicate Leads(s: State, ls: seq<Label>, e: State) {
    Feasible(s, ls) && OneAtATime(s, ls) && Windowed(s, ls, 1) && Exec(s, ls) == e
  }

  lemma {:induction false} Extend(s: State, ls: seq<Label>, l: Label, e: State)
    requires Leads(s, ls, e) && Enabled(e, l) && |Step(e, l).open| <= 1 && (l.ClientOpen? ==> Outstanding(e) < 1)
    ensures Leads(s, ls + [l], Step(e, l))
    decreases |ls|
  {
    if ls == [] {
      assert [l][1..] == [] && ls + [l] == [l];
    } else {
      assert (ls + [l])[1..] == ls[1..] + [l];
      Extend(Step(s, ls[0]), ls[1..], l, e);
    }
  }

  ghost predicate Reaches(s: State, e: State) {
    exists ls :: Leads(s, ls, e)
  }

  lemma Then(s: State, e: State, l: Label)
    requires Reaches(s, e) && Enabled(e, l) && |Step(e, l).open| <= 1 && (l.ClientOpen? ==> Outstanding(e) < 1)
    ensures Reaches(s, Step(e, l))
  {
    var ls :| Leads(s, ls, e);
    Extend(s, ls, l, e);
  }

  /** n streams have been opened, served, closed at both ends and acknowledged one by one, and are all counted
      still. */
  ghost predicate Remembered(e: State, n: nat) {
    && e.next == n && e.open == {} && e.toServer == [] && e.toClient == [] && !e.dead && e.pc == Polling
    && e.queue == [] && e.handled == {} && |e.acked| == n && |e.table| == n
    && (forall k :: k in e.acked || k in e.table ==> k < n)
  }

  /** The client opens one more, and the loop takes it to its test. */
  lemma OpensNext(s: State, e: State, n: nat) returns (r: State)
    requires Reaches(s, e) && Remembered(e, n) && e.limit >= 1
    ensures Reaches(s, r) && r.pc == Testing(n) && |r.table| == n + 1 && n !in e.acked
    ensures r == e.(open := {n}, next := n + 1, table := e.table + {n}, arrived := n + 1, pc := Testing(n))
  {
    assert {} + {n} == {n} && [] + [Syn(n)] == [Syn(n)] && [Syn(n)][1..] == [] && [] + [n] == [n] && [n][1..] == [];
    Then(s, e, ClientOpen);
    var e1 := e.(open := {n}, next := n + 1, toServer := [Syn(n)]);
    assert Step(e, ClientOpen) == e1;
    Then(s, e1, ToServer);
    var e2 := e.(open := {n}, next := n + 1, table := e.table + {n}, queue := [n], arrived := n + 1);
    assert Step(e1, ToServer) == e2;
    Then(s, e2, Go);
    Then(s, e2.(pc := Accepting), Go);
    r := Step(e2.(pc := Accepting), Go);
  }

  /** It is handed out and closed by its handler, and the client gets the FIN. */
  lemma ServesNext(s: State, e: State, n: nat) returns (r: State)
    requires Reaches(s, e) && e.pc == Testing(n) && |e.table| <= e.max && e.handled == {} && e.toClient == []
    requires |e.open| <= 1
    ensures Reaches(s, r)
    ensures r == e.(pc := Polling, leaving := e.leaving + {n}, acked := e.acked + {n})
  {
    assert {} + {n} == {n} && {n} - {n} == {} && [] + [n] == [n] && [n][1..] == [];
    Then(s, e, Go);
    var e1 := e.(pc := HandingOut(n));
    assert Step(e, Go) == e1;
    Then(s, e1, Go);
    var e2 := e.(pc := Polling, handled := {n});
    assert Step(e1, Go) == e2;
    Then(s, e2, HandlerClose(n));
    var e3 := e.(pc := Polling, leaving := e.leaving + {n}, toClient := [n]);
    assert Step(e2, HandlerClose(n)) == e3;
    Then(s, e3, ToClient);
    r := Step(e3, ToClient);
  }

  /** The client closes it too. */
  lemma ClosesNext(s: State, e: State, n: nat) returns (r: State)
    requires Reaches(s, e) && e.open == {n} && e.toServer == [] && !e.dead && n in e.table
    ensures Reaches(s, r) && r == e.(open := {}, eof := e.eof + {n})
  {
    assert {n} - {n} == {} && [] + [Fin(n)] == [Fin(n)] && [Fin(n)][1..] == [];
    Then(s, e, ClientClose(n));
    var e1 := e.(open := {}, toServer := [Fin(n)]);
    assert Step(e, ClientClose(n)) == e1;
    Then(s, e1, ToServer);
    r := Step(e1, ToServer);
  }

  lemma RemembersNext(s: State, e: State, n: nat) returns (r: State)
    requires Reaches(s, e) && Remembered(e, n) && e.limit >= 1 && n < e.max
    ensures Reaches(s, r) && Remembered(r, n + 1) && r.limit == e.limit && r.max == e.max
  {
    r := OpensNext(s, e, n);
    r := ServesNext(s, r, n);
    r := ClosesNext(s, r, n);
  }

  lemma {:induction false} Remembers(s: State, n: nat) returns (e: State)
    requires Init(s) && s.limit >= 1 && n <= s.max
    ensures Reaches(s, e) && Remembered(e, n) && e.limit == s.limit && e.max == s.max
  {
    if n == 0 {
      e := s;
      assert Leads(s, [], s);
    } else {
      e := Remembers(s, n - 1);
      e := RemembersNext(s, e, n - 1);
    }
  }

  /** A client that opens a stream only when all its streams before have had the server's FIN is cut off in this
      run, because the FINs came before the streams were off the count. */
  lemma EarlyFinsTrip(s: State) returns (ls: seq<Label>)
    requires Init(s) && s.limit >= 1
    ensures Feasible(s, ls) && OneAtATime(s, ls) && Windowed(s, ls, 1) && Trips(Exec(s, ls))
  {
    var e := Remembers(s, s.max);
    e := OpensNext(s, e, s.max);
    ls :| Leads(s, ls, e);
  }

  lemma {:induction false} WiderWindow(s: State, ls: seq<Label>, narrow: nat, wide: nat)
    requires Feasible(s, ls) && Windowed(s, ls, narrow) && narrow <= wide
    ensures Windowed(s, ls, wide)
    decreases |ls|
  {
    if ls != [] {
      WiderWindow(Step(s, ls[0]), ls[1..], narrow, wide);
    }
  }

  lemma {:induction false} NothingOpened(s: State, ls: seq<Label>)
    requires Inv(s) && s.next == 0 && Feasible(s, ls) && Windowed(s, ls, 0)
    ensures !Trips(Exec(s, ls))
    decreases |ls|
  {
    assert s.table == {} && s.acked == {};
    if ls != [] {
      StepInv(s, ls[0]);
      NothingOpened(Step(s, ls[0]), ls[1..]);
    }
  }

  ghost predicate SafeAnyway(s: State, window: nat) {
    forall ls :: Feasible(s, ls) && Windowed(s, ls, window) ==> !Trips(Exec(s, ls))
  }

  /** If FINs may come first, only the client that opens nothing is safe. */
  lemma NoWindowForEarlyFins(s: State, window: nat)
    requires Init(s) && s.limit >= 1
    ensures SafeAnyway(s, window) <==> window == 0
  {
    if window == 0 {
      forall ls | Feasible(s, ls) && Windowed(s, ls, window)
        ensures !Trips(Exec(s, ls))
      {
        NothingOpened(s, ls);
      }
    } else {
      var ls := EarlyFinsTrip(s);
      WiderWindow(s, ls, 1, window);
    }
  }
}

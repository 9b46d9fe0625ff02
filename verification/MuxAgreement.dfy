/** The two ends of one multiplexed connection: the client's openStream limit (internal/core/cmux.go) and the
    accept loop of handleClientMuxConn (internal/core/common.go).

    SYN and FIN frames travel in FIFO order.  At either end a stream leaves the table only by a local close; a
    FIN from the peer merely marks its end.  The accept loop has a program counter, and frames, handlers and
    the death of the session interleave with it at every point. */
module MuxAgreement {
  import opened Prelude

  datatype Frame = Syn(id: nat) | Fin(id: nat)

  datatype Pc =
    | Polling            // before IsClosed
    | Accepting          // in AcceptStream
    | Testing(id: nat)   // before NumStreams() > maxStream
    | HandingOut(id: nat)
    | Returned(tripped: bool)

  /** `limit` is the client's limit and `max` the server's.  `open` holds the streams the client has opened and
      not closed, `next` how many it has opened, `acked` those whose FIN from the server it has received, `table`
      those the server counts, `queue` those waiting for AcceptStream, `handled` those handed out and not closed
      by their handler, `leaving` those whose FIN a Close has sent before taking them off the table.  All stream
      ids below `arrived` have reached the server. */
  datatype State = State(
    limit: nat, max: nat, open: set<nat>, next: nat, acked: set<nat>, toServer: seq<Frame>, toClient: seq<nat>,
    dead: bool, table: set<nat>, eof: set<nat>, arrived: nat, queue: seq<nat>, handled: set<nat>,
    leaving: set<nat>, pc: Pc)

  datatype Label =
    | ClientOpen
    | ClientClose(id: nat)
    | ToServer
    | ToClient
    | Go               // the accept loop's next step
    | AcceptFails
    | HandlerClose(id: nat)
    | Forget(id: nat)  // the rest of a Close
    | Die

  ghost predicate Init(s: State) {
    s == State(s.limit, s.max, {}, 0, {}, [], [], false, {}, {}, 0, [], {}, {}, Polling)
  }

  /** NumStreams at the server. */
  function NumStreams(s: State): nat {
    if s.dead then 0 else |s.table|
  }

  predicate Enabled(s: State, l: Label) {
    match l
    case ClientOpen => |s.open| < s.limit
    case ClientClose(id) => id in s.open
    case ToServer => s.toServer != [] && !s.dead
    case ToClient => s.toClient != []
    case Go => !s.pc.Returned? && (s.pc.Accepting? ==> s.queue != [])
    case AcceptFails => s.pc.Accepting?
    case HandlerClose(id) => id in s.handled
    case Forget(id) => id in s.leaving
    case Die => true
  }

  /** A stream closed at the server: a FIN to the client, and off the table in a later step. */
  function Hangup(s: State, id: nat): State {
    s.(leaving := s.leaving + {id}, toClient := s.toClient + [id])
  }

  function Arrive(s: State, f: Frame): State {
    match f
    case Syn(id) => s.(table := s.table + {id}, queue := s.queue + [id], arrived := id + 1)
    case Fin(id) => if id in s.table then s.(eof := s.eof + {id}) else s
  }

  function AcceptLoop(s: State): State
    requires s.pc.Accepting? ==> s.queue != []
  {
    match s.pc
    case Polling => s.(pc := if s.dead then Returned(false) else Accepting)
    case Accepting => s.(pc := Testing(s.queue[0]), queue := s.queue[1..])
    case Testing(id) =>
      if NumStreams(s) > s.max then Hangup(s, id).(pc := Returned(true)) else s.(pc := HandingOut(id))
    case HandingOut(id) => s.(handled := s.handled + {id}, pc := Polling)
    case Returned(_) => s
  }

  function Step(s: State, l: Label): State
    requires Enabled(s, l)
  {
    match l
    case ClientOpen => s.(open := s.open + {s.next}, next := s.next + 1, toServer := s.toServer + [Syn(s.next)])
    case ClientClose(id) => s.(open := s.open - {id}, toServer := s.toServer + [Fin(id)])
    case ToServer => Arrive(s.(toServer := s.toServer[1..]), s.toServer[0])
    case ToClient => s.(toClient := s.toClient[1..], acked := s.acked + {s.toClient[0]})
    case Go => AcceptLoop(s)
    case AcceptFails => s.(pc := Returned(false))
    case HandlerClose(id) => Hangup(s.(handled := s.handled - {id}), id)
    case Forget(id) => s.(table := s.table - {id}, leaving := s.leaving - {id})
    case Die => s.(dead := true)
  }

  ghost predicate Feasible(s: State, ls: seq<Label>)
    decreases |ls|
  {
    ls == [] || (Enabled(s, ls[0]) && Feasible(Step(s, ls[0]), ls[1..]))
  }

  ghost function Exec(s: State, ls: seq<Label>): State
    requires Feasible(s, ls)
    decreases |ls|
  {
    if ls == [] then s else Exec(Step(s, ls[0]), ls[1..])
  }

  // ---- what every step keeps -------------------------------------------------------------------------

  /** The client stays within its limit and uses each id once. */
  ghost predicate ClientInv(s: State) {
    |s.open| <= s.limit && s.arrived <= s.next && forall k :: k in s.open ==> k < s.next
  }

  ghost predicate InOrder(frames: seq<Frame>, low: nat, high: nat) {
    && (forall i :: 0 <= i < |frames| && frames[i].Syn? ==> low <= frames[i].id < high)
    && (forall i, j :: 0 <= i < j < |frames| && frames[i].Syn? && frames[j].Syn? ==> frames[i].id < frames[j].id)
  }

  /** SYNs under way are of new ids, in order. */
  ghost predicate ChannelInv(s: State) {
    InOrder(s.toServer, s.arrived, s.next)
  }

  ghost predicate FinAfter(frames: seq<Frame>, i: nat, id: nat) {
    exists j :: i < j < |frames| && frames[j] == Fin(id)
  }

  ghost predicate SynsCovered(frames: seq<Frame>, open: set<nat>) {
    forall i :: 0 <= i < |frames| && frames[i].Syn? && frames[i].id !in open ==> FinAfter(frames, i, frames[i].id)
  }

  /** The client's close of a stream is visible: in the channel behind the stream's SYN, or at the server. */
  ghost predicate SynInv(s: State) {
    SynsCovered(s.toServer, s.open)
  }

  /** The server has still to learn of the close, or has learned of it and counts the stream until its handler
      closes it, which one whose dial has failed never does. */
  ghost predicate Lagging(s: State, k: nat) {
    k !in s.open && k < s.next && (Fin(k) in s.toServer || k in s.eof)
  }

  ghost predicate LagInv(s: State) {
    forall k :: k in s.table && k !in s.open ==> Lagging(s, k)
  }

  /** The stream the accept loop has in hand, which is neither queued nor handed out yet. */
  function InHand(pc: Pc): set<nat> {
    match pc
    case Testing(id) => {id}
    case HandingOut(id) => {id}
    case _ => {}
  }

  ghost predicate AcceptInv(s: State) {
    && (forall k :: k in s.table || k in s.handled || k in s.queue || k in InHand(s.pc) || k in s.leaving ==>
          k < s.arrived)
    && (forall i :: 0 <= i < |s.queue| ==>
          s.queue[i] !in s.handled && s.queue[i] !in InHand(s.pc) && s.queue[i] !in s.leaving)
    && (forall i, j :: 0 <= i < j < |s.queue| ==> s.queue[i] != s.queue[j])
    && InHand(s.pc) !! s.handled && InHand(s.pc) !! s.leaving && s.handled !! s.leaving
  }

  /** As long as the session is open the server counts every stream queued, in hand or handed out. */
  ghost predicate CountedInv(s: State) {
    !s.dead ==>
      && s.handled + InHand(s.pc) <= s.table
      && (forall i :: 0 <= i < |s.queue| ==> s.queue[i] in s.table)
  }

  /** And it counts no others, but for those whose close is not complete. */
  ghost predicate OriginInv(s: State) {
    forall k :: k in s.table ==> k in s.queue || k in InHand(s.pc) || k in s.handled || k in s.leaving
  }

  ghost predicate BoundInv(s: State) {
    && (!s.dead ==> |s.handled| <= s.max)
    && (!s.dead && s.pc.HandingOut? ==> |s.handled + {s.pc.id}| <= s.max)
    && |s.handled| <= if s.pc.Polling? || s.pc.Returned? then s.max + 1 else s.max
  }

  /** A FIN from the server is of a stream that it has seen. */
  ghost predicate AckInv(s: State) {
    && (forall k :: k in s.acked ==> k < s.arrived)
    && (forall i :: 0 <= i < |s.toClient| ==> s.toClient[i] < s.arrived)
  }

  ghost predicate Inv(s: State) {
    && ClientInv(s) && ChannelInv(s) && SynInv(s) && LagInv(s) && AcceptInv(s) && CountedInv(s) && BoundInv(s)
    && AckInv(s) && OriginInv(s)
  }

  lemma StepClient(s: State, l: Label)
    requires ClientInv(s) && ChannelInv(s) && Enabled(s, l)
    ensures ClientInv(Step(s, l))
  {
  }

  lemma OrderAppend(frames: seq<Frame>, low: nat, high: nat, f: Frame)
    requires InOrder(frames, low, high) && low <= high && (f.Syn? ==> f.id == high)
    ensures InOrder(frames + [f], low, if f.Syn? then high + 1 else high)
  {
  }

  lemma OrderDrop(frames: seq<Frame>, low: nat, high: nat)
    requires InOrder(frames, low, high) && frames != []
    ensures InOrder(frames[1..], if frames[0].Syn? then frames[0].id + 1 else low, high)
  {
  }

  lemma StepChannel(s: State, l: Label)
    requires ClientInv(s) && ChannelInv(s) && Enabled(s, l)
    ensures ChannelInv(Step(s, l))
  {
    match l
    case ClientOpen => OrderAppend(s.toServer, s.arrived, s.next, Syn(s.next));
    case ClientClose(id) => OrderAppend(s.toServer, s.arrived, s.next, Fin(id));
    case ToServer => OrderDrop(s.toServer, s.arrived, s.next);
    case _ =>
  }

  /** A FIN behind position i stays behind it when frames are added, and when the first one is taken. */
  lemma FinStays(frames: seq<Frame>, more: seq<Frame>, i: nat, id: nat)
    requires FinAfter(frames, i, id)
    ensures FinAfter(frames + more, i, id)
    ensures i > 0 ==> FinAfter(frames[1..], i - 1, id)
  {
    var j :| i < j < |frames| && frames[j] == Fin(id);
    assert (frames + more)[j] == Fin(id);
    assert frames[1..][j - 1] == Fin(id);
  }

  lemma CoveredDrop(frames: seq<Frame>, open: set<nat>)
    requires SynsCovered(frames, open) && frames != []
    ensures SynsCovered(frames[1..], open)
  {
    forall i | 0 <= i < |frames| - 1 && frames[1..][i].Syn? && frames[1..][i].id !in open
      ensures FinAfter(frames[1..], i, frames[1..][i].id)
    {
      FinStays(frames, [], i + 1, frames[i + 1].id);
    }
  }

  lemma CoveredAppend(frames: seq<Frame>, open: set<nat>, f: Frame, open': set<nat>)
    requires SynsCovered(frames, open)
    requires if f.Syn? then open' == open + {f.id} else open' == open - {f.id}
    ensures SynsCovered(frames + [f], open')
  {
    var all := frames + [f];
    forall i | 0 <= i < |all| && all[i].Syn? && all[i].id !in open'
      ensures FinAfter(all, i, all[i].id)
    {
      if f == Fin(all[i].id) {
        assert all[|frames|] == f;
      } else {
        FinStays(frames, [f], i, all[i].id);
      }
    }
  }

  lemma StepSyn(s: State, l: Label)
    requires SynInv(s) && Enabled(s, l)
    ensures SynInv(Step(s, l))
  {
    match l
    case ClientOpen => CoveredAppend(s.toServer, s.open, Syn(s.next), s.open + {s.next});
    case ClientClose(id) => CoveredAppend(s.toServer, s.open, Fin(id), s.open - {id});
    case ToServer => CoveredDrop(s.toServer, s.open);
    case _ =>
  }

  lemma StepLag(s: State, l: Label)
    requires ClientInv(s) && ChannelInv(s) && SynInv(s) && LagInv(s) && AcceptInv(s) && Enabled(s, l)
    ensures LagInv(Step(s, l))
  {
    var s' := Step(s, l);
    forall k | k in s'.table && k !in s'.open
      ensures Lagging(s', k)
    {
      if l.ClientClose? && l.id == k {
        assert s'.toServer[|s.toServer|] == Fin(k);
      } else if k !in s.table {
        var j :| 0 < j < |s.toServer| && s.toServer[j] == Fin(k);
        assert s'.toServer[j - 1] == Fin(k);
      } else if Fin(k) in s.toServer {
        var j :| 0 <= j < |s.toServer| && s.toServer[j] == Fin(k);
        assert l.ToServer? && j > 0 ==> s'.toServer[j - 1] == Fin(k);
        assert !l.ToServer? ==> s'.toServer[j] == Fin(k);
      }
    }
  }

  lemma AcceptLoopAccept(s: State)
    requires AcceptInv(s) && Enabled(s, Go)
    ensures AcceptInv(AcceptLoop(s))
  {
  }

  lemma ArriveAccept(s: State, f: Frame)
    requires AcceptInv(s) && (f.Syn? ==> s.arrived <= f.id)
    ensures AcceptInv(Arrive(s, f))
  {
  }

  lemma StepAccept(s: State, l: Label)
    requires ChannelInv(s) && AcceptInv(s) && Enabled(s, l)
    ensures AcceptInv(Step(s, l))
  {
    match l
    case Go => AcceptLoopAccept(s);
    case ToServer => ArriveAccept(s.(toServer := s.toServer[1..]), s.toServer[0]);
    case _ =>
  }

  lemma AcceptLoopCounted(s: State)
    requires AcceptInv(s) && CountedInv(s) && Enabled(s, Go)
    ensures CountedInv(AcceptLoop(s))
  {
  }

  lemma ArriveCounted(s: State, f: Frame)
    requires CountedInv(s)
    ensures CountedInv(Arrive(s, f))
  {
  }

  lemma HandlerCloseCounted(s: State, id: nat)
    requires AcceptInv(s) && CountedInv(s) && id in s.handled
    ensures CountedInv(Step(s, HandlerClose(id)))
  {
  }

  lemma StepCounted(s: State, l: Label)
    requires AcceptInv(s) && CountedInv(s) && Enabled(s, l)
    ensures CountedInv(Step(s, l))
  {
    match l
    case Go => AcceptLoopCounted(s);
    case ToServer => ArriveCounted(s.(toServer := s.toServer[1..]), s.toServer[0]);
    case HandlerClose(id) => HandlerCloseCounted(s, id);
    case _ =>
  }

  lemma AcceptLoopBound(s: State)
    requires CountedInv(s) && BoundInv(s) && Enabled(s, Go)
    ensures BoundInv(AcceptLoop(s))
  {
    if s.pc.Testing? && !s.dead {
      SubsetCardinality(s.handled + {s.pc.id}, s.table);
    }
  }

  lemma HandlerCloseBound(s: State, id: nat)
    requires BoundInv(s) && id in s.handled
    ensures BoundInv(Step(s, HandlerClose(id)))
  {
    SubsetCardinality(s.handled - {id}, s.handled);
    if s.pc.HandingOut? {
      SubsetCardinality(s.handled - {id} + {s.pc.id}, s.handled + {s.pc.id});
    }
  }

  lemma StepBound(s: State, l: Label)
    requires CountedInv(s) && BoundInv(s) && Enabled(s, l)
    ensures BoundInv(Step(s, l))
  {
    match l
    case Go => AcceptLoopBound(s);
    case HandlerClose(id) => HandlerCloseBound(s, id);
    case _ =>
  }

  lemma AcceptLoopAck(s: State)
    requires AcceptInv(s) && AckInv(s) && Enabled(s, Go)
    ensures AckInv(AcceptLoop(s))
  {
  }

  lemma ArriveAck(s: State, f: Frame)
    requires AckInv(s) && (f.Syn? ==> s.arrived <= f.id)
    ensures AckInv(Arrive(s, f))
  {
  }

  lemma StepAck(s: State, l: Label)
    requires ChannelInv(s) && AcceptInv(s) && AckInv(s) && Enabled(s, l)
    ensures AckInv(Step(s, l))
  {
    match l
    case Go => AcceptLoopAck(s);
    case ToServer => ArriveAck(s.(toServer := s.toServer[1..]), s.toServer[0]);
    case _ =>
  }

  lemma AcceptLoopOrigin(s: State)
    requires OriginInv(s) && Enabled(s, Go)
    ensures OriginInv(AcceptLoop(s))
  {
    if s.pc.Accepting? {
      assert s.queue == [s.queue[0]] + s.queue[1..];
    }
  }

  lemma StepOrigin(s: State, l: Label)
    requires OriginInv(s) && Enabled(s, l)
    ensures OriginInv(Step(s, l))
  {
    if l.Go? { AcceptLoopOrigin(s); }
  }

  lemma StepInv(s: State, l: Label)
    requires Inv(s) && Enabled(s, l)
    ensures Inv(Step(s, l))
  {
    StepClient(s, l);
    StepChannel(s, l);
    StepSyn(s, l);
    StepLag(s, l);
    StepAccept(s, l);
    StepCounted(s, l);
    StepBound(s, l);
    StepAck(s, l);
    StepOrigin(s, l);
  }

  lemma StepLimit(s: State, l: Label)
    requires Enabled(s, l)
    ensures Step(s, l).limit == s.limit && Step(s, l).max == s.max
  {
  }

  lemma {:induction false} RunInv(s: State, ls: seq<Label>)
    requires Inv(s) && Feasible(s, ls)
    ensures Inv(Exec(s, ls))
    decreases |ls|
  {
    if ls != [] {
      StepInv(s, ls[0]);
      RunInv(Step(s, ls[0]), ls[1..]);
    }
  }

  lemma {:induction false} RunLimit(s: State, ls: seq<Label>)
    requires Feasible(s, ls)
    ensures Exec(s, ls).limit == s.limit && Exec(s, ls).max == s.max
    decreases |ls|
  {
    if ls != [] {
      StepLimit(s, ls[0]);
      RunLimit(Step(s, ls[0]), ls[1..]);
    }
  }

  // ---- the limits ------------------------------------------------------------------------------------

  /** The accept loop is at its test and the test cuts the client off. */
  predicate Trips(s: State) {
    s.pc.Testing? && AcceptLoop(s).pc == Returned(true)
  }

  /** With a client limit of at most the server's, the server's test succeeds only because of lag: of the
      streams it counts, more than the difference of the limits have been closed by the client already, with
      the FIN still under way or waiting for the handler.  Streams the client holds open never trip it. */
  lemma TripsOnLagOnly(s: State, ls: seq<Label>) returns (k: nat)
    requires Init(s) && s.limit <= s.max && Feasible(s, ls) && Trips(Exec(s, ls))
    ensures var e := Exec(s, ls);
            && !e.dead && k in e.table && Lagging(e, k)
            && |e.table - e.open| + s.limit > s.max
  {
    RunInv(s, ls);
    RunLimit(s, ls);
    var e := Exec(s, ls);
    LagCounts(e);
    assert |e.table - e.open| > 0;
    k :| k in e.table - e.open;
  }

  lemma LagCounts(e: State)
    requires |e.open| <= e.limit && Trips(e)
    ensures !e.dead && |e.table - e.open| + e.limit > e.max
  {
    SubsetCardinality(e.table * e.open, e.open);
    assert e.table == (e.table - e.open) + (e.table * e.open);
  }

  /** While the session is open the server counts exactly the streams that wait for AcceptStream, are in the
      accept loop's hand or are handed out, and those whose close has sent its FIN and is not complete. */
  lemma CountIsExact(s: State, ls: seq<Label>)
    requires Init(s) && Feasible(s, ls) && !Exec(s, ls).dead
    ensures var e := Exec(s, ls);
            e.table - e.leaving == (set k | k in e.queue) + InHand(e.pc) + e.handled
  {
    RunInv(s, ls);
  }

  /** While the session is open no more handed-out streams are unclosed than the server's limit, whatever the
      client sends.  A session that dies while the loop is past its check of IsClosed may add one. */
  lemma HandlerBound(s: State, ls: seq<Label>)
    requires Init(s) && Feasible(s, ls)
    ensures var e := Exec(s, ls); |e.handled| <= if e.dead then s.max + 1 else s.max
  {
    RunInv(s, ls);
    RunLimit(s, ls);
  }

  // ---- the limit does trip well-behaved clients ------------------------------------------------------

  lemma {:induction false} ExtendRun(s: State, ls: seq<Label>, l: Label)
    requires Feasible(s, ls) && Enabled(Exec(s, ls), l)
    ensures Feasible(s, ls + [l]) && Exec(s, ls + [l]) == Step(Exec(s, ls), l)
    decreases |ls|
  {
    if ls == [] {
      assert [l][1..] == [] && ls + [l] == [l];
    } else {
      assert (ls + [l])[1..] == ls[1..] + [l];
      ExtendRun(Step(s, ls[0]), ls[1..], l);
    }
  }

  /** The client never holds more than one stream during the run. */
  ghost predicate OneAtATime(s: State, ls: seq<Label>)
    requires Feasible(s, ls)
    decreases |ls|
  {
    |s.open| <= 1 && (ls == [] || OneAtATime(Step(s, ls[0]), ls[1..]))
  }

  lemma {:induction false} ExtendModest(s: State, ls: seq<Label>, l: Label)
    requires Feasible(s, ls) && OneAtATime(s, ls)
    requires Enabled(Exec(s, ls), l) && |Step(Exec(s, ls), l).open| <= 1
    ensures Feasible(s, ls + [l]) && Exec(s, ls + [l]) == Step(Exec(s, ls), l) && OneAtATime(s, ls + [l])
    decreases |ls|
  {
    ExtendRun(s, ls, l);
    if ls == [] {
      assert [l][1..] == [] && ls + [l] == [l];
    } else {
      assert (ls + [l])[1..] == ls[1..] + [l];
      ExtendModest(Step(s, ls[0]), ls[1..], l);
    }
  }

  /** The client has opened and closed n streams one by one and then opened m more, all delivered and none
      served. */
  ghost predicate Churned(e: State, n: nat, m: nat) {
    && e.next == n + m && e.acked == {} && e.toServer == [] && !e.dead && e.pc == Polling && |e.queue| == n + m
    && |e.open| == m && |e.table| == n + m && |e.table - e.open| == n
    && (forall k :: k in e.table || k in e.open ==> k < e.next)
  }

  /** The client opens a stream, closes it, and the server gets to know. */
  lemma ChurnsOne(e: State, n: nat)
    requires Churned(e, n, 0) && e.limit >= 1
    ensures Enabled(e, ClientOpen) && |Step(e, ClientOpen).open| == 1
    ensures var e1 := Step(e, ClientOpen);
            Enabled(e1, ClientClose(n)) && Step(e1, ClientClose(n)).open == {}
    ensures var e2 := Step(Step(e, ClientOpen), ClientClose(n));
            Enabled(e2, ToServer) && Enabled(Step(e2, ToServer), ToServer)
            && Step(Step(e2, ToServer), ToServer).open == {}
            && Churned(Step(Step(e2, ToServer), ToServer), n + 1, 0)
  {
    assert e.open == {} && {} + {n} == {n} && {n} - {n} == {};
    var e2 := Step(Step(e, ClientOpen), ClientClose(n));
    assert e2.toServer == [Syn(n), Fin(n)] && [Syn(n), Fin(n)][1..] == [Fin(n)] && [Fin(n)][1..] == [];
    assert (e.table + {n}) - {} == (e.table - {}) + {n};
  }

  lemma {:induction false} Churn(s: State, n: nat) returns (ls: seq<Label>)
    requires Init(s) && s.limit >= 1
    ensures Feasible(s, ls) && Churned(Exec(s, ls), n, 0) && OneAtATime(s, ls)
  {
    if n == 0 {
      ls := [];
    } else {
      ls := Churn(s, n - 1);
      var m := n - 1;
      RunLimit(s, ls);
      ChurnsOne(Exec(s, ls), m);
      ExtendModest(s, ls, ClientOpen);
      ls := ls + [ClientOpen];
      ExtendModest(s, ls, ClientClose(m));
      ls := ls + [ClientClose(m)];
      ExtendModest(s, ls, ToServer);
      ls := ls + [ToServer];
      ExtendModest(s, ls, ToServer);
      ls := ls + [ToServer];
    }
  }

  /** The client opens a stream, and the server gets to know. */
  lemma HoldsOne(e: State, n: nat, m: nat)
    requires Churned(e, n, m) && m < e.limit
    ensures Enabled(e, ClientOpen) && Enabled(Step(e, ClientOpen), ToServer)
    ensures Churned(Step(Step(e, ClientOpen), ToServer), n, m + 1)
  {
    var k, e' := n + m, Step(e, ClientOpen);
    assert e'.toServer == [Syn(k)] && [Syn(k)][1..] == [];
    var e2 := Step(e', ToServer);
    assert k !in e.open && e2.open == e.open + {k};
    assert k !in e.table && e2.table == e.table + {k};
    assert e2.table - e2.open == e.table - e.open;
  }

  /** After the churn the client opens m streams and keeps them. */
  lemma {:induction false} Holds(s: State, n: nat, m: nat) returns (ls: seq<Label>)
    requires Init(s) && 1 <= s.limit && m <= s.limit
    ensures Feasible(s, ls) && Churned(Exec(s, ls), n, m)
  {
    if m == 0 {
      ls := Churn(s, n);
    } else {
      ls := Holds(s, n, m - 1);
      RunLimit(s, ls);
      HoldsOne(Exec(s, ls), n, m - 1);
      ExtendRun(s, ls, ClientOpen);
      ls := ls + [ClientOpen];
      ExtendRun(s, ls, ToServer);
      ls := ls + [ToServer];
    }
  }

  /** The accept loop takes the first of these streams, and its test succeeds if there are too many. */
  lemma Accepts(e: State, n: nat, m: nat)
    requires Churned(e, n, m) && n + m > e.max
    ensures Enabled(e, Go) && Enabled(Step(e, Go), Go)
    ensures var e' := Step(Step(e, Go), Go);
            Trips(e') && !e'.dead && e'.open == e.open && |e'.open| == m && |e'.table - e'.open| == n
  {
  }

  /** The run trips while the server counts n streams that the client has closed. */
  ghost predicate TripsAtLag(s: State, ls: seq<Label>, n: nat) {
    Feasible(s, ls) && Trips(Exec(s, ls)) && |Exec(s, ls).table - Exec(s, ls).open| == n
  }

  /** Every lag that can trip the test does, with the client at its limit. */
  lemma LagTrips(s: State, n: nat) returns (ls: seq<Label>)
    requires Init(s) && s.limit >= 1 && n + s.limit > s.max
    ensures TripsAtLag(s, ls, n) && |Exec(s, ls).open| == s.limit
  {
    ls := Holds(s, n, s.limit);
    RunLimit(s, ls);
    Accepts(Exec(s, ls), n, s.limit);
    ExtendRun(s, ls, Go);
    ls := ls + [Go];
    ExtendRun(s, ls, Go);
    ls := ls + [Go];
  }

  /** A client with limit m can be cut off while n of the streams counted are closed at its end if and only if
      n + m exceeds the server's limit. */
  lemma TripsExactlyOnLag(s: State, n: nat)
    requires Init(s) && s.limit >= 1
    ensures (exists ls :: TripsAtLag(s, ls, n)) <==> n + s.limit > s.max
  {
    if n + s.limit > s.max {
      var ls := LagTrips(s, n);
    }
    forall ls | TripsAtLag(s, ls, n)
      ensures n + s.limit > s.max
    {
      RunInv(s, ls);
      RunLimit(s, ls);
      LagCounts(Exec(s, ls));
    }
  }

  /** A client that never holds more than one stream, and holds none any more, is about to be cut off. */
  lemma ChurnTrips(s: State) returns (ls: seq<Label>)
    requires Init(s) && s.limit >= 1
    ensures Feasible(s, ls) && OneAtATime(s, ls) && Trips(Exec(s, ls))
    ensures var e := Exec(s, ls); e.open == {} && !e.dead && e.next == s.max + 1 && e.acked == {}
  {
    ls := Churn(s, s.max + 1);
    RunLimit(s, ls);
    Accepts(Exec(s, ls), s.max + 1, 0);
    ExtendModest(s, ls, Go);
    ls := ls + [Go];
    ExtendModest(s, ls, Go);
    ls := ls + [Go];
  }

  /** The plain claim that a client within its limit never trips the server's is false whatever the limits: in
      the run built here the client never holds more than one stream, holds none at the end, and is cut off. */
  lemma WellBehavedClientTrips(s: State) returns (ls: seq<Label>)
    requires Init(s) && s.limit >= 1
    ensures Feasible(s, ls) && OneAtATime(s, ls)
    ensures Exec(s, ls).pc == Returned(true) && Exec(s, ls).open == {} && !Exec(s, ls).dead
  {
    ls := ChurnTrips(s);
    ExtendModest(s, ls, Go);
    ls := ls + [Go];
  }

  // ---- streams that nobody closes --------------------------------------------------------------------

  /** No handler closes a stream of `ids`. */
  ghost predicate Abandoned(ls: seq<Label>, ids: set<nat>) {
    forall l :: l in ls && l.HandlerClose? ==> l.id !in ids
  }

  lemma {:induction false} AbandonedStay(s: State, ls: seq<Label>, ids: set<nat>)
    requires Feasible(s, ls) && Abandoned(ls, ids) && ids <= s.handled
    ensures ids <= Exec(s, ls).handled
    decreases |ls|
  {
    if ls != [] {
      assert ls[0] in ls;
      AbandonedStay(Step(s, ls[0]), ls[1..], ids);
    }
  }

  /** A handler whose dial fails returns without closing its stream, and the lag is for good: once as many
      streams as the server's limit are abandoned so, every later stream tested on the open session trips. */
  lemma AbandonedStreamsTrip(s: State, before: seq<Label>, ls: seq<Label>, ids: set<nat>)
    requires Init(s) && Feasible(s, before) && Feasible(Exec(s, before), ls)
    requires ids <= Exec(s, before).handled && |ids| >= s.max && Abandoned(ls, ids)
    requires var e := Exec(Exec(s, before), ls); e.pc.Testing? && !e.dead
    ensures Trips(Exec(Exec(s, before), ls))
  {
    var m := Exec(s, before);
    var e := Exec(m, ls);
    RunInv(s, before);
    RunLimit(s, before);
    RunInv(m, ls);
    RunLimit(m, ls);
    AbandonedStay(m, ls, ids);
    assert e.pc.id !in ids;
    SubsetCardinality(ids + {e.pc.id}, e.table);
  }
}

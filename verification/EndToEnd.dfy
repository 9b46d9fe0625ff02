/** One direction of a chain of tunnels: application, client, server, destination, or any number of hops.

    Each hop runs the loop of copyBuffer (internal/core/common.go), whose branches are CopyLoop's; each link is
    a connection that carries writes as messages, as the WebSocket adapter (internal/core/websocket.go) does,
    and lets a reader take a prefix of what is under way, as ConnWrapper.Read is proved to.  A link may break
    at any time and a failed write may still have put any part of its bytes on the wire. */
module EndToEnd {
  import opened Prelude
  import opened CopyLoop

  /** `put` holds all bytes ever put on the link, `taken` all bytes ever taken off it. */
  datatype Link = Link(messages: seq<seq<Byte>>, broken: bool, put: seq<Byte>, taken: seq<Byte>)

  /** `buf` is what the hop has read and not written, `er` the error that came with it, `result` what its loop
      returned once it has stopped. */
  datatype Hop = Hop(buf: seq<Byte>, er: Option<IoError>, stopped: bool, result: Option<IoError>)

  /** Link i leads into hop i; the last link leads to the destination. */
  datatype State = State(cap: nat, links: seq<Link>, hops: seq<Hop>)

  datatype Label =
    | Send(data: seq<Byte>)                                          // the application writes
    | Read(i: nat, n: nat, er: Option<IoError>)
    | Write(i: nat, wired: nat, nw: nat, ew: Option<IoError>)        // `wired` bytes reach the link
    | Deliver(n: nat)                                                // the destination reads
    | Break(i: nat)

  const NEW_LINK := Link([], false, [], [])
  const NEW_HOP := Hop([], None, false, None)

  ghost predicate Init(s: State) {
    && |s.links| == |s.hops| + 1 && s.cap > 0
    && (forall i :: 0 <= i < |s.links| ==> s.links[i] == NEW_LINK)
    && (forall i :: 0 <= i < |s.hops| ==> s.hops[i] == NEW_HOP)
  }

  /** A Read takes the next n bytes of the first message that has any. */
  function Trim(messages: seq<seq<Byte>>): seq<seq<Byte>> {
    if messages != [] && messages[0] == [] then Trim(messages[1..]) else messages
  }

  predicate CanTake(l: Link, n: nat) {
    n == 0 || (Trim(l.messages) != [] && n <= |Trim(l.messages)[0]|)
  }

  function Front(l: Link, n: nat): seq<Byte>
    requires CanTake(l, n)
  {
    if n == 0 then [] else Trim(l.messages)[0][..n]
  }

  function Take(l: Link, n: nat): Link
    requires CanTake(l, n)
  {
    if n == 0 then l
    else
      var m := Trim(l.messages);
      l.(messages := [m[0][n..]] + m[1..], taken := l.taken + m[0][..n])
  }

  /** A broken link takes nothing more. */
  function PutOn(l: Link, data: seq<Byte>): Link {
    if l.broken then l else l.(messages := l.messages + [data], put := l.put + data)
  }

  predicate Idle(h: Hop) {
    !h.stopped && h.buf == [] && h.er == None
  }

  predicate Enabled(s: State, l: Label)
    requires |s.links| == |s.hops| + 1
  {
    match l
    case Send(_) => true
    case Read(i, n, er) =>
      && i < |s.hops| && Idle(s.hops[i]) && n <= s.cap && CanTake(s.links[i], n)
      && (n == 0 ==> er.Some?)
    case Write(i, wired, nw, ew) =>
      && i < |s.hops| && !s.hops[i].stopped && s.hops[i].buf != []
      && nw <= wired <= |s.hops[i].buf|
      && (s.links[i + 1].broken ==> ew.Some?)
    case Deliver(n) => CanTake(s.links[|s.hops|], n)
    case Break(i) => i < |s.links|
  }

  /** The hop goes on to its next Read, or its loop ends and it never writes again. */
  function Proceed(o: Outcome): Hop {
    if o.Continue? then NEW_HOP else Hop([], None, true, o.err)
  }

  function Step(s: State, l: Label): (r: State)
    requires |s.links| == |s.hops| + 1 && Enabled(s, l)
    ensures |r.links| == |r.hops| + 1
  {
    match l
    case Send(data) => s.(links := s.links[0 := PutOn(s.links[0], data)])
    case Read(i, n, er) =>
      var hop := if n == 0 then Proceed(AfterRead(er)) else Hop(Front(s.links[i], n), er, false, None);
      s.(links := s.links[i := Take(s.links[i], n)], hops := s.hops[i := hop])
    case Write(i, wired, nw, ew) =>
      var h := s.hops[i];
      s.(links := s.links[i + 1 := PutOn(s.links[i + 1], h.buf[..wired])],
         hops := s.hops[i := Proceed(AfterWrite(|h.buf|, nw, ew, h.er))])
    case Deliver(n) => s.(links := s.links[|s.hops| := Take(s.links[|s.hops|], n)])
    case Break(i) => s.(links := s.links[i := s.links[i].(messages := [], broken := true)])
  }

  ghost predicate Feasible(s: State, ls: seq<Label>)
    requires |s.links| == |s.hops| + 1
    decreases |ls|
  {
    ls == [] || (Enabled(s, ls[0]) && Feasible(Step(s, ls[0]), ls[1..]))
  }

  ghost function Exec(s: State, ls: seq<Label>): (r: State)
    requires |s.links| == |s.hops| + 1 && Feasible(s, ls)
    ensures |r.links| == |r.hops| + 1 && |r.hops| == |s.hops|
    decreases |ls|
  {
    if ls == [] then s else Exec(Step(s, ls[0]), ls[1..])
  }

  // ---- what every step keeps -------------------------------------------------------------------------

  /** A link hands on a prefix of what was put on it, and as long as it is sound nothing else is missing than
      what is under way. */
  ghost predicate LinkInv(l: Link) {
    && l.taken + Flatten(l.messages) <= l.put
    && (!l.broken ==> l.taken + Flatten(l.messages) == l.put)
  }

  /** A hop puts on the next link a prefix of what it took off the one before; while it runs nothing else is
      missing than what it has in hand. */
  ghost predicate HopInv(from: Link, h: Hop, to: Link) {
    if h.stopped then to.put <= from.taken && h.buf == [] else from.taken == to.put + h.buf
  }

  ghost predicate Inv(s: State) {
    && |s.links| == |s.hops| + 1
    && (forall i :: 0 <= i < |s.links| ==> LinkInv(s.links[i]))
    && (forall i :: 0 <= i < |s.hops| ==> HopInv(s.links[i], s.hops[i], s.links[i + 1]))
  }

  lemma {:induction false} TrimKeeps(messages: seq<seq<Byte>>)
    ensures Flatten(Trim(messages)) == Flatten(messages)
    ensures Trim(messages) != [] ==> Trim(messages)[0] != []
  {
    if messages != [] && messages[0] == [] {
      TrimKeeps(messages[1..]);
    }
  }

  lemma TakeSplits(l: Link, n: nat)
    requires CanTake(l, n)
    ensures Flatten(l.messages) == Front(l, n) + Flatten(Take(l, n).messages)
  {
    if n > 0 {
      var m := Trim(l.messages);
      TrimKeeps(l.messages);
      var left := [m[0][n..]] + m[1..];
      assert left[1..] == m[1..];
      assert m[0] == m[0][..n] + m[0][n..];
    }
  }

  lemma TakeKeeps(l: Link, n: nat)
    requires LinkInv(l) && CanTake(l, n)
    ensures LinkInv(Take(l, n)) && Take(l, n).taken == l.taken + Front(l, n) && Take(l, n).put == l.put
  {
    TakeSplits(l, n);
    var rest := Flatten(Take(l, n).messages);
    assert l.taken + (Front(l, n) + rest) == l.taken + Front(l, n) + rest;
    assert l.taken + [] == l.taken;
  }

  lemma PutKeeps(l: Link, data: seq<Byte>)
    requires LinkInv(l)
    ensures LinkInv(PutOn(l, data)) && PutOn(l, data).taken == l.taken
  {
    FlattenAppend(l.messages, [data]);
    assert [data][1..] == [] && Flatten([data]) == data + [] == data;
    if !l.broken {
      assert l.taken + (Flatten(l.messages) + data) == l.taken + Flatten(l.messages) + data;
    }
  }

  lemma BreakKeeps(l: Link)
    requires LinkInv(l)
    ensures LinkInv(l.(messages := [], broken := true))
  {
    assert l.taken <= l.taken + Flatten(l.messages);
    assert l.taken + [] == l.taken;
  }

  lemma StepLink(s: State, l: Label, i: nat)
    requires Inv(s) && Enabled(s, l) && i < |s.links|
    ensures LinkInv(Step(s, l).links[i])
  {
    match l
    case Send(data) => PutKeeps(s.links[0], data);
    case Read(j, n, _) => TakeKeeps(s.links[j], n);
    case Write(j, wired, _, _) => PutKeeps(s.links[j + 1], s.hops[j].buf[..wired]);
    case Deliver(n) => TakeKeeps(s.links[|s.hops|], n);
    case Break(j) => BreakKeeps(s.links[j]);
  }

  lemma ReadHop(from: Link, h: Hop, to: Link, n: nat, er: Option<IoError>)
    requires LinkInv(from) && HopInv(from, h, to) && Idle(h) && CanTake(from, n)
    ensures HopInv(Take(from, n), if n == 0 then Proceed(AfterRead(er)) else Hop(Front(from, n), er, false, None), to)
  {
    TakeKeeps(from, n);
    assert to.put + [] == to.put;
  }

  lemma WriteHop(from: Link, h: Hop, to: Link, wired: nat, nw: nat, ew: Option<IoError>)
    requires HopInv(from, h, to) && !h.stopped && nw <= wired <= |h.buf| && (to.broken ==> ew.Some?)
    ensures HopInv(from, Proceed(AfterWrite(|h.buf|, nw, ew, h.er)), PutOn(to, h.buf[..wired]))
  {
    assert h.buf == h.buf[..wired] + h.buf[wired..];
    assert to.put + h.buf == to.put + h.buf[..wired] + h.buf[wired..];
    if nw == |h.buf| {
      assert h.buf[..wired] == h.buf;
      assert to.put + h.buf + [] == to.put + h.buf;
    }
  }

  lemma StepHop(s: State, l: Label, i: nat)
    requires Inv(s) && Enabled(s, l) && i < |s.hops|
    ensures HopInv(Step(s, l).links[i], Step(s, l).hops[i], Step(s, l).links[i + 1])
  {
    assert HopInv(s.links[i], s.hops[i], s.links[i + 1]);
    match l
    case Read(j, n, er) =>
      if j == i { ReadHop(s.links[i], s.hops[i], s.links[i + 1], n, er); } else { TakeKeeps(s.links[j], n); }
    case Write(j, wired, nw, ew) =>
      if j == i { WriteHop(s.links[i], s.hops[i], s.links[i + 1], wired, nw, ew); }
    case Deliver(n) => TakeKeeps(s.links[|s.hops|], n);
    case _ =>
  }

  lemma StepInv(s: State, l: Label)
    requires Inv(s) && Enabled(s, l)
    ensures Inv(Step(s, l))
  {
    forall i | 0 <= i < |s.links| ensures LinkInv(Step(s, l).links[i]) { StepLink(s, l, i); }
    forall i | 0 <= i < |s.hops|
      ensures HopInv(Step(s, l).links[i], Step(s, l).hops[i], Step(s, l).links[i + 1])
    {
      StepHop(s, l, i);
    }
  }

  lemma {:induction false} RunInv(s: State, ls: seq<Label>)
    requires Inv(s) && Feasible(s, ls)
    ensures Inv(Exec(s, ls))
    decreases |ls|
  {
    if ls != [] {
      StepInv(s, ls[0]);
      RunInv(Step(s, ls[0]), ls[1..]);
    }
  }

  // ---- end to end ------------------------------------------------------------------------------------

  function Delivered(s: State): seq<Byte>
    requires |s.links| == |s.hops| + 1
  {
    s.links[|s.hops|].taken
  }

  lemma {:induction false} DeliveredPrefix(s: State, i: nat)
    requires Inv(s) && i < |s.links|
    ensures Delivered(s) <= s.links[i].taken <= s.links[i].put
    decreases |s.hops| - i
  {
    var l := s.links[i];
    assert LinkInv(l) && l.taken <= l.taken + Flatten(l.messages);
    if i < |s.hops| {
      DeliveredPrefix(s, i + 1);
      assert HopInv(l, s.hops[i], s.links[i + 1]);
    }
  }

  /** The bytes under way from link i on, the first to arrive first. */
  function UnderWay(s: State, i: nat): seq<Byte>
    requires |s.links| == |s.hops| + 1 && i < |s.links|
    decreases |s.hops| - i
  {
    (if i < |s.hops| then UnderWay(s, i + 1) + s.hops[i].buf else []) + Flatten(s.links[i].messages)
  }

  ghost predicate Unharmed(s: State) {
    && (forall i :: 0 <= i < |s.links| ==> !s.links[i].broken)
    && (forall i :: 0 <= i < |s.hops| ==> !s.hops[i].stopped)
  }

  lemma {:induction false} NothingMissing(s: State, i: nat)
    requires Inv(s) && Unharmed(s) && i < |s.links|
    ensures s.links[i].put == Delivered(s) + UnderWay(s, i)
    decreases |s.hops| - i
  {
    var l := s.links[i];
    assert LinkInv(l);
    if i < |s.hops| {
      NothingMissing(s, i + 1);
      assert HopInv(l, s.hops[i], s.links[i + 1]);
      var later := UnderWay(s, i + 1);
      assert l.put == (Delivered(s) + later) + s.hops[i].buf + Flatten(l.messages);
      assert l.put == Delivered(s) + (later + s.hops[i].buf + Flatten(l.messages));
    }
  }

  lemma InitInv(s: State)
    requires Init(s)
    ensures Inv(s)
  {
    assert Flatten([]) == [];
  }

  /** What the application has sent. */
  function Sent(ls: seq<Label>): seq<Byte> {
    if ls == [] then [] else (if ls[0].Send? then ls[0].data else []) + Sent(ls[1..])
  }

  lemma FirstLinkStep(s: State, l: Label)
    requires |s.links| == |s.hops| + 1 && Enabled(s, l)
    ensures var before, after := s.links[0], Step(s, l).links[0];
            && (before.broken ==> after.broken)
            && after.put == if l.Send? && !before.broken then before.put + l.data else before.put
  {
  }

  /** The first link carries what the application sends until it breaks. */
  lemma {:induction false} FirstLink(s: State, ls: seq<Label>)
    requires |s.links| == |s.hops| + 1 && Feasible(s, ls)
    ensures var before, after := s.links[0], Exec(s, ls).links[0];
            && after.put <= before.put + Sent(ls)
            && (before.broken ==> after.broken && after.put == before.put)
            && (!after.broken ==> after.put == before.put + Sent(ls))
    decreases |ls|
  {
    var put := s.links[0].put;
    if ls == [] {
      assert put + [] == put;
    } else {
      FirstLinkStep(s, ls[0]);
      FirstLink(Step(s, ls[0]), ls[1..]);
      var data := if ls[0].Send? then ls[0].data else [];
      assert put + data + Sent(ls[1..]) == put + (data + Sent(ls[1..]));
      assert put + [] == put;
    }
  }

  /** Over any number of hops and for every chunking, error, break and interleaving, what the destination has
      received is at all times a prefix of what the application sent; and while no loop has stopped and no link
      is broken, everything else is under way, in order. */
  lemma EndToEndPrefix(s: State, ls: seq<Label>)
    requires Init(s) && Feasible(s, ls)
    ensures Delivered(Exec(s, ls)) <= Sent(ls)
    ensures Unharmed(Exec(s, ls)) ==> Sent(ls) == Delivered(Exec(s, ls)) + UnderWay(Exec(s, ls), 0)
  {
    InitInv(s);
    RunInv(s, ls);
    FirstLink(s, ls);
    assert [] + Sent(ls) == Sent(ls);
    DeliveredPrefix(Exec(s, ls), 0);
    if Unharmed(Exec(s, ls)) { NothingMissing(Exec(s, ls), 0); }
  }

  // ---- a read error is the end -----------------------------------------------------------------------

  /** The hop's loop has ended or will with its next Write. */
  predicate Ending(h: Hop) {
    h.stopped || (h.er.Some? && h.buf != [])
  }

  lemma StepEnding(s: State, l: Label, i: nat)
    requires Inv(s) && Enabled(s, l) && i < |s.hops| && Ending(s.hops[i])
    ensures Ending(Step(s, l).hops[i]) && Step(s, l).links[i].taken == s.links[i].taken
  {
    if l.Read? { TakeKeeps(s.links[l.i], l.n); }
  }

  lemma {:induction false} RunEnding(s: State, ls: seq<Label>, i: nat)
    requires Inv(s) && Feasible(s, ls) && i < |s.hops| && Ending(s.hops[i])
    ensures Exec(s, ls).links[i].taken == s.links[i].taken
    decreases |ls|
  {
    if ls != [] {
      StepInv(s, ls[0]);
      StepEnding(s, ls[0], i);
      RunEnding(Step(s, ls[0]), ls[1..], i);
    }
  }

  /** A hop whose Read returned an error, with or without bytes, never takes anything off its link again. */
  lemma NothingReadAfterError(s: State, i: nat, n: nat, e: IoError, ls: seq<Label>)
    requires Inv(s) && Enabled(s, Read(i, n, Some(e))) && Feasible(Step(s, Read(i, n, Some(e))), ls)
    ensures Exec(Step(s, Read(i, n, Some(e))), ls).links[i].taken == s.links[i].taken + Front(s.links[i], n)
  {
    var s' := Step(s, Read(i, n, Some(e)));
    StepInv(s, Read(i, n, Some(e)));
    TakeKeeps(s.links[i], n);
    RunEnding(s', ls, i);
  }
}

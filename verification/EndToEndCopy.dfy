/** The hops of EndToEnd are runs of copyBuffer: a hop that has stopped took off its link, passed on and returned
    what CopyLoop.Copy, and so the method CopyLoop.CopyBuffer, does with the Reads and Writes that returned to
    it. */
module EndToEndCopy {
  import opened Prelude
  import opened CopyLoop
  import opened EndToEnd

  /** The Reads, and the Writes, that return to hop i in a run. */
  ghost function Arrivals(s: State, ls: seq<Label>, i: nat): seq<ReadEvent>
    requires |s.links| == |s.hops| + 1 && Feasible(s, ls)
    decreases |ls|
  {
    if ls == [] then []
    else
      (if ls[0].Read? && ls[0].i == i then [ReadEvent(Front(s.links[i], ls[0].n), ls[0].er)] else [])
      + Arrivals(Step(s, ls[0]), ls[1..], i)
  }

  function Answers(ls: seq<Label>, i: nat): seq<WriteEvent> {
    if ls == [] then []
    else (if ls[0].Write? && ls[0].i == i then [WriteEvent(ls[0].nw, ls[0].ew)] else []) + Answers(ls[1..], i)
  }

  /** What copyBuffer still does from a point inside its loop. */
  ghost function Rest(h: Hop, arrivals: seq<ReadEvent>, answers: seq<WriteEvent>, cap: nat): CopyResult
    requires cap > 0
  {
    if h.stopped then CopyResult([], [], h.result)
    else if h.buf != [] then
      var (nw, ew, answers') := NextWrite(answers, |h.buf|);
      match AfterWrite(|h.buf|, nw, ew, h.er) {
        case Stop(e) => CopyResult(h.buf[..nw], [], e)
        case Continue =>
          var rest := Copy(arrivals, answers', cap);
          rest.(out := h.buf + rest.out)
      }
    else Copy(arrivals, answers, cap)
  }

  /** The hop goes from (from, to) to (from', to') by doing `rest`; a link that breaks may lose the last bytes. */
  ghost predicate Does(from: Link, to: Link, rest: CopyResult, from': Link, h': Hop, to': Link) {
    && from'.taken == from.taken + rest.consumed && h'.result == rest.err
    && (to.broken ==> to'.broken) && (!to'.broken ==> to.put + rest.out <= to'.put)
  }

  lemma ReadDoes(from: Link, to: Link, n: nat, er: Option<IoError>,
      arrivals: seq<ReadEvent>, answers: seq<WriteEvent>, cap: nat, from': Link, h': Hop, to': Link)
    requires cap > 0 && CanTake(from, n) && n <= cap
    requires var h := if n == 0 then Proceed(AfterRead(er)) else Hop(Front(from, n), er, false, None);
             Does(Take(from, n), to, Rest(h, arrivals, answers, cap), from', h', to')
    ensures Does(from, to, Copy([ReadEvent(Front(from, n), er)] + arrivals, answers, cap), from', h', to')
  {
    var data := Front(from, n);
    var all := [ReadEvent(data, er)] + arrivals;
    assert all[1..] == arrivals;
    assert NextRead(all, cap) == (ReadEvent(data, er), arrivals);
    assert |data| == n && Take(from, n).taken == from.taken + data by { assert from.taken + [] == from.taken; }
    if n > 0 {
      var rest := Rest(Hop(data, er, false, None), arrivals, answers, cap);
      assert from.taken + data + rest.consumed == from.taken + (data + rest.consumed);
      assert data + [] == data;
    }
  }

  lemma WriteDoes(from: Link, h: Hop, to: Link, wired: nat, w: WriteEvent,
      arrivals: seq<ReadEvent>, answers: seq<WriteEvent>, cap: nat, from': Link, h': Hop, to': Link)
    requires cap > 0 && !h.stopped && h.buf != [] && w.accept <= wired <= |h.buf| && (to.broken ==> w.err.Some?)
    requires var next := Proceed(AfterWrite(|h.buf|, w.accept, w.err, h.er));
             Does(from, PutOn(to, h.buf[..wired]), Rest(next, arrivals, answers, cap), from', h', to')
    ensures Does(from, to, Rest(h, arrivals, [w] + answers, cap), from', h', to')
  {
    var all := [w] + answers;
    assert all[1..] == answers;
    assert NextWrite(all, |h.buf|) == (w.accept, w.err, answers);
    var next := Proceed(AfterWrite(|h.buf|, w.accept, w.err, h.er));
    var rest := Rest(next, arrivals, answers, cap);
    assert to.put + h.buf[..wired] + rest.out == to.put + (h.buf[..wired] + rest.out);
    if next.stopped {
      assert to.put + h.buf[..w.accept] <= to.put + h.buf[..wired];
      assert to.put + h.buf[..wired] + [] == to.put + h.buf[..wired];
    } else {
      assert h.buf[..wired] == h.buf;
    }
  }

  lemma OtherDoes(s: State, l: Label, i: nat, rest: CopyResult, end: State)
    requires |s.links| == |s.hops| + 1 && Enabled(s, l) && i < |s.hops|
    requires |end.links| == |end.hops| + 1 && |end.hops| == |s.hops|
    requires !((l.Read? || l.Write?) && l.i == i)
    requires var s' := Step(s, l);
             Does(s'.links[i], s'.links[i + 1], rest, end.links[i], end.hops[i], end.links[i + 1])
    ensures Does(s.links[i], s.links[i + 1], rest, end.links[i], end.hops[i], end.links[i + 1])
    ensures Step(s, l).hops[i] == s.hops[i]
  {
  }

  lemma {:induction false} RunDoes(s: State, ls: seq<Label>, i: nat)
    requires |s.links| == |s.hops| + 1 && s.cap > 0 && Feasible(s, ls) && i < |s.hops| && Exec(s, ls).hops[i].stopped
    ensures var e := Exec(s, ls);
            Does(s.links[i], s.links[i + 1], Rest(s.hops[i], Arrivals(s, ls, i), Answers(ls, i), s.cap),
                 e.links[i], e.hops[i], e.links[i + 1])
    decreases |ls|
  {
    var from, h, to, e := s.links[i], s.hops[i], s.links[i + 1], Exec(s, ls);
    if ls == [] {
      assert from.taken + [] == from.taken && to.put + [] == to.put;
    } else {
      var l, s' := ls[0], Step(s, ls[0]);
      var more, said := Arrivals(s', ls[1..], i), Answers(ls[1..], i);
      RunDoes(s', ls[1..], i);
      assert [] + more == more && [] + said == said;
      if l.Read? && l.i == i {
        ReadDoes(from, to, l.n, l.er, more, said, s.cap, e.links[i], e.hops[i], e.links[i + 1]);
      } else if l.Write? && l.i == i {
        WriteDoes(from, h, to, l.wired, WriteEvent(l.nw, l.ew), more, said, s.cap,
                  e.links[i], e.hops[i], e.links[i + 1]);
      } else {
        OtherDoes(s, l, i, Rest(h, more, said, s.cap), e);
      }
    }
  }

  /** A hop that has stopped took off its link and returned what copyBuffer does on the events it saw, and all
      that the writer took is on the next link, unless that has broken; nothing else is. */
  lemma HopRunsCopyBuffer(s: State, ls: seq<Label>, i: nat)
    requires Init(s) && Feasible(s, ls) && i < |s.hops| && Exec(s, ls).hops[i].stopped
    ensures var e := Exec(s, ls);
            var r := Copy(Arrivals(s, ls, i), Answers(ls, i), s.cap);
            && r.consumed == e.links[i].taken && r.err == e.hops[i].result
            && e.links[i + 1].put <= r.consumed
            && (!e.links[i + 1].broken ==> r.out <= e.links[i + 1].put)
  {
    var r := Copy(Arrivals(s, ls, i), Answers(ls, i), s.cap);
    InitInv(s);
    RunInv(s, ls);
    RunDoes(s, ls, i);
    assert [] + r.out == r.out && [] + r.consumed == r.consumed;
    assert HopInv(Exec(s, ls).links[i], Exec(s, ls).hops[i], Exec(s, ls).links[i + 1]);
  }
}

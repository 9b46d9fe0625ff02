/** The loops of the tunnel machine are runs of copyBuffer: whatever the other direction, the clock and the
    teardown do in between, a direction that has ended did exactly what CopyLoop.Copy, and so the method
    CopyLoop.CopyBuffer, does with the Reads and Writes that returned to it. */
module TunnelCopy {
  import opened Prelude
  import opened CopyLoop
  import opened Tunnel

  /** The Reads, and the Writes, that return to loop x in a run. */
  function Arrivals(ls: seq<Label>, x: Side): seq<ReadEvent> {
    if ls == [] then []
    else (if ls[0].ReadReturns? && ls[0].x == x then [ReadEvent(ls[0].data, ls[0].er)] else []) + Arrivals(ls[1..], x)
  }

  function Answers(ls: seq<Label>, x: Side): seq<WriteEvent> {
    if ls == [] then []
    else (if ls[0].WriteReturns? && ls[0].x == x then [WriteEvent(ls[0].nw, ls[0].ew)] else []) + Answers(ls[1..], x)
  }

  /** What copyBuffer still does from a point inside its loop. */
  ghost function Rest(l: Loop, arrivals: seq<ReadEvent>, answers: seq<WriteEvent>, cap: nat): CopyResult
    requires cap > 0
  {
    if Finished(l.pc) then CopyResult([], [], l.result)
    else if InWrite(l.pc) then
      var data := l.pc.data;
      var (nw, ew, answers') := NextWrite(answers, |data|);
      match AfterWrite(|data|, nw, ew, l.pc.er) {
        case Stop(e) => CopyResult(data[..nw], [], e)
        case Continue =>
          var rest := Copy(arrivals, answers', cap);
          rest.(out := data + rest.out)
      }
    else Copy(arrivals, answers, cap)
  }

  predicate InWrite(pc: Pc) {
    pc.NowWrite? || pc.LoadWrite? || pc.SetWrite? || pc.Writing?
  }

  ghost predicate Reaches(l: Loop, rest: CopyResult, end: Loop) {
    end.out == l.out + rest.out && end.consumed == l.consumed + rest.consumed && end.result == rest.err
  }

  lemma ReadStepCopies(l: Loop, e: ReadEvent, untouched: bool, now: int,
      arrivals: seq<ReadEvent>, answers: seq<WriteEvent>, cap: nat, end: Loop)
    requires cap > 0 && l.pc.Reading? && |e.data| <= cap
    requires var l' := ReadStep(l, e.data, e.err, untouched, now); Reaches(l', Rest(l', arrivals, answers, cap), end)
    ensures Reaches(l, Rest(l, [e] + arrivals, answers, cap), end)
  {
    var all := [e] + arrivals;
    assert all[0] == e && all[1..] == arrivals;
    assert NextRead(all, cap) == (e, arrivals);
    assert l.out + [] == l.out && l.consumed + [] == l.consumed;
    if e.data != [] {
      var rest := Rest(ReadStep(l, e.data, e.err, untouched, now), arrivals, answers, cap);
      assert l.consumed + e.data + rest.consumed == l.consumed + (e.data + rest.consumed);
      assert e.data + [] == e.data;
    }
  }

  lemma WriteStepCopies(l: Loop, w: WriteEvent, untouched: bool, now: int,
      arrivals: seq<ReadEvent>, answers: seq<WriteEvent>, cap: nat, end: Loop)
    requires cap > 0 && l.pc.Writing? && w.accept <= |l.pc.data|
    requires var l' := WriteStep(l, w.accept, w.err, untouched, now); Reaches(l', Rest(l', arrivals, answers, cap), end)
    ensures Reaches(l, Rest(l, arrivals, [w] + answers, cap), end)
  {
    var data := l.pc.data;
    var all := [w] + answers;
    assert all[0] == w && all[1..] == answers;
    assert NextWrite(all, |data|) == (w.accept, w.err, answers);
    var part := data[..w.accept];
    var rest := Rest(WriteStep(l, w.accept, w.err, untouched, now), arrivals, answers, cap);
    assert l.out + part + rest.out == l.out + (part + rest.out);
    assert part + [] == part;
    assert w.accept == |data| ==> part == data;
  }

  lemma LocalStepCopies(s: State, x: Side, arrivals: seq<ReadEvent>, answers: seq<WriteEvent>, end: Loop)
    requires s.cap > 0 && Enabled(s, Local(x))
    requires var l' := LocalStep(s, x).loops.Get(x); Reaches(l', Rest(l', arrivals, answers, s.cap), end)
    ensures Reaches(s.loops.Get(x), Rest(s.loops.Get(x), arrivals, answers, s.cap), end)
  {
  }

  lemma {:induction false} RunCopies(s: State, ls: seq<Label>, x: Side)
    requires s.cap > 0 && Feasible(s, ls) && Finished(Exec(s, ls).loops.Get(x).pc)
    ensures var l := s.loops.Get(x);
            Reaches(l, Rest(l, Arrivals(ls, x), Answers(ls, x), s.cap), Exec(s, ls).loops.Get(x))
    decreases |ls|
  {
    var l, end := s.loops.Get(x), Exec(s, ls).loops.Get(x);
    if ls == [] {
      assert l.out + [] == l.out && l.consumed + [] == l.consumed;
    } else {
      var s' := Step(s, ls[0]);
      var more, said := Arrivals(ls[1..], x), Answers(ls[1..], x);
      RunCopies(s', ls[1..], x);
      assert [] + more == more && [] + said == said;
      if ls[0].ReadReturns? && ls[0].x == x {
        ReadStepCopies(l, ReadEvent(ls[0].data, ls[0].er), Untouched(s), s.now, more, said, s.cap, end);
      } else if ls[0].WriteReturns? && ls[0].x == x {
        WriteStepCopies(l, WriteEvent(ls[0].nw, ls[0].ew), Untouched(s), s.now, more, said, s.cap, end);
      } else if ls[0] == Local(x) {
        LocalStepCopies(s, x, more, said, end);
      } else {
        assert s'.loops.Get(x) == l;
      }
    }
  }

  /** A direction that has ended took and delivered what copyBuffer does on the events it saw, with the same
      result. */
  lemma DirectionRunsCopyBuffer(s: State, ls: seq<Label>, x: Side)
    requires Init(s) && Feasible(s, ls) && Finished(Exec(s, ls).loops.Get(x).pc)
    ensures var l := Exec(s, ls).loops.Get(x);
            Copy(Arrivals(ls, x), Answers(ls, x), s.cap) == CopyResult(l.out, l.consumed, l.result)
  {
    RunCopies(s, ls, x);
    var r := Copy(Arrivals(ls, x), Answers(ls, x), s.cap);
    assert [] + r.out == r.out && [] + r.consumed == r.consumed;
  }

  /** Hence a direction that reports no error ended because its source did, with every byte its source sent
      before that delivered. */
  lemma NilMeansAllDelivered(s: State, ls: seq<Label>, x: Side)
    requires Init(s) && Feasible(s, ls) && Finished(Exec(s, ls).loops.Get(x).pc)
    requires Exec(s, ls).loops.Get(x).result == None
    ensures Exec(s, ls).loops.Get(x).out == Available(Arrivals(ls, x)) && FirstError(Arrivals(ls, x)) == Some(Eof)
  {
    DirectionRunsCopyBuffer(s, ls, x);
    CopyAccounting(Arrivals(ls, x), Answers(ls, x), s.cap);
  }
}

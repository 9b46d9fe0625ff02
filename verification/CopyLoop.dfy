/** copyBuffer (internal/core/common.go): one direction of a tunnel.

    A connection is seen through the contracts of Go's io.Reader and io.Writer.  What the peer and the
    network do is a script: the chunks a reader hands out, the share of each write a writer takes. */
module CopyLoop {
  import opened Prelude

  /** One arrival at a reader: bytes, and the error that comes with them or after them, if any. */
  datatype ReadEvent = ReadEvent(data: seq<Byte>, err: Option<IoError>)

  /** One answer of a writer: it takes at most `accept` bytes and returns `err`. */
  datatype WriteEvent = WriteEvent(accept: nat, err: Option<IoError>)

  /** The error of a connection that stays silent until its deadline. */
  const TIMEOUT := Fault(1)

  /** What one Read into a buffer of `cap` bytes returns, and the script left.  A chunk larger than the
      buffer is handed out in parts, its error with the last one. */
  function NextRead(script: seq<ReadEvent>, cap: nat): (ReadEvent, seq<ReadEvent>)
    requires cap > 0
  {
    if script == [] then (ReadEvent([], Some(TIMEOUT)), [])
    else
      var e := script[0];
      if |e.data| > cap then (ReadEvent(e.data[..cap], None), [e.(data := e.data[cap..])] + script[1..])
      else (e, script[1..])
  }

  /** What one Write of `n` bytes takes and returns.  Off the script every byte is taken. */
  function NextWrite(script: seq<WriteEvent>, n: nat): (r: (nat, Option<IoError>, seq<WriteEvent>))
    ensures r.0 <= n
  {
    if script == [] then (n, None, [])
    else (Min(script[0].accept, n), script[0].err, script[1..])
  }

  // ---- the branches of the loop, shared with the tunnel machine and the pipeline -----------------

  /** How an iteration ends: another one, or the loop's result, where no error stands for nil. */
  datatype Outcome = Continue | Stop(err: Option<IoError>)

  /** The test of the read error at the bottom of the loop; EOF ends it with a nil error. */
  function AfterRead(er: Option<IoError>): Outcome {
    match er
    case None => Continue
    case Some(e) => Stop(if e == Eof then None else Some(e))
  }

  /** The tests after a Write of `nr` bytes that took `nw` and returned `ew`. */
  function AfterWrite(nr: nat, nw: nat, ew: Option<IoError>, er: Option<IoError>): Outcome {
    if ew.Some? then Stop(ew)
    else if nr != nw then Stop(Some(ShortWrite))
    else AfterRead(er)
  }

  // ---- the loop as a function of the scripts ------------------------------------------------------

  /** `out` is what the writer took, `consumed` what the loop read, `err` its result. */
  datatype CopyResult = CopyResult(out: seq<Byte>, consumed: seq<Byte>, err: Option<IoError>)

  function Size(script: seq<ReadEvent>): nat {
    if script == [] then 0 else |script[0].data| + 1 + Size(script[1..])
  }

  lemma NextReadShrinks(script: seq<ReadEvent>, cap: nat)
    requires cap > 0
    ensures script != [] ==> Size(NextRead(script, cap).1) < Size(script)
    ensures |NextRead(script, cap).0.data| <= cap
    ensures script == [] ==> AfterRead(NextRead(script, cap).0.err).Stop?
  {
  }

  ghost function Copy(arrivals: seq<ReadEvent>, answers: seq<WriteEvent>, cap: nat): CopyResult
    requires cap > 0
    decreases Size(arrivals)
  {
    NextReadShrinks(arrivals, cap);
    var (event, arrivals') := NextRead(arrivals, cap);
    var data := event.data;
    if data == [] then
      match AfterRead(event.err) {
        case Stop(e) => CopyResult([], [], e)
        case Continue => Copy(arrivals', answers, cap)
      }
    else
      var (nw, ew, answers') := NextWrite(answers, |data|);
      match AfterWrite(|data|, nw, ew, event.err) {
        case Stop(e) => CopyResult(data[..nw], data, e)
        case Continue =>
          var rest := Copy(arrivals', answers', cap);
          CopyResult(data + rest.out, data + rest.consumed, rest.err)
      }
  }

  // ---- the loop as the program runs it ------------------------------------------------------------

  class Source {
    var script: seq<ReadEvent>

    constructor (script: seq<ReadEvent>)
      ensures this.script == script
    {
      this.script := script;
    }

    /** io.Reader: fills a prefix of the buffer. */
    method Read(buf: array<Byte>) returns (n: nat, err: Option<IoError>)
      requires buf.Length > 0
      modifies this, buf
      ensures var (event, rest) := NextRead(old(script), buf.Length);
              script == rest && n == |event.data| <= buf.Length && buf[..n] == event.data && err == event.err
    {
      var (event, rest) := NextRead(script, buf.Length);
      n, err := |event.data|, event.err;
      forall i | 0 <= i < n {
        buf[i] := event.data[i];
      }
      script := rest;
    }
  }

  class Sink {
    var script: seq<WriteEvent>
    var accepted: seq<Byte>

    constructor (script: seq<WriteEvent>)
      ensures this.script == script && accepted == []
    {
      this.script := script;
      accepted := [];
    }

    /** io.Writer: takes a prefix of the first `n` bytes of the buffer. */
    method Write(buf: array<Byte>, n: nat) returns (nw: nat, err: Option<IoError>)
      requires n <= buf.Length
      modifies this
      ensures var (k, e, rest) := NextWrite(old(script), n);
              nw == k && err == e && script == rest && accepted == old(accepted) + buf[..k]
    {
      var (k, e, rest) := NextWrite(script, n);
      nw, err, script := k, e, rest;
      accepted := accepted + buf[..k];
    }
  }

  lemma Associate(a: seq<Byte>, b: seq<Byte>, c: seq<Byte>)
    ensures a + (b + c) == (a + b) + c
  {
  }

  method CopyBuffer(dst: Sink, src: Source, buf: array<Byte>) returns (written: nat, err: Option<IoError>)
    requires buf.Length > 0
    modifies dst, src, buf
    ensures var r := Copy(old(src.script), old(dst.script), buf.Length);
            dst.accepted == old(dst.accepted) + r.out && written == |r.out| && err == r.err
  {
    written, err := 0, None;
    ghost var before := dst.accepted;
    ghost var all := Copy(src.script, dst.script, buf.Length);
    while true
      invariant written == |dst.accepted| - |before|
      invariant err == None
      invariant all.err == Copy(src.script, dst.script, buf.Length).err
      invariant before + all.out == dst.accepted + Copy(src.script, dst.script, buf.Length).out
      decreases Size(src.script)
    {
      ghost var arrivals, answers, sent := src.script, dst.script, dst.accepted;
      NextReadShrinks(arrivals, buf.Length);
      var nr, er := src.Read(buf);
      ghost var data := buf[..nr];
      ghost var rest := src.script;
      assert NextRead(arrivals, buf.Length) == (ReadEvent(data, er), rest);
      if nr > 0 {
        var nw, ew := dst.Write(buf, nr);
        assert buf[..nw] == data[..nw];
        assert dst.accepted == sent + data[..nw];
        if nw > 0 {
          written := written + nw;
        }
        if ew != None {
          err := ew;
          break;
        }
        if nr != nw {
          err := Some(ShortWrite);
          break;
        }
        assert data[..nw] == data;
        Associate(sent, data, Copy(src.script, dst.script, buf.Length).out);
      }
      if er != None {
        if er != Some(Eof) {
          err := er;
        }
        break;
      }
    }
  }

  // ---- what the loop achieves ---------------------------------------------------------------------

  /** The bytes the peer sends before its first error or end of stream, however they are cut. */
  function Available(script: seq<ReadEvent>): seq<Byte> {
    if script == [] then []
    else if script[0].err.Some? then script[0].data
    else script[0].data + Available(script[1..])
  }

  /** The first error of a reader, its end of stream included. */
  function FirstError(script: seq<ReadEvent>): Option<IoError> {
    if script == [] then None else if script[0].err.Some? then script[0].err else FirstError(script[1..])
  }

  /** The result a reader's first error stands for: nil for EOF, a timeout when it never comes. */
  function Ending(script: seq<ReadEvent>): Option<IoError> {
    match FirstError(script)
    case None => Some(TIMEOUT)
    case Some(e) => if e == Eof then None else Some(e)
  }

  function Data(script: seq<ReadEvent>): seq<seq<Byte>> {
    seq(|script|, i requires 0 <= i < |script| => script[i].data)
  }

  /** Without recursion: when event i is the first with an error, all bytes up to it are available, its own
      included, and the result is nil for EOF and the error itself otherwise. */
  lemma {:induction false} EndingIsFirstError(script: seq<ReadEvent>, i: nat)
    requires i < |script| && script[i].err.Some? && forall j :: 0 <= j < i ==> script[j].err.None?
    ensures Ending(script) == if script[i].err == Some(Eof) then None else script[i].err
    ensures Available(script) == Flatten(Data(script[..i + 1]))
  {
    var data := Data(script[..i + 1]);
    if i == 0 {
      assert data == [script[0].data] && data[1..] == [];
    } else {
      EndingIsFirstError(script[1..], i - 1);
      assert data[1..] == Data(script[1..][..i]);
    }
  }

  /** And when no event has one, the reader runs into its deadline after all its bytes. */
  lemma {:induction false} EndingIsTimeout(script: seq<ReadEvent>)
    requires forall j :: 0 <= j < |script| ==> script[j].err.None?
    ensures Ending(script) == Some(TIMEOUT) && Available(script) == Flatten(Data(script))
  {
    if script != [] {
      EndingIsTimeout(script[1..]);
      assert Data(script)[1..] == Data(script[1..]);
    }
  }

  /** One Read hands out a prefix of what is available and leaves the rest. */
  lemma ReadTakesPrefix(script: seq<ReadEvent>, cap: nat)
    requires cap > 0
    ensures var (e, rest) := NextRead(script, cap);
            if e.err.Some? then Available(script) == e.data && AfterRead(e.err) == Stop(Ending(script))
            else Available(script) == e.data + Available(rest) && Ending(script) == Ending(rest)
  {
    if script != [] && |script[0].data| > cap {
      var e := script[0];
      var rest := NextRead(script, cap).1;
      assert rest[1..] == script[1..];
      assert e.data == e.data[..cap] + e.data[cap..];
    }
  }

  /** For every script of reads and writes: the output is a prefix of what was read, which is a prefix of
      what the peer sent; at most one buffer is read and not written; and a nil result means that the
      peer's stream ended and every byte before its end was delivered. */
  lemma {:induction false} CopyAccounting(arrivals: seq<ReadEvent>, answers: seq<WriteEvent>, cap: nat)
    requires cap > 0
    ensures var r := Copy(arrivals, answers, cap);
            && r.out <= r.consumed <= Available(arrivals)
            && |r.consumed| - |r.out| <= cap
            && (r.err == None ==> r.out == Available(arrivals) && FirstError(arrivals) == Some(Eof))
    decreases Size(arrivals)
  {
    NextReadShrinks(arrivals, cap);
    ReadTakesPrefix(arrivals, cap);
    var (event, arrivals') := NextRead(arrivals, cap);
    var data := event.data;
    if data == [] {
      if event.err == None {
        CopyAccounting(arrivals', answers, cap);
        assert data + Available(arrivals') == Available(arrivals');
      }
    } else {
      var (nw, ew, answers') := NextWrite(answers, |data|);
      if AfterWrite(|data|, nw, ew, event.err).Continue? {
        CopyAccounting(arrivals', answers', cap);
      }
    }
  }

  /** What the loop's Writes are given one after the other: what each Read hands out, up to the first error. */
  ghost function Chunks(arrivals: seq<ReadEvent>, cap: nat): seq<seq<Byte>>
    requires cap > 0
    decreases Size(arrivals)
  {
    if arrivals == [] then []
    else
      NextReadShrinks(arrivals, cap);
      var (event, rest) := NextRead(arrivals, cap);
      (if event.data == [] then [] else [event.data]) + (if event.err.Some? then [] else Chunks(rest, cap))
  }

  /** The chunks are non-empty, no larger than the buffer, and together what is available. */
  lemma {:induction false} ChunksAreAvailable(arrivals: seq<ReadEvent>, cap: nat)
    requires cap > 0
    ensures Flatten(Chunks(arrivals, cap)) == Available(arrivals)
    ensures forall c :: c in Chunks(arrivals, cap) ==> 0 < |c| <= cap
    decreases Size(arrivals)
  {
    if arrivals != [] {
      NextReadShrinks(arrivals, cap);
      ReadTakesPrefix(arrivals, cap);
      var (event, rest) := NextRead(arrivals, cap);
      var later := if event.err.Some? then [] else Chunks(rest, cap);
      if event.err.None? { ChunksAreAvailable(rest, cap); }
      assert event.data + [] == event.data;
      if event.data != [] {
        assert ([event.data] + later)[1..] == later;
      } else {
        assert [] + later == later && event.data + Available(rest) == Available(rest);
      }
    }
  }

  /** Answer w takes all of the chunk and reports no error. */
  predicate TakesAll(w: WriteEvent, chunk: seq<Byte>) {
    w.err.None? && w.accept >= |chunk|
  }

  /** While all Writes take what they are given, everything available is delivered and the result is the one the
      reader's end stands for, however the bytes are cut. */
  lemma {:induction false} WritesSucceed(arrivals: seq<ReadEvent>, answers: seq<WriteEvent>, cap: nat)
    requires cap > 0
    requires var c := Chunks(arrivals, cap); forall j :: 0 <= j < |c| && j < |answers| ==> TakesAll(answers[j], c[j])
    ensures var r := Copy(arrivals, answers, cap);
            r.out == r.consumed == Available(arrivals) && r.err == Ending(arrivals)
    decreases Size(arrivals)
  {
    NextReadShrinks(arrivals, cap);
    ReadTakesPrefix(arrivals, cap);
    var (event, rest) := NextRead(arrivals, cap);
    var data, c := event.data, Chunks(arrivals, cap);
    if data == [] {
      if event.err.None? {
        assert c == Chunks(rest, cap);
        WritesSucceed(rest, answers, cap);
        assert data + Available(rest) == Available(rest);
      }
    } else {
      assert c[0] == data;
      var (nw, ew, answers') := NextWrite(answers, |data|);
      if answers != [] { assert TakesAll(answers[0], c[0]); }
      assert nw == |data| && ew.None? && data[..nw] == data;
      if event.err.None? {
        assert c[1..] == Chunks(rest, cap);
        forall j | 0 <= j < |c[1..]| && j < |answers'|
          ensures TakesAll(answers'[j], c[1..][j])
        {
          assert TakesAll(answers[j + 1], c[j + 1]);
        }
        WritesSucceed(rest, answers', cap);
      }
    }
  }

  lemma FlattenFront(c: seq<seq<Byte>>, k: nat)
    requires 0 < k <= |c|
    ensures Flatten(c[..k]) == c[0] + Flatten(c[1..][..k - 1])
  {
    var front := c[..k];
    assert front[0] == c[0] && front[1..] == c[1..][..k - 1];
  }

  /** Write k is the first that fails or takes less than it is given. */
  ghost predicate FailsAt(c: seq<seq<Byte>>, answers: seq<WriteEvent>, k: nat) {
    && k < |c| && k < |answers| && (answers[k].err.Some? || answers[k].accept < |c[k]|)
    && forall j :: 0 <= j < k ==> TakesAll(answers[j], c[j])
  }

  lemma FailsLater(c: seq<seq<Byte>>, answers: seq<WriteEvent>, k: nat)
    requires k > 0 && FailsAt(c, answers, k)
    ensures TakesAll(answers[0], c[0]) && FailsAt(c[1..], answers[1..], k - 1)
  {
    forall j | 0 <= j < k - 1
      ensures TakesAll(answers[1..][j], c[1..][j])
    {
      assert TakesAll(answers[j + 1], c[j + 1]);
    }
  }

  /** An iteration whose Write takes all of a chunk that came without an error. */
  lemma CopyGoesOn(arrivals: seq<ReadEvent>, answers: seq<WriteEvent>, cap: nat)
    requires cap > 0 && answers != []
    requires var e := NextRead(arrivals, cap).0; e.data != [] && e.err.None? && TakesAll(answers[0], e.data)
    ensures var (e, rest) := NextRead(arrivals, cap);
            var later := Copy(rest, answers[1..], cap);
            Copy(arrivals, answers, cap) == CopyResult(e.data + later.out, e.data + later.consumed, later.err)
  {
    NextReadShrinks(arrivals, cap);
  }

  /** What a first failed Write makes of the loop. */
  ghost predicate EndsAt(r: CopyResult, c: seq<seq<Byte>>, w: WriteEvent, k: nat)
    requires k < |c|
  {
    && r.err == (if w.err.Some? then w.err else Some(ShortWrite))
    && r.out == Flatten(c[..k]) + c[k][..if w.accept < |c[k]| then w.accept else |c[k]|]
    && r.consumed == Flatten(c[..k + 1])
  }

  lemma FirstWriteFails(arrivals: seq<ReadEvent>, answers: seq<WriteEvent>, cap: nat)
    requires cap > 0 && NextRead(arrivals, cap).0.data != [] && FailsAt(Chunks(arrivals, cap), answers, 0)
    ensures EndsAt(Copy(arrivals, answers, cap), Chunks(arrivals, cap), answers[0], 0)
  {
    var data, c := NextRead(arrivals, cap).0.data, Chunks(arrivals, cap);
    FlattenFront(c, 1);
    assert c[..0] == [] && Flatten(c[1..][..0]) == [] && data + [] == data;
  }

  lemma EndsLater(r: CopyResult, c: seq<seq<Byte>>, w: WriteEvent, k: nat)
    requires 0 < k < |c| && EndsAt(r, c[1..], w, k - 1)
    ensures EndsAt(CopyResult(c[0] + r.out, c[0] + r.consumed, r.err), c, w, k)
  {
    FlattenFront(c, k);
    FlattenFront(c, k + 1);
    Associate(c[0], Flatten(c[1..][..k - 1]), c[k][..if w.accept < |c[k]| then w.accept else |c[k]|]);
  }

  lemma {:induction false} WriteEnds(arrivals: seq<ReadEvent>, answers: seq<WriteEvent>, cap: nat, k: nat)
    requires cap > 0 && FailsAt(Chunks(arrivals, cap), answers, k)
    ensures EndsAt(Copy(arrivals, answers, cap), Chunks(arrivals, cap), answers[k], k)
    decreases Size(arrivals)
  {
    NextReadShrinks(arrivals, cap);
    var (event, rest) := NextRead(arrivals, cap);
    var data, c := event.data, Chunks(arrivals, cap);
    if data == [] {
      assert c == Chunks(rest, cap);
      WriteEnds(rest, answers, cap, k);
    } else if k == 0 {
      FirstWriteFails(arrivals, answers, cap);
    } else {
      assert c[0] == data && c[1..] == Chunks(rest, cap);
      FailsLater(c, answers, k);
      CopyGoesOn(arrivals, answers, cap);
      WriteEnds(rest, answers[1..], cap, k - 1);
      EndsLater(Copy(rest, answers[1..], cap), c, answers[k], k);
    }
  }

  /** The first Write that fails or takes less than it is given ends the loop: the result is its own error, or
      "short write" if it has none, and delivered is all before it and the share it took. */
  lemma WriteFailureIsResult(arrivals: seq<ReadEvent>, answers: seq<WriteEvent>, cap: nat, k: nat)
    requires cap > 0
    requires var c := Chunks(arrivals, cap);
             && k < |c| && k < |answers| && (answers[k].err.Some? || answers[k].accept < |c[k]|)
             && forall j :: 0 <= j < k ==> answers[j].err.None? && answers[j].accept >= |c[j]|
    ensures var c, w, r := Chunks(arrivals, cap), answers[k], Copy(arrivals, answers, cap);
            && r.err == (if w.err.Some? then w.err else Some(ShortWrite))
            && r.out == Flatten(c[..k]) + c[k][..if w.accept < |c[k]| then w.accept else |c[k]|]
            && r.consumed == Flatten(c[..k + 1])
  {
    WriteEnds(arrivals, answers, cap, k);
  }

  /** Every write takes what it is given and reports no error. */
  predicate Accepting(answers: seq<WriteEvent>, cap: nat) {
    forall w :: w in answers ==> w.accept >= cap && w.err == None
  }

  /** Against an accepting writer the cut into chunks and the buffer size do not matter: everything available is
      delivered, and the result is nil exactly when the reader's first error is EOF. */
  lemma CopyFaithful(arrivals: seq<ReadEvent>, answers: seq<WriteEvent>, cap: nat)
    requires cap > 0 && Accepting(answers, cap)
    ensures var r := Copy(arrivals, answers, cap);
            && r.out == r.consumed == Available(arrivals)
            && match FirstError(arrivals) {
              case None => r.err == Some(TIMEOUT)
              case Some(e) => r.err == if e == Eof then None else Some(e)
            }
  {
    var c := Chunks(arrivals, cap);
    ChunksAreAvailable(arrivals, cap);
    forall j | 0 <= j < |c| && j < |answers|
      ensures TakesAll(answers[j], c[j])
    {
      assert answers[j] in answers && c[j] in c;
    }
    WritesSucceed(arrivals, answers, cap);
  }
}

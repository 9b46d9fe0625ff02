/** webSocketConnWrapper (internal/core/websocket.go): a byte stream over WebSocket messages.

    `WsConn` states the contract of the WebSocket library: a message reader returns EOF with no bytes at the
    end of its message, an error of the connection is permanent and may come with the last bytes, and nothing
    follows a close message (RFC 6455, section 5.5.1).  A message sent in fragments
    (section 5.4) shows as a reader that hands out its payload in chunks of any size. */
module WebSocketStream {
  import opened Prelude

  datatype WireFrame = Binary(payload: seq<Byte>) | CloseNormal

  const UNEXPECTED_EOF := Fault(2)
  const CLOSE_SENT := Fault(3)

  /** One end of a WebSocket connection.  `current` is what is unread of the message being read and
      `incoming` the messages the peer has sent after it; `end` is the error that follows them and `wire`
      the frames this end has sent. */
  class WsConn {
    var current: seq<Byte>
    var incoming: seq<seq<Byte>>
    var end: IoError
    var readErr: Option<IoError>
    var wire: seq<WireFrame>
    var writeErr: Option<IoError>
    var closed: bool

    constructor (incoming: seq<seq<Byte>>, end: IoError)
      ensures this.incoming == incoming && this.end == end && wire == [] && !closed && current == []
      ensures readErr == None && writeErr == None
    {
      this.incoming, this.end, wire, closed, current := incoming, end, [], false, [];
      readErr, writeErr := None, None;
    }

    /** Moves on to the next message; what is unread of the current one is lost. */
    method NextReader() returns (err: Option<IoError>)
      modifies this`current, this`incoming, this`readErr
      ensures err == readErr
      ensures err.None? ==> old(readErr).None? && old(incoming) == [current] + incoming
      ensures err.Some? ==> incoming == old(incoming) && current == []
      ensures err.Some? ==> if old(readErr).Some? then err == old(readErr) else incoming == [] && err == Some(end)
    {
      current := [];
      if readErr.None? {
        if incoming == [] {
          readErr := Some(end);
        } else {
          current, incoming := incoming[0], incoming[1..];
        }
      }
      err := readErr;
    }

    /** The Read of the current message's reader.  The error of the connection may come with the last bytes. */
    method ReadMessage(b: array<Byte>) returns (n: nat, err: Option<IoError>)
      modifies this`current, this`readErr, b
      ensures n <= b.Length && old(current) == b[..n] + current
      ensures old(readErr).Some? ==> n == 0 && err.Some? && err != Some(Eof) && readErr == old(readErr)
      ensures old(readErr).None? && old(current) == [] ==> n == 0 && err == Some(Eof) && readErr.None?
      ensures old(readErr).None? && old(current) != [] ==> err == readErr && (b.Length > 0 ==> n > 0)
      ensures old(readErr).None? && readErr.Some? ==> readErr == Some(end) && n > 0 && current == [] && incoming == []
    {
      n := 0;
      if readErr.Some? {
        err := if readErr == Some(Eof) then Some(UNEXPECTED_EOF) else readErr;
      } else if current == [] {
        err := Some(Eof);
      } else {
        err := None;
        if b.Length > 0 {
          n :| 1 <= n && n <= b.Length && n <= |current|;
          forall i | 0 <= i < n {
            b[i] := current[i];
          }
          current := current[n..];
          var breaks: bool := *;
          if breaks && current == [] && incoming == [] {
            readErr := Some(end);
            err := readErr;
          }
        }
      }
    }

    method WriteMessage(f: WireFrame) returns (err: Option<IoError>)
      modifies this`wire, this`writeErr
      ensures err == old(writeErr)
      ensures old(writeErr).Some? ==> wire == old(wire) && writeErr == old(writeErr)
      ensures old(writeErr).None? ==>
                wire == old(wire) + [f] && writeErr == if f.CloseNormal? then Some(CLOSE_SENT) else None
    {
      err := writeErr;
      if err.None? {
        wire := wire + [f];
        if f.CloseNormal? {
          writeErr := Some(CLOSE_SENT);
        }
      }
    }

    method Close()
      modifies this`closed, this`readErr, this`writeErr
      ensures closed && readErr.Some? && writeErr.Some?
    {
      closed := true;
      readErr := Some(if readErr.Some? then readErr.value else UNEXPECTED_EOF);
      writeErr := Some(if writeErr.Some? then writeErr.value else CLOSE_SENT);
    }
  }

  /** Data frames, and nothing after a close frame. */
  ghost predicate WellFormedWire(wire: seq<WireFrame>) {
    forall i :: 0 <= i < |wire| - 1 ==> wire[i].Binary?
  }

  /** The messages on the wire, in order. */
  ghost function Payloads(wire: seq<WireFrame>): seq<seq<Byte>> {
    if wire == [] then []
    else
      var last := wire[|wire| - 1];
      if last.Binary? then Payloads(wire[..|wire| - 1]) + [last.payload] else Payloads(wire[..|wire| - 1])
  }

  lemma PayloadsSnoc(wire: seq<WireFrame>, f: WireFrame)
    ensures Payloads(wire + [f]) == if f.Binary? then Payloads(wire) + [f.payload] else Payloads(wire)
  {
    assert (wire + [f])[..|wire|] == wire;
  }

  lemma TakeFront(whole: seq<Byte>, front: seq<Byte>, rest: seq<Byte>, more: seq<Byte>)
    requires whole == front + rest
    ensures whole + more == front + (rest + more)
  {
  }

  class ConnWrapper {
    const ws: WsConn
    var reader: bool  // whether a message reader is held, the negation of reader == nil
    var closeOnce: bool

    ghost predicate Valid()
      reads this, ws
    {
      (!reader ==> ws.current == []) && WireValid()
    }

    /** Nothing is sent after a close frame. */
    ghost predicate WireValid()
      reads ws`wire, ws`writeErr
    {
      && WellFormedWire(ws.wire)
      && (ws.wire != [] && ws.wire[|ws.wire| - 1].CloseNormal? ==> ws.writeErr.Some?)
    }

    /** The byte stream this connection still has to deliver. */
    ghost function Remaining(): seq<Byte>
      reads ws`current, ws`incoming
    {
      ws.current + Flatten(ws.incoming)
    }

    constructor (ws: WsConn)
      requires ws.wire == [] && ws.current == []
      ensures this.ws == ws && !reader && !closeOnce && Valid()
    {
      this.ws := ws;
      reader := false;
      closeOnce := false;
    }

    /** A read takes a prefix of the stream, however the stream is cut into messages and fragments.  As
        long as the connection is sound and bytes remain it returns some of them, so neither the end of a
        message nor an empty message surfaces as EOF: EOF comes from the connection or not at all.  The
        connection's error comes with the last bytes or after them. */
    method Read(b: array<Byte>) returns (n: nat, err: Option<IoError>)
      requires Valid()
      modifies this`reader, ws`current, ws`incoming, ws`readErr, b
      ensures Valid()
      ensures n <= b.Length && old(Remaining()) == b[..n] + Remaining()
      ensures if err.None? then ws.readErr.None? && (b.Length > 0 ==> n > 0) else ws.readErr.Some?
      ensures old(ws.readErr).Some? ==> err.Some? && n == 0
      ensures old(ws.readErr).None? && err.Some? ==> err == Some(ws.end) && Remaining() == []
      ensures old(ws.readErr).None? && err.None? ==> old(Remaining()) != []
      ensures old(ws.readErr).None? && old(Remaining()) != [] && b.Length > 0 ==> n > 0
      ensures err == Some(Eof) ==> ws.readErr == Some(Eof)
    {
      while true
        invariant Valid()
        invariant Remaining() == old(Remaining())
        invariant ws.readErr == old(ws.readErr)
        decreases |ws.incoming| + if reader then 1 else 0
      {
        if !reader {
          err := ws.NextReader();
          reader := err.None?;
          if err != None {
            return 0, err;
          }
        }
        ghost var before := ws.current;
        n, err := ws.ReadMessage(b);
        TakeFront(before, b[..n], ws.current, Flatten(ws.incoming));
        if n == 0 && err == Some(Eof) {
          reader := false;
          continue;
        }
        return n, err;
      }
    }

    /** io.Writer: one message a call. */
    method Write(b: array<Byte>) returns (n: nat, err: Option<IoError>)
      requires Valid()
      modifies ws`wire, ws`writeErr
      ensures Valid() && err == old(ws.writeErr) == ws.writeErr
      ensures err.None? ==> n == b.Length && Payloads(ws.wire) == old(Payloads(ws.wire)) + [b[..]]
      ensures err.Some? ==> n == 0 && ws.wire == old(ws.wire)
    {
      PayloadsSnoc(ws.wire, Binary(b[..]));
      err := ws.WriteMessage(Binary(b[..]));
      if err != None {
        return 0, err;
      }
      return b.Length, None;
    }

    /** The close message goes out with the first call only, and the data sent before it is untouched;
        after any call every read and write fails. */
    method CloseWithDeadline()
      requires Valid()
      modifies this`closeOnce, ws`wire, ws`writeErr, ws`closed, ws`readErr
      ensures Valid() && closeOnce
      ensures ws.closed && ws.readErr.Some? && ws.writeErr.Some?
      ensures Payloads(ws.wire) == old(Payloads(ws.wire))
      ensures ws.wire == if old(closeOnce) || old(ws.writeErr).Some? then old(ws.wire) else old(ws.wire) + [CloseNormal]
    {
      if !closeOnce {
        closeOnce := true;
        PayloadsSnoc(ws.wire, CloseNormal);
        var _ := ws.WriteMessage(CloseNormal);
      }
      ws.Close();
    }
  }

  // ---- whole sessions ---------------------------------------------------------------------------------

  /** Reads until the connection reports an error. */
  method Drain(c: ConnWrapper, b: array<Byte>) returns (got: seq<Byte>, err: IoError)
    requires c.Valid() && b.Length > 0 && c.ws.readErr.None?
    modifies c`reader, c.ws`current, c.ws`incoming, c.ws`readErr, b
    ensures c.Valid()
    ensures got == old(c.Remaining()) && err == c.ws.end
  {
    got := [];
    while true
      invariant c.Valid() && c.ws.readErr.None?
      invariant old(c.Remaining()) == got + c.Remaining()
      decreases |c.Remaining()|
    {
      var n, e := c.Read(b);
      got := got + b[..n];
      if e.Some? {
        return got, e.value;
      }
    }
  }

  /** The far end of a connection: the messages of the near end's wire arrive in order. */
  method Connect(near: ConnWrapper, end: IoError) returns (far: ConnWrapper)
    ensures fresh(far) && fresh(far.ws) && far.Valid() && far.ws.readErr.None?
    ensures far.Remaining() == Flatten(Payloads(near.ws.wire)) && far.ws.end == end
  {
    var messages: seq<seq<Byte>> := [];
    var i := 0;
    while i < |near.ws.wire|
      invariant 0 <= i <= |near.ws.wire| && messages == Payloads(near.ws.wire[..i])
    {
      assert near.ws.wire[..i + 1] == near.ws.wire[..i] + [near.ws.wire[i]];
      PayloadsSnoc(near.ws.wire[..i], near.ws.wire[i]);
      if near.ws.wire[i].Binary? {
        messages := messages + [near.ws.wire[i].payload];
      }
      i := i + 1;
    }
    assert near.ws.wire[..i] == near.ws.wire;
    var ws := new WsConn(messages, end);
    far := new ConnWrapper(ws);
  }

  /** Writing buffers of any sizes, empty ones included, closing any number of times, and reading at the
      far end through a buffer of any positive size is the identity on the byte stream. */
  method RoundTrip(chunks: seq<array<Byte>>, closes: nat, b: array<Byte>, end: IoError)
    returns (got: seq<Byte>, ghost sent: seq<seq<Byte>>)
    requires b.Length > 0
    modifies b
    ensures |sent| == |chunks| && forall i :: 0 <= i < |chunks| ==> sent[i] == old(chunks[i][..])
    ensures got == Flatten(sent)
  {
    var ws := new WsConn([], end);
    var near := new ConnWrapper(ws);
    sent := [];
    for i := 0 to |chunks|
      invariant near.Valid() && ws.writeErr.None? && near.ws == ws && fresh(ws) && fresh(near) && !near.closeOnce
      invariant |sent| == i && Payloads(ws.wire) == sent
      invariant forall j :: 0 <= j < i ==> sent[j] == old(chunks[j][..])
      invariant forall j :: 0 <= j < |chunks| ==> chunks[j][..] == old(chunks[j][..])
    {
      var _, _ := near.Write(chunks[i]);
      sent := sent + [chunks[i][..]];
    }
    for i := 0 to closes
      invariant near.Valid() && near.ws == ws && fresh(ws) && fresh(near)
      invariant Payloads(ws.wire) == sent
    {
      near.CloseWithDeadline();
    }
    var far := Connect(near, end);
    var e;
    got, e := Drain(far, b);
  }
}

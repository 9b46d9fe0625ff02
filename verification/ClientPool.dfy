/** The client's pool of multiplexed sessions (internal/core/cmux.go, internal/core/client.go), run by one
    goroutine at a time.  PoolMachine interleaves many.

    The first methods of `MuxSession` state the contract of the multiplexing library: NumStreams counts the
    streams this end has opened and not closed, and is 0 once the session is closed; OpenStream fails on a closed
    session; closing a stream or a session twice is harmless.  On a `broken` session OpenStream fails although
    the session is not closed. */
module ClientPool {
  import opened Prelude

  datatype OpenError = TooManyStreams | OpenFailed | DialFailed

  /** The state of a session as a value. */
  datatype View = View(closed: bool, broken: bool, streams: set<nat>)

  /** A session that openStream rejects as full, one on which it fails, and one that it can serve. */
  predicate Full(v: View, limit: int) {
    |v.streams| >= limit
  }

  predicate Failing(v: View) {
    v.closed || v.broken
  }

  predicate Usable(v: View, limit: int) {
    !Full(v, limit) && !Failing(v)
  }

  /** A session getMuxStream drops from the pool: closed, or tried and found to fail. */
  predicate Dropped(v: View, limit: int) {
    v.closed || (v.broken && !Full(v, limit))
  }

  /** muxSession, with the library's session embedded in it as in the source. */
  class MuxSession {
    var closed: bool
    var broken: bool
    var streams: set<nat>
    var nextId: nat

    ghost predicate Valid()
      reads this
    {
      (closed ==> streams == {}) && forall k :: k in streams ==> k < nextId
    }

    function Now(): View
      reads this
    {
      View(closed, broken, streams)
    }

    constructor (broken: bool)
      ensures Valid() && Now() == View(false, broken, {})
    {
      closed, this.broken, streams, nextId := false, broken, {}, 1;
    }

    method NumStreams() returns (n: nat)
      ensures n == |streams|
    {
      n := |streams|;
    }

    /** The library's OpenStream. */
    method NewStream() returns (r: Option<nat>)
      requires Valid()
      modifies this`streams, this`nextId
      ensures Valid()
      ensures r.None? <==> Failing(old(Now()))
      ensures r.None? ==> streams == old(streams)
      ensures r.Some? ==> r.value !in old(streams) && streams == old(streams) + {r.value}
    {
      if closed || broken {
        return None;
      }
      r := Some(nextId);
      streams := streams + {nextId};
      nextId := nextId + 1;
    }

    /** The library's Close of one stream, and of the session. */
    method DropStream(k: nat)
      requires Valid()
      modifies this`streams
      ensures Valid() && streams == old(streams) - {k}
    {
      streams := streams - {k};
    }

    method Close()
      requires Valid()
      modifies this`closed, this`streams
      ensures Valid() && closed && streams == {}
    {
      closed := true;
      streams := {};
    }

    /** Opens a stream below the limit; a rejected or failed call leaves the session as it was. */
    method OpenStream(limit: int) returns (stream: MuxStream?, err: Option<OpenError>)
      requires Valid()
      modifies this`streams, this`nextId
      ensures Valid()
      ensures stream == null <==> err.Some?
      ensures stream != null <==> |old(streams)| < limit && !old(closed) && !old(broken)
      ensures err == Some(TooManyStreams) <==> |old(streams)| >= limit
      ensures err == Some(OpenFailed) <==> |old(streams)| < limit && (old(closed) || old(broken))
      ensures err != Some(DialFailed) && closed == old(closed) && broken == old(broken)
      ensures stream == null ==> streams == old(streams)
      ensures stream != null ==>
                stream.owner == this && stream.id !in old(streams) && streams == old(streams) + {stream.id}
    {
      var n := NumStreams();
      if n >= limit {
        return null, Some(TooManyStreams);
      }
      var id := NewStream();
      if id == None {
        return null, Some(OpenFailed);
      }
      stream := new MuxStream(this, id.value);
      err := None;
    }

    /** Closes the session if no stream is left, and only then. */
    method TryCloseOnIdle()
      requires Valid()
      modifies this`closed, this`streams
      ensures Valid() && streams == old(streams)
      ensures closed <==> old(closed) || old(streams) == {}
    {
      var n := NumStreams();
      if n == 0 {
        Close();
      }
    }
  }

  /** Why openStream refuses, if it does. */
  function Refusal(v: View, limit: int): Option<OpenError> {
    if Full(v, limit) then Some(TooManyStreams) else if Failing(v) then Some(OpenFailed) else None
  }

  /** The stream is a new one of the session, which differs from `before` by that stream alone. */
  ghost predicate Serves(m: MuxSession, stream: MuxStream, before: View)
    reads m
  {
    stream.owner == m && stream.id !in before.streams && m.Now() == before.(streams := before.streams + {stream.id})
  }

  class MuxStream {
    const owner: MuxSession
    const id: nat

    constructor (owner: MuxSession, id: nat)
      ensures this.owner == owner && this.id == id
    {
      this.owner, this.id := owner, id;
    }

    /** Close takes the stream off its session and closes a session it leaves empty.  Repeated, as every
        tunnel does, it takes off nothing more. */
    method Close()
      requires owner.Valid()
      modifies owner`closed, owner`streams
      ensures owner.Valid() && owner.streams == old(owner.streams) - {id}
      ensures owner.closed <==> old(owner.closed) || old(owner.streams) <= {id}
    {
      owner.DropStream(id);
      owner.TryCloseOnIdle();
    }
  }

  /** What a dial brings: a session that can open streams, one that cannot, or an error. */
  datatype Dial = Dialed(broken: bool) | NoDial

  /** The pool when getMuxStream has visited the sessions `visited` of it. */
  ghost function Kept(before: map<MuxSession, View>, visited: set<MuxSession>, limit: int): set<MuxSession> {
    set m | m in before && !(m in visited && Dropped(before[m], limit))
  }

  lemma KeptStep(before: map<MuxSession, View>, visited: set<MuxSession>, m: MuxSession, limit: int)
    requires m in before
    ensures Kept(before, visited + {m}, limit) ==
            if Dropped(before[m], limit) then Kept(before, visited, limit) - {m} else Kept(before, visited, limit)
  {
  }

  ghost predicate NoneUsable(before: map<MuxSession, View>, visited: set<MuxSession>, limit: int) {
    forall m :: m in before && m in visited ==> !Usable(before[m], limit)
  }

  /** No session has changed, but for the one that has served the stream. */
  ghost predicate Intact(before: map<MuxSession, View>, stream: MuxStream?)
    reads before.Keys
  {
    forall m :: m in before ==> m.Valid() && (stream == null || m != stream.owner ==> m.Now() == before[m])
  }

  /** defaultSmuxMaxStream */
  const MAX_STREAM_LIMIT := 16

  /** NewClient's check of MuxMaxStream, as far as the pool is concerned. */
  method NewClient(maxStream: int) returns (c: Client?)
    ensures c != null <==> 1 <= maxStream <= 16
    ensures c != null ==> fresh(c) && c.Valid() && c.pool == {} && c.maxStream == maxStream
  {
    if maxStream < 1 || maxStream > MAX_STREAM_LIMIT {
      return null;
    }
    c := new Client(maxStream);
  }

  class Client {
    const maxStream: int
    var pool: set<MuxSession>

    ghost predicate Valid()
      reads this, pool
    {
      forall m :: m in pool ==> m.Valid()
    }

    constructor (maxStream: int)
      ensures Valid() && pool == {} && this.maxStream == maxStream
    {
      this.maxStream := maxStream;
      pool := {};
    }

    /** The closure getMuxStream ranges with: whether to go on to the next session. */
    method Try(m: MuxSession) returns (stream: MuxStream?, more: bool)
      requires m.Valid()
      modifies this`pool, m`streams, m`nextId
      ensures m.Valid() && (more <==> stream == null)
      ensures stream != null <==> !old(m.closed) && !old(m.broken) && |old(m.streams)| < maxStream
      ensures pool == if old(m.closed) || (old(m.broken) && |old(m.streams)| < maxStream) then old(pool) - {m}
                      else old(pool)
      ensures stream == null ==> m.Now() == old(m.Now())
      ensures stream != null ==> Serves(m, stream, old(m.Now()))
    {
      if m.closed {
        pool := pool - {m};
        return null, true;
      }
      var er;
      stream, er := m.OpenStream(maxStream);
      if er == Some(TooManyStreams) {
        return stream, true;
      }
      if er != None {
        pool := pool - {m};
        return stream, true;
      }
      return stream, false;
    }

    /** Range: one pass over the pool in any order, until a session has served a stream. */
    method Search(ghost before: map<MuxSession, View>) returns (stream: MuxStream?, ghost visited: set<MuxSession>)
      requires before.Keys == pool && Intact(before, null)
      modifies this`pool, pool
      ensures visited <= before.Keys && pool == Kept(before, visited, maxStream)
      ensures pool <= before.Keys
      ensures forall m :: m in before ==>
                (m !in pool <==>
                  && m in visited
                  && (before[m].closed || (before[m].broken && |before[m].streams| < maxStream)))
      ensures Intact(before, stream)
      ensures stream == null ==> visited == before.Keys && NoneUsable(before, visited, maxStream)
      ensures stream != null ==> NoneUsable(before, visited - {stream.owner}, maxStream)
      ensures stream != null ==>
                && stream.owner in visited && Usable(before[stream.owner], maxStream)
                && Serves(stream.owner, stream, before[stream.owner])
    {
      stream, visited := null, {};
      var rest := pool;
      while rest != {}
        invariant rest + visited == before.Keys && rest !! visited
        invariant pool == Kept(before, visited, maxStream)
        invariant stream == null && Intact(before, null) && NoneUsable(before, visited, maxStream)
        decreases rest
      {
        var m :| m in rest;
        var more;
        stream, more := Try(m);
        assert Intact(before, stream);
        KeptStep(before, visited, m, maxStream);
        rest, visited := rest - {m}, visited + {m};
        if !more {
          return;
        }
      }
    }

    ghost function Views(): map<MuxSession, View>
      reads this, pool
    {
      map m | m in pool :: m.Now()
    }

    /** Run without interference, the search is exact.  It dials if and only if every pooled session is closed,
        broken or full; it drops every session it visited that is closed, or broken with room, and no other; on
        success exactly one session, a pooled one or the dialed one, has gained exactly one stream; and it answers
        "too many streams" only when the limit is below one, which NewClient excludes. */
    method GetMuxStream(dial: Dial)
      returns (stream: MuxStream?, err: Option<OpenError>, ghost visited: set<MuxSession>, ghost dialed: bool)
      requires Valid()
      modifies this`pool, pool
      ensures Valid() && visited <= old(pool) && (stream == null <==> err.Some?)
      ensures dialed <==> forall m :: m in old(pool) ==> old(m.closed) || old(m.broken) || |old(m.streams)| >= maxStream
      ensures dialed ==> visited == old(pool)
      ensures forall m :: m in old(pool) ==>
                (m !in pool <==>
                  m in visited && (old(m.closed) || (old(m.broken) && |old(m.streams)| < maxStream)))
      ensures forall m :: m in old(pool) && (stream == null || m != stream.owner) ==> m.Now() == old(Views())[m]
      ensures !dialed ==>
                && pool <= old(pool) && stream != null
                && stream.owner in visited && Serves(stream.owner, stream, old(Views())[stream.owner])
      ensures !dialed ==>
                forall m :: m in visited && m != stream.owner ==>
                  old(m.closed) || old(m.broken) || |old(m.streams)| >= maxStream
      ensures dialed && dial.NoDial? ==> err == Some(DialFailed) && pool <= old(pool)
      ensures dialed && dial.Dialed? ==>
                exists m :: fresh(m) && pool - old(pool) == {m} && !m.closed && m.broken == dial.broken
                            && if stream == null then m.streams == {} else stream.owner == m && m.streams == {stream.id}
      ensures dialed && dial.Dialed? ==>
                (stream != null <==> !dial.broken && maxStream >= 1)
      ensures err == Some(TooManyStreams) <==> dialed && dial.Dialed? && maxStream < 1
    {
      ghost var before := Views();
      stream, visited := Search(before);
      dialed := stream == null;
      err := None;
      if stream == null {
        if dial.NoDial? {
          err := Some(DialFailed);
        } else {
          var m := new MuxSession(dial.broken);
          pool := pool + {m};
          stream, err := m.OpenStream(maxStream);
        }
      }
    }
  }
}

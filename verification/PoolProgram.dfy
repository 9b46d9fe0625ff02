/** getMuxStream and muxStream.Close (internal/core/client.go, internal/core/cmux.go) as the program writes
    them, with other calls and the deaths of sessions between any two of their steps.  Every execution is shown
    to be a run of the machine of PoolMachine, whose theorems therefore hold of it at every point, and to get as
    far as the others let it: a call that is not through has tried a held mutex `patience` times.  What Range
    shows, where OpenStream fails and what a dial brings are parameters. */
module PoolProgram {
  import opened Prelude
  import opened PoolMachine

  /** Step i of the run is the check of call t in openStream. */
  ghost predicate ChecksAt(s: State, ls: seq<Label>, i: nat, t: nat) {
    && i < |ls| && ls[i] == Go(t) && Feasible(s, ls[..i])
    && Live(Exec(s, ls[..i]), t) && Exec(s, ls[..i]).calls[t].pc.Checking?
  }

  /** The number of streams that it finds. */
  ghost function FoundAt(s: State, ls: seq<Label>, i: nat, t: nat): nat
    requires ChecksAt(s, ls, i, t)
  {
    var e := Exec(s, ls[..i]);
    |e.sessions[e.calls[t].sid].streams|
  }

  lemma PrefixChecks(s: State, ls: seq<Label>, more: seq<Label>, i: nat, t: nat)
    requires ls <= more && ChecksAt(s, ls, i, t)
    ensures ChecksAt(s, more, i, t) && FoundAt(s, more, i, t) == FoundAt(s, ls, i, t)
  {
    assert more[..i] == ls[..i];
  }

  /** How often call t has tried a mutex in vain. */
  function Waits(ls: seq<Label>, t: nat): nat {
    if ls == [] then 0
    else Waits(ls[..|ls| - 1], t) + if ls[|ls| - 1] == Wait(t) then 1 else 0
  }

  lemma WaitsSnoc(ls: seq<Label>, l: Label, t: nat)
    ensures Waits(ls + [l], t) == Waits(ls, t) + if l == Wait(t) then 1 else 0
  {
    assert (ls + [l])[..|ls|] == ls;
  }

  /** Step i of the run ends the Range of call t, which has visited `seen`. */
  ghost predicate EndsRangeAt(s: State, ls: seq<Label>, i: nat, t: nat, seen: set<nat>) {
    && i < |ls| && ls[i] == EndRange(t) && Feasible(s, ls[..i])
    && t in Exec(s, ls[..i]).calls && Exec(s, ls[..i]).calls[t].pc == Ranging(seen)
  }

  lemma PrefixEnds(s: State, ls: seq<Label>, more: seq<Label>, i: nat, t: nat, seen: set<nat>)
    requires ls <= more && EndsRangeAt(s, ls, i, t, seen)
    ensures EndsRangeAt(s, more, i, t, seen)
  {
    assert more[..i] == ls[..i];
  }

  /** A session once stored or closed is so for good. */
  ghost predicate Older(s: State, s': State) {
    forall sid :: sid in s.sessions ==>
      && sid in s'.sessions && (s.sessions[sid].stored ==> s'.sessions[sid].stored)
      && (s.sessions[sid].closed ==> s'.sessions[sid].closed)
  }

  lemma StepOlder(s: State, l: Label)
    requires Enabled(s, l)
    ensures Older(s, Step(s, l))
  {
  }

  lemma {:induction false} RunOlder(s: State, ls: seq<Label>)
    requires Feasible(s, ls)
    ensures Older(s, Exec(s, ls))
    decreases |ls|
  {
    if ls != [] {
      StepOlder(s, ls[0]);
      RunOlder(Step(s, ls[0]), ls[1..]);
    }
  }

  lemma {:induction false} PrefixOlder(s: State, ls: seq<Label>, more: seq<Label>)
    requires ls <= more && Feasible(s, more)
    ensures Feasible(s, ls) && Older(Exec(s, ls), Exec(s, more))
    decreases |ls|
  {
    if ls == [] {
      RunOlder(s, more);
    } else {
      PrefixOlder(Step(s, ls[0]), ls[1..], more[1..]);
    }
  }

  lemma SameLimit(s: State, ls: seq<Label>)
    requires Init(s) && Feasible(s, ls)
    ensures Exec(s, ls).limit == s.limit
  {
    InitInv(s);
    RunInv(s, ls);
  }

  /** The step that decided the outcome of call t. */
  lemma Reason(s: State, ls: seq<Label>, t: nat) returns (i: nat)
    requires Init(s) && Feasible(s, ls) && t in Exec(s, ls).calls
    ensures Exec(s, ls).calls[t].pc.Got? ==>
              && i < |ls| && ls[i] == Go(t) && Feasible(s, ls[..i]) && BeingServed(Exec(s, ls[..i]), t)
              && Exec(s, ls[..i]).calls[t].sid == Exec(s, ls).calls[t].sid
    ensures Exec(s, ls).calls[t].pc == Refused(TooMany) ==>
              && i < |ls| && ls[i] == Go(t) && Feasible(s, ls[..i])
              && HeldByOthers(Exec(s, ls[..i]), Exec(s, ls).calls[t].sid, t)
  {
    i := 0;
    InitInv(s);
    if Exec(s, ls).calls[t].pc.Got? {
      i := ServedOnce(s, ls, t);
    } else if Exec(s, ls).calls[t].pc == Refused(TooMany) {
      i := FreshRefusalNeedsOthers(s, ls, t);
    }
  }

  /** What came of one session of a search. */
  datatype Tried = Served | Unserved | StillWaiting

  class Pool {
    var state: State
    ghost const start: State
    ghost var trace: seq<Label>

    ghost predicate Valid()
      reads this
    {
      Init(start) && Feasible(start, trace) && state == Exec(start, trace)
    }

    constructor (limit: nat)
      requires limit >= 1
      ensures Valid() && state.limit == limit
    {
      var s := State(limit, map[], {}, map[]);
      state, start, trace := s, s, [];
    }

    /** The run has gone on from a trace seen before. */
    ghost predicate Grown(ls: seq<Label>, t: nat)
      reads this`trace
    {
      ls <= trace && Waits(trace, t) >= Waits(ls, t)
    }

    /** Enters the step just taken. */
    ghost method Log(l: Label)
      requires Init(start) && Feasible(start, trace)
      requires Enabled(Exec(start, trace), l) && state == Step(Exec(start, trace), l)
      modifies this`trace
      ensures Valid() && trace == old(trace) + [l]
      ensures forall t :: Waits(trace, t) == Waits(old(trace), t) + if l == Wait(t) then 1 else 0
    {
      ExtendRun(start, trace, l);
      forall t
        ensures Waits(trace + [l], t) == Waits(trace, t) + if l == Wait(t) then 1 else 0
      {
        WaitsSnoc(trace, l, t);
      }
      trace := trace + [l];
    }

    /** What other calls do meanwhile; a known call and its place are left alone. */
    method Interfere(t: nat)
      requires Valid()
      modifies this
      ensures Valid() && old(trace) <= trace && Waits(trace, t) == Waits(old(trace), t)
      ensures old(state.sessions.Keys) <= state.sessions.Keys
      ensures t in old(state.calls) ==> t in state.calls && state.calls[t] == old(state.calls)[t]
      ensures t !in old(state.calls) ==> t !in state.calls
    {
      var n: nat := *;
      while n > 0
        invariant Valid() && old(trace) <= trace && Waits(trace, t) == Waits(old(trace), t)
        invariant old(state.sessions.Keys) <= state.sessions.Keys
        invariant t in old(state.calls) ==> t in state.calls && state.calls[t] == old(state.calls)[t]
        invariant t !in old(state.calls) ==> t !in state.calls
      {
        var l: Label := *;
        if Enabled(state, l) && OfOthers(l, t) {
          state := Step(state, l);
          Log(l);
        }
        n := n - 1;
      }
    }

    /** Moves call t on, with its session as given. */
    method Move(t: nat, pc: Pc, x: Session)
      requires Valid() && Enabled(state, Go(t)) && !state.calls[t].pc.Storing? && !state.calls[t].pc.Deleting?
      requires var c := state.calls[t]; (pc, x) == Advance(c.pc, state.sessions[c.sid], t, c.stream, state.limit)
      modifies this
      ensures Valid() && trace == old(trace) + [Go(t)] && Waits(trace, t) == Waits(old(trace), t)
      ensures state.limit == old(state.limit) && state.sessions.Keys == old(state.sessions.Keys)
      ensures t in state.calls && state.calls[t] == old(state.calls)[t].(pc := pc)
    {
      var sid := state.calls[t].sid;
      state := Put(Goto(state, t, pc), sid, x);
      Log(Go(t));
    }

    /** mu.Lock, given up when it has been found held `patience` times. */
    method Lock(t: nat, inside: Pc, patience: nat) returns (locked: bool)
      requires Valid() && Live(state, t)
      requires var pc := state.calls[t].pc;
               (pc.Locking? && inside == Checking(pc.origin)) || (pc.IdleLocking? && inside == IdleChecking)
      modifies this
      ensures Valid() && Live(state, t) && Grown(old(trace), t)
      ensures state.calls[t] == if locked then old(state.calls[t]).(pc := inside) else old(state.calls[t])
      ensures !locked ==> Waits(trace, t) == Waits(old(trace), t) + patience
    {
      var n := patience;
      while true
        invariant Valid() && Live(state, t) && state.calls[t] == old(state.calls[t])
        invariant Grown(old(trace), t)
        invariant 0 <= n <= patience && Waits(trace, t) == Waits(old(trace), t) + patience - n
        decreases n
      {
        Interfere(t);
        var x := state.sessions[state.calls[t].sid];
        if x.holder.None? {
          Move(t, inside, x.(holder := Some(t)));
          return true;
        }
        if n == 0 {
          return false;
        }
        Log(Wait(t));
        n := n - 1;
      }
    }

    /** muxSession.openStream; None when it still waits for the mutex.  `check` is the step that tests the
        limit. */
    method OpenStream(t: nat, broken: set<nat>, patience: nat) returns (r: Option<Verdict>, ghost check: nat)
      requires Valid() && Live(state, t) && state.calls[t].pc.Locking?
      modifies this
      ensures Valid() && Live(state, t) && Grown(old(trace), t)
      ensures r.None? ==> Waits(trace, t) == Waits(old(trace), t) + patience
      ensures r.Some? ==>
                && state.calls[t] == old(state.calls[t]).(pc := AfterOpen(old(state.calls[t].pc.origin), r.value))
                && ChecksAt(start, trace, check, t)
                && (r == Some(TooMany) <==> FoundAt(start, trace, check, t) >= start.limit)
      ensures r == Some(Opened) ==> old(state.calls[t]).sid !in broken
      ensures r == Some(Failed) ==>
                old(state.calls[t]).sid in broken || state.sessions[old(state.calls[t]).sid].closed
    {
      var origin := state.calls[t].pc.origin;
      check := 0;
      var locked := Lock(t, Checking(origin), patience);
      if !locked {
        return None, check;
      }
      Interfere(t);
      var sid := state.calls[t].sid;
      var v: Verdict;
      ghost var found := trace;
      assert found[..|found|] == found;
      check := |found|;
      SameLimit(start, found);
      if |state.sessions[sid].streams| >= state.limit {
        v := TooMany;
        Move(t, Leaving(origin, v), state.sessions[sid]);
        assert trace[..check] == found;
      } else {
        Move(t, Opening(origin), state.sessions[sid]);
        assert trace[..check] == found;
        found := trace;
        v := OpenChecked(t, broken);
        PrefixChecks(start, found, trace, check, t);
      }
      found := trace;
      Unlock(t);
      PrefixChecks(start, found, trace, check, t);
      PrefixOlder(start, found, trace);
      return Some(v), check;
    }

    /** The deferred mu.Unlock of openStream. */
    method Unlock(t: nat)
      requires Valid() && Live(state, t) && state.calls[t].pc.Leaving?
      modifies this
      ensures Valid() && Live(state, t) && Grown(old(trace), t)
      ensures var pc := old(state.calls[t].pc); state.calls[t] == old(state.calls[t]).(pc := AfterOpen(pc.origin, pc.v))
    {
      Interfere(t);
      var c := state.calls[t];
      Move(t, AfterOpen(c.pc.origin, c.pc.v), state.sessions[c.sid].(holder := None));
    }

    /** The library's OpenStream. */
    method OpenChecked(t: nat, broken: set<nat>) returns (v: Verdict)
      requires Valid() && Live(state, t) && state.calls[t].pc.Opening?
      modifies this
      ensures Valid() && Live(state, t) && Grown(old(trace), t) && !v.TooMany?
      ensures state.calls[t] == old(state.calls[t]).(pc := Leaving(old(state.calls[t].pc.origin), v))
      ensures v.Opened? ==> state.calls[t].sid !in broken
      ensures v.Failed? ==> state.calls[t].sid in broken || state.sessions[state.calls[t].sid].closed
    {
      Interfere(t);
      var origin, sid := state.calls[t].pc.origin, state.calls[t].sid;
      var x := state.sessions[sid];
      if x.closed {
        v := Failed;
        ghost var before := trace;
        Move(t, Leaving(origin, v), x);
        PrefixOlder(start, before, trace);
      } else if sid in broken {
        v := Failed;
        state := Goto(state, t, Leaving(origin, v));
        Log(OpenFails(t));
      } else {
        v := Opened;
        Move(t, Leaving(origin, v), x.(streams := x.streams + {t}));
      }
    }

    /** The pool's Delete. */
    method Delete(t: nat)
      requires Valid() && Live(state, t) && state.calls[t].pc.Deleting?
      modifies this
      ensures Valid() && Live(state, t) && Grown(old(trace), t)
      ensures state.calls[t] == old(state.calls[t]).(pc := Ranging(old(state.calls[t].pc.visited)))
      ensures state.calls[t].sid !in state.pool
    {
      Interfere(t);
      var sid := state.calls[t].sid;
      state := Goto(state, t, Ranging(state.calls[t].pc.visited)).(pool := state.pool - {sid});
      assert state.sessions[sid := state.sessions[sid]] == state.sessions;
      Log(Go(t));
    }

    /** Begins with one session of the search. */
    method Meet(t: nat, sid: nat)
      requires Valid() && Enabled(state, Visit(t, sid))
      modifies this
      ensures Valid() && Live(state, t) && Grown(old(trace), t)
      ensures state.calls[t] == Call(Probing(old(state.calls[t].pc.visited) + {sid}), sid, 0)
    {
      state := state.(calls := state.calls[t := Call(Probing(state.calls[t].pc.visited + {sid}), sid, 0)]);
      Log(Visit(t, sid));
      Interfere(t);
    }

    /** One session of the search. */
    method Try(t: nat, sid: nat, broken: set<nat>, patience: nat) returns (tried: Tried)
      requires Valid() && Enabled(state, Visit(t, sid))
      modifies this
      ensures Valid() && Live(state, t) && Grown(old(trace), t)
      ensures tried.StillWaiting? ==> Waits(trace, t) >= Waits(old(trace), t) + patience
      ensures tried.Served? ==> state.calls[t] == Call(Got, sid, 0) && sid !in broken
      ensures tried.Unserved? ==> state.calls[t].pc == Ranging(old(state.calls[t].pc.visited) + {sid})
    {
      ghost var visited := state.calls[t].pc.visited + {sid};
      Meet(t, sid);
      if state.sessions[sid].closed {
        Move(t, Deleting(state.calls[t].pc.visited), state.sessions[sid]);
        Delete(t);
        return Unserved;
      }
      Move(t, Locking(Pooled(state.calls[t].pc.visited)), state.sessions[sid]);
      var er, _ := OpenStream(t, broken, patience);
      if er == None {
        return StillWaiting;
      }
      if er == Some(TooMany) {
        return Unserved;
      }
      if er == Some(Failed) {
        Delete(t);
        return Unserved;
      }
      return Served;
    }

    /** Range over the sessions shown, until one has served the call. */
    method Search(t: nat, shown: seq<nat>, broken: set<nat>, patience: nat) returns (tried: Tried)
      requires Valid() && Live(state, t) && state.calls[t].pc.Ranging?
      modifies this
      ensures Valid() && Live(state, t) && Grown(old(trace), t)
      ensures tried.StillWaiting? ==> Waits(trace, t) >= Waits(old(trace), t) + patience
      ensures tried.Served? ==>
                state.calls[t].pc.Got? && state.calls[t].sid in shown && state.calls[t].sid !in broken
      ensures tried.Unserved? ==>
                && state.calls[t].pc.Ranging?
                && forall sid :: sid in shown && sid in old(state.sessions) && old(state.sessions)[sid].stored ==>
                     sid in state.calls[t].pc.visited
    {
      tried := Unserved;
      var i := 0;
      while i < |shown| && tried == Unserved
        invariant i <= |shown| && Valid() && Live(state, t) && Grown(old(trace), t)
        invariant tried.StillWaiting? ==> Waits(trace, t) >= Waits(old(trace), t) + patience
        invariant tried.Served? ==>
                    state.calls[t].pc.Got? && state.calls[t].sid in shown && state.calls[t].sid !in broken
        invariant tried.Unserved? ==>
                    && state.calls[t].pc.Ranging?
                    && forall j :: 0 <= j < i && shown[j] in old(state.sessions) && old(state.sessions)[shown[j]].stored
                                   ==> shown[j] in state.calls[t].pc.visited
      {
        Interfere(t);
        PrefixOlder(start, old(trace), trace);
        if Enabled(state, Visit(t, shown[i])) {
          tried := Try(t, shown[i], broken, patience);
        }
        i := i + 1;
      }
    }

    /** getMuxStream, when Range shows the sessions `shown` and OpenStream fails on open sessions of `broken`;
        a dial brings session `dialed`, or fails when that is not a new one.  `finished` is false when the call
        still waits for a mutex; `why` is the step that decided, the opening of its stream or the check that found
        the dialed session full, and `ended` the end of a search without success, with the sessions seen. */
    method GetMuxStream(t: nat, shown: seq<nat>, broken: set<nat>, dialed: nat, patience: nat)
      returns (finished: bool, ghost why: nat, ghost ended: Option<(nat, set<nat>)>)
      requires Valid() && t !in state.calls
      modifies this
      ensures Valid() && Live(state, t) && old(trace) <= trace
      ensures !finished ==> Waits(trace, t) >= Waits(old(trace), t) + patience
      ensures finished ==> state.calls[t].pc in {Got, Refused(TooMany), Refused(Failed), NoDial}
      ensures finished && ended.None? ==>
                state.calls[t].pc.Got? && state.calls[t].sid in shown && state.calls[t].sid !in broken
      ensures ended.Some? ==>
                && EndsRangeAt(start, trace, ended.value.0, t, ended.value.1)
                && forall sid :: sid in shown && sid in old(state.sessions) && old(state.sessions)[sid].stored ==>
                     sid in ended.value.1
      ensures finished && ended.Some? ==>
                match state.calls[t].pc {
                  case NoDial => dialed in state.sessions
                  case Got => state.calls[t].sid == dialed && dialed !in broken
                  case Refused(v) =>
                    && state.calls[t].sid == dialed && dialed in state.sessions
                    && (v.Failed? ==> dialed in broken || state.sessions[dialed].closed)
                  case _ => false
                }
      ensures state.calls[t].pc.Got? ==>
                && why < |trace| && trace[why] == Go(t) && Feasible(start, trace[..why])
                && BeingServed(Exec(start, trace[..why]), t)
                && Exec(start, trace[..why]).calls[t].sid == state.calls[t].sid
      ensures state.calls[t].pc == Refused(TooMany) ==>
                && why < |trace| && trace[why] == Go(t) && Feasible(start, trace[..why])
                && HeldByOthers(Exec(start, trace[..why]), state.calls[t].sid, t)
      ensures forall sid :: sid in state.sessions ==> |state.sessions[sid].streams| <= start.limit
    {
      state := state.(calls := state.calls[t := Call(Ranging({}), 0, 0)]);
      Log(StartGet(t));
      ended := None;
      var tried := Search(t, shown, broken, patience);
      finished := tried.Served?;
      if tried == Unserved {
        finished, ended := DialAndOpen(t, broken, dialed, patience);
      }
      why := Reason(start, trace, t);
      forall sid | sid in state.sessions
        ensures |state.sessions[sid].streams| <= start.limit
      {
        CapacityNeverExceeded(start, trace, sid);
      }
    }

    /** The end of a search without success. */
    method EndSearch(t: nat) returns (ghost ended: Option<(nat, set<nat>)>)
      requires Valid() && Live(state, t) && state.calls[t].pc.Ranging?
      modifies this
      ensures Valid() && Live(state, t) && Grown(old(trace), t) && state.calls[t].pc.Dialing?
      ensures ended.Some? && ended.value.1 == old(state.calls[t].pc.visited)
      ensures EndsRangeAt(start, trace, ended.value.0, t, ended.value.1)
    {
      Interfere(t);
      ghost var before := trace;
      assert before[..|before|] == before;
      ended := Some((|before|, state.calls[t].pc.visited));
      state := Goto(state, t, Dialing);
      Log(EndRange(t));
      assert trace[..|before|] == before;
    }

    /** dialNewSmuxSess, and the pool's Store of the session that it brings. */
    method DialSession(t: nat, dialed: nat) returns (ok: bool)
      requires Valid() && Live(state, t) && state.calls[t].pc.Dialing?
      modifies this
      ensures Valid() && Live(state, t) && Grown(old(trace), t) && dialed in state.sessions
      ensures if ok then state.calls[t] == Call(Locking(Fresh), dialed, 0) else state.calls[t].pc.NoDial?
    {
      Interfere(t);
      if dialed in state.sessions {
        state := Goto(state, t, NoDial);
        Log(DialFails(t));
        return false;
      }
      state := Put(state.(calls := state.calls[t := Call(Storing, dialed, 0)]), dialed, NEW_SESSION);
      Log(DialOk(t, dialed));
      Store(t);
      return true;
    }

    /** The part of getMuxStream after a search without success. */
    method DialAndOpen(t: nat, broken: set<nat>, dialed: nat, patience: nat)
      returns (finished: bool, ghost ended: Option<(nat, set<nat>)>)
      requires Valid() && Live(state, t) && state.calls[t].pc.Ranging?
      modifies this
      ensures Valid() && Live(state, t) && Grown(old(trace), t)
      ensures ended.Some? && ended.value.1 == old(state.calls[t].pc.visited)
      ensures EndsRangeAt(start, trace, ended.value.0, t, ended.value.1)
      ensures !finished ==> Waits(trace, t) >= Waits(old(trace), t) + patience
      ensures finished ==>
                match state.calls[t].pc {
                  case NoDial => dialed in state.sessions
                  case Got => state.calls[t].sid == dialed && dialed !in broken
                  case Refused(v) =>
                    && state.calls[t].sid == dialed && dialed in state.sessions && !v.Opened?
                    && (v.Failed? ==> dialed in broken || state.sessions[dialed].closed)
                  case _ => false
                }
    {
      ended := EndSearch(t);
      ghost var before := trace;
      var ok := DialSession(t, dialed);
      finished := true;
      if ok {
        var r, _ := OpenStream(t, broken, patience);
        finished := r.Some?;
      }
      PrefixEnds(start, before, trace, ended.value.0, t, ended.value.1);
    }

    /** The pool's Store. */
    method Store(t: nat)
      requires Valid() && Live(state, t) && state.calls[t].pc.Storing?
      modifies this
      ensures Valid() && Live(state, t) && Grown(old(trace), t)
      ensures state.calls[t] == old(state.calls[t]).(pc := Locking(Fresh)) && state.calls[t].sid in state.pool
    {
      Interfere(t);
      var sid := state.calls[t].sid;
      var x := state.sessions[sid].(stored := true);
      state := Put(Goto(state, t, Locking(Fresh)), sid, x).(pool := state.pool + {sid});
      Log(Go(t));
    }

    /** muxStream.Close of the stream that call k opened. */
    method CloseStream(t: nat, k: nat, patience: nat) returns (finished: bool)
      requires Valid() && Enabled(state, StartClose(t, k))
      modifies this
      ensures Valid() && Live(state, t) && Grown(old(trace), t)
      ensures finished ==> state.calls[t].pc.Closed?
      ensures !finished ==> Waits(trace, t) == Waits(old(trace), t) + patience
      ensures Gone(state, k) || exists u :: u != t && TakesOff(state, u, k)
    {
      state := state.(calls := state.calls[t := Call(Dropping, state.calls[k].sid, k)]);
      Log(StartClose(t, k));
      DropStream(t);
      finished := CloseIfIdle(t, patience);
      CloseTakesOff(start, trace, t);
    }

    /** The library's Stream.Close: the first one takes the stream off, a later one returns at once, as any does
        when the session has closed its streams. */
    method DropStream(t: nat)
      requires Valid() && Live(state, t) && state.calls[t].pc.Dropping?
      modifies this
      ensures Valid() && Live(state, t) && Grown(old(trace), t)
      ensures state.calls[t] == old(state.calls[t]).(pc := IdleLocking) && Waits(trace, t) == Waits(old(trace), t)
    {
      Interfere(t);
      var sid, k := state.calls[t].sid, state.calls[t].stream;
      var told: bool := *;
      if Begun(state, k) || (told && state.sessions[sid].closed) {
        state := Goto(state, t, IdleLocking);
        Log(Repeat(t));
        return;
      }
      Move(t, Removing, state.sessions[sid]);
      Interfere(t);
      Move(t, IdleLocking, state.sessions[sid].(streams := state.sessions[sid].streams - {k}));
    }

    /** muxSession.tryCloseOnIdle. */
    method CloseIfIdle(t: nat, patience: nat) returns (finished: bool)
      requires Valid() && Live(state, t) && state.calls[t].pc.IdleLocking?
      modifies this
      ensures Valid() && Live(state, t) && Grown(old(trace), t)
      ensures state.calls[t] == old(state.calls[t]).(pc := if finished then Closed else IdleLocking)
      ensures !finished ==> Waits(trace, t) == Waits(old(trace), t) + patience
    {
      var locked := Lock(t, IdleChecking, patience);
      if !locked {
        return false;
      }
      CloseOrLeave(t);
      Interfere(t);
      Move(t, Closed, state.sessions[state.calls[t].sid].(holder := None));
      return true;
    }

    /** Its part with the mutex held. */
    method CloseOrLeave(t: nat)
      requires Valid() && Live(state, t) && state.calls[t].pc.IdleChecking?
      modifies this
      ensures Valid() && Live(state, t) && Grown(old(trace), t)
      ensures state.calls[t] == old(state.calls[t]).(pc := IdleLeaving)
    {
      Interfere(t);
      var sid := state.calls[t].sid;
      if state.sessions[sid].streams == {} {
        Move(t, IdleClosing, state.sessions[sid]);
        Interfere(t);
        Move(t, IdleLeaving, Kill(state.sessions[sid]));
      } else {
        Move(t, IdleLeaving, state.sessions[sid]);
      }
    }
  }
}

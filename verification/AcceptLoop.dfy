/** handleClientMuxConn (internal/core/common.go) as the program writes it, one loop with early returns, run
    while frames arrive, handlers close and the session may die between any two of its steps.  Every execution
    is shown to be a run of the machine of MuxAgreement, whose theorems therefore hold of it at every point, and
    to end for one of the program's reasons only.  Where AcceptStream fails is a parameter. */
module AcceptLoop {
  import opened Prelude
  import opened MuxAgreement

  /** How many streams the accept loop hands out in a run. */
  ghost function HandOuts(s: State, ls: seq<Label>): nat
    requires Feasible(s, ls)
    decreases |ls|
  {
    if ls == [] then 0
    else (if ls[0].Go? && s.pc.HandingOut? then 1 else 0) + HandOuts(Step(s, ls[0]), ls[1..])
  }

  lemma {:induction false} HandOutsSnoc(s: State, ls: seq<Label>, l: Label)
    requires Feasible(s, ls) && Enabled(Exec(s, ls), l)
    ensures Feasible(s, ls + [l]) && Exec(s, ls + [l]) == Step(Exec(s, ls), l)
    ensures HandOuts(s, ls + [l]) == HandOuts(s, ls) + if l.Go? && Exec(s, ls).pc.HandingOut? then 1 else 0
    decreases |ls|
  {
    if ls == [] {
      assert [l][1..] == [] && ls + [l] == [l];
      assert HandOuts(Step(s, l), []) == 0;
    } else {
      assert (ls + [l])[1..] == ls[1..] + [l];
      HandOutsSnoc(Step(s, ls[0]), ls[1..], l);
    }
  }

  class Server {
    var state: State
    ghost const start: State
    ghost var trace: seq<Label>

    /** The state is what the machine reaches by the steps taken so far. */
    ghost predicate Valid()
      reads this
    {
      Init(start) && Feasible(start, trace) && state == Exec(start, trace)
    }

    /** The streams handed out so far. */
    ghost function HandedOut(): nat
      requires Valid()
      reads this
    {
      HandOuts(start, trace)
    }

    /** The last step, and the state it was taken in. */
    ghost predicate EndedBy(l: Label, s: State)
      reads this
    {
      && trace != [] && trace[|trace| - 1] == l
      && Feasible(start, trace[..|trace| - 1]) && Exec(start, trace[..|trace| - 1]) == s
    }

    /** A connection from a client with limit `limit` to a server with limit `maxStream`. */
    constructor (limit: nat, maxStream: nat)
      ensures Valid() && start.limit == limit && start.max == maxStream && state.pc == Polling
    {
      var s := State(limit, maxStream, {}, 0, {}, [], [], false, {}, {}, 0, [], {}, {}, Polling);
      state, start, trace := s, s, [];
    }

    /** Enters the step just taken. */
    ghost method Log(l: Label)
      requires Init(start) && Feasible(start, trace)
      requires Enabled(Exec(start, trace), l) && state == Step(Exec(start, trace), l)
      modifies this`trace
      ensures Valid() && EndedBy(l, Exec(start, old(trace)))
      ensures HandedOut() == HandOuts(start, old(trace)) +
                             if l.Go? && Exec(start, old(trace)).pc.HandingOut? then 1 else 0
    {
      HandOutsSnoc(start, trace, l);
      assert (trace + [l])[..|trace|] == trace;
      trace := trace + [l];
    }

    /** What the client, the network and the handlers do meanwhile. */
    method Interfere()
      requires Valid()
      modifies this
      ensures Valid() && state.pc == old(state.pc) && state.max == old(state.max) && HandedOut() == old(HandedOut())
    {
      var n: nat := *;
      while n > 0
        invariant Valid() && state.pc == old(state.pc) && state.max == old(state.max)
        invariant HandedOut() == old(HandedOut())
      {
        var l: Label := *;
        if Enabled(state, l) && !l.Go? && !l.AcceptFails? {
          state := Step(state, l);
          Log(l);
        }
        n := n - 1;
      }
    }

    /** AcceptStream: an error, or the first stream of the queue.  It fails when the library does, and where the
        program would wait for ever. */
    method AcceptStream(fails: bool) returns (stream: Option<nat>)
      requires Valid() && state.pc == Accepting
      modifies this
      ensures Valid() && HandedOut() == old(HandedOut()) && state.max == old(state.max)
      ensures stream == if fails || old(state.queue) == [] then None else Some(old(state.queue)[0])
      ensures state.pc == if stream.Some? then Testing(stream.value) else Returned(false)
      ensures stream.None? ==> EndedBy(AcceptFails, old(state))
    {
      if fails || state.queue == [] {
        state := state.(pc := Returned(false));
        Log(AcceptFails);
        return None;
      }
      stream := Some(state.queue[0]);
      state := state.(queue := state.queue[1..], pc := Testing(stream.value));
      Log(Go);
    }

    /** One call of AcceptStream for each element of `failing`, which says whether the library fails it, unless the
        loop returns before.  It goes round until then: left at the top it has handed out a stream in every round,
        and it returns only if it polled a dead session, AcceptStream failed, or it counted too many streams. */
    method HandleClientMuxConn(failing: seq<bool>) returns (tripped: bool)
      requires Valid() && state.pc == Polling
      modifies this
      ensures Valid() && (state.pc == Polling || state.pc == Returned(tripped))
      ensures |state.handled| <= if state.dead then start.max + 1 else start.max
      ensures state.pc == Polling ==> !tripped && HandedOut() == old(HandedOut()) + |failing|
      ensures state.pc == Returned(false) ==>
                var i := HandedOut() - old(HandedOut());
                || (exists s :: EndedBy(Go, s) && s.pc == Polling && s.dead)
                || (exists s :: EndedBy(AcceptFails, s) && (s.queue == [] || (0 <= i < |failing| && failing[i])))
      ensures tripped ==> exists s :: EndedBy(Go, s) && s.pc.Testing? && !s.dead && |s.table| > start.max
    {
      tripped := false;
      RunLimit(start, trace);
      var i := 0;
      while i < |failing|
        invariant i <= |failing| && Valid() && state.pc == Polling && !tripped && state.max == start.max
        invariant HandedOut() == old(HandedOut()) + i
      {
        Interfere();
        if state.dead {
          ghost var s := state;
          state := state.(pc := Returned(false));
          Log(Go);
          assert EndedBy(Go, s);
          break;
        }
        state := state.(pc := Accepting);
        Log(Go);
        Interfere();
        ghost var s := state;
        var stream := AcceptStream(failing[i]);
        if stream.None? {
          assert EndedBy(AcceptFails, s);
          break;
        }
        Interfere();
        if NumStreams(state) > state.max {
          s := state;
          state := state.(leaving := state.leaving + {stream.value}, toClient := state.toClient + [stream.value]);
          tripped := true;
          state := state.(pc := Returned(true));
          Log(Go);
          assert EndedBy(Go, s);
          break;
        }
        state := state.(pc := HandingOut(stream.value));
        Log(Go);
        Interfere();
        state := state.(handled := state.handled + {stream.value}, pc := Polling);
        Log(Go);
        i := i + 1;
      }
      HandlerBound(start, trace);
    }
  }
}

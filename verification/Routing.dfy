/** The multi-user server's routing table (internal/core/multi_user_http_mux.go) and the commands that change
    it (internal/core/multi_user_server.go). */
module Routing {
  import opened Prelude

  datatype Args = Args(path: string, dst: string)

  /** MUCmd: Opt 1 adds, 2 deletes, 3 resets, 9 pings. */
  datatype Command = Command(opt: int, args: seq<Args>)

  const OPT_ADD := 1
  const OPT_DEL := 2
  const OPT_RESET := 3
  const OPT_PING := 9

  const RES_OK := 1
  const RES_ERR := 2

  datatype Response = Response(res: int, currentUsers: nat, errString: string)

  /** A control request as far as the controller gets with it: the wrong method, a body that cannot be read or is
      too large or is not a command, or a command. */
  datatype Request = WrongMethod | BadBody | Decoded(cmd: Command)

  type Table = map<string, string>

  // ---- what a command does to the table --------------------------------------------------------------

  /** The table after the first entries of a batch. */
  function AddAll(t: Table, a: seq<Args>): Table {
    if a == [] then t
    else var last := a[|a| - 1]; AddAll(t, a[..|a| - 1])[last.path := last.dst]
  }

  function DelAll(t: Table, a: seq<Args>): Table {
    if a == [] then t else DelAll(t, a[..|a| - 1]) - {a[|a| - 1].path}
  }

  function Apply(t: Table, c: Command): Table {
    if c.opt == OPT_ADD then AddAll(t, c.args)
    else if c.opt == OPT_DEL then DelAll(t, c.args)
    else if c.opt == OPT_RESET then map[]
    else t
  }

  /** The table after a sequence of commands. */
  function TableAfter(log: seq<Command>): Table {
    if log == [] then map[] else Apply(TableAfter(log[..|log| - 1]), log[|log| - 1])
  }

  function Lookup(t: Table, path: string): Option<string> {
    if path in t then Some(t[path]) else None
  }

  // ---- what a batch does, entry by entry -------------------------------------------------------------

  lemma {:induction false} AddedElsewhere(t: Table, a: seq<Args>, p: string)
    requires forall j :: 0 <= j < |a| ==> a[j].path != p
    ensures (p in AddAll(t, a) <==> p in t) && (p in t ==> AddAll(t, a)[p] == t[p])
  {
    if a != [] {
      AddedElsewhere(t, a[..|a| - 1], p);
    }
  }

  lemma {:induction false} AddedAt(t: Table, a: seq<Args>, i: nat)
    requires i < |a| && forall j :: i < j < |a| ==> a[j].path != a[i].path
    ensures a[i].path in AddAll(t, a) && AddAll(t, a)[a[i].path] == a[i].dst
  {
    if i < |a| - 1 {
      AddedAt(t, a[..|a| - 1], i);
    }
  }

  lemma AddedBatch(t: Table, a: seq<Args>)
    ensures forall i :: 0 <= i < |a| && (forall j :: i < j < |a| ==> a[j].path != a[i].path) ==>
              a[i].path in AddAll(t, a) && AddAll(t, a)[a[i].path] == a[i].dst
    ensures forall p :: (forall j :: 0 <= j < |a| ==> a[j].path != p) ==>
              (p in AddAll(t, a) <==> p in t) && (p in t ==> AddAll(t, a)[p] == t[p])
  {
    forall i | 0 <= i < |a| && forall j :: i < j < |a| ==> a[j].path != a[i].path
      ensures a[i].path in AddAll(t, a) && AddAll(t, a)[a[i].path] == a[i].dst
    {
      AddedAt(t, a, i);
    }
    forall p | forall j :: 0 <= j < |a| ==> a[j].path != p
      ensures (p in AddAll(t, a) <==> p in t) && (p in t ==> AddAll(t, a)[p] == t[p])
    {
      AddedElsewhere(t, a, p);
    }
  }

  lemma {:induction false} DeletedElsewhere(t: Table, a: seq<Args>, p: string)
    ensures p in DelAll(t, a) <==> p in t && forall j :: 0 <= j < |a| ==> a[j].path != p
    ensures p in DelAll(t, a) ==> DelAll(t, a)[p] == t[p]
  {
    if a != [] {
      var n := |a| - 1;
      DeletedElsewhere(t, a[..n], p);
      assert (forall j :: 0 <= j < |a| ==> a[j].path != p)
          <==> a[n].path != p && forall j :: 0 <= j < n ==> a[..n][j].path != p;
    }
  }

  lemma DeletedBatch(t: Table, a: seq<Args>)
    ensures forall i :: 0 <= i < |a| ==> a[i].path !in DelAll(t, a)
    ensures forall p :: (forall j :: 0 <= j < |a| ==> a[j].path != p) ==>
              (p in DelAll(t, a) <==> p in t) && (p in t ==> DelAll(t, a)[p] == t[p])
  {
    forall p
      ensures p in DelAll(t, a) <==> p in t && forall j :: 0 <= j < |a| ==> a[j].path != p
      ensures p in DelAll(t, a) ==> DelAll(t, a)[p] == t[p]
    {
      DeletedElsewhere(t, a, p);
    }
  }

  // ---- the table as the program keeps it -------------------------------------------------------------

  class Mux {
    var pathMap: Table

    constructor ()
      ensures pathMap == map[]
    {
      pathMap := map[];
    }

    /** Of several entries for one path the last one wins; other paths keep their destination. */
    method Add(a: seq<Args>)
      modifies this
      ensures pathMap == AddAll(old(pathMap), a)
      ensures forall i :: 0 <= i < |a| && (forall j :: i < j < |a| ==> a[j].path != a[i].path) ==>
                a[i].path in pathMap && pathMap[a[i].path] == a[i].dst
      ensures forall p :: (forall j :: 0 <= j < |a| ==> a[j].path != p) ==>
                (p in pathMap <==> p in old(pathMap)) && (p in pathMap ==> pathMap[p] == old(pathMap)[p])
    {
      var i := 0;
      while i < |a|
        invariant 0 <= i <= |a| && pathMap == AddAll(old(pathMap), a[..i])
      {
        pathMap := pathMap[a[i].path := a[i].dst];
        i := i + 1;
        assert a[..i][..i - 1] == a[..i - 1];
      }
      assert a[..i] == a;
      AddedBatch(old(pathMap), a);
    }

    /** The paths of the batch are gone, whether they were there or not; other paths stay. */
    method Del(a: seq<Args>)
      modifies this
      ensures pathMap == DelAll(old(pathMap), a)
      ensures forall i :: 0 <= i < |a| ==> a[i].path !in pathMap
      ensures forall p :: (forall j :: 0 <= j < |a| ==> a[j].path != p) ==>
                (p in pathMap <==> p in old(pathMap)) && (p in pathMap ==> pathMap[p] == old(pathMap)[p])
    {
      var i := 0;
      while i < |a|
        invariant 0 <= i <= |a| && pathMap == DelAll(old(pathMap), a[..i])
      {
        pathMap := pathMap - {a[i].path};
        i := i + 1;
        assert a[..i][..i - 1] == a[..i - 1];
      }
      assert a[..i] == a;
      DeletedBatch(old(pathMap), a);
    }

    method Reset()
      modifies this
      ensures pathMap == map[]
    {
      pathMap := map[];
    }

    method Get(path: string) returns (r: Option<string>)
      ensures r == Lookup(pathMap, path)
    {
      r := if path in pathMap then Some(pathMap[path]) else None;
    }

    method Len() returns (n: nat)
      ensures n == |pathMap|
    {
      n := |pathMap|;
    }
  }

  /** The controller of a server. */
  class MUServer {
    const mux: Mux
    ghost var log: seq<Command>  // the commands handled so far

    ghost predicate Valid()
      reads this, mux
    {
      mux.pathMap == TableAfter(log)
    }

    constructor ()
      ensures Valid() && log == []
    {
      mux := new Mux();
      log := [];
    }

    /** A request without a command gets no answer and changes nothing.  An add (1) or delete (2) without
        entries and any other option than these, reset (3) and ping (9) is answered with an error (2) and changes
        nothing; all others are answered with OK (1), and a ping with the number of paths. */
    method ServeHTTP(r: Request) returns (w: Option<Response>)
      requires Valid()
      modifies this, mux
      ensures Valid()
      ensures log == if r.Decoded? then old(log) + [r.cmd] else old(log)
      ensures !r.Decoded? ==> w == None && mux.pathMap == old(mux.pathMap)
      ensures r.Decoded? && (r.cmd.opt == 1 || r.cmd.opt == 2) && r.cmd.args == [] ==>
                w == Some(Response(2, 0, "empty args")) && mux.pathMap == old(mux.pathMap)
      ensures r.Decoded? && r.cmd.opt != 1 && r.cmd.opt != 2 && r.cmd.opt != 3 && r.cmd.opt != 9 ==>
                w == Some(Response(2, 0, "invalid opt")) && mux.pathMap == old(mux.pathMap)
      ensures r.Decoded? && r.cmd.opt == 1 && r.cmd.args != [] ==>
                var a := r.cmd.args;
                && w == Some(Response(1, 0, ""))
                && (forall i :: 0 <= i < |a| && (forall j :: i < j < |a| ==> a[j].path != a[i].path) ==>
                      a[i].path in mux.pathMap && mux.pathMap[a[i].path] == a[i].dst)
                && (forall p :: (forall j :: 0 <= j < |a| ==> a[j].path != p) ==>
                      && (p in mux.pathMap <==> p in old(mux.pathMap))
                      && (p in mux.pathMap ==> mux.pathMap[p] == old(mux.pathMap)[p]))
      ensures r.Decoded? && r.cmd.opt == 2 && r.cmd.args != [] ==>
                var a := r.cmd.args;
                && w == Some(Response(1, 0, ""))
                && (forall i :: 0 <= i < |a| ==> a[i].path !in mux.pathMap)
                && (forall p :: (forall j :: 0 <= j < |a| ==> a[j].path != p) ==>
                      && (p in mux.pathMap <==> p in old(mux.pathMap))
                      && (p in mux.pathMap ==> mux.pathMap[p] == old(mux.pathMap)[p]))
      ensures r.Decoded? && r.cmd.opt == 3 ==> w == Some(Response(1, 0, "")) && mux.pathMap == map[]
      ensures r.Decoded? && r.cmd.opt == 9 ==>
                && w == Some(Response(1, |old(mux.pathMap)|, "")) && mux.pathMap == old(mux.pathMap)
                && |old(mux.pathMap)| == |Routed(old(log))|
    {
      if !r.Decoded? {
        return None;
      }
      RoutedIsTable(log);
      ghost var before := log;
      var cmd := r.cmd;
      if cmd.opt == OPT_ADD {
        if |cmd.args| == 0 {
          w := Some(Response(RES_ERR, 0, "empty args"));
        } else {
          mux.Add(cmd.args);
          w := Some(Response(RES_OK, 0, ""));
        }
      } else if cmd.opt == OPT_DEL {
        if |cmd.args| == 0 {
          w := Some(Response(RES_ERR, 0, "empty args"));
        } else {
          mux.Del(cmd.args);
          w := Some(Response(RES_OK, 0, ""));
        }
      } else if cmd.opt == OPT_RESET {
        mux.Reset();
        w := Some(Response(RES_OK, 0, ""));
      } else if cmd.opt == OPT_PING {
        var n := mux.Len();
        w := Some(Response(RES_OK, n, ""));
      } else {
        w := Some(Response(RES_ERR, 0, "invalid opt"));
      }
      log := log + [cmd];
      assert log[..|before|] == before;
    }
  }

  // ---- the last mention of a path --------------------------------------------------------------------

  /** What the log says of a path last: added with a destination, removed, or nothing. */
  datatype Mention = Added(dst: string) | Removed | Never

  /** A scan of a batch from its end. */
  function InBatch(c: Command, path: string, n: nat): Mention
    requires n <= |c.args|
  {
    if n == 0 then Never
    else if c.args[n - 1].path == path then (if c.opt == OPT_ADD then Added(c.args[n - 1].dst) else Removed)
    else InBatch(c, path, n - 1)
  }

  function InCommand(c: Command, path: string): Mention {
    if c.opt == OPT_ADD || c.opt == OPT_DEL then InBatch(c, path, |c.args|)
    else if c.opt == OPT_RESET then Removed
    else Never
  }

  /** A scan of the log from its end. */
  function LastMention(log: seq<Command>, path: string): Mention {
    if log == [] then Never
    else match InCommand(log[|log| - 1], path) {
      case Never => LastMention(log[..|log| - 1], path)
      case m => m
    }
  }

  lemma {:induction false} AddMention(t: Table, c: Command, path: string, n: nat)
    requires c.opt == OPT_ADD && n <= |c.args|
    ensures Lookup(AddAll(t, c.args[..n]), path) ==
            match InBatch(c, path, n) case Added(d) => Some(d) case _ => Lookup(t, path)
    ensures !InBatch(c, path, n).Removed?
  {
    if n > 0 {
      assert c.args[..n][..n - 1] == c.args[..n - 1];
      AddMention(t, c, path, n - 1);
    }
  }

  lemma {:induction false} DelMention(t: Table, c: Command, path: string, n: nat)
    requires c.opt == OPT_DEL && n <= |c.args|
    ensures Lookup(DelAll(t, c.args[..n]), path) == if InBatch(c, path, n).Removed? then None else Lookup(t, path)
    ensures !InBatch(c, path, n).Added?
  {
    if n > 0 {
      assert c.args[..n][..n - 1] == c.args[..n - 1];
      DelMention(t, c, path, n - 1);
    }
  }

  /** After any sequence of commands, with duplicates within and across batches, a path leads to d if and only if
      a scan of the log from its end meets an add of that path with d before any other mention of the path and
      before any reset. */
  lemma {:induction false} LastMentionWins(log: seq<Command>, path: string)
    ensures Lookup(TableAfter(log), path) == match LastMention(log, path) case Added(d) => Some(d) case _ => None
  {
    if log != [] {
      var before, c := log[..|log| - 1], log[|log| - 1];
      LastMentionWins(before, path);
      assert c.args[..|c.args|] == c.args;
      if c.opt == OPT_ADD {
        AddMention(TableAfter(before), c, path, |c.args|);
      } else if c.opt == OPT_DEL {
        DelMention(TableAfter(before), c, path, |c.args|);
      }
    }
  }

  /** The paths the log mentions at all. */
  ghost function Mentioned(log: seq<Command>): set<string> {
    set i, j | 0 <= i < |log| && 0 <= j < |log[i].args| :: log[i].args[j].path
  }

  /** The paths whose last mention is an add. */
  ghost function Routed(log: seq<Command>): set<string> {
    set p | p in Mentioned(log) && LastMention(log, p).Added?
  }

  lemma {:induction false} BatchMentions(c: Command, path: string, n: nat)
    requires n <= |c.args| && !InBatch(c, path, n).Never?
    ensures exists j :: 0 <= j < |c.args| && c.args[j].path == path
  {
    if c.args[n - 1].path != path {
      BatchMentions(c, path, n - 1);
    }
  }

  lemma {:induction false} AddedIsMentioned(log: seq<Command>, path: string)
    requires LastMention(log, path).Added?
    ensures path in Mentioned(log)
  {
    var n := |log| - 1;
    if InCommand(log[n], path).Never? {
      AddedIsMentioned(log[..n], path);
      var i, j :| 0 <= i < n && 0 <= j < |log[..n][i].args| && log[..n][i].args[j].path == path;
      assert log[i] == log[..n][i];
    } else {
      BatchMentions(log[n], path, |log[n].args|);
    }
  }

  /** The keys of the table are the paths whose last mention is an add, so their number is what Ping reports. */
  lemma RoutedIsTable(log: seq<Command>)
    ensures Routed(log) == TableAfter(log).Keys && |Routed(log)| == |TableAfter(log)|
  {
    var t := TableAfter(log);
    forall p
      ensures p in Routed(log) <==> p in t
    {
      LastMentionWins(log, p);
      if LastMention(log, p).Added? { AddedIsMentioned(log, p); }
    }
  }

  // ---- the same without scans ------------------------------------------------------------------------

  /** Entry j of command i, an add, gives the path its destination d, and nothing behind it in the log mentions the
      path or resets the table. */
  ghost predicate LastAdd(log: seq<Command>, path: string, d: string, i: nat, j: nat) {
    && i < |log| && log[i].opt == 1 && j < |log[i].args| && log[i].args[j] == Args(path, d)
    && (forall k :: j < k < |log[i].args| ==> log[i].args[k].path != path)
    && (forall m :: i < m < |log| ==>
          && log[m].opt != 3
          && (log[m].opt == 1 || log[m].opt == 2 ==>
                forall k :: 0 <= k < |log[m].args| ==> log[m].args[k].path != path))
  }

  /** A command that does not mention the path leaves it alone. */
  lemma ApplyElsewhere(t: Table, c: Command, path: string)
    requires c.opt != 3
    requires c.opt == 1 || c.opt == 2 ==> forall k :: 0 <= k < |c.args| ==> c.args[k].path != path
    ensures (path in Apply(t, c) <==> path in t) && (path in t ==> Apply(t, c)[path] == t[path])
  {
    if c.opt == 1 {
      AddedElsewhere(t, c.args, path);
    } else if c.opt == 2 {
      DeletedElsewhere(t, c.args, path);
    }
  }

  lemma {:induction false} LastAddLeads(log: seq<Command>, path: string, d: string, i: nat, j: nat)
    requires LastAdd(log, path, d, i, j)
    ensures path in TableAfter(log) && TableAfter(log)[path] == d
  {
    var n := |log| - 1;
    if i == n {
      AddedAt(TableAfter(log[..n]), log[n].args, j);
    } else {
      LastAddLeads(log[..n], path, d, i, j);
      ApplyElsewhere(TableAfter(log[..n]), log[n], path);
    }
  }

  /** The last entry of a batch for a path it mentions. */
  lemma {:induction false} LastEntry(a: seq<Args>, path: string) returns (j: nat)
    requires exists k :: 0 <= k < |a| && a[k].path == path
    ensures j < |a| && a[j].path == path && forall k :: j < k < |a| ==> a[k].path != path
  {
    var n := |a| - 1;
    if a[n].path == path {
      j := n;
    } else {
      var k :| 0 <= k < |a| && a[k].path == path;
      assert a[..n][k].path == path;
      j := LastEntry(a[..n], path);
      assert forall m :: j < m < n ==> a[..n][m] == a[m];
    }
  }

  lemma {:induction false} LeadsByLastAdd(log: seq<Command>, path: string) returns (i: nat, j: nat)
    requires path in TableAfter(log)
    ensures LastAdd(log, path, TableAfter(log)[path], i, j)
  {
    var n := |log| - 1;
    var t, c := TableAfter(log[..n]), log[n];
    if c.opt == 1 && exists k :: 0 <= k < |c.args| && c.args[k].path == path {
      i := n;
      j := LastEntry(c.args, path);
      AddedAt(t, c.args, j);
    } else {
      if c.opt == 2 { DeletedElsewhere(t, c.args, path); }
      ApplyElsewhere(t, c, path);
      i, j := LeadsByLastAdd(log[..n], path);
      assert forall m :: i < m < n ==> log[..n][m] == log[m];
    }
  }

  /** A path leads to d after a sequence of commands if and only if one of them is an add with that entry for the
      path, and nothing after it, in its batch or in a later add, delete or reset, touches the path. */
  lemma LeadsIffLastAdd(log: seq<Command>, path: string, d: string)
    ensures path in TableAfter(log) && TableAfter(log)[path] == d <==> exists i, j :: LastAdd(log, path, d, i, j)
  {
    if path in TableAfter(log) {
      var i, j := LeadsByLastAdd(log, path);
    }
    forall i, j | LastAdd(log, path, d, i, j)
      ensures path in TableAfter(log) && TableAfter(log)[path] == d
    {
      LastAddLeads(log, path, d, i, j);
    }
  }
}

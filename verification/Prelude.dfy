/** Data types and counting facts shared by the other modules. */
module Prelude {

  datatype Option<+T> = None | Some(value: T)

  type Byte = b: int | 0 <= b < 256

  /** The errors a connection can hand to the tunnel.  `Eof` is Go's io.EOF, `ShortWrite` is
      io.ErrShortWrite, and `Fault` stands for every other error value. */
  datatype IoError = Eof | ShortWrite | Fault(code: int)

  function Min(a: nat, b: nat): nat {
    if a <= b then a else b
  }

  /** The concatenation of a sequence of byte strings. */
  function Flatten(parts: seq<seq<Byte>>): seq<Byte> {
    if parts == [] then [] else parts[0] + Flatten(parts[1..])
  }

  lemma {:induction false} FlattenAppend(xs: seq<seq<Byte>>, ys: seq<seq<Byte>>)
    ensures Flatten(xs + ys) == Flatten(xs) + Flatten(ys)
  {
    if xs == [] {
      assert xs + ys == ys;
    } else {
      assert (xs + ys)[1..] == xs[1..] + ys;
      FlattenAppend(xs[1..], ys);
    }
  }

  lemma {:induction false} SubsetCardinality<T>(a: set<T>, b: set<T>)
    requires a <= b
    ensures |a| <= |b|
  {
    if a != {} {
      var x :| x in a;
      SubsetCardinality(a - {x}, b - {x});
    }
  }

  /** Every member of the family `fam` indexed by `keys`. */
  ghost function Members(fam: map<nat, set<nat>>, keys: set<nat>): set<nat>
    requires keys <= fam.Keys
  {
    set k, x | k in keys && x in fam[k] :: x
  }

  ghost predicate Disjoint(fam: map<nat, set<nat>>) {
    forall j, k :: j in fam && k in fam && j != k ==> fam[j] !! fam[k]
  }

  lemma Multiply(m: nat, a: nat, b: nat)
    requires b == a + 1
    ensures m * b == m * a + m
  {
  }

  lemma MembersStep(fam: map<nat, set<nat>>, keys: set<nat>, k: nat)
    requires keys <= fam.Keys && Disjoint(fam) && k in keys
    ensures Members(fam, keys) == Members(fam, keys - {k}) + fam[k]
    ensures Members(fam, keys - {k}) !! fam[k]
  {
  }

  /** Disjoint blocks of at least `m` elements each cover at least `m` elements a block. */
  lemma {:induction false} BlocksCover(fam: map<nat, set<nat>>, keys: set<nat>, m: nat)
    requires keys <= fam.Keys && Disjoint(fam)
    requires forall k :: k in keys ==> |fam[k]| >= m
    ensures |Members(fam, keys)| >= m * |keys|
  {
    if keys != {} {
      var k :| k in keys;
      var rest := keys - {k};
      BlocksCover(fam, rest, m);
      MembersStep(fam, keys, k);
      Multiply(m, |rest|, |keys|);
    }
  }
}

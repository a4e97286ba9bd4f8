/** 64-bit ROM codes in the order in which the 1-Wire search reads them: byte 0 first, each byte from its
    lowest bit.  A ROM is the sequence of its bits in that order.
  */
module RomOrder {

  const BITS := 64

  type Rom = s: seq<bool> | |s| == 64 witness seq(64, _ => false)

  /** The two ROMs are the same up to bit `p`, where the first has 0 and the second 1. */
  predicate LessAt(x: Rom, y: Rom, p: nat) {
    p < BITS && x[..p] == y[..p] && !x[p] && y[p]
  }

  ghost predicate Less(x: Rom, y: Rom) {
    exists p :: LessAt(x, y, p)
  }

  lemma LessIsStrict(x: Rom, y: Rom)
    requires Less(x, y)
    ensures x != y && !Less(y, x)
  {
  }

  lemma LessTransitive(x: Rom, y: Rom, z: Rom)
    requires Less(x, y) && Less(y, z)
    ensures Less(x, z)
  {
    var p: nat :| LessAt(x, y, p);
    var q: nat :| LessAt(y, z, q);
    var m := if p < q then p else q;
    assert x[..m] == x[..p][..m] && y[..m] == y[..p][..m];
    assert y[..m] == y[..q][..m] && z[..m] == z[..q][..m];
    if p < q {
      assert y[..q][p] == z[..q][p];
    } else if q < p {
      assert x[..p][q] == y[..p][q];
    }
    assert LessAt(x, z, m);
  }

  // ----- Positions within a set of ROMs -----

  ghost predicate IsLeast(roms: set<Rom>, y: Rom) {
    y in roms && forall z :: z in roms ==> z == y || Less(y, z)
  }

  ghost predicate IsNext(roms: set<Rom>, x: Rom, y: Rom) {
    y in roms && Less(x, y) && forall z :: z in roms && Less(x, z) ==> z == y || Less(y, z)
  }

  ghost predicate IsLast(roms: set<Rom>, x: Rom) {
    x in roms && forall z :: z in roms ==> !Less(x, z)
  }

  /** At bit number `k`, counted from 1, `x` has 0 where another ROM with the same bits before has 1. */
  ghost predicate Fork(roms: set<Rom>, x: Rom, k: nat) {
    0 < k <= BITS && exists z :: z in roms && LessAt(x, z, k - 1)
  }

  /** The deepest fork of `x` among its first `n` bits; 0 if there is none. */
  ghost predicate IsJunction(roms: set<Rom>, x: Rom, d: nat, n: nat) {
    && d <= n <= BITS
    && (d > 0 ==> Fork(roms, x, d))
    && forall j :: d < j <= n ==> !Fork(roms, x, j)
  }

  lemma NoForkIsLast(roms: set<Rom>, x: Rom, d: nat)
    requires IsJunction(roms, x, d, BITS) && x in roms
    ensures d == 0 <==> IsLast(roms, x)
  {
    if d > 0 {
      var z :| z in roms && LessAt(x, z, d - 1);
      assert Less(x, z);
    } else {
      forall z | z in roms
        ensures !Less(x, z)
      {
        if Less(x, z) {
          var p: nat :| LessAt(x, z, p);
          assert Fork(roms, x, p + 1);
        }
      }
    }
  }

  lemma JunctionUnique(roms: set<Rom>, x: Rom, d: nat, e: nat)
    requires IsJunction(roms, x, d, BITS) && IsJunction(roms, x, e, BITS)
    ensures d == e
  {
  }

  /** Among the ROMs that share its first `d` bits, `y` is the least. */
  ghost predicate LeastBelow(roms: set<Rom>, y: Rom, d: nat) {
    && d <= BITS && y in roms
    && forall z :: z in roms && z[..d] == y[..d] ==> z == y || Less(y, z)
  }

  /** Turning the deepest fork of `x` to 1 and going down from there leads to the next ROM. */
  lemma TurnIsNext(roms: set<Rom>, x: Rom, d: nat, y: Rom)
    requires IsJunction(roms, x, d, BITS) && d > 0
    requires LessAt(x, y, d - 1) && LeastBelow(roms, y, d)
    ensures IsNext(roms, x, y)
  {
    assert Less(x, y);
    forall z | z in roms && Less(x, z)
      ensures z == y || Less(y, z)
    {
      var p: nat :| LessAt(x, z, p);
      assert Fork(roms, x, p + 1);
      if p == d - 1 {
        assert z[..d] == z[..p] + [true] && y[..d] == y[..p] + [true];
      } else {
        assert y[..p] == y[..d - 1][..p] && x[..p] == x[..d - 1][..p];
        assert y[p] == y[..d - 1][p] && x[p] == x[..d - 1][p];
        assert LessAt(y, z, p);
      }
    }
  }

  // ----- Chains -----

  /** Starts at the least ROM and always goes on to the next one. */
  ghost predicate Chain(roms: set<Rom>, list: seq<Rom>) {
    && (list != [] ==> IsLeast(roms, list[0]))
    && forall i: nat :: 0 < i < |list| ==> IsNext(roms, list[i - 1], list[i])
  }

  ghost predicate Ascending(list: seq<Rom>) {
    forall i, j :: 0 <= i < j < |list| ==> Less(list[i], list[j])
  }

  lemma ChainGrows(roms: set<Rom>, list: seq<Rom>, y: Rom)
    requires Chain(roms, list)
    requires if list == [] then IsLeast(roms, y) else IsNext(roms, list[|list| - 1], y)
    ensures Chain(roms, list + [y])
  {
  }

  lemma {:induction false} ChainAscends(roms: set<Rom>, list: seq<Rom>, i: nat, j: nat)
    requires Chain(roms, list) && i < j < |list|
    ensures Less(list[i], list[j])
    decreases j
  {
    assert IsNext(roms, list[j - 1], list[j]);
    if i < j - 1 {
      ChainAscends(roms, list, i, j - 1);
      LessTransitive(list[i], list[j - 1], list[j]);
    }
  }

  lemma {:induction false} ChainCovers(roms: set<Rom>, list: seq<Rom>, z: Rom)
    requires Chain(roms, list) && list != [] && z in roms
    ensures z in list || Less(list[|list| - 1], z)
    decreases |list|
  {
    var n := |list| - 1;
    if n == 0 {
    } else {
      var front := list[..n];
      assert Chain(roms, front) by {
        forall i: nat | 0 < i < n
          ensures IsNext(roms, front[i - 1], front[i])
        {
          assert IsNext(roms, list[i - 1], list[i]);
        }
      }
      ChainCovers(roms, front, z);
      assert IsNext(roms, list[n - 1], list[n]);
    }
  }

  /** The list holds every ROM of the set exactly once, in increasing order. */
  ghost predicate Enumerates(roms: set<Rom>, list: seq<Rom>) {
    && Ascending(list)
    && (forall z :: z in list <==> z in roms)
    && |list| == |roms|
  }

  lemma {:induction false} AscendingCount(list: seq<Rom>, roms: set<Rom>)
    requires Ascending(list) && forall z :: z in list <==> z in roms
    ensures |list| == |roms|
    decreases |list|
  {
    if list == [] {
      assert roms == {};
    } else {
      var last, front := list[|list| - 1], list[..|list| - 1];
      forall z
        ensures z in front <==> z in roms - {last}
      {
        if z in front {
          var i :| 0 <= i < |front| && front[i] == z;
          assert Less(list[i], last);
          LessIsStrict(z, last);
        }
      }
      AscendingCount(front, roms - {last});
    }
  }

  /** A chain that ends at the last ROM is the whole set. */
  lemma ChainEnumerates(roms: set<Rom>, list: seq<Rom>)
    requires Chain(roms, list)
    requires if list == [] then roms == {} else IsLast(roms, list[|list| - 1])
    ensures Enumerates(roms, list)
  {
    forall i, j | 0 <= i < j < |list|
      ensures Less(list[i], list[j])
    {
      ChainAscends(roms, list, i, j);
    }
    forall z
      ensures z in list <==> z in roms
    {
      if z in roms {
        ChainCovers(roms, list, z);
      }
      if z in list {
        var i :| 0 <= i < |list| && list[i] == z;
        if i > 0 {
          assert IsNext(roms, list[i - 1], list[i]);
        }
      }
    }
    AscendingCount(list, roms);
  }

  // ----- There is only one such list -----

  lemma NextUnique(roms: set<Rom>, x: Rom, y: Rom, z: Rom)
    requires (IsNext(roms, x, y) && IsNext(roms, x, z)) || (IsLeast(roms, y) && IsLeast(roms, z))
    ensures y == z
  {
  }

  /** Two walks agree as far as they have both come. */
  lemma {:induction false} ChainsAgree(roms: set<Rom>, list: seq<Rom>, other: seq<Rom>, i: nat)
    requires Chain(roms, list) && Chain(roms, other) && i < |list| && i < |other|
    ensures list[i] == other[i]
  {
    if i == 0 {
      NextUnique(roms, list[0], list[0], other[0]);
    } else {
      ChainsAgree(roms, list, other, i - 1);
      assert IsNext(roms, list[i - 1], list[i]) && IsNext(roms, other[i - 1], other[i]);
      NextUnique(roms, list[i - 1], list[i], other[i]);
    }
  }

  /** An ascending list of all ROMs is a chain. */
  lemma EnumerationIsChain(roms: set<Rom>, list: seq<Rom>)
    requires Enumerates(roms, list)
    ensures Chain(roms, list)
  {
    if list != [] {
      assert list[0] in list;
      forall z | z in roms
        ensures z == list[0] || Less(list[0], z)
      {
        var k :| 0 <= k < |list| && list[k] == z;
      }
    }
    forall i: nat | 0 < i < |list|
      ensures IsNext(roms, list[i - 1], list[i])
    {
      assert list[i] in list;
      forall z | z in roms && Less(list[i - 1], z)
        ensures z == list[i] || Less(list[i], z)
      {
        var k :| 0 <= k < |list| && list[k] == z;
        if k < i {
          NotBackwards(list, k, i - 1);
        }
      }
    }
  }

  lemma NotBackwards(list: seq<Rom>, k: nat, i: nat)
    requires Ascending(list) && k <= i < |list|
    ensures !Less(list[i], list[k])
  {
  }

  lemma ChainFits(roms: set<Rom>, list: seq<Rom>)
    requires Chain(roms, list)
    ensures |list| <= |roms|
    ensures forall z :: z in list ==> z in roms
  {
    forall i, j | 0 <= i < j < |list|
      ensures Less(list[i], list[j])
    {
      ChainAscends(roms, list, i, j);
    }
    forall z | z in list
      ensures z in roms
    {
      var i :| 0 <= i < |list| && list[i] == z;
      if i > 0 {
        assert IsNext(roms, list[i - 1], list[i]);
      }
    }
    var members := set z | z in list;
    AscendingCount(list, members);
    SubsetFits(members, roms);
  }

  lemma SubsetFits<T>(a: set<T>, b: set<T>)
    requires a <= b
    ensures |a| <= |b|
  {
    assert b == a + (b - a);
  }
}

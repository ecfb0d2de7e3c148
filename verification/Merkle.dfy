/**
 * The Merkle root of a block's transactions (src/blockchain.rs, `calculate_merkle_root` and its
 * copy for the genesis block). The code folds a list of hashes level by level and carries an odd
 * last hash up unchanged. `Root` says what that computes: a binary tree that splits its leaves at
 * the largest power of two below their number.
 */
module Merkle {

  /** SHA-256 as a hexadecimal string. */
  type Digest = string -> string
  const HASH_LENGTH := 64

  function Join(digest: Digest, left: string, right: string): string {
    digest(left + right)
  }

  /** The largest power of two below `n`. */
  function Half(n: nat): (k: nat)
    requires n >= 2
    ensures 1 <= k < n <= 2 * k
  {
    if n == 2 then 1 else 2 * Half((n + 1) / 2)
  }

  /** The root as a tree over the whole leaf sequence. */
  function Root(digest: Digest, leaves: seq<string>): string
    requires leaves != []
    decreases |leaves|
  {
    if |leaves| == 1 then leaves[0]
    else
      var k := Half(|leaves|);
      Join(digest, Root(digest, leaves[..k]), Root(digest, leaves[k..]))
  }

  /** One level up: neighbours are joined, an odd last hash is carried. */
  function Up(digest: Digest, level: seq<string>): (up: seq<string>)
    ensures |level| <= 2 * |up| <= |level| + 1
    decreases |level|
  {
    if |level| == 0 then []
    else if |level| == 1 then level
    else [Join(digest, level[0], level[1])] + Up(digest, level[2..])
  }

  /** Levels of even length do not disturb what follows them. */
  lemma {:induction false} UpAppend(digest: Digest, a: seq<string>, b: seq<string>, pairs: nat)
    requires |a| == 2 * pairs
    ensures Up(digest, a + b) == Up(digest, a) + Up(digest, b)
    decreases |a|
  {
    if a == [] {
      assert a + b == b;
    } else {
      UpAppend(digest, a[2..], b, pairs - 1);
      assert (a + b)[2..] == a[2..] + b;
    }
  }

  /** One unfolding of the tree, split where `Half` says. */
  lemma {:induction false} RootSplit(digest: Digest, a: seq<string>, b: seq<string>, n: nat)
    requires n >= 2 && |a| + |b| == n && |a| == Half(n)
    ensures Root(digest, a + b) == Join(digest, Root(digest, a), Root(digest, b))
  {
    var s := a + b;
    assert |s| == n && s[..|a|] == a && s[|a|..] == b;
  }

  /** A level splits where the level above it splits. */
  lemma {:induction false} SplitAbove(n: nat, above: nat)
    requires n > 2 && n <= 2 * above <= n + 1
    ensures Half(n) == 2 * Half(above)
  {
    assert above == (n + 1) / 2;
  }

  lemma {:induction false} JoinedRoots(
    digest: Digest, a: seq<string>, b: seq<string>, n: nat, upA: seq<string>, upB: seq<string>, above: nat)
    requires n >= 2 && |a| + |b| == n && |a| == Half(n)
    requires above >= 2 && |upA| + |upB| == above && |upA| == Half(above)
    requires Root(digest, upA) == Root(digest, a) && Root(digest, upB) == Root(digest, b)
    ensures Root(digest, upA + upB) == Root(digest, a + b)
  {
    RootSplit(digest, a, b, n);
    RootSplit(digest, upA, upB, above);
  }

  lemma {:induction false} UpKeepsPair(digest: Digest, x: string, y: string)
    ensures Up(digest, [x, y]) == [Join(digest, x, y)] && Root(digest, [x, y]) == Join(digest, x, y)
  {
    assert [x, y][2..] == [] && [x, y][..1] == [x] && [x, y][1..] == [y];
  }

  /** Folding one level leaves the root of the tree unchanged. */
  lemma {:induction false} UpKeepsRoot(digest: Digest, level: seq<string>)
    requires |level| >= 2
    ensures Root(digest, Up(digest, level)) == Root(digest, level)
    decreases |level|
  {
    if |level| == 2 {
      UpKeepsPair(digest, level[0], level[1]);
      assert level == [level[0], level[1]];
    } else {
      var above := |Up(digest, level)|;
      var half := Half(above);
      SplitAbove(|level|, above);
      var a, b := level[..2 * half], level[2 * half..];
      assert a + b == level;
      UpAppend(digest, a, b, half);
      UpKeepsRoot(digest, a);
      if |b| >= 2 {
        UpKeepsRoot(digest, b);
      }
      var upA, upB := Up(digest, a), Up(digest, b);
      JoinedRoots(digest, a, b, |level|, upA, upB, above);
    }
  }

  /** What the inner loop has left to do from position `i` on. */
  ghost function Rest(digest: Digest, level: seq<string>, i: nat): seq<string> {
    if i < |level| then Up(digest, level[i..]) else []
  }

  lemma {:induction false} RestStep(digest: Digest, level: seq<string>, i: nat)
    requires i < |level|
    ensures Rest(digest, level, i)
            == [if i + 1 < |level| then Join(digest, level[i], level[i + 1]) else level[i]] + Rest(digest, level, i + 2)
  {
    if i + 2 < |level| {
      assert level[i..][2..] == level[i + 2..];
    }
  }

  lemma {:induction false} Regroup(a: seq<string>, x: string, b: seq<string>)
    ensures a + ([x] + b) == (a + [x]) + b
  {
  }

  /** The inner loop: one level from the one below. */
  method NextLevel(digest: Digest, level: seq<string>) returns (next: seq<string>)
    ensures next == Up(digest, level)
  {
    next := [];
    var i := 0;
    ghost var whole := Rest(digest, level, 0);
    assert whole == Up(digest, level) by {
      assert level[0..] == level;
    }
    while i < |level|
      invariant 0 <= i && whole == next + Rest(digest, level, i)
    {
      RestStep(digest, level, i);
      var x := if i + 1 < |level| then Join(digest, level[i], level[i + 1]) else level[i];
      Regroup(next, x, Rest(digest, level, i + 2));
      next := next + [x];
      i := i + 2;
    }
  }

  /** The loop of `calculate_merkle_root`: it ends, and what is left is the root of the tree. */
  method FoldLevels(digest: Digest, leaves: seq<string>) returns (root: string)
    requires leaves != []
    ensures root == Root(digest, leaves)
  {
    var level := leaves;
    while |level| > 1
      invariant level != [] && Root(digest, level) == Root(digest, leaves)
      decreases |level|
    {
      UpKeepsRoot(digest, level);
      level := NextLevel(digest, level);
    }
    root := level[0];
  }

  // ---------------------------------------------------------------------------------------------
  // What the root commits to

  /** The strings hashed on the way to the root. */
  ghost function Hashed(digest: Digest, leaves: seq<string>): set<string>
    requires leaves != []
    decreases |leaves|
  {
    if |leaves| == 1 then {}
    else
      var k := Half(|leaves|);
      var a, b := leaves[..k], leaves[k..];
      {Root(digest, a) + Root(digest, b)} + Hashed(digest, a) + Hashed(digest, b)
  }

  ghost predicate NoCollision(digest: Digest, inputs: set<string>) {
    forall x, y :: x in inputs && y in inputs && digest(x) == digest(y) ==> x == y
  }

  ghost predicate FixedLength(digest: Digest) {
    forall x :: |digest(x)| == HASH_LENGTH
  }

  ghost predicate AllHashes(leaves: seq<string>) {
    forall i :: 0 <= i < |leaves| ==> |leaves[i]| == HASH_LENGTH
  }

  lemma {:induction false} RootLength(digest: Digest, leaves: seq<string>)
    requires FixedLength(digest) && AllHashes(leaves) && leaves != []
    ensures |Root(digest, leaves)| == HASH_LENGTH
  {
    if |leaves| > 1 {
      var k := Half(|leaves|);
      assert |digest(Root(digest, leaves[..k]) + Root(digest, leaves[k..]))| == HASH_LENGTH;
    }
  }

  /**
   * For equally many leaves, equal roots mean equal leaves in the same order, unless two of the
   * strings actually hashed collide. The odd leaf carried up is covered like any other.
   */
  lemma {:induction false} RootBindsLeaves(digest: Digest, a: seq<string>, b: seq<string>)
    requires |a| == |b| > 0 && FixedLength(digest) && AllHashes(a) && AllHashes(b)
    requires NoCollision(digest, Hashed(digest, a) + Hashed(digest, b))
    requires Root(digest, a) == Root(digest, b)
    ensures a == b
    decreases |a|
  {
    if |a| > 1 {
      var k := Half(|a|);
      var a1, a2, b1, b2 := a[..k], a[k..], b[..k], b[k..];
      RootLength(digest, a1);
      RootLength(digest, b1);
      var x, y := Root(digest, a1) + Root(digest, a2), Root(digest, b1) + Root(digest, b2);
      assert x in Hashed(digest, a) && y in Hashed(digest, b) && digest(x) == digest(y);
      assert x[..HASH_LENGTH] == Root(digest, a1) && y[..HASH_LENGTH] == Root(digest, b1);
      assert x[HASH_LENGTH..] == Root(digest, a2) && y[HASH_LENGTH..] == Root(digest, b2);
      assert Hashed(digest, a1) + Hashed(digest, b1) <= Hashed(digest, a) + Hashed(digest, b);
      assert Hashed(digest, a2) + Hashed(digest, b2) <= Hashed(digest, a) + Hashed(digest, b);
      RootBindsLeaves(digest, a1, b1);
      RootBindsLeaves(digest, a2, b2);
      assert a == a1 + a2 && b == b1 + b2;
    }
  }

  /** The number of leaves matters: a pair and the single leaf that is its hash have one root. */
  lemma {:induction false} CountIsNotBound(digest: Digest, x: string, y: string)
    ensures Root(digest, [x, y]) == Root(digest, [Join(digest, x, y)])
  {
    assert [x, y][..1] == [x] && [x, y][1..] == [y];
  }
}

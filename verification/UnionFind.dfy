/** Union-find over the ids 0..n-1. A partition is stored as the leader of every id; as in the structure
    that the analyses build on, the leader of a class is its smallest member. */
module UnionFinds {

  type Partition = seq<nat>
  type Pair = (nat, nat)

  ghost predicate IsPartition(p: Partition) {
    forall i: nat :: i < |p| ==> p[i] <= i && p[p[i]] == p[i]
  }

  predicate Same(p: seq<nat>, a: nat, b: nat) {
    a < |p| && b < |p| && p[a] == p[b]
  }

  function Singletons(n: nat): Partition {
    seq(n, i => i)
  }

  function Joined(p: Partition, a: nat, b: nat): Partition
    requires a < |p| && b < |p|
  {
    var lo, hi := if p[a] <= p[b] then p[a] else p[b], if p[a] <= p[b] then p[b] else p[a];
    seq(|p|, i requires 0 <= i < |p| => if p[i] == hi then lo else p[i])
  }

  function Grown(p: Partition, n: nat): Partition {
    if n <= |p| then p else p + seq(n - |p|, i => |p| + i)
  }

  predicate PairsIn(n: nat, pairs: seq<Pair>) {
    forall i: nat :: i < |pairs| ==> pairs[i].0 < n && pairs[i].1 < n
  }

  /** The partition after joining all pairs, first to last. */
  function JoinAll(p: Partition, pairs: seq<Pair>): (q: Partition)
    requires PairsIn(|p|, pairs)
    ensures |q| == |p|
  {
    if pairs == [] then p
    else Joined(JoinAll(p, pairs[..|pairs| - 1]), pairs[|pairs| - 1].0, pairs[|pairs| - 1].1)
  }

  /** Ids that p puts together have the same label in q. */
  ghost predicate Refines(p: Partition, q: seq<nat>) {
    |p| == |q| && forall i: nat, j: nat :: Same(p, i, j) ==> q[i] == q[j]
  }

  lemma JoinedIsPartition(p: Partition, a: nat, b: nat)
    requires IsPartition(p) && a < |p| && b < |p|
    ensures IsPartition(Joined(p, a, b))
  {
  }

  /** A join merges the two classes and leaves everything else alone. */
  lemma JoinedSame(p: Partition, a: nat, b: nat, x: nat, y: nat)
    requires a < |p| && b < |p|
    ensures Same(Joined(p, a, b), x, y) <==>
            Same(p, x, y) || (Same(p, x, a) && Same(p, b, y)) || (Same(p, x, b) && Same(p, a, y))
  {
  }

  lemma JoinedLeast(p: Partition, a: nat, b: nat, q: seq<nat>)
    requires a < |p| && b < |p| && Refines(p, q) && q[a] == q[b]
    ensures Refines(Joined(p, a, b), q)
  {
    forall x: nat, y: nat | Same(Joined(p, a, b), x, y)
      ensures q[x] == q[y]
    {
      JoinedSame(p, a, b, x, y);
    }
  }

  lemma JoinAllIsPartition(p: Partition, pairs: seq<Pair>)
    requires IsPartition(p) && PairsIn(|p|, pairs)
    ensures IsPartition(JoinAll(p, pairs))
  {
    if pairs != [] {
      var last := pairs[|pairs| - 1];
      JoinAllIsPartition(p, pairs[..|pairs| - 1]);
      JoinedIsPartition(JoinAll(p, pairs[..|pairs| - 1]), last.0, last.1);
    }
  }

  /** Joins only put more ids together, and the joined pairs among them. */
  lemma {:induction false} JoinAllContains(p: Partition, pairs: seq<Pair>)
    requires PairsIn(|p|, pairs)
    ensures Refines(p, JoinAll(p, pairs))
    ensures forall k: nat :: k < |pairs| ==> Same(JoinAll(p, pairs), pairs[k].0, pairs[k].1)
  {
    if pairs != [] {
      var init, last := pairs[..|pairs| - 1], pairs[|pairs| - 1];
      JoinAllContains(p, init);
      forall k: nat | k < |pairs|
        ensures Same(JoinAll(p, pairs), pairs[k].0, pairs[k].1)
      {
        if k < |init| {
          assert pairs[k] == init[k];
        }
      }
    }
  }

  /** Nothing is put together that is not forced: every labelling that respects p and the pairs respects
      the result. */
  lemma {:induction false} JoinAllLeast(p: Partition, pairs: seq<Pair>, q: seq<nat>)
    requires PairsIn(|p|, pairs) && Refines(p, q)
    requires forall k: nat :: k < |pairs| ==> q[pairs[k].0] == q[pairs[k].1]
    ensures Refines(JoinAll(p, pairs), q)
  {
    if pairs != [] {
      var init, last := pairs[..|pairs| - 1], pairs[|pairs| - 1];
      forall k: nat | k < |init|
        ensures q[init[k].0] == q[init[k].1]
      {
        assert init[k] == pairs[k];
      }
      JoinAllLeast(p, init, q);
      JoinedLeast(JoinAll(p, init), last.0, last.1, q);
    }
  }

  lemma NothingJoined(p: Partition)
    ensures JoinAll(p, []) == p
  {
  }

  lemma JoinAllFew(p: Partition, x: Pair, y: Pair)
    requires x.0 < |p| && x.1 < |p| && y.0 < |p| && y.1 < |p|
    ensures JoinAll(p, []) == p
    ensures PairsIn(|p|, [x]) && JoinAll(p, [x]) == Joined(p, x.0, x.1)
    ensures PairsIn(|p|, [x, y]) && JoinAll(p, [x, y]) == Joined(Joined(p, x.0, x.1), y.0, y.1)
  {
    assert [x, y][0] == x && [x, y][1] == y;
    assert [x][..0] == [] && [x, y][..1] == [x];
  }

  lemma {:induction false} JoinAllConcat(p: Partition, a: seq<Pair>, b: seq<Pair>)
    requires PairsIn(|p|, a) && PairsIn(|p|, b)
    ensures PairsIn(|p|, a + b) && JoinAll(p, a + b) == JoinAll(JoinAll(p, a), b)
  {
    if b == [] {
      assert a + b == a;
    } else {
      JoinAllConcat(p, a, b[..|b| - 1]);
      assert (a + b)[..|a + b| - 1] == a + b[..|b| - 1];
    }
  }

  lemma GrownJoined(p: Partition, a: nat, b: nat, n: nat)
    requires IsPartition(p) && a < |p| && b < |p| && |p| <= n
    ensures Joined(Grown(p, n), a, b) == Grown(Joined(p, a, b), n)
  {
    var l, r := Joined(Grown(p, n), a, b), Grown(Joined(p, a, b), n);
    assert p[a] < |p| && p[b] < |p|;
    assert |l| == |r| == n;
    forall i: nat | i < n
      ensures l[i] == r[i]
    {
      assert i >= |p| ==> Grown(p, n)[i] == i;
    }
  }

  /** Growing does not interfere with joins. */
  lemma {:induction false} JoinAllGrown(p: Partition, pairs: seq<Pair>, n: nat)
    requires IsPartition(p) && PairsIn(|p|, pairs) && |p| <= n
    ensures PairsIn(n, pairs) && |Grown(p, n)| == n && JoinAll(Grown(p, n), pairs) == Grown(JoinAll(p, pairs), n)
  {
    if pairs != [] {
      var init, last := pairs[..|pairs| - 1], pairs[|pairs| - 1];
      JoinAllGrown(p, init, n);
      JoinAllIsPartition(p, init);
      GrownJoined(JoinAll(p, init), last.0, last.1, n);
    }
  }

  lemma GrownGrown(p: Partition, m: nat, n: nat)
    requires |p| <= m <= n
    ensures Grown(p, |p|) == p && Grown(Grown(p, m), n) == Grown(p, n) && |Grown(p, n)| == n
  {
  }

  lemma SingletonsGrown(m: nat, n: nat)
    requires m <= n
    ensures Grown(Singletons(m), n) == Singletons(n)
    ensures IsPartition(Singletons(m))
  {
  }

  /** Dense class ids: in range, all used, and equal exactly for ids of one class. */
  ghost predicate IsCompressed(p: Partition, ids: seq<nat>, numClasses: nat) {
    && |ids| == |p|
    && (forall i: nat :: i < |p| ==> ids[i] < numClasses)
    && (forall i: nat, j: nat :: i < |p| && j < |p| ==> (ids[i] == ids[j] <==> p[i] == p[j]))
    && (forall c: nat :: c < numClasses ==> c in ids)
  }

  class UnionFind {
    var leaders: Partition

    constructor (n: nat)
      ensures IsPartition(leaders) && leaders == Singletons(n)
    {
      leaders := Singletons(n);
    }

    method Join(a: nat, b: nat) returns (leader: nat)
      requires IsPartition(leaders) && a < |leaders| && b < |leaders|
      modifies this
      ensures leaders == Joined(old(leaders), a, b) && IsPartition(leaders)
      ensures leader == leaders[a] == leaders[b]
    {
      JoinedIsPartition(leaders, a, b);
      leaders := Joined(leaders, a, b);
      leader := leaders[a];
    }

    method Find(a: nat) returns (leader: nat)
      requires a < |leaders|
      ensures leader == leaders[a]
    {
      leader := leaders[a];
    }

    method Grow(n: nat)
      requires IsPartition(leaders)
      modifies this
      ensures leaders == Grown(old(leaders), n) && IsPartition(leaders)
    {
      leaders := Grown(leaders, n);
    }

    method Compress() returns (ids: seq<nat>, numClasses: nat)
      requires IsPartition(leaders)
      ensures IsCompressed(leaders, ids, numClasses)
    {
      ids, numClasses := [], 0;
      for i := 0 to |leaders|
        invariant IsCompressed(leaders[..i], ids, numClasses)
      {
        assert leaders[..i + 1] == leaders[..i] + [leaders[i]];
        if leaders[i] == i {
          ids := ids + [numClasses];
          numClasses := numClasses + 1;
        } else {
          ids := ids + [ids[leaders[i]]];
        }
      }
      assert leaders[..|leaders|] == leaders;
    }
  }
}

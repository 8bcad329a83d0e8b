/** The play queue of `context/MusicContext.tsx`: an ordering of track
    indices that `playNextTrack` and `playPreviousTrack` step through with
    wrap-around, locating the current index with `indexOf`. */
module PlayQueue {

  /** `tracks.map((_, i) => i)`: the sequential queue. */
  function Identity(n: nat): (q: seq<int>)
    ensures |q| == n
    ensures forall i :: 0 <= i < n ==> q[i] == i
  {
    seq(n, i => i)
  }

  /** The queue holds every index below `n` exactly once. */
  predicate IsPermutation(q: seq<int>, n: nat) {
    multiset(q) == multiset(Identity(n))
  }

  /** The queue `generatePlayQueue` builds: the identity when shuffle is
      off, some permutation when it is on. */
  predicate IsQueueFor(q: seq<int>, n: nat, shuffle: bool) {
    if shuffle then IsPermutation(q, n) else q == Identity(n)
  }

  predicate Distinct(q: seq<int>) {
    forall i, j :: 0 <= i < j < |q| ==> q[i] != q[j]
  }

  lemma {:induction false} IdentityCount(n: nat, x: int)
    ensures multiset(Identity(n))[x] == if 0 <= x < n then 1 else 0
  {
    if n > 0 {
      assert Identity(n) == Identity(n - 1) + [n - 1];
      IdentityCount(n - 1, x);
    }
  }

  /** A permutation of `[0, n)` has length `n`, holds only indices below
      `n`, holds each of them, and holds none twice. */
  lemma PermutationFacts(q: seq<int>, n: nat)
    requires IsPermutation(q, n)
    ensures |q| == n
    ensures forall i :: 0 <= i < |q| ==> 0 <= q[i] < n
    ensures forall x :: 0 <= x < n ==> x in q
    ensures Distinct(q)
  {
    assert |q| == |multiset(q)| == |multiset(Identity(n))| == n;
    forall i | 0 <= i < |q| ensures 0 <= q[i] < n {
      assert q[i] in multiset(q);
      IdentityCount(n, q[i]);
    }
    forall x | 0 <= x < n ensures x in q {
      IdentityCount(n, x);
      assert x in multiset(q);
    }
    forall i, j | 0 <= i < j < |q| ensures q[i] != q[j] {
      if q[i] == q[j] {
        var v := q[i];
        assert q == q[..j] + [q[j]] + q[j + 1..];
        assert q[..j] == q[..i] + [q[i]] + q[i + 1..j];
        assert multiset(q)[v] >= 2;
        IdentityCount(n, v);
      }
    }
  }

  /** The sequential queue is one of the queues shuffling may produce. */
  lemma IdentityIsPermutation(n: nat)
    ensures IsPermutation(Identity(n), n)
    ensures IsQueueFor(Identity(n), n, false) && IsQueueFor(Identity(n), n, true)
  {
  }

  /** `queue.indexOf(x)`: the first position of `x`, or -1. */
  function IndexOf(q: seq<int>, x: int): (r: int)
    ensures -1 <= r < |q|
    ensures r >= 0 ==> q[r] == x && forall j :: 0 <= j < r ==> q[j] != x
    ensures r == -1 <==> x !in q
  {
    if q == [] then -1
    else if q[0] == x then 0
    else
      var k := IndexOf(q[1..], x);
      assert forall j :: 1 <= j < |q| ==> q[j] == q[1..][j - 1];
      if k < 0 then -1 else k + 1
  }

  /** In a queue without repeats the position of an entry is where it is. */
  lemma IndexOfDistinct(q: seq<int>, k: nat)
    requires Distinct(q) && k < |q|
    ensures IndexOf(q, q[k]) == k
  {
  }

  /** JavaScript `a % b`: the remainder truncated toward zero, so it takes
      the sign of `a`. */
  function JsRemainder(a: int, b: int): (r: int)
    requires b > 0
    ensures -b < r < b
    ensures a >= 0 ==> 0 <= r && r == a % b
    ensures a < 0 ==> r <= 0
  {
    if a >= 0 then a % b else -((-a) % b)
  }

  /** Truncation toward zero makes the remainder odd in its first operand. */
  lemma JsRemainderOdd(a: int, b: int)
    requires b > 0
    ensures JsRemainder(-a, b) == -JsRemainder(a, b)
  {
  }

  /** The queue position `playNextTrack` plays:
      `(queue.indexOf(current) + 1) % queue.length`. */
  function NextSlot(q: seq<int>, current: int): (r: nat)
    requires |q| > 0
    ensures r < |q|
  {
    JsRemainder(IndexOf(q, current) + 1, |q|)
  }

  /** The queue position `playPreviousTrack` plays:
      `(queue.indexOf(current) - 1 + queue.length) % queue.length`. */
  function PrevSlot(q: seq<int>, current: int): (r: nat)
    requires |q| > 0
    ensures r < |q|
  {
    var a := IndexOf(q, current) - 1 + |q|;
    assert a >= -1 && (a == -1 ==> |q| == 1);
    JsRemainder(a, |q|)
  }

  /** One step forward modulo `n`, on the integers alone. */
  lemma NextRemainder(k: int, n: int)
    requires 0 <= k < n
    ensures JsRemainder(k + 1, n) == if k == n - 1 then 0 else k + 1
  {
    if k == n - 1 {
      assert (k + 1) % n == n % n == 0;
    }
  }

  /** One step back modulo `n`, written as `(k - 1 + n) % n`. */
  lemma PrevRemainder(k: int, n: int)
    requires 0 <= k < n
    ensures JsRemainder(k - 1 + n, n) == if k == 0 then n - 1 else k - 1
  {
    if k > 0 {
      assert (k - 1 + n) % n == k - 1 by {
        assert 0 <= k - 1 < n;
      }
    }
  }

  /** Next steps forward one entry, and the last entry wraps to the first. */
  lemma NextSlotSteps(q: seq<int>, k: nat)
    requires Distinct(q) && k < |q|
    ensures NextSlot(q, q[k]) == if k == |q| - 1 then 0 else k + 1
  {
    IndexOfDistinct(q, k);
    NextRemainder(k, |q|);
  }

  /** A current index that is not in the queue (-1, or one the queue was
      not built for) makes next play the first entry. */
  lemma NextSlotAbsent(q: seq<int>, current: int)
    requires |q| > 0 && current !in q
    ensures NextSlot(q, current) == 0
  {
  }

  /** Previous steps back one entry, and the first entry wraps to the last. */
  lemma PrevSlotSteps(q: seq<int>, k: nat)
    requires Distinct(q) && k < |q|
    ensures PrevSlot(q, q[k]) == if k == 0 then |q| - 1 else k - 1
  {
    IndexOfDistinct(q, k);
    PrevRemainder(k, |q|);
  }

  /** A current index that is not in the queue makes previous play the
      second-to-last entry (the only entry of a one-entry queue), because
      `indexOf` gives -1. */
  lemma PrevSlotAbsent(q: seq<int>, current: int)
    requires |q| > 0 && current !in q
    ensures PrevSlot(q, current) == if |q| == 1 then 0 else |q| - 2
  {
  }

  /** Next then previous comes back to the same entry, and so does
      previous then next. */
  lemma NextPrevRoundTrip(q: seq<int>, k: nat)
    requires Distinct(q) && k < |q|
    ensures PrevSlot(q, q[NextSlot(q, q[k])]) == k
    ensures NextSlot(q, q[PrevSlot(q, q[k])]) == k
  {
    NextSlotSteps(q, k);
    PrevSlotSteps(q, k);
    NextSlotSteps(q, PrevSlot(q, q[k]));
    PrevSlotSteps(q, NextSlot(q, q[k]));
  }

  /** In a freshly generated queue, either mode, every track index is
      found, so next and previous step from the current track. */
  lemma FreshQueueFindsCurrent(q: seq<int>, n: nat, shuffle: bool, current: int)
    requires IsQueueFor(q, n, shuffle) && 0 <= current < n
    ensures 0 <= IndexOf(q, current) < |q| && q[IndexOf(q, current)] == current
    ensures Distinct(q)
  {
    IdentityIsPermutation(n);
    PermutationFacts(q, n);
  }
}

/** Majorities: the vote and acknowledgement threshold, why two of them meet, and the
    order statistic that the commit loop computes. */
module Quorum {

  /** ceil((n + 1) / 2), the threshold of receiveVote, commitLogEntries and checkQuorumHealth. */
  function Majority(n: nat): (m: nat)
    ensures n < 2 * m <= n + 2
  {
    (n + 2) / 2
  }

  /** The server ids of a cluster of `n`. */
  function Ids(n: nat): (s: set<nat>)
    ensures forall i: nat :: i in s <==> i < n
  {
    if n == 0 then {} else Ids(n - 1) + {n - 1}
  }

  lemma IdsSize(n: nat)
    ensures |Ids(n)| == n
  {
    if n == 0 {
      assert Ids(0) == {};
    } else {
      IdsSize(n - 1);
      assert Ids(n) == Ids(n - 1) + {n - 1};
    }
  }

  lemma SubsetSize<T>(a: set<T>, b: set<T>)
    requires a <= b
    ensures |a| <= |b|
  {
    assert b == a + (b - a);
  }

  /** Any two majorities of the same cluster share a server. */
  lemma QuorumsIntersect(n: nat, a: set<nat>, b: set<nat>) returns (shared: nat)
    requires a <= Ids(n) && b <= Ids(n)
    requires |a| >= Majority(n) && |b| >= Majority(n)
    ensures shared in a && shared in b && a * b != {}
  {
    IdsSize(n);
    SubsetSize(a + b, Ids(n));
    assert |a + b| == |a| + |b| - |a * b|;
    assert a * b != {};
    shared :| shared in a * b;
  }

  // ---------------------------------------------------------------- order statistics

  /** How many elements of `s` exceed `c`. */
  function CountAbove(s: seq<nat>, c: nat): (k: nat)
    ensures k <= |s|
  {
    if s == [] then 0 else CountAbove(s[..|s| - 1], c) + (if s[|s| - 1] > c then 1 else 0)
  }

  /** The position of a largest element. */
  function MaxIndex(s: seq<nat>): (m: nat)
    requires s != []
    ensures m < |s|
  {
    if |s| == 1 then 0
    else
      var m := MaxIndex(s[..|s| - 1]);
      if s[|s| - 1] > s[m] then |s| - 1 else m
  }

  lemma {:induction false} MaxIndexIsMax(s: seq<nat>, i: nat)
    requires i < |s|
    ensures s[i] <= s[MaxIndex(s)]
  {
    if |s| > 1 && i < |s| - 1 {
      MaxIndexIsMax(s[..|s| - 1], i);
    }
  }

  function Without(s: seq<nat>, i: nat): seq<nat>
    requires i < |s|
  {
    s[..i] + s[i + 1..]
  }

  /** The `k`-th largest element, counting from one: the largest once the `k - 1` largest are gone. */
  function KthLargest(s: seq<nat>, k: nat): nat
    requires 1 <= k <= |s|
  {
    var m := MaxIndex(s);
    if k == 1 then s[m] else KthLargest(Without(s, m), k - 1)
  }

  lemma {:induction false} CountOfConcat(a: seq<nat>, b: seq<nat>, c: nat)
    ensures CountAbove(a + b, c) == CountAbove(a, c) + CountAbove(b, c)
  {
    if b == [] {
      assert a + b == a;
    } else {
      var n := |b| - 1;
      CountOfConcat(a, b[..n], c);
      assert (a + b)[..|a + b| - 1] == a + b[..n];
    }
  }

  lemma CountAppend(s: seq<nat>, x: nat, c: nat)
    ensures CountAbove(s + [x], c) == CountAbove(s, c) + (if x > c then 1 else 0)
  {
    assert (s + [x])[..|s + [x]| - 1] == s;
  }

  lemma CountWithout(s: seq<nat>, i: nat, c: nat)
    requires i < |s|
    ensures CountAbove(s, c) == CountAbove(Without(s, i), c) + (if s[i] > c then 1 else 0)
  {
    assert s == s[..i] + [s[i]] + s[i + 1..];
    CountOfConcat(s[..i] + [s[i]], s[i + 1..], c);
    CountAppend(s[..i], s[i], c);
    CountOfConcat(s[..i], s[i + 1..], c);
  }

  lemma {:induction false} CountZero(s: seq<nat>, c: nat)
    requires forall i :: 0 <= i < |s| ==> s[i] <= c
    ensures CountAbove(s, c) == 0
  {
    if s != [] {
      CountZero(s[..|s| - 1], c);
    }
  }

  /** At least `k` elements exceed `c` exactly when the `k`-th largest does. */
  lemma {:induction false} KthLargestCounts(s: seq<nat>, k: nat, c: nat)
    requires 1 <= k <= |s|
    ensures CountAbove(s, c) >= k <==> KthLargest(s, k) > c
  {
    var m := MaxIndex(s);
    CountWithout(s, m, c);
    if s[m] <= c {
      forall i | 0 <= i < |s|
        ensures s[i] <= c
      {
        MaxIndexIsMax(s, i);
      }
      CountZero(s, c);
      if k > 1 {
        KthLargestCounts(Without(s, m), k - 1, c);
      }
    } else if k > 1 {
      KthLargestCounts(Without(s, m), k - 1, c);
    }
  }

  // ---------------------------------------------------------------- acknowledgements of peers

  /** The acknowledged lengths of the servers below `upTo`, the server `self` left out. */
  function PeersBelow(acked: seq<nat>, self: nat, upTo: nat): (s: seq<nat>)
    requires upTo <= |acked|
    ensures |s| == if self < upTo then upTo - 1 else upTo
  {
    if upTo == 0 then []
    else if upTo - 1 == self then PeersBelow(acked, self, upTo - 1)
    else PeersBelow(acked, self, upTo - 1) + [acked[upTo - 1]]
  }

  function PeerAcks(acked: seq<nat>, self: nat): seq<nat> {
    PeersBelow(acked, self, |acked|)
  }

  /** How many peers below `upTo` acknowledged more than `c`, as the commit loop counts them. */
  function CountPeers(acked: seq<nat>, self: nat, upTo: nat, c: nat): nat
    requires upTo <= |acked|
  {
    if upTo == 0 then 0
    else CountPeers(acked, self, upTo - 1, c) + (if upTo - 1 != self && acked[upTo - 1] > c then 1 else 0)
  }

  lemma {:induction false} CountPeersCounts(acked: seq<nat>, self: nat, upTo: nat, c: nat)
    requires upTo <= |acked|
    ensures CountPeers(acked, self, upTo, c) == CountAbove(PeersBelow(acked, self, upTo), c)
  {
    if upTo > 0 {
      CountPeersCounts(acked, self, upTo - 1, c);
      if upTo - 1 != self {
        CountAppend(PeersBelow(acked, self, upTo - 1), acked[upTo - 1], c);
      }
    }
  }

  /** The peers below `upTo` that acknowledged more than `c`: counting acknowledgements
      counts servers. */
  function Acknowledging(acked: seq<nat>, self: nat, upTo: nat, c: nat): (r: set<nat>)
    requires upTo <= |acked|
    ensures forall j: nat :: j in r <==> j < upTo && j != self && acked[j] > c
    ensures |r| == CountPeers(acked, self, upTo, c)
  {
    if upTo == 0 then {}
    else
      var before := Acknowledging(acked, self, upTo - 1, c);
      if upTo - 1 != self && acked[upTo - 1] > c then before + {upTo - 1} else before
  }

  // ---------------------------------------------------------------- where the commit loop stops

  /** The furthest position of a log of `length` that enough peers acknowledge: the
      (majority - 1)-th largest acknowledgement of a peer, never beyond the log. */
  function AckedBound(acked: seq<nat>, self: nat, length: nat): (bound: nat)
    requires self < |acked|
    ensures bound <= length
  {
    var needed := Majority(|acked|) - 1;
    if needed == 0 then length
    else
      var kth := KthLargest(PeerAcks(acked, self), needed);
      if kth < length then kth else length
  }

  /** The position after `c` has enough acknowledgements, the leader's own included. */
  predicate Enough(acked: seq<nat>, self: nat, c: nat) {
    1 + CountPeers(acked, self, |acked|, c) >= Majority(|acked|)
  }

  /** The test of the commit loop passes exactly below the bound. */
  lemma EnoughBelowBound(acked: seq<nat>, self: nat, length: nat, c: nat)
    requires self < |acked| && c < length
    ensures Enough(acked, self, c) <==> c < AckedBound(acked, self, length)
  {
    var needed := Majority(|acked|) - 1;
    CountPeersCounts(acked, self, |acked|, c);
    if needed > 0 {
      KthLargestCounts(PeerAcks(acked, self), needed, c);
    }
  }

  lemma BoundStops(acked: seq<nat>, self: nat, length: nat)
    requires self < |acked|
    ensures forall c :: 0 <= c < length ==> (Enough(acked, self, c) <==> c < AckedBound(acked, self, length))
  {
    forall c | 0 <= c < length
      ensures Enough(acked, self, c) <==> c < AckedBound(acked, self, length)
    {
      EnoughBelowBound(acked, self, length, c);
    }
  }
}

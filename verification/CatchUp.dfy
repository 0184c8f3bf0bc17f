/** What probing and appending, repeated, make of a follower whose log differs from the leader's. */
module CatchUp {
  import opened RaftTypes
  import opened AbsoluteLog
  import opened Iteration
  import opened Probe
  import Reign

  /** Terms never fall along the log. */
  ghost predicate Rising(a: seq<Entry>) {
    forall i, k :: 0 <= i <= k < |a| ==> a[i].term <= a[k].term
  }

  /** The follower holds everything the leader holds. */
  ghost predicate Level(f: seq<Entry>, a: seq<Entry>) {
    AgreeBelow(f, a, |a|)
  }

  /** Some number of exchanges brings the follower level. */
  ghost predicate Levels(p: Pair, j: nat, a: seq<Entry>) {
    exists k: nat :: Level(Rounds(p, j, k).log, a)
  }

  /** The leader's log from `q` on repeats itself after `p - q` entries. */
  ghost predicate Repeats(a: seq<Entry>, q: nat, p: nat)
    requires q <= p
  {
    forall i :: q <= i && i + (p - q) < |a| ==> a[i] == a[i + (p - q)]
  }

  /** What an accepted request from `q` on makes of the follower's log. */
  function Sent(t: Setting, f: seq<Entry>, q: nat): seq<Entry>
    requires q <= |t.a|
  {
    AbsAppend(f, t.snapshotIndex, q, t.a[q..])
  }

  /** The greatest match when the cursor is past the leader's log. */
  ghost predicate Top(t: Setting, f: seq<Entry>, q: nat) {
    GreatestMatch(t, View(f, |t.a| + 1), q)
  }

  // ---------------------------------------------------------------- logs that never catch up

  /** A matching position with a difference below it: it will not be looked at again. */
  ghost predicate Frozen(t: Setting, f: seq<Entry>) {
    exists m :: 0 < m && t.snapshotIndex <= m && Matches(t.a, f, t.snapshotIndex, m) && !AgreeBelow(f, t.a, m)
  }

  /** The leader's log with a piece missing in the middle, and not by repetition a prefix of it. */
  ghost predicate Gap(t: Setting, f: seq<Entry>, q: nat, p: nat) {
    t.snapshotIndex <= q < p < |t.a| && f == t.a[..q] + t.a[p..] && !AgreeBelow(f, t.a, |f|)
  }

  ghost predicate Shifted(t: Setting, f: seq<Entry>) {
    exists q, p :: Gap(t, f, q, p)
  }

  /** A shorter log that parts from the leader's at `q`, where the leader's tail does not repeat. */
  ghost predicate Parts(t: Setting, f: seq<Entry>, q: nat) {
    && t.snapshotIndex <= q < |f| < |t.a| && AgreeBelow(f, t.a, q) && Top(t, f, q)
    && !Repeats(t.a, q, |f|)
  }

  ghost predicate Stray(t: Setting, f: seq<Entry>) {
    exists q :: Parts(t, f, q)
  }

  /** Nothing matches that the leader can reach, except perhaps zero below the follower's snapshot. */
  ghost predicate Apart(t: Setting, f: seq<Entry>) {
    && t.snapshotIndex <= |f| && !Level(f, t.a) && (t.floor > 0 || t.snapshotIndex > 0)
    && forall r :: 0 < r <= |t.a| && t.floor <= r ==> !Matches(t.a, f, t.snapshotIndex, r)
  }

  ghost predicate Hopeless(t: Setting, f: seq<Entry>) {
    Frozen(t, f) || Shifted(t, f) || Stray(t, f) || Apart(t, f)
  }

  lemma HopelessNotLevel(t: Setting, f: seq<Entry>)
    requires Hopeless(t, f)
    ensures !Level(f, t.a)
  {
    if Frozen(t, f) {
      var m :| 0 < m && t.snapshotIndex <= m && Matches(t.a, f, t.snapshotIndex, m) && !AgreeBelow(f, t.a, m);
    } else if Shifted(t, f) {
      var q, p :| Gap(t, f, q, p);
    }
  }

  /** An accepted request keeps what is below it. */
  lemma SentKeeps(t: Setting, f: seq<Entry>, q: nat)
    requires q <= |t.a| && q <= |f|
    ensures q <= |Sent(t, f, q)| && Sent(t, f, q)[..q] == f[..q]
  {
  }

  lemma FrozenStays(t: Setting, f: seq<Entry>, m: nat)
    requires Frozen(t, f) && Top(t, f, m)
    ensures Frozen(t, Sent(t, f, m))
  {
    var m0 :| 0 < m0 && t.snapshotIndex <= m0 && Matches(t.a, f, t.snapshotIndex, m0) && !AgreeBelow(f, t.a, m0);
    var g := Sent(t, f, m);
    assert m0 <= m;
    SentKeeps(t, f, m);
    assert forall i :: 0 <= i < m ==> g[i] == g[..m][i] == f[..m][i] == f[i];
    assert Matches(t.a, g, t.snapshotIndex, m0) && !AgreeBelow(g, t.a, m0);
  }

  /** In a log that repeats with period `d` from `m` on, the last entry is one of the first period. */
  lemma {:induction false} PeriodBack(a: seq<Entry>, m: nat, d: nat, k: nat) returns (i: nat)
    requires 0 < d && m <= k < |a| && Repeats(a, m, m + d)
    ensures m <= i < m + d && i <= k && a[i] == a[k]
    decreases k
  {
    if k < m + d {
      i := k;
    } else {
      i := PeriodBack(a, m, d, k - d);
    }
  }

  /** After a conflict at `m` the follower has the leader's log with the piece from `m` to the
      follower's old end missing. */
  lemma ConflictLeavesGap(t: Setting, f: seq<Entry>, m: nat)
    requires t.snapshotIndex <= m < |f| && m < |t.a| && f[m].term != t.a[m].term && AgreeBelow(f, t.a, m)
    ensures Sent(t, f, m) == if |t.a| <= |f| then t.a[..m] else t.a[..m] + t.a[|f|..]
  {
    assert f[..m] == t.a[..m];
    if |t.a| > |f| {
      assert t.a[m..][|f| - m..] == t.a[|f|..];
    }
  }

  /** At the greatest match, what comes next conflicts. */
  lemma TopConflicts(t: Setting, f: seq<Entry>, m: nat)
    requires Top(t, f, m) && t.snapshotIndex <= m < |f| && m < |t.a|
    ensures f[m].term != t.a[m].term
  {
    assert !Matches(t.a, f, t.snapshotIndex, m + 1);
  }

  /** The gap is a prefix of the leader's log exactly when the tail repeats. */
  lemma GapRepeats(a: seq<Entry>, q: nat, p: nat)
    requires q <= p <= |a|
    ensures AgreeBelow(a[..q] + a[p..], a, q + |a| - p) <==> Repeats(a, q, p)
  {
    var g := a[..q] + a[p..];
    if Repeats(a, q, p) {
      forall i | q <= i < |g|
        ensures g[i] == a[i]
      {
        assert g[i] == a[i + (p - q)];
      }
    }
    if AgreeBelow(g, a, |g|) {
      forall i | q <= i && i + (p - q) < |a|
        ensures a[i] == a[i + (p - q)]
      {
        assert g[i] == a[i + (p - q)];
      }
    }
  }

  lemma GapEnds(t: Setting, f: seq<Entry>, q: nat, p: nat)
    requires Gap(t, f, q, p)
    ensures q < |f| < |t.a| && f[|f| - 1] == t.a[|t.a| - 1] && Matches(t.a, f, t.snapshotIndex, q)
  {
    assert q > 0 ==> f[q - 1] == t.a[q - 1];
  }

  /** If the tail repeated, the follower's end, which is the leader's, would match. */
  lemma EndDoesNotRepeat(t: Setting, f: seq<Entry>, m: nat)
    requires Rising(t.a) && t.snapshotIndex <= m < |f| < |t.a| && f[|f| - 1] == t.a[|t.a| - 1]
    requires !Matches(t.a, f, t.snapshotIndex, |f|)
    ensures !Repeats(t.a, m, |f|)
  {
    if Repeats(t.a, m, |f|) {
      var i := PeriodBack(t.a, m, |f| - m, |t.a| - 1);
    }
  }

  /** The conflict at the greatest match cuts a new gap. */
  lemma CutGap(t: Setting, f: seq<Entry>, m: nat)
    requires Top(t, f, m) && t.snapshotIndex <= m < |f| < |t.a| && AgreeBelow(f, t.a, m) && !Repeats(t.a, m, |f|)
    ensures Shifted(t, Sent(t, f, m))
  {
    TopConflicts(t, f, m);
    ConflictLeavesGap(t, f, m);
    GapRepeats(t.a, m, |f|);
    assert Gap(t, Sent(t, f, m), m, |f|);
  }

  lemma GapStays(t: Setting, f: seq<Entry>, q: nat, p: nat, m: nat)
    requires Rising(t.a) && Gap(t, f, q, p) && Top(t, f, m) && !Frozen(t, f)
    ensures Shifted(t, Sent(t, f, m))
  {
    GapEnds(t, f, q, p);
    assert q <= m;
    assert m > 0 ==> AgreeBelow(f, t.a, m);
    assert !Matches(t.a, f, t.snapshotIndex, |f|);
    EndDoesNotRepeat(t, f, m);
    CutGap(t, f, m);
  }

  lemma StrayShifts(t: Setting, f: seq<Entry>, m: nat)
    requires Stray(t, f) && Top(t, f, m)
    ensures Shifted(t, Sent(t, f, m))
  {
    var q :| Parts(t, f, q);
    assert q == m;
    CutGap(t, f, m);
  }

  lemma ApartStays(t: Setting, f: seq<Entry>, m: nat)
    requires Apart(t, f) && Top(t, f, m)
    ensures Hopeless(t, Sent(t, f, m))
  {
    assert m == 0 && t.floor == 0 && t.snapshotIndex > 0;
    var g := Sent(t, f, 0);
    assert t.a[0..] == t.a;
    if |t.a| <= |f| {
      assert g == f;
    } else {
      assert g == f + t.a[|f|..];
      assert !Matches(t.a, f, t.snapshotIndex, |f|);
      assert g[|f| - 1] == f[|f| - 1] && g[|t.a| - 1] == t.a[|t.a| - 1];
      assert Matches(t.a, g, t.snapshotIndex, |t.a|) && !AgreeBelow(g, t.a, |t.a|);
    }
  }

  /** No accepted request leads out of the hopeless logs. */
  lemma HopelessStays(t: Setting, f: seq<Entry>, m: nat)
    requires Rising(t.a) && Hopeless(t, f) && Top(t, f, m)
    ensures Hopeless(t, Sent(t, f, m))
  {
    if Frozen(t, f) {
      FrozenStays(t, f, m);
    } else if Shifted(t, f) {
      var q, p :| Gap(t, f, q, p);
      GapStays(t, f, q, p, m);
    } else if Stray(t, f) {
      StrayShifts(t, f, m);
    } else {
      ApartStays(t, f, m);
    }
  }

  // ---------------------------------------------------------------- over any number of exchanges

  /** The log is hopeless and the cursor has passed only positions that do not match. */
  ghost predicate Doomed(t: Setting, v: View) {
    InLog(t, v) && Hopeless(t, v.log) && NoMatch(t, v.log, v.cursor, |t.a| + 1)
  }

  ghost function DoomedIn(t: Setting): View -> bool {
    (v: View) => Doomed(t, v)
  }

  lemma HitSends(t: Setting, v: View)
    requires Hits(t, v) && NoMatch(t, v.log, v.cursor, |t.a| + 1)
    ensures Top(t, v.log, v.cursor - 1) && Probed(t, v) == View(Sent(t, v.log, v.cursor - 1), |t.a| + 1)
  {
  }

  lemma MissPasses(t: Setting, v: View)
    requires InLog(t, v) && !Hits(t, v) && NoMatch(t, v.log, v.cursor, |t.a| + 1)
    ensures var w := Probed(t, v);
            InLog(t, w) && w.log == v.log && NoMatch(t, w.log, w.cursor, |t.a| + 1)
  {
  }

  lemma DoomedStays(t: Setting, v: View)
    requires Rising(t.a) && Doomed(t, v)
    ensures Doomed(t, Probed(t, v))
  {
    if Hits(t, v) {
      HitSends(t, v);
      HopelessStays(t, v.log, v.cursor - 1);
    } else {
      MissPasses(t, v);
    }
  }

  lemma DoomedNeverLevels(j: nat, t: Setting, p: Pair, v: View)
    requires Rising(t.a) && Sees(j, t, p, v) && Doomed(t, v)
    ensures !Levels(p, j, t.a)
  {
    forall k: nat
      ensures !Level(Rounds(p, j, k).log, t.a)
    {
      forall w | DoomedIn(t)(w)
        ensures DoomedIn(t)(ProbeStep(t)(w))
      {
        DoomedStays(t, w);
      }
      IterateKeeps(ProbeStep(t), DoomedIn(t), v, k);
      HopelessNotLevel(t, ProbedTimes(t, v, k).log);
      RoundsSee(j, t, p, v, k);
    }
  }

  /** Some number of exchanges leads from `f` to `g`, with the cursor past the leader's log before
      and after. */
  ghost predicate LeadsTo(t: Setting, f: seq<Entry>, g: seq<Entry>) {
    exists k: nat :: Arrives(t, f, g, k)
  }

  ghost predicate Arrives(t: Setting, f: seq<Entry>, g: seq<Entry>, k: nat) {
    ProbedTimes(t, View(f, |t.a| + 1), k) == View(g, |t.a| + 1)
  }

  lemma LeadsOn(t: Setting, f: seq<Entry>, g: seq<Entry>, h: seq<Entry>)
    requires LeadsTo(t, f, g) && LeadsTo(t, g, h)
    ensures LeadsTo(t, f, h)
  {
    var k: nat :| Arrives(t, f, g, k);
    var l: nat :| Arrives(t, g, h, l);
    IterateAdds(ProbeStep(t), View(f, |t.a| + 1), k, l);
    assert Arrives(t, f, h, k + l);
  }

  /** Probing down to the greatest match and sending from there. */
  lemma ProbesAndSends(t: Setting, v: View, q: nat)
    requires InLog(t, v) && GreatestMatch(t, v, q)
    ensures ProbedTimes(t, v, v.cursor - q) == View(Sent(t, v.log, q), |t.a| + 1)
  {
    var k := v.cursor - 1 - q;
    Descends(t, v, q);
    IterateAdds(ProbeStep(t), v, k, 1);
    var w := View(v.log, q + 1);
    assert Iterate(ProbeStep(t), w, 1) == Iterate(ProbeStep(t), ProbeStep(t)(w), 0);
    assert Hits(t, w);
  }

  lemma SendLeads(t: Setting, f: seq<Entry>, q: nat)
    requires t.floor <= |t.a| && Top(t, f, q)
    ensures LeadsTo(t, f, Sent(t, f, q))
  {
    ProbesAndSends(t, View(f, |t.a| + 1), q);
    assert Arrives(t, f, Sent(t, f, q), |t.a| + 1 - q);
  }

  /** A follower that holds a prefix gets the rest. */
  lemma PrefixCatchesUp(t: Setting, n: nat)
    requires t.floor <= n <= |t.a| && t.snapshotIndex <= n
    ensures LeadsTo(t, t.a[..n], t.a)
  {
    var f := t.a[..n];
    assert n > 0 ==> f[n - 1] == t.a[n - 1];
    assert Top(t, f, n);
    SendLeads(t, f, n);
    assert Sent(t, f, n) == f + t.a[n..] == t.a;
  }

  /** What the leader's first accepted request and later probing can make good: the logs agree below
      the match, and the follower's log is no shorter than the leader's or the leader's tail
      happens to repeat with the length that is cut. */
  ghost predicate Repairable(a: seq<Entry>, f: seq<Entry>, q: nat)
    requires q <= |f|
  {
    AgreeBelow(f, a, q) && (|a| <= |f| || Repeats(a, q, |f|))
  }

  lemma RepairLeads(t: Setting, f: seq<Entry>, q: nat) returns (g: seq<Entry>)
    requires t.floor <= |t.a| && Top(t, f, q) && t.snapshotIndex <= q <= |f| && Repairable(t.a, f, q)
    ensures LeadsTo(t, f, g) && Level(g, t.a)
  {
    if q == |t.a| {
      g := f;
      assert Arrives(t, f, f, 0);
    } else {
      g := t.a;
      SendLeads(t, f, q);
      var n := if q == |f| then |t.a| else if |t.a| <= |f| then q else q + |t.a| - |f|;
      SentIsPrefix(t, f, q, n);
      PrefixCatchesUp(t, n);
      LeadsOn(t, f, t.a[..n], t.a);
    }
  }

  lemma SentIsPrefix(t: Setting, f: seq<Entry>, q: nat, n: nat)
    requires Top(t, f, q) && t.snapshotIndex <= q <= |f| && q < |t.a| && Repairable(t.a, f, q)
    requires n == if q == |f| then |t.a| else if |t.a| <= |f| then q else q + |t.a| - |f|
    ensures Sent(t, f, q) == t.a[..n]
  {
    if q == |f| {
      assert Sent(t, f, q) == f + t.a[q..];
      assert f == t.a[..q];
      assert t.a[..q] + t.a[q..] == t.a == t.a[..n];
    } else {
      TopConflicts(t, f, q);
      ConflictLeavesGap(t, f, q);
      if |t.a| > |f| {
        GapRepeats(t.a, q, |f|);
      }
    }
  }

  lemma LeadingLevels(p: Pair, j: nat, a: seq<Entry>, g: seq<Entry>)
    requires Probing(p, j, a) && p.leader.sentLengths[j] == |a| + 1
    requires LeadsTo(SettingOf(p, a), p.log, g) && Level(g, a)
    ensures Levels(p, j, a)
  {
    var t, v := SettingOf(p, a), ViewOf(p, j);
    var k: nat :| Arrives(t, p.log, g, k);
    RoundsSee(j, t, p, v, k);
  }

  lemma UnrepairableIsHopeless(t: Setting, f: seq<Entry>, q: nat)
    requires Top(t, f, q) && t.snapshotIndex <= q <= |f| && !Repairable(t.a, f, q)
    ensures Hopeless(t, f)
  {
    if AgreeBelow(f, t.a, q) {
      assert q < |f|;
      assert Parts(t, f, q);
    }
  }

  /** With the cursor past the leader's log, repeated exchanges bring the follower level if and only
      if the logs agree below the greatest match and either the follower's log is at least as long
      as the leader's or the leader's tail repeats with the length that is cut. */
  lemma CatchUpIff(p: Pair, j: nat, a: seq<Entry>, q: nat)
    requires Probing(p, j, a) && Rising(a) && p.leader.sentLengths[j] == |a| + 1
    requires Top(SettingOf(p, a), p.log, q) && p.follower.lastIndex <= q <= |p.log|
    ensures Levels(p, j, a) <==> Repairable(a, p.log, q)
  {
    var t, v := SettingOf(p, a), ViewOf(p, j);
    if Repairable(a, p.log, q) {
      var g := RepairLeads(t, p.log, q);
      LeadingLevels(p, j, a, g);
    } else {
      UnrepairableIsHopeless(t, p.log, q);
      DoomedNeverLevels(j, t, p, v);
    }
  }

  /** For logs that match, the length decides unless the tail repeats: a longer or equally long
      follower is repaired, however much of its tail conflicts; a shorter one that conflicts is not. */
  lemma MatchingLogsCatchUpIff(p: Pair, j: nat, a: seq<Entry>, q: nat)
    requires Probing(p, j, a) && Rising(a) && p.leader.sentLengths[j] == |a| + 1 && LogMatching(a, p.log)
    requires Top(SettingOf(p, a), p.log, q) && p.follower.lastIndex <= q <= |p.log|
    ensures Levels(p, j, a) <==> |a| <= |p.log| || Repeats(a, q, |p.log|)
  {
    assert q > 0 ==> AgreeBelow(a, p.log, q);
    CatchUpIff(p, j, a, q);
  }

  /** Where nothing matches that the leader can reach and the follower can tell, repeated exchanges
      never bring the follower level unless it is so already. */
  lemma NoMatchCatchUpIff(p: Pair, j: nat, a: seq<Entry>)
    requires Probing(p, j, a) && Rising(a) && p.leader.sentLengths[j] == |a| + 1
    requires p.leader.lastIndex > 0 || p.follower.lastIndex > 0
    requires forall r :: 0 < r <= |a| && p.leader.lastIndex <= r ==> !Matches(a, p.log, p.follower.lastIndex, r)
    ensures Levels(p, j, a) <==> Level(p.log, a)
  {
    if Level(p.log, a) {
      assert Rounds(p, j, 0) == p;
    } else {
      DoomedNeverLevels(j, SettingOf(p, a), p, ViewOf(p, j));
    }
  }

  lemma StopResetsView(t: Setting, v: View, k: nat, q: nat)
    requires InLog(t, v) && Stops(t, v, k, q)
    ensures q <= |t.a| && ProbedTimes(t, v, k + 1) == View(Sent(t, v.log, q), |t.a| + 1)
  {
    StopPasses(t, v, k, q);
    ProbesAndSends(t, v, q);
  }

  /** From any cursor, the first accepted request leaves the follower with what it sends and the
      cursor past the leader's log. */
  lemma FirstStopResets(p: Pair, j: nat, a: seq<Entry>, k: nat, q: nat)
    requires Probing(p, j, a) && StopsAt(p, j, k, q)
    ensures q <= |a|
    ensures Sees(j, SettingOf(p, a), Rounds(p, j, k + 1), View(Sent(SettingOf(p, a), p.log, q), |a| + 1))
  {
    var t, v := SettingOf(p, a), ViewOf(p, j);
    StopsSee(j, t, p, v, k, q);
    StopResetsView(t, v, k, q);
    RoundsSee(j, t, p, v, k + 1);
  }

  /** Throughout a leader's term its log keeps rising if it did at the start, within its term. */
  lemma {:induction false} ReignKeepsRising(c: Reign.Cluster, steps: seq<Reign.Step>, d: Reign.Cluster)
    requires Reign.Leads(c, steps, d) && Rising(c.full) && (c.full != [] ==> c.full[|c.full| - 1].term <= c.term)
    ensures Rising(d.full) && d.term == c.term && (d.full != [] ==> d.full[|d.full| - 1].term <= d.term)
    decreases |steps|
  {
    if steps != [] {
      ReignKeepsRising(Reign.Next(c, steps[0]), steps[1..], d);
    }
  }

  // ---------------------------------------------------------------- two logs each

  function Write(term: int, key: int): Entry {
    Entry(term, Message(PutMsg, key, None, [], "", ""))
  }

  /** A leader of term 2 with the log `a` and a follower with the log `f`, neither compacted. */
  lemma SomePair(a: seq<Entry>, f: seq<Entry>, cursor: nat) returns (p: Pair)
    requires 0 < cursor <= |a| + 1
    ensures Probing(p, 1, a) && p.log == f && SettingOf(p, a) == Setting(a, 0, 0) && ViewOf(p, 1) == View(f, cursor)
  {
    p := Pair(Node(0, 2, 2, NOBODY, a, 0, Leader, 0, {}, [0, cursor], [0, 0], 0, 0, 1000, [], [], false),
              Node(1, 2, 1, NOBODY, f, 0, Follower, NOBODY, {}, [0, 0], [0, 0], 0, 0, 1000, [], [], false), f);
  }

  lemma ShorterLogs(a: seq<Entry>, f: seq<Entry>)
    requires a == [Write(1, 0), Write(2, 1), Write(2, 2), Write(2, 3)] && f == [Write(1, 0), Write(1, 9)]
    ensures LogMatching(a, f) && Rising(a) && Top(Setting(a, 0, 0), f, 1) && !Repeats(a, 1, |f|)
    ensures Sent(Setting(a, 0, 0), f, 1) == [Write(1, 0), Write(2, 2), Write(2, 3)]
  {
    assert a[1..][1..] == [Write(2, 2), Write(2, 3)];
    assert AgreeBelow(a, f, 1);
    assert a[1] != a[1 + 1];
  }

  /** A follower of two entries that parts from a leader of four at the second is given the third and
      fourth as its second and third, and is never levelled. */
  lemma ShorterFollowerNeverLevels()
    ensures exists p, a :: Probing(p, 1, a) && p.leader.sentLengths[1] == |a| + 1 && LogMatching(a, p.log) && Rising(a)
                           && !Levels(p, 1, a)
  {
    var a, f := [Write(1, 0), Write(2, 1), Write(2, 2), Write(2, 3)], [Write(1, 0), Write(1, 9)];
    ShorterLogs(a, f);
    var p := SomePair(a, f, 5);
    MatchingLogsCatchUpIff(p, 1, a, 1);
  }

  lemma FallingLogs(t: Setting)
    requires t == Setting([Write(1, 0), Write(2, 1), Write(1, 0)], 0, 0)
    ensures Top(t, [Write(3, 9)], 0) && Sent(t, [Write(3, 9)], 0) == [Write(2, 1), Write(1, 0)]
    ensures Top(t, [Write(2, 1), Write(1, 0)], 0) && Sent(t, [Write(2, 1), Write(1, 0)], 0) == [Write(1, 0)]
    ensures !Repeats(t.a, 0, 1)
  {
    assert t.a[0..][1..] == [Write(2, 1), Write(1, 0)] && t.a[0..][2..] == [Write(1, 0)];
    assert t.a[0] != t.a[0 + 1];
  }

  lemma FallingLeads(t: Setting)
    requires t == Setting([Write(1, 0), Write(2, 1), Write(1, 0)], 0, 0)
    ensures LeadsTo(t, [Write(3, 9)], t.a)
  {
    FallingLogs(t);
    SendLeads(t, [Write(3, 9)], 0);
    SendLeads(t, [Write(2, 1), Write(1, 0)], 0);
    LeadsOn(t, [Write(3, 9)], [Write(2, 1), Write(1, 0)], [Write(1, 0)]);
    assert t.a[..1] == [Write(1, 0)];
    PrefixCatchesUp(t, 1);
    LeadsOn(t, [Write(3, 9)], [Write(1, 0)], t.a);
  }

  /** Where terms fall along the leader's log, a shorter follower can be levelled although the tail
      does not repeat with the length that is cut. */
  lemma FallingTermsCanLevel()
    ensures exists p, a :: Probing(p, 1, a) && p.leader.sentLengths[1] == |a| + 1 && Levels(p, 1, a)
                           && Top(SettingOf(p, a), p.log, 0) && |p.log| < |a| && !Repeats(a, 0, |p.log|)
  {
    var a, f := [Write(1, 0), Write(2, 1), Write(1, 0)], [Write(3, 9)];
    FallingLogs(Setting(a, 0, 0));
    FallingLeads(Setting(a, 0, 0));
    var p := SomePair(a, f, 4);
    LeadingLevels(p, 1, a, a);
  }

  lemma HiddenConflict(a: seq<Entry>, f: seq<Entry>)
    requires a == [Write(1, 0), Write(1, 1), Write(2, 2)] && f == [Write(1, 0), Write(1, 1), Write(1, 9)]
    ensures LogMatching(a, f) && Matches(a, f, 0, 1) && !ShowsFirst(a, f, 1) && Sent(Setting(a, 0, 0), f, 1) == f
  {
    assert AgreeBelow(a, f, 1) && AgreeBelow(a, f, 2);
    assert f[2] != a[2];
  }

  /** A cursor that starts below the leader's end and is accepted at once hides the conflict: the first
      entry sent agrees, the second does not, and nothing is cut. */
  lemma FirstRequestHidesConflict()
    ensures exists p, a :: Probing(p, 1, a) && LogMatching(a, p.log) && StopsAt(p, 1, 0, 1)
                           && !ShowsFirst(a, p.log, 1) && |a| >= 1 && Sent(SettingOf(p, a), p.log, 1) == p.log
  {
    var a, f := [Write(1, 0), Write(1, 1), Write(2, 2)], [Write(1, 0), Write(1, 1), Write(1, 9)];
    HiddenConflict(a, f);
    var p := SomePair(a, f, 2);
    ProbeStopsAtGreatestMatch(p, 1, a, 0, 1);
  }

  /** The same with the follower's log compacted to its end. */
  lemma CompactedPair(a: seq<Entry>, f: seq<Entry>, cursor: nat) returns (p: Pair)
    requires 0 < cursor <= |a| + 1 && f != []
    ensures Probing(p, 1, a) && p.log == f && SettingOf(p, a) == Setting(a, 0, |f|) && ViewOf(p, 1) == View(f, cursor)
  {
    p := Pair(Node(0, 2, 2, NOBODY, a, 0, Leader, 0, {}, [0, cursor], [0, 0], 0, 0, 1000, [], [], false),
              Node(1, 2, 1, NOBODY, [], |f|, Follower, NOBODY, {}, [0, 0], [0, 0], |f|, f[|f| - 1].term, 1000,
                   [], [], false), f);
  }

  lemma CompactedConflict(a: seq<Entry>, f: seq<Entry>)
    requires a == [Write(1, 0), Write(2, 1)] && f == [Write(1, 0), Write(1, 9)]
    ensures LogMatching(a, f) && GreatestMatch(Setting(a, 0, 2), View(f, 3), 0) && !ShowsFirst(a, f, 0)
  {
    assert AgreeBelow(a, f, 1);
    assert f[1] != a[1];
  }

  /** A stop at zero below the follower's snapshot hides the conflict too: the follower cannot tell that
      the first position matches. */
  lemma CompactionHidesConflict()
    ensures exists p, a :: Probing(p, 1, a) && LogMatching(a, p.log) && StopsAt(p, 1, 2, 0) && !ShowsFirst(a, p.log, 0)
  {
    var a, f := [Write(1, 0), Write(2, 1)], [Write(1, 0), Write(1, 9)];
    CompactedConflict(a, f);
    var p := CompactedPair(a, f, 3);
    ProbeStopsAtGreatestMatch(p, 1, a, 2, 0);
  }
}

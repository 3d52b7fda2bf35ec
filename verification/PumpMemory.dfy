/**
 * What the pump remembers (deploy/hermes-dispatch/mini-hermes-dispatch.py, `pump`): the delivered cache and the
 * announcement cache as functions of everything that happened, stated without the dictionaries.
 */
module PumpMemory {
  import opened Common
  import opened DeliveryPump

  // ------------------------------------------------------------------ dictionaries that forget nothing

  function KeySet<K(==), V>(d: Ordered<K, V>): set<K> {
    set i | 0 <= i < |d| :: d[i].0
  }

  lemma KeySetConcat<K, V>(a: Ordered<K, V>, b: Ordered<K, V>)
    ensures KeySet(a + b) == KeySet(a) + KeySet(b)
  {
    var c := a + b;
    forall k | k in KeySet(a) + KeySet(b) ensures k in KeySet(c) {
      if k in KeySet(a) {
        var i :| 0 <= i < |a| && a[i].0 == k;
        assert c[i].0 == k;
      } else {
        var i :| 0 <= i < |b| && b[i].0 == k;
        assert c[|a| + i].0 == k;
      }
    }
  }

  lemma OneKey<K, V>(k: K, v: V)
    ensures KeySet([(k, v)]) == {k}
  {
    assert [(k, v)][0].0 == k;
  }

  lemma {:induction false} KeysCount<K(!new), V>(d: Ordered<K, V>)
    requires DistinctKeys(d)
    ensures |KeySet(d)| == |d|
    decreases |d|
  {
    if d != [] {
      var front, last := d[..|d| - 1], Last(d);
      KeysCount(front);
      assert d == front + [last];
      KeySetConcat(front, [last]);
      assert KeySet([last]) == {last.0};
      assert last.0 !in KeySet(front);
    }
  }

  lemma {:induction false} WithoutConcat<K, V>(a: Ordered<K, V>, b: Ordered<K, V>, k: K)
    ensures Without(a + b, k) == Without(a, k) + Without(b, k)
  {
    if a == [] {
      assert a + b == b;
    } else {
      assert (a + b)[1..] == a[1..] + b;
      WithoutConcat(a[1..], b, k);
    }
  }

  lemma {:induction false} WithoutKeySet<K(!new), V>(d: Ordered<K, V>, k: K)
    ensures KeySet(Without(d, k)) == KeySet(d) - {k}
  {
    if d != [] {
      WithoutKeySet(d[1..], k);
      assert d == [d[0]] + d[1..];
      KeySetConcat([d[0]], d[1..]);
      assert KeySet([d[0]]) == {d[0].0};
      if d[0].0 == k {
        assert Without(d, k) == Without(d[1..], k);
      } else {
        KeySetConcat([d[0]], Without(d[1..], k));
      }
    }
  }

  lemma {:induction false} WithoutAbsent<K(!new), V>(d: Ordered<K, V>, k: K)
    requires k !in KeySet(d)
    ensures Without(d, k) == d
  {
    if d != [] {
      assert d == [d[0]] + d[1..];
      KeySetConcat([d[0]], d[1..]);
      assert d[0].0 in KeySet([d[0]]);
      WithoutAbsent(d[1..], k);
    }
  }

  /** Forgetting the oldest before an assignment or only after it comes to the same. */
  lemma TrimPut<K(!new), V>(d: Ordered<K, V>, k: K, v: V)
    requires DistinctKeys(d)
    ensures Trimmed(Put(Trimmed(d), k, v)) == Trimmed(Put(d, k, v))
  {
    if |d| > CACHE {
      var a, b := d[..|d| - CACHE], d[|d| - CACHE..];
      assert d == a + b;
      WithoutConcat(a, b, k);
      WithoutFacts(a, k);
      if k in KeySet(b) {
        WithoutOne(b, k);
        KeepsLast(Without(a, k), Without(b, k) + [(k, v)]);
        assert Put(d, k, v) == Without(a, k) + (Without(b, k) + [(k, v)]);
      } else {
        WithoutAbsent(b, k);
        assert Put(d, k, v) == Without(a, k) + (b + [(k, v)]);
        KeepsLast(Without(a, k), b + [(k, v)]);
      }
    }
  }

  /** A suffix that is long enough decides what is kept. */
  lemma KeepsLast<K, V>(a: Ordered<K, V>, b: Ordered<K, V>)
    requires CACHE <= |b|
    ensures Trimmed(a + b) == Trimmed(b)
  {
  }

  lemma {:induction false} WithoutOne<K(!new), V>(d: Ordered<K, V>, k: K)
    requires DistinctKeys(d) && k in KeySet(d)
    ensures |Without(d, k)| == |d| - 1
  {
    assert d == [d[0]] + d[1..];
    KeySetConcat([d[0]], d[1..]);
    assert KeySet([d[0]]) == {d[0].0};
    if d[0].0 == k {
      assert k !in KeySet(d[1..]);
      WithoutAbsent(d[1..], k);
    } else {
      WithoutOne(d[1..], k);
    }
  }

  // ------------------------------------------------------------------ deliveries

  /** Every delivered path with its latest digest, the least recently delivered first. */
  function History(outcomes: seq<Outcome>): Ordered<Path, Digest> {
    if outcomes == [] then []
    else
      var before, o := History(outcomes[..|outcomes| - 1]), Last(outcomes);
      if o.report.ok then Put(before, o.path, o.report.digest) else before
  }

  lemma PutIsDistinct<K(!new), V>(d: Ordered<K, V>, k: K, v: V)
    requires DistinctKeys(d)
    ensures DistinctKeys(Put(d, k, v))
  {
    WithoutFacts(d, k);
  }

  /** The cache is the end of the history. */
  lemma {:induction false} DeliveredIsRecent(outcomes: seq<Outcome>)
    ensures DistinctKeys(History(outcomes)) && Delivered([], outcomes) == Trimmed(History(outcomes))
  {
    if outcomes != [] {
      var front, o := outcomes[..|outcomes| - 1], Last(outcomes);
      DeliveredIsRecent(front);
      PutIsDistinct(History(front), o.path, o.report.digest);
      TrimPut(History(front), o.path, o.report.digest);
    }
  }

  /** The latest delivery of a path is the `k`-th outcome. */
  ghost predicate LastDelivered(outcomes: seq<Outcome>, path: Path, k: nat) {
    && k < |outcomes| && outcomes[k].path == path && outcomes[k].report.ok
    && forall j :: k < j < |outcomes| && outcomes[j].report.ok ==> outcomes[j].path != path
  }

  /** The paths delivered after the `k`-th outcome. */
  ghost function DeliveredSince(outcomes: seq<Outcome>, k: nat): set<Path> {
    set j | k < j < |outcomes| && outcomes[j].report.ok :: outcomes[j].path
  }

  lemma SinceGrows(outcomes: seq<Outcome>, k: nat)
    requires k + 1 < |outcomes|
    ensures var front, o := outcomes[..|outcomes| - 1], Last(outcomes);
            DeliveredSince(outcomes, k) == DeliveredSince(front, k) + if o.report.ok then {o.path} else {}
  {
    var front, o := outcomes[..|outcomes| - 1], Last(outcomes);
    forall p | p in DeliveredSince(outcomes, k)
      ensures p in DeliveredSince(front, k) + if o.report.ok then {o.path} else {}
    {
      var j :| k < j < |outcomes| && outcomes[j].report.ok && outcomes[j].path == p;
      if j < |front| { assert front[j] == outcomes[j]; }
    }
    forall p | p in DeliveredSince(front, k) ensures p in DeliveredSince(outcomes, k) {
      var j :| k < j < |front| && front[j].report.ok && front[j].path == p;
      assert outcomes[j] == front[j];
    }
  }

  /** In the history a path's latest delivery is followed by exactly the paths delivered since. */
  lemma {:induction false} HistorySplits(outcomes: seq<Outcome>, path: Path, k: nat)
    returns (a: Ordered<Path, Digest>, b: Ordered<Path, Digest>)
    requires LastDelivered(outcomes, path, k)
    ensures History(outcomes) == a + [(path, outcomes[k].report.digest)] + b
    ensures KeySet(b) == DeliveredSince(outcomes, k)
    decreases |outcomes|
  {
    var front, o := outcomes[..|outcomes| - 1], Last(outcomes);
    if k == |front| {
      a, b := Without(History(front), path), [];
      assert DeliveredSince(outcomes, k) == {};
      assert a + [(path, o.report.digest)] + b == a + [(path, o.report.digest)];
    } else {
      assert front[k] == outcomes[k];
      forall j | k < j < |front| && front[j].report.ok ensures front[j].path != path {
        assert front[j] == outcomes[j];
      }
      a, b := HistorySplits(front, path, k);
      SinceGrows(outcomes, k);
      if o.report.ok {
        assert o.path != path;
        WithoutMiddle(a, (path, front[k].report.digest), b, o.path);
        KeySetConcat(Without(b, o.path), [(o.path, o.report.digest)]);
        WithoutKeySet(b, o.path);
        a, b := Without(a, o.path), Without(b, o.path) + [(o.path, o.report.digest)];
        OneKey(o.path, o.report.digest);
      }
    }
  }

  lemma WithoutMiddle<K(!new), V>(a: Ordered<K, V>, e: (K, V), b: Ordered<K, V>, k: K)
    requires e.0 != k
    ensures Without(a + [e] + b, k) == Without(a, k) + [e] + Without(b, k)
  {
    WithoutConcat(a + [e], b, k);
    WithoutConcat(a, [e], k);
    assert Without([e], k) == [e];
  }

  /** An entry of the end of a dictionary, or not. */
  lemma LookupTrimmed<K(!new), V>(d: Ordered<K, V>, a: Ordered<K, V>, e: (K, V), b: Ordered<K, V>)
    requires DistinctKeys(d) && d == a + [e] + b
    ensures Lookup(Trimmed(d), e.0) == if |b| < CACHE then Some(e.1) else None
  {
    var t := Trimmed(d);
    assert d[|a|] == e;
    assert DistinctKeys(t);
    if |b| < CACHE {
      assert t[|t| - |b| - 1] == e;
      LookupIsMembership(t, e.0, e.1);
    } else if Lookup(t, e.0).Some? {
      var v := Lookup(t, e.0).value;
      LookupIsMembership(t, e.0, v);
    }
  }

  /** The cache remembers a path exactly while fewer than 65536 other paths have been delivered since, and then
      the digest of its latest delivery. */
  lemma RememberedExactly(outcomes: seq<Outcome>, path: Path, k: nat)
    requires LastDelivered(outcomes, path, k)
    ensures Lookup(Delivered([], outcomes), path) ==
            if |DeliveredSince(outcomes, k)| < CACHE then Some(outcomes[k].report.digest) else None
  {
    DeliveredIsRecent(outcomes);
    var a, b := HistorySplits(outcomes, path, k);
    var d := History(outcomes);
    assert DistinctKeys(b) by {
      assert forall i :: 0 <= i < |b| ==> d[|a| + 1 + i] == b[i];
    }
    KeysCount(b);
    LookupTrimmed(d, a, (path, outcomes[k].report.digest), b);
  }

  lemma {:induction false} DeliveredConcat(completed: Ordered<Path, Digest>, a: seq<Outcome>, b: seq<Outcome>)
    ensures Delivered(Delivered(completed, a), b) == Delivered(completed, a + b)
    decreases |b|
  {
    if b == [] {
      assert a + b == a;
    } else {
      assert (a + b)[..|a + b| - 1] == a + b[..|b| - 1];
      DeliveredConcat(completed, a, b[..|b| - 1]);
    }
  }

  /** Over a run the cache is that of all its outcomes. */
  lemma {:induction false} RunRemembers(ps: seq<Poll>)
    ensures AfterPolls(FRESH, ps).completed == Delivered([], Outcomes(ps))
  {
    if ps != [] {
      RunRemembers(ps[..|ps| - 1]);
      DeliveredConcat([], Outcomes(ps[..|ps| - 1]), Last(ps).outcomes);
    }
  }

  /** While a delivery is remembered, its path is not dispatched again at that digest. */
  lemma DeliveredIsNotDispatchedAgain(ps: seq<Poll>, w: World, path: Path, k: nat, j: Job)
    requires Distinct(w.homes) && LastDelivered(Outcomes(ps), path, k) && |DeliveredSince(Outcomes(ps), k)| < CACHE
    requires j in ScanOf(AfterPolls(FRESH, ps), w).batch && j.path == path
    ensures j.digest != Outcomes(ps)[k].report.digest
  {
    var m := AfterPolls(FRESH, ps);
    RunRemembers(ps);
    RememberedExactly(Outcomes(ps), path, k);
    PollLosesNothing(w, m.completed, m.cursors, m.offset);
  }

  // ------------------------------------------------------------------ announcements

  ghost predicate LastReported(outcomes: seq<Outcome>, path: Path, k: nat) {
    && k < |outcomes| && outcomes[k].path == path
    && forall j :: k < j < |outcomes| ==> outcomes[j].path != path
  }

  ghost function PathsOf(outcomes: seq<Outcome>): set<Path> {
    set i | 0 <= i < |outcomes| :: outcomes[i].path
  }

  lemma PathsGrow(outcomes: seq<Outcome>)
    requires outcomes != []
    ensures PathsOf(outcomes) == PathsOf(outcomes[..|outcomes| - 1]) + {Last(outcomes).path}
  {
    var front := outcomes[..|outcomes| - 1];
    forall p | p in PathsOf(outcomes) ensures p in PathsOf(front) + {Last(outcomes).path} {
      var i :| 0 <= i < |outcomes| && outcomes[i].path == p;
      if i < |front| { assert front[i] == outcomes[i]; }
    }
    forall p | p in PathsOf(front) ensures p in PathsOf(outcomes) {
      var i :| 0 <= i < |front| && front[i].path == p;
      assert outcomes[i] == front[i];
    }
  }

  lemma {:induction false} AnnouncedKeys(outcomes: seq<Outcome>)
    ensures DistinctKeys(Announced([], outcomes)) && KeySet(Announced([], outcomes)) <= PathsOf(outcomes)
    decreases |outcomes|
  {
    if outcomes != [] {
      var front, o := outcomes[..|outcomes| - 1], Last(outcomes);
      AnnouncedKeys(front);
      PathsGrow(outcomes);
      var d := Announced([], front);
      PutTrimmedFacts(d, o.path, o.report);
      forall k | k in KeySet(Trimmed(Put(d, o.path, o.report))) ensures k in PathsOf(outcomes) {
        var r := Trimmed(Put(d, o.path, o.report));
        var i :| 0 <= i < |r| && r[i].0 == k;
        assert r[i] in r;
        if r[i] != (o.path, o.report) {
          var j :| 0 <= j < |d| && d[j] == r[i];
          assert k in KeySet(d);
        }
      }
    }
  }

  /** What is kept as a path's report is its latest one; with at most 65536 paths none is missing. */
  lemma {:induction false} ReportedIsLatest(outcomes: seq<Outcome>, path: Path, k: nat)
    requires LastReported(outcomes, path, k)
    ensures var kept := Lookup(Announced([], outcomes), path);
            && (kept == None || kept == Some(outcomes[k].report))
            && (|PathsOf(outcomes)| <= CACHE ==> kept == Some(outcomes[k].report))
    decreases |outcomes|
  {
    var front, o := outcomes[..|outcomes| - 1], Last(outcomes);
    var d := Announced([], front);
    AnnouncedKeys(front);
    AnnouncedKeys(outcomes);
    PutTrimmedFacts(d, o.path, o.report);
    if k < |front| {
      assert front[k] == outcomes[k];
      forall j | k < j < |front| ensures front[j].path != path { assert front[j] == outcomes[j]; }
      ReportedIsLatest(front, path, k);
      PathsGrow(outcomes);
      Fewer(PathsOf(front), PathsOf(outcomes));
      if Lookup(d, o.path) != Some(o.report) {
        AnotherIsKept(d, o.path, o.report, path, PathsOf(outcomes));
      }
    }
  }

  /** Recording one path changes another's entry at most by evicting it, and does not while there is room. */
  lemma AnotherIsKept<V(!new)>(d: Ordered<Path, V>, k: Path, v: V, path: Path, paths: set<Path>)
    requires DistinctKeys(d) && path != k && KeySet(d) <= paths && k in paths
    ensures var kept := Lookup(Trimmed(Put(d, k, v)), path);
            (kept == None || kept == Lookup(d, path)) && (|paths| <= CACHE ==> kept == Lookup(d, path))
  {
    var r := Trimmed(Put(d, k, v));
    PutTrimmedFacts(d, k, v);
    if Lookup(r, path).Some? {
      LookupIsMembership(r, path, Lookup(r, path).value);
      LookupIsMembership(d, path, Lookup(r, path).value);
    } else if |paths| <= CACHE && Lookup(d, path).Some? {
      PutFits(d, k, v, paths);
      WithoutFacts(d, k);
      LookupIsMembership(d, path, Lookup(d, path).value);
      LookupIsMembership(r, path, Lookup(d, path).value);
    }
  }

  lemma PutFits<V(!new)>(d: Ordered<Path, V>, k: Path, v: V, paths: set<Path>)
    requires DistinctKeys(d) && KeySet(d) <= paths && k in paths && |paths| <= CACHE
    ensures Trimmed(Put(d, k, v)) == Put(d, k, v)
  {
    PutIsDistinct(d, k, v);
    KeysCount(Put(d, k, v));
    WithoutKeySet(d, k);
    KeySetConcat(Without(d, k), [(k, v)]);
    OneKey(k, v);
    Fewer(KeySet(Put(d, k, v)), paths);
  }

  lemma {:induction false} Fewer<T>(a: set<T>, b: set<T>)
    requires a <= b
    ensures |a| <= |b|
  {
    if a != {} {
      var x :| x in a;
      Fewer(a - {x}, b - {x});
    }
  }

  lemma {:induction false} AnnouncedConcat(reported: Ordered<Path, Report>, a: seq<Outcome>, b: seq<Outcome>)
    ensures Announced(Announced(reported, a), b) == Announced(reported, a + b)
    decreases |b|
  {
    if b == [] {
      assert a + b == a;
    } else {
      assert (a + b)[..|a + b| - 1] == a + b[..|b| - 1];
      AnnouncedConcat(reported, a, b[..|b| - 1]);
    }
  }

  /** Over a run the announcement cache is that of all its outcomes. */
  lemma {:induction false} RunReports(ps: seq<Poll>)
    ensures AfterPolls(FRESH, ps).reported == Announced([], Outcomes(ps))
  {
    if ps != [] {
      RunReports(ps[..|ps| - 1]);
      AnnouncedConcat([], Outcomes(ps[..|ps| - 1]), Last(ps).outcomes);
    }
  }

  /** An outcome goes unannounced only if it repeats its path's latest report; with at most 65536 paths it is
      announced exactly when it does not. */
  lemma NewsIsAnnounced(outcomes: seq<Outcome>, o: Outcome, k: nat)
    requires LastReported(outcomes, o.path, k)
    ensures !News(Announced([], outcomes), o) ==> outcomes[k].report == o.report
    ensures |PathsOf(outcomes)| <= CACHE ==> (News(Announced([], outcomes), o) <==> outcomes[k].report != o.report)
  {
    ReportedIsLatest(outcomes, o.path, k);
  }

  /** The first outcome of a path is announced. */
  lemma FirstNewsIsAnnounced(outcomes: seq<Outcome>, o: Outcome)
    requires o.path !in PathsOf(outcomes)
    ensures News(Announced([], outcomes), o)
  {
    AnnouncedKeys(outcomes);
    var d := Announced([], outcomes);
    if Lookup(d, o.path) == Some(o.report) {
      LookupIsMembership(d, o.path, o.report);
    }
  }
}

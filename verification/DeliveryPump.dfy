/**
 * The Hermes delivery pump (deploy/hermes-dispatch/mini-hermes-dispatch.py).
 *
 * A poll reads the configured member homes, advances one lazily opened cursor per visit, round
 * robin from a rotating offset, and collects at most 32 undelivered hints out of at most 128 visits
 * in at most 16 rounds.  `Sweep` is the meaning of the generator behind `islice`; the class `Pump`
 * holds the state the service keeps between polls.
 */
module DeliveryPump {
  import opened Common

  const ROUNDS := 16
  const VISITS := 128
  const BATCH := 32
  const CACHE := 65536

  // ------------------------------------------------------------------ ordered dictionaries

  /** A dictionary in insertion order, oldest first. */
  type Ordered<K, V> = seq<(K, V)>

  function Lookup<K(==), V>(d: Ordered<K, V>, k: K): Option<V> {
    if d == [] then None else if d[0].0 == k then Some(d[0].1) else Lookup(d[1..], k)
  }

  function Without<K(==), V>(d: Ordered<K, V>, k: K): Ordered<K, V> {
    if d == [] then [] else (if d[0].0 == k then [] else [d[0]]) + Without(d[1..], k)
  }

  /** Assign, then move to the end. */
  function Put<K(==), V>(d: Ordered<K, V>, k: K, v: V): Ordered<K, V> {
    Without(d, k) + [(k, v)]
  }

  /** Drop the oldest entries beyond the bound. */
  function Trimmed<K, V>(d: Ordered<K, V>): (r: Ordered<K, V>)
    ensures |r| <= CACHE
  {
    if CACHE < |d| then d[|d| - CACHE..] else d
  }

  ghost predicate DistinctKeys<K(!new), V>(d: Ordered<K, V>) {
    forall i, j :: 0 <= i < j < |d| ==> d[i].0 != d[j].0
  }

  lemma {:induction false} WithoutFacts<K(!new), V>(d: Ordered<K, V>, k: K)
    ensures forall i :: 0 <= i < |Without(d, k)| ==> Without(d, k)[i] in d && Without(d, k)[i].0 != k
    ensures forall e :: e in d && e.0 != k ==> e in Without(d, k)
    ensures DistinctKeys(d) ==> DistinctKeys(Without(d, k))
    ensures |Without(d, k)| <= |d|
  {
    if d != [] {
      WithoutFacts(d[1..], k);
      if DistinctKeys(d) && d[0].0 != k {
        var w := Without(d[1..], k);
        forall i | 0 <= i < |w| ensures w[i].0 != d[0].0 {
          var j :| 0 <= j < |d[1..]| && d[1..][j] == w[i];
          assert d[j + 1] == w[i];
        }
      }
    }
  }

  lemma {:induction false} LookupIsMembership<K(!new), V>(d: Ordered<K, V>, k: K, v: V)
    requires DistinctKeys(d)
    ensures Lookup(d, k) == Some(v) <==> (k, v) in d
  {
    if d != [] {
      LookupIsMembership(d[1..], k, v);
      if d[0].0 == k && (k, v) in d {
        var j :| 0 <= j < |d| && d[j] == (k, v);
      }
    }
  }

  /** Recording keeps the dictionary well formed and bounded, and the newest entry is never evicted. */
  lemma PutTrimmedFacts<K(!new), V>(d: Ordered<K, V>, k: K, v: V)
    requires DistinctKeys(d)
    ensures var r := Trimmed(Put(d, k, v));
            && DistinctKeys(r)
            && |r| <= CACHE
            && Lookup(r, k) == Some(v)
            && (forall e :: e in r && e != (k, v) ==> e in d && e.0 != k)
            && (|d| < CACHE ==> forall e :: e in d && e.0 != k ==> e in r)
  {
    WithoutFacts(d, k);
    var p := Put(d, k, v);
    var r := Trimmed(p);
    assert DistinctKeys(p);
    assert DistinctKeys(r);
    assert r[|r| - 1] == (k, v);
    LookupIsMembership(r, k, v);
  }

  // ------------------------------------------------------------------ homes and hint files

  /** A configured home as `pathlib` normalises it: "//" and "/." collapse, so spellings can coincide. */
  datatype Dir = Dir(root: Root, parts: seq<string>)

  /** POSIX keeps exactly two leading slashes apart from one. */
  datatype Root = Relative | Single | Double

  function Keep(part: string): seq<string> {
    if part == "" || part == "." then [] else [part]
  }

  function Parts(text: string, part: string): seq<string>
    decreases |text|
  {
    if text == "" then Keep(part)
    else if text[0] == '/' then Keep(part) + Parts(text[1..], "")
    else Parts(text[1..], part + [text[0]])
  }

  function RootOf(home: string): Root {
    if home == "" || home[0] != '/' then Relative
    else if 2 <= |home| && home[1] == '/' && !(3 <= |home| && home[2] == '/') then Double
    else Single
  }

  function DirOf(home: string): Dir {
    Dir(RootOf(home), Parts(home, ""))
  }

  /** A path component as `pathlib` keeps it. */
  predicate Component(part: string) {
    part != "" && part != "." && '/' !in part
  }

  function LeadingSlashes(text: string): nat {
    if text == "" || text[0] != '/' then 0 else 1 + LeadingSlashes(text[1..])
  }

  function Joined(parts: seq<string>): string {
    if parts == [] then "" else "/" + parts[0] + Joined(parts[1..])
  }

  /** The directory in its one normal spelling. */
  function Spelled(d: Dir): string {
    (if d.root == Double then "/" else "") + if d.parts == [] then "/" else Joined(d.parts)
  }

  lemma {:induction false} PartsSplit(p: string, part: string, rest: string)
    requires '/' !in p && (rest == "" || rest[0] == '/')
    ensures Parts(p + rest, part) == Keep(part + p) + if rest == "" then [] else Parts(rest[1..], "")
    decreases |p|
  {
    if p == "" {
      assert p + rest == rest && part + p == part;
    } else {
      assert (p + rest)[0] == p[0] && p[0] in p && (p + rest)[1..] == p[1..] + rest;
      PartsSplit(p[1..], part + [p[0]], rest);
      assert part + [p[0]] + p[1..] == part + p;
    }
  }

  lemma FirstPart(p: string, rest: string)
    requires Component(p) && (rest == "" || rest[0] == '/')
    ensures Parts("/" + p + rest, "") == [p] + Parts(rest, "")
  {
    assert ("/" + p + rest)[1..] == p + rest && "" + p == p;
    PartsSplit(p, "", rest);
  }

  lemma {:induction false} JoinedParts(parts: seq<string>)
    requires forall p :: p in parts ==> Component(p)
    ensures Parts(Joined(parts), "") == parts
  {
    if parts != [] {
      JoinedParts(parts[1..]);
      FirstPart(parts[0], Joined(parts[1..]));
    }
  }

  lemma {:induction false} PartsAreComponents(text: string, part: string, p: string)
    requires '/' !in part && p in Parts(text, part)
    ensures Component(p)
    decreases |text|
  {
    if text != "" && p !in Keep(part) {
      PartsAreComponents(text[1..], if text[0] == '/' then "" else part + [text[0]], p);
    }
  }

  /** The root by the number of leading slashes: exactly two are kept apart. */
  lemma RootCountsSlashes(home: string)
    ensures RootOf(home) == match LeadingSlashes(home) case 0 => Relative case 2 => Double case _ => Single
  {
    if |home| >= 2 && home[0] == '/' && home[1] == '/' {
      assert home[1..][1..] == home[2..];
      assert LeadingSlashes(home) == 2 + LeadingSlashes(home[2..]);
    }
  }

  /** A directory has kept components only, and its normal spelling is one of its spellings. */
  lemma DirIsItsSpelling(home: string)
    requires RootOf(home) != Relative
    ensures (forall p :: p in DirOf(home).parts ==> Component(p)) && DirOf(Spelled(DirOf(home))) == DirOf(home)
  {
    var d := DirOf(home);
    forall p | p in d.parts ensures Component(p) { PartsAreComponents(home, "", p); }
    SpellingReads(d);
  }

  lemma SpellingReads(d: Dir)
    requires d.root != Relative && forall p :: p in d.parts ==> Component(p)
    ensures DirOf(Spelled(d)) == d
  {
    var text := if d.parts == [] then "/" else Joined(d.parts);
    assert Parts(text, "") == d.parts by {
      if d.parts != [] { JoinedParts(d.parts); } else { assert text[1..] == "" && Parts("", "") == []; }
    }
    assert text[0] == '/' && (|text| >= 2 ==> text[1] != '/') by {
      if d.parts != [] { assert Component(d.parts[0]) && text[1] == d.parts[0][0] && d.parts[0][0] in d.parts[0]; }
    }
    if d.root == Double {
      assert Spelled(d) == "/" + text && Spelled(d)[1..] == text;
      assert Parts(Spelled(d), "") == Keep("") + Parts(text, "") == d.parts;
    } else {
      assert Spelled(d) == text;
    }
  }

  /** What the configuration demands of `memberHomes`. */
  ghost predicate Configured(homes: seq<string>) {
    |homes| <= 4096 && Distinct(homes) && forall i :: 0 <= i < |homes| ==> RootOf(homes[i]) != Relative
  }

  /** A hint file: five fixed components below a home, so the directory is recoverable from the path. */
  datatype Path = Path(dir: Dir, name: string)

  type Digest = string
  type Registration = string

  datatype Identity = Identity(recipient: string, roomCell: string, task: string)

  datatype Reading = Unreadable | Readable(identity: Identity, digest: Digest)

  /** `Unopened` is a generator no one has advanced; it lists the directory when first advanced. */
  datatype Cursor = Unopened | Open(rest: seq<string>)

  /** Everything outside the pump during one poll; `fault` and `reading` may differ visit by visit. */
  datatype World = World(
    homes: seq<string>,
    index: map<Identity, Registration>,
    listing: Dir -> seq<string>,
    fault: nat -> bool,
    reading: (nat, Path) -> Reading)

  datatype Job = Job(path: Path, registration: Registration, digest: Digest)

  /** One advance of a home's cursor and the file it produced, if any. */
  datatype Visit = Visit(home: string, taken: Option<Path>)

  datatype Scan = Scan(cursors: map<string, Cursor>, exhausted: set<string>, visits: seq<Visit>, batch: seq<Job>)

  // ------------------------------------------------------------------ one visit

  function CursorOf(cursors: map<string, Cursor>, home: string): Cursor {
    if home in cursors then cursors[home] else Unopened
  }

  function Remaining(w: World, c: Cursor, home: string): seq<string> {
    if c.Unopened? then w.listing(DirOf(home)) else c.rest
  }

  /** The job a read hint amounts to: registered, and not recorded as delivered with this digest. */
  function JobFor(w: World, completed: Ordered<Path, Digest>, visit: nat, path: Path): Option<Job> {
    match w.reading(visit, path)
    case Unreadable => None
    case Readable(identity, digest) =>
      if identity in w.index && Lookup(completed, path) != Some(digest)
      then Some(Job(path, w.index[identity], digest)) else None
  }

  function Visited(w: World, completed: Ordered<Path, Digest>, sc: Scan, home: string): Scan {
    var rest := Remaining(w, CursorOf(sc.cursors, home), home);
    if w.fault(|sc.visits|) || rest == [] then
      sc.(cursors := sc.cursors[home := Unopened],
          exhausted := sc.exhausted + {home},
          visits := sc.visits + [Visit(home, None)])
    else
      var path := Path(DirOf(home), rest[0]);
      var job := JobFor(w, completed, |sc.visits|, path);
      sc.(cursors := sc.cursors[home := Open(rest[1..])],
          visits := sc.visits + [Visit(home, Some(path))],
          batch := sc.batch + (if job.Some? then [job.value] else []))
  }

  predicate Done(sc: Scan) {
    VISITS <= |sc.visits| || BATCH <= |sc.batch|
  }

  /** The generator's loop over a flat list of turns, stopped by either bound. */
  function Sweep(w: World, completed: Ordered<Path, Digest>, sc: Scan, turns: seq<string>): Scan
    decreases |turns|
  {
    if turns == [] || Done(sc) then sc
    else if turns[0] in sc.exhausted then Sweep(w, completed, sc, turns[1..])
    else Sweep(w, completed, Visited(w, completed, sc, turns[0]), turns[1..])
  }

  function Rotated(homes: seq<string>, offset: nat): (r: seq<string>)
    ensures |r| == |homes|
  {
    if offset <= |homes| then homes[offset..] + homes[..offset] else homes
  }

  function Turns(selected: seq<string>, rounds: nat): seq<string> {
    if rounds == 0 then [] else Turns(selected, rounds - 1) + selected
  }

  function Start(cursors: map<string, Cursor>): Scan {
    Scan(cursors, {}, [], [])
  }

  function Polled(w: World, completed: Ordered<Path, Digest>, cursors: map<string, Cursor>, offset: nat): Scan {
    Sweep(w, completed, Start(cursors), Turns(Rotated(w.homes, offset), ROUNDS))
  }

  lemma {:induction false} SweepConcat(
    w: World, completed: Ordered<Path, Digest>, sc: Scan, a: seq<string>, b: seq<string>)
    ensures Sweep(w, completed, sc, a + b) == Sweep(w, completed, Sweep(w, completed, sc, a), b)
    decreases |a|
  {
    if a == [] {
      assert a + b == b;
    } else {
      assert (a + b)[1..] == a[1..] + b;
      if !Done(sc) {
        var sc' := if a[0] in sc.exhausted then sc else Visited(w, completed, sc, a[0]);
        SweepConcat(w, completed, sc', a[1..], b);
      }
    }
  }

  // ------------------------------------------------------------------ what one poll does

  /** The jobs a visit log amounts to: every hint taken, judged by `JobFor`, in order. */
  function JobsOf(w: World, completed: Ordered<Path, Digest>, visits: seq<Visit>): seq<Job> {
    if visits == [] then []
    else
      var n, v := |visits| - 1, Last(visits);
      JobsOf(w, completed, visits[..n])
      + (if v.taken.Some? && JobFor(w, completed, n, v.taken.value).Some?
         then [JobFor(w, completed, n, v.taken.value).value] else [])
  }

  ghost predicate Accounted(w: World, completed: Ordered<Path, Digest>, sc: Scan) {
    && |sc.visits| <= VISITS && |sc.batch| <= BATCH && |sc.batch| <= |sc.visits|
    && sc.batch == JobsOf(w, completed, sc.visits)
    && (forall k :: 0 <= k < |sc.visits| && sc.visits[k].taken.Some? ==>
          sc.visits[k].taken.value.dir == DirOf(sc.visits[k].home))
  }

  lemma VisitAccounted(w: World, completed: Ordered<Path, Digest>, sc: Scan, home: string)
    requires Accounted(w, completed, sc) && !Done(sc)
    ensures Accounted(w, completed, Visited(w, completed, sc, home))
  {
    var sc' := Visited(w, completed, sc, home);
    assert sc'.visits[..|sc.visits|] == sc.visits;
  }

  lemma {:induction false} SweepAccounted(w: World, completed: Ordered<Path, Digest>, sc: Scan, turns: seq<string>)
    requires Accounted(w, completed, sc)
    ensures Accounted(w, completed, Sweep(w, completed, sc, turns))
    ensures sc.visits <= Sweep(w, completed, sc, turns).visits
    ensures sc.batch <= Sweep(w, completed, sc, turns).batch
    ensures forall v :: v in Sweep(w, completed, sc, turns).visits ==> v in sc.visits || v.home in turns
    decreases |turns|
  {
    if turns != [] && !Done(sc) {
      if turns[0] in sc.exhausted {
        SweepAccounted(w, completed, sc, turns[1..]);
      } else {
        VisitAccounted(w, completed, sc, turns[0]);
        SweepAccounted(w, completed, Visited(w, completed, sc, turns[0]), turns[1..]);
      }
    }
  }

  /** The first `p` homes in order, or as many of them as the bounds allow. */
  ghost predicate RoundSoFar(w: World, completed: Ordered<Path, Digest>, sc: Scan, selected: seq<string>, p: nat)
    requires p <= |selected|
  {
    && Accounted(w, completed, sc)
    && |sc.visits| <= p && (|sc.visits| < p ==> Done(sc))
    && (forall k :: 0 <= k < |sc.visits| ==> sc.visits[k].home == selected[k])
    && (forall h :: h in sc.exhausted ==> h in selected[..p])
  }

  lemma VisitedFacts(w: World, completed: Ordered<Path, Digest>, sc: Scan, home: string)
    ensures var sc' := Visited(w, completed, sc, home);
            && |sc'.visits| == |sc.visits| + 1 && sc'.visits[..|sc.visits|] == sc.visits
            && Last(sc'.visits).home == home
            && (forall h :: h in sc'.exhausted ==> h in sc.exhausted || h == home)
  {
  }

  lemma RoundExtends(w: World, completed: Ordered<Path, Digest>, sc: Scan, sc': Scan, selected: seq<string>, p: nat)
    requires p < |selected| && RoundSoFar(w, completed, sc, selected, p) && |sc.visits| == p &&
             Accounted(w, completed, sc')
    requires |sc'.visits| == p + 1 && sc'.visits[..p] == sc.visits && Last(sc'.visits).home == selected[p]
    requires forall h :: h in sc'.exhausted ==> h in sc.exhausted || h == selected[p]
    ensures RoundSoFar(w, completed, sc', selected, p + 1)
  {
    assert selected[..p + 1] == selected[..p] + [selected[p]];
    forall k | 0 <= k < |sc'.visits| ensures sc'.visits[k].home == selected[k] {
      if k < p { assert sc'.visits[k] == sc.visits[k]; }
    }
  }

  lemma RoundGoesOn(w: World, completed: Ordered<Path, Digest>, sc: Scan, selected: seq<string>, p: nat)
    requires Distinct(selected) && p < |selected| && RoundSoFar(w, completed, sc, selected, p)
    ensures RoundSoFar(w, completed, Sweep(w, completed, sc, [selected[p]]), selected, p + 1)
  {
    var h := selected[p];
    if Done(sc) {
      assert selected[..p + 1] == selected[..p] + [h];
    } else {
      assert h !in selected[..p];
      VisitAccounted(w, completed, sc, h);
      VisitedFacts(w, completed, sc, h);
      RoundExtends(w, completed, sc, Visited(w, completed, sc, h), selected, p);
      SoleTurn(w, completed, sc, h);
    }
  }

  lemma SoleTurn(w: World, completed: Ordered<Path, Digest>, sc: Scan, h: string)
    requires !Done(sc) && h !in sc.exhausted
    ensures Sweep(w, completed, sc, [h]) == Visited(w, completed, sc, h)
  {
    assert Sweep(w, completed, sc, [h]) == Sweep(w, completed, Visited(w, completed, sc, h), []);
  }

  lemma {:induction false} FirstRound(
    w: World, completed: Ordered<Path, Digest>, cursors: map<string, Cursor>, selected: seq<string>, p: nat)
    requires Distinct(selected) && p <= |selected|
    ensures RoundSoFar(w, completed, Sweep(w, completed, Start(cursors), selected[..p]), selected, p)
    decreases p
  {
    if p > 0 {
      FirstRound(w, completed, cursors, selected, p - 1);
      var sc := Sweep(w, completed, Start(cursors), selected[..p - 1]);
      assert selected[..p] == selected[..p - 1] + [selected[p - 1]];
      SweepConcat(w, completed, Start(cursors), selected[..p - 1], [selected[p - 1]]);
      RoundGoesOn(w, completed, sc, selected, p - 1);
    }
  }

  lemma {:induction false} TurnsStartWithARound(selected: seq<string>, rounds: nat)
    requires rounds > 0
    ensures Turns(selected, rounds) == selected + Turns(selected, rounds - 1)
    ensures forall h :: h in Turns(selected, rounds) ==> h in selected
  {
    if rounds > 1 {
      TurnsStartWithARound(selected, rounds - 1);
    }
  }

  function Least(a: nat, b: nat): nat {
    if a < b then a else b
  }

  lemma SweepVisits(
    w: World, completed: Ordered<Path, Digest>, cursors: map<string, Cursor>, selected: seq<string>, rounds: nat)
    requires Distinct(selected) && rounds > 0
    ensures var sc := Sweep(w, completed, Start(cursors), Turns(selected, rounds));
            && Accounted(w, completed, sc)
            && Least(BATCH, |selected|) <= |sc.visits|
            && (forall k :: 0 <= k < Least(BATCH, |selected|) ==> sc.visits[k].home == selected[k])
            && (forall v :: v in sc.visits ==> v.home in selected[..Least(VISITS, |selected|)])
  {
    var more := Turns(selected, rounds - 1);
    var first := Sweep(w, completed, Start(cursors), selected);
    var sc := Sweep(w, completed, first, more);
    FirstRound(w, completed, cursors, selected, |selected|);
    assert selected[..|selected|] == selected;
    TurnsStartWithARound(selected, rounds);
    SweepConcat(w, completed, Start(cursors), selected, more);
    SweepAccounted(w, completed, first, more);
    forall v | v in sc.visits ensures v.home in selected[..Least(VISITS, |selected|)] {
      if VISITS <= |selected| {
        assert sc == first;
        var k :| 0 <= k < |sc.visits| && sc.visits[k] == v;
        assert selected[..VISITS][k] == v.home;
      } else {
        assert v.home in selected;
      }
    }
  }

  lemma RotatedFacts(homes: seq<string>, offset: nat)
    ensures Distinct(homes) ==> Distinct(Rotated(homes, offset))
    ensures forall i :: 0 <= i < |homes| && offset <= |homes| ==>
              Rotated(homes, offset)[i] == homes[if offset + i < |homes| then offset + i else offset + i - |homes|]
  {
  }

  /** A poll advances the first 32 homes of its rotation, in order, and none beyond the first 128. */
  lemma PollVisits(w: World, completed: Ordered<Path, Digest>, cursors: map<string, Cursor>, offset: nat)
    requires Distinct(w.homes)
    ensures var selected, sc := Rotated(w.homes, offset), Polled(w, completed, cursors, offset);
            && Accounted(w, completed, sc)
            && Least(BATCH, |selected|) <= |sc.visits|
            && (forall k :: 0 <= k < Least(BATCH, |selected|) ==> sc.visits[k].home == selected[k])
            && (forall v :: v in sc.visits ==> v.home in selected[..Least(VISITS, |selected|)])
  {
    RotatedFacts(w.homes, offset);
    SweepVisits(w, completed, cursors, Rotated(w.homes, offset), ROUNDS);
  }

  lemma {:induction false} JobsOfVisits(w: World, completed: Ordered<Path, Digest>, visits: seq<Visit>)
    ensures forall k ::
              0 <= k < |visits| && visits[k].taken.Some? && JobFor(w, completed, k, visits[k].taken.value).Some? ==>
              JobFor(w, completed, k, visits[k].taken.value).value in JobsOf(w, completed, visits)
    ensures forall j :: j in JobsOf(w, completed, visits) ==>
              exists k ::
                0 <= k < |visits| && visits[k].taken.Some? && JobFor(w, completed, k, visits[k].taken.value) == Some(j)
  {
    if visits != [] {
      var front := visits[..|visits| - 1];
      JobsOfVisits(w, completed, front);
      forall j | j in JobsOf(w, completed, visits)
        ensures exists k ::
                 0 <= k < |visits| && visits[k].taken.Some? && JobFor(w, completed, k, visits[k].taken.value) == Some(j)
      {
        if j in JobsOf(w, completed, front) {
          var k :| 0 <= k < |front| && front[k].taken.Some? && JobFor(w, completed, k, front[k].taken.value) == Some(j);
          assert visits[k] == front[k];
        }
      }
    }
  }

  /** No loss: a readable hint taken from a cursor, registered and not recorded as delivered at that
      digest, is in the poll's batch; and the batch holds nothing else. */
  lemma PollLosesNothing(w: World, completed: Ordered<Path, Digest>, cursors: map<string, Cursor>, offset: nat)
    requires Distinct(w.homes)
    ensures var sc := Polled(w, completed, cursors, offset);
            && |sc.visits| <= VISITS && |sc.batch| <= BATCH
            && (forall k :: 0 <= k < |sc.visits| && sc.visits[k].taken.Some? ==>
                  var path := sc.visits[k].taken.value;
                  var reading := w.reading(k, path);
                  reading.Readable? && reading.identity in w.index &&
                    Lookup(completed, path) != Some(reading.digest) ==>
                  Job(path, w.index[reading.identity], reading.digest) in sc.batch)
            && (forall j :: j in sc.batch ==>
                  exists k :: 0 <= k < |sc.visits| && sc.visits[k].taken == Some(j.path) &&
                    w.reading(k, j.path).Readable?
                              && w.reading(k, j.path).digest == j.digest && Lookup(completed, j.path) != Some(j.digest))
  {
    var sc := Polled(w, completed, cursors, offset);
    PollVisits(w, completed, cursors, offset);
    JobsOfVisits(w, completed, sc.visits);
    forall j | j in sc.batch
      ensures exists k :: 0 <= k < |sc.visits| && sc.visits[k].taken == Some(j.path) && w.reading(k, j.path).Readable?
                          && w.reading(k, j.path).digest == j.digest && Lookup(completed, j.path) != Some(j.digest)
    {
      var k :| 0 <= k < |sc.visits| && sc.visits[k].taken.Some? &&
        JobFor(w, completed, k, sc.visits[k].taken.value) == Some(j);
      assert sc.visits[k].taken == Some(j.path);
    }
  }

  /** How often a home's cursor was advanced, and what each advance produced. */
  function ByHome(visits: seq<Visit>, home: string): seq<Option<Path>> {
    if visits == [] then []
    else ByHome(visits[..|visits| - 1], home) + (if Last(visits).home == home then [Last(visits).taken] else [])
  }

  lemma ByHomeStep(visits: seq<Visit>, v: Visit, home: string)
    ensures ByHome(visits + [v], home) == ByHome(visits, home) + (if v.home == home then [v.taken] else [])
  {
    assert (visits + [v])[..|visits|] == visits && Last(visits + [v]) == v;
  }

  lemma {:induction false} RoundAdvancesOnce(
    w: World, completed: Ordered<Path, Digest>, sc: Scan, turns: seq<string>, home: string)
    requires Distinct(turns)
    ensures |ByHome(Sweep(w, completed, sc, turns).visits, home)| <=
            |ByHome(sc.visits, home)| + (if home in turns then 1 else 0)
    decreases |turns|
  {
    if turns != [] && !Done(sc) {
      if turns[0] in sc.exhausted {
        RoundAdvancesOnce(w, completed, sc, turns[1..], home);
      } else {
        var sc' := Visited(w, completed, sc, turns[0]);
        RoundAdvancesOnce(w, completed, sc', turns[1..], home);
        ByHomeStep(sc.visits, Last(sc'.visits), home);
        assert sc'.visits == sc.visits + [Last(sc'.visits)];
        assert turns[0] !in turns[1..];
      }
    }
  }

  lemma {:induction false} RoundsAdvance(
    w: World, completed: Ordered<Path, Digest>, sc: Scan, selected: seq<string>, rounds: nat, home: string)
    requires Distinct(selected)
    ensures |ByHome(Sweep(w, completed, sc, Turns(selected, rounds)).visits, home)| <=
            |ByHome(sc.visits, home)| + rounds
  {
    if rounds > 0 {
      RoundsAdvance(w, completed, sc, selected, rounds - 1, home);
      SweepConcat(w, completed, sc, Turns(selected, rounds - 1), selected);
      RoundAdvancesOnce(w, completed, Sweep(w, completed, sc, Turns(selected, rounds - 1)), selected, home);
    }
  }

  /** No member can take more than 16 of a poll's visits. */
  lemma PollSharesVisits(
    w: World, completed: Ordered<Path, Digest>, cursors: map<string, Cursor>, offset: nat, home: string)
    requires Distinct(w.homes)
    ensures |ByHome(Polled(w, completed, cursors, offset).visits, home)| <= ROUNDS
  {
    RotatedFacts(w.homes, offset);
    RoundsAdvance(w, completed, Start(cursors), Rotated(w.homes, offset), ROUNDS, home);
  }

  // ------------------------------------------------------------------ no path twice, exactly when

  ghost predicate PathsOnce(batch: seq<Job>) {
    forall i, j :: 0 <= i < j < |batch| ==> batch[i].path != batch[j].path
  }

  ghost predicate TakenOnce(visits: seq<Visit>) {
    forall i, j :: 0 <= i < j < |visits| && visits[i].taken.Some? ==> visits[i].taken != visits[j].taken
  }

  ghost predicate DirsApart(homes: seq<string>) {
    forall i, j :: 0 <= i < j < |homes| ==> DirOf(homes[i]) != DirOf(homes[j])
  }

  /** No listing, and no retained cursor, names a file twice. */
  ghost predicate Orderly(w: World, cursors: map<string, Cursor>) {
    forall h :: Distinct(Remaining(w, CursorOf(cursors, h), h))
  }

  ghost predicate Unrepeated(w: World, sc: Scan) {
    && Orderly(w, sc.cursors)
    && TakenOnce(sc.visits)
    && (forall k :: 0 <= k < |sc.visits| && sc.visits[k].taken.Some? && sc.visits[k].home !in sc.exhausted ==>
          sc.visits[k].taken.value.name !in Remaining(w, CursorOf(sc.cursors, sc.visits[k].home), sc.visits[k].home))
  }

  lemma VisitUnrepeated(w: World, completed: Ordered<Path, Digest>, sc: Scan, home: string)
    requires Accounted(w, completed, sc) && Unrepeated(w, sc) && home !in sc.exhausted
    requires forall v :: v in sc.visits ==> v.home == home || DirOf(v.home) != DirOf(home)
    requires Distinct(w.listing(DirOf(home)))
    ensures Unrepeated(w, Visited(w, completed, sc, home))
  {
    var sc' := Visited(w, completed, sc, home);
    var rest := Remaining(w, CursorOf(sc.cursors, home), home);
    forall h ensures Distinct(Remaining(w, CursorOf(sc'.cursors, h), h)) {
      assert Distinct(Remaining(w, CursorOf(sc.cursors, h), h));
    }
    NewVisitIsNew(w, completed, sc, home);
  }

  lemma NewVisitIsNew(w: World, completed: Ordered<Path, Digest>, sc: Scan, home: string)
    requires Accounted(w, completed, sc) && Unrepeated(w, sc) && home !in sc.exhausted
    requires forall v :: v in sc.visits ==> v.home == home || DirOf(v.home) != DirOf(home)
    ensures TakenOnce(Visited(w, completed, sc, home).visits)
  {
    var sc' := Visited(w, completed, sc, home);
    forall k | 0 <= k < |sc.visits| && sc.visits[k].taken.Some? ensures sc.visits[k].taken != Last(sc'.visits).taken {
      assert sc.visits[k] in sc.visits;
    }
  }

  lemma {:induction false} SweepUnrepeated(w: World, completed: Ordered<Path, Digest>, sc: Scan, turns: seq<string>)
    requires Accounted(w, completed, sc) && Unrepeated(w, sc)
    requires forall d :: Distinct(w.listing(d))
    requires var all := Sweep(w, completed, sc, turns).visits;
             forall u, v :: u in all && v in all ==> u.home == v.home || DirOf(u.home) != DirOf(v.home)
    ensures Unrepeated(w, Sweep(w, completed, sc, turns))
    decreases |turns|
  {
    if turns != [] && !Done(sc) {
      if turns[0] in sc.exhausted {
        SweepUnrepeated(w, completed, sc, turns[1..]);
      } else {
        var sc' := Visited(w, completed, sc, turns[0]);
        VisitAccounted(w, completed, sc, turns[0]);
        SweepAccounted(w, completed, sc', turns[1..]);
        var all := Sweep(w, completed, sc', turns[1..]).visits;
        assert Last(sc'.visits) in all && Last(sc'.visits).home == turns[0];
        forall v | v in sc.visits ensures v.home == turns[0] || DirOf(v.home) != DirOf(turns[0]) {
          assert v in all;
        }
        VisitUnrepeated(w, completed, sc, turns[0]);
        SweepUnrepeated(w, completed, sc', turns[1..]);
      }
    }
  }

  lemma {:induction false} JobsOncePerPath(w: World, completed: Ordered<Path, Digest>, visits: seq<Visit>)
    requires TakenOnce(visits)
    ensures PathsOnce(JobsOf(w, completed, visits))
  {
    if visits != [] {
      var front := visits[..|visits| - 1];
      JobsOncePerPath(w, completed, front);
      JobsOfVisits(w, completed, front);
      var jobs := JobsOf(w, completed, front);
      forall i | 0 <= i < |jobs| ensures Some(jobs[i].path) != Last(visits).taken {
        assert jobs[i] in jobs;
        var k :| 0 <= k < |front| && front[k].taken.Some? &&
          JobFor(w, completed, k, front[k].taken.value) == Some(jobs[i]);
        assert visits[k] == front[k];
      }
    }
  }

  /** When the homes a poll can reach name different directories, no path is delivered twice in it. */
  lemma ApartHomesNeverRepeat(w: World, completed: Ordered<Path, Digest>, cursors: map<string, Cursor>, offset: nat)
    requires Distinct(w.homes) && Orderly(w, cursors) && (forall d :: Distinct(w.listing(d)))
    requires DirsApart(Rotated(w.homes, offset)[..Least(VISITS, |w.homes|)])
    ensures PathsOnce(Polled(w, completed, cursors, offset).batch)
  {
    var sc := Polled(w, completed, cursors, offset);
    var reach := Rotated(w.homes, offset)[..Least(VISITS, |w.homes|)];
    RotatedFacts(w.homes, offset);
    PollVisits(w, completed, cursors, offset);
    forall u, v | u in sc.visits && v in sc.visits ensures u.home == v.home || DirOf(u.home) != DirOf(v.home) {
      var i :| 0 <= i < |reach| && reach[i] == u.home;
      var j :| 0 <= j < |reach| && reach[j] == v.home;
    }
    SweepUnrepeated(w, completed, Start(cursors), Turns(Rotated(w.homes, offset), ROUNDS));
    JobsOncePerPath(w, completed, sc.visits);
  }

  const SOMEONE := Identity("", "", "")

  /** A world in which the only files are one undelivered hint in directory `d`. */
  function LoneHint(homes: seq<string>, d: Dir): World {
    World(homes, map[SOMEONE := ""], x => if x == d then ["handoff.json"] else [], v => false,
          (v, p) => Readable(SOMEONE, ""))
  }

  function CountDir(homes: seq<string>, d: Dir): nat {
    if homes == [] then 0 else CountDir(homes[..|homes| - 1], d) + (if DirOf(Last(homes)) == d then 1 else 0)
  }

  lemma {:induction false} CountDirTwo(homes: seq<string>, i: nat, j: nat)
    requires i < j < |homes| && DirOf(homes[i]) == DirOf(homes[j])
    ensures CountDir(homes, DirOf(homes[i])) >= 2
  {
    var d := DirOf(homes[i]);
    if j < |homes| - 1 {
      CountDirTwo(homes[..|homes| - 1], i, j);
    } else {
      CountDirOne(homes[..|homes| - 1], i);
    }
  }

  lemma {:induction false} CountDirOne(homes: seq<string>, i: nat)
    requires i < |homes|
    ensures CountDir(homes, DirOf(homes[i])) >= 1
  {
    if i < |homes| - 1 {
      CountDirOne(homes[..|homes| - 1], i);
    }
  }

  /** A scan of these homes, each once, that met nothing but the lone hint. */
  ghost predicate MetLone(sc: Scan, homes: seq<string>, d: Dir) {
    && Least(BATCH, CountDir(homes, d)) <= |sc.batch|
    && (forall j :: j in sc.batch ==> j.path == Path(d, "handoff.json"))
    && (forall h :: h in sc.cursors || h in sc.exhausted ==> h in homes)
    && |sc.visits| <= |homes|
  }

  lemma LoneHintVisit(homes: seq<string>, d: Dir, sc: Scan, front: seq<string>, h: string)
    requires MetLone(sc, front, d) && h !in front && !Done(sc)
    ensures MetLone(Visited(LoneHint(homes, d), [], sc, h), front + [h], d)
  {
    var w := LoneHint(homes, d);
    assert h !in sc.exhausted && h !in sc.cursors;
    assert (front + [h])[..|front|] == front;
    assert JobFor(w, [], |sc.visits|, Path(d, "handoff.json")).Some?;
  }

  lemma {:induction false} LoneHintBatch(selected: seq<string>, homes: seq<string>, d: Dir, p: nat)
    requires Distinct(selected) && p <= |selected| && p <= VISITS
    ensures MetLone(Sweep(LoneHint(homes, d), [], Start(map[]), selected[..p]), selected[..p], d)
    decreases p
  {
    if p > 0 {
      var w := LoneHint(homes, d);
      LoneHintBatch(selected, homes, d, p - 1);
      var front, h := selected[..p - 1], selected[p - 1];
      var sc := Sweep(w, [], Start(map[]), front);
      assert selected[..p] == front + [h] && (front + [h])[..|front|] == front;
      SweepConcat(w, [], Start(map[]), front, [h]);
      if !Done(sc) {
        SoleTurn(w, [], sc, h);
        LoneHintVisit(homes, d, sc, front, h);
      }
    }
  }

  /** Two spellings of one directory within reach of a poll make some poll deliver a path twice. */
  lemma AliasedHomesRepeat(homes: seq<string>, offset: nat, i: nat, j: nat)
    requires Distinct(homes)
    requires i < j < Least(VISITS, |homes|) && DirOf(Rotated(homes, offset)[i]) == DirOf(Rotated(homes, offset)[j])
    ensures var w := LoneHint(homes, DirOf(Rotated(homes, offset)[i]));
            && Orderly(w, map[]) && (forall d :: Distinct(w.listing(d)))
            && !PathsOnce(Polled(w, [], map[], offset).batch)
  {
    RotatedFacts(homes, offset);
    var selected := Rotated(homes, offset);
    var d := DirOf(selected[i]);
    var w := LoneHint(homes, d);
    var reach := Least(VISITS, |homes|);
    CountDirTwo(selected[..reach], i, j);
    LoneHintBatch(selected, homes, d, reach);
    LoneHintExtends(w, selected, reach, ROUNDS);
    SamePathTwice(Sweep(w, [], Start(map[]), selected[..reach]).batch, Polled(w, [], map[], offset).batch,
                  Path(d, "handoff.json"));
  }

  lemma SamePathTwice(front: seq<Job>, batch: seq<Job>, path: Path)
    requires 2 <= |front| && front <= batch && (forall j :: j in front ==> j.path == path)
    ensures !PathsOnce(batch)
  {
    assert front[0] in front && front[1] in front;
    assert batch[0] == front[0] && batch[1] == front[1];
  }

  lemma LoneHintExtends(w: World, selected: seq<string>, reach: nat, rounds: nat)
    requires reach <= |selected| && rounds > 0
    ensures Sweep(w, [], Start(map[]), selected[..reach]).batch <=
            Sweep(w, [], Start(map[]), Turns(selected, rounds)).batch
  {
    TurnsStartWithARound(selected, rounds);
    var later := selected[reach..] + Turns(selected, rounds - 1);
    assert Turns(selected, rounds) == selected[..reach] + later;
    SweepConcat(w, [], Start(map[]), selected[..reach], later);
    SweepAccounted(w, [], Start(map[]), selected[..reach]);
    SweepAccounted(w, [], Sweep(w, [], Start(map[]), selected[..reach]), later);
  }

  /** A poll over these homes at this offset never repeats a path, whatever it finds. */
  ghost predicate NeverRepeats(homes: seq<string>, offset: nat) {
    forall w: World, completed, cursors ::
      w.homes == homes && Orderly(w, cursors) && (forall d :: Distinct(w.listing(d))) ==>
      PathsOnce(Polled(w, completed, cursors, offset).batch)
  }

  /** No path twice holds of a poll exactly when the homes within its reach name different directories;
      the configuration check compares spellings only, so it does not imply this. */
  lemma NoPathTwiceExactly(homes: seq<string>, offset: nat)
    requires Distinct(homes)
    ensures NeverRepeats(homes, offset) <==> DirsApart(Rotated(homes, offset)[..Least(VISITS, |homes|)])
  {
    var reach := Rotated(homes, offset)[..Least(VISITS, |homes|)];
    if DirsApart(reach) {
      forall w: World, completed, cursors
        | w.homes == homes && Orderly(w, cursors) && (forall d :: Distinct(w.listing(d)))
        ensures PathsOnce(Polled(w, completed, cursors, offset).batch)
      {
        ApartHomesNeverRepeat(w, completed, cursors, offset);
      }
    } else {
      var i, j :| 0 <= i < j < |reach| && DirOf(reach[i]) == DirOf(reach[j]);
      AliasedHomesRepeat(homes, offset, i, j);
    }
  }

  lemma SpellingsCoincide()
    ensures "/a" != "/a/" && DirOf("/a") == DirOf("/a/")
  {
    assert "/a"[1..] == "a" && "a"[1..] == "" && "" + ['a'] == "a";
    assert "/a/"[1..] == "a/" && "a/"[1..] == "/" && "/"[1..] == "";
    assert Parts("/a", "") == Parts("a", "") == Parts("", "a") == ["a"];
    assert Parts("/a/", "") == Parts("a/", "") == Parts("/", "a") == ["a"] + Parts("", "") == ["a"];
  }

  /** A list the configuration accepts whose polls can deliver a path twice. */
  lemma ConfiguredHomesMayRepeat()
    ensures Configured(["/a", "/a/"]) && !NeverRepeats(["/a", "/a/"], 0)
  {
    var homes := ["/a", "/a/"];
    SpellingsCoincide();
    assert |homes[0]| != |homes[1]|;
    assert Rotated(homes, 0) == homes;
    AliasedHomesRepeat(homes, 0, 0, 1);
  }

  // ------------------------------------------------------------------ polls in sequence

  datatype Report = Report(digest: Digest, ok: bool, detail: string)

  /** The result of one dispatched job, in the order the pool completes them. */
  datatype Outcome = Outcome(path: Path, report: Report)

  datatype Memory = Memory(
    completed: Ordered<Path, Digest>,
    reported: Ordered<Path, Report>,
    cursors: map<string, Cursor>,
    offset: nat)

  const FRESH := Memory([], [], map[], 0)

  datatype Poll = Poll(world: World, outcomes: seq<Outcome>)

  /** The delivered cache after a list of outcomes. */
  function Delivered(completed: Ordered<Path, Digest>, outcomes: seq<Outcome>): Ordered<Path, Digest> {
    if outcomes == [] then completed
    else
      var before, o := Delivered(completed, outcomes[..|outcomes| - 1]), Last(outcomes);
      if o.report.ok then Trimmed(Put(before, o.path, o.report.digest)) else before
  }

  /** The outcome is not what was last announced of its path. */
  predicate News(reported: Ordered<Path, Report>, o: Outcome) {
    Lookup(reported, o.path) != Some(o.report)
  }

  /** The outcomes that are announced, in order. */
  function Events(reported: Ordered<Path, Report>, outcomes: seq<Outcome>): seq<Outcome> {
    if outcomes == [] then []
    else
      var front, o := outcomes[..|outcomes| - 1], Last(outcomes);
      Events(reported, front) + (if News(Announced(reported, front), o) then [o] else [])
  }

  /** The announcement cache after a list of outcomes: touched only when the report changes. */
  function Announced(reported: Ordered<Path, Report>, outcomes: seq<Outcome>): Ordered<Path, Report> {
    if outcomes == [] then reported
    else
      var before, o := Announced(reported, outcomes[..|outcomes| - 1]), Last(outcomes);
      if News(before, o) then Trimmed(Put(before, o.path, o.report)) else before
  }

  function ScanOf(m: Memory, w: World): Scan {
    Polled(w, m.completed, m.cursors, m.offset)
  }

  function NextOffset(offset: nat, n: nat): nat {
    (offset + 32) % (if n == 0 then 1 else n)
  }

  function AfterPoll(m: Memory, p: Poll): Memory {
    Memory(Delivered(m.completed, p.outcomes), Announced(m.reported, p.outcomes),
           ScanOf(m, p.world).cursors, NextOffset(m.offset, |p.world.homes|))
  }

  function AfterPolls(m: Memory, ps: seq<Poll>): Memory {
    if ps == [] then m else AfterPoll(AfterPolls(m, ps[..|ps| - 1]), Last(ps))
  }

  /** Every cursor advance of a run, in order. */
  function VisitLog(m: Memory, ps: seq<Poll>): seq<Visit> {
    if ps == [] then []
    else VisitLog(m, ps[..|ps| - 1]) + ScanOf(AfterPolls(m, ps[..|ps| - 1]), Last(ps).world).visits
  }

  lemma {:induction false} ByHomeConcat(a: seq<Visit>, b: seq<Visit>, home: string)
    ensures ByHome(a + b, home) == ByHome(a, home) + ByHome(b, home)
    decreases |b|
  {
    if b == [] {
      assert a + b == a;
    } else {
      var front := b[..|b| - 1];
      ByHomeConcat(a, front, home);
      assert a + b == (a + front) + [Last(b)];
      ByHomeStep(a + front, Last(b), home);
    }
  }

  lemma {:induction false} ByHomeMember(visits: seq<Visit>, home: string, t: Option<Path>)
    ensures t in ByHome(visits, home) <==> Visit(home, t) in visits
  {
    if visits != [] {
      ByHomeMember(visits[..|visits| - 1], home, t);
    }
  }

  // ------------------------------------------------------------------ bounded fairness

  ghost predicate SameHomes(ps: seq<Poll>, homes: seq<string>) {
    forall k :: 0 <= k < |ps| ==> ps[k].world.homes == homes
  }

  lemma Wrap(x: nat, n: nat)
    requires 0 < n && x < 2 * n
    ensures x % n == if x < n then x else x - n
  {
    assert x == x / n * n + x % n;
    assert x / n < 2;
  }

  /** While the rotation has not come round, the offset is where 32 places a poll put it. */
  lemma OffsetStep(m: Memory, ps: seq<Poll>, homes: seq<string>)
    requires ps != [] && SameHomes(ps, homes)
    ensures AfterPolls(m, ps).offset == NextOffset(AfterPolls(m, ps[..|ps| - 1]).offset, |homes|)
  {
  }

  lemma NextOffsetFacts(offset: nat, n: nat)
    requires 32 < n && offset <= n
    ensures NextOffset(offset, n) == if offset + 32 < n then offset + 32 else offset + 32 - n
  {
    Wrap(offset + 32, n);
  }

  lemma {:induction false} OffsetsRotate(m: Memory, ps: seq<Poll>, homes: seq<string>)
    requires homes != [] && SameHomes(ps, homes) && m.offset <= |homes|
    requires ps == [] || 32 * |ps| < |homes|
    ensures var o := AfterPolls(m, ps).offset;
            o <= |homes| && (o == m.offset + 32 * |ps| || o == m.offset + 32 * |ps| - |homes|)
    decreases |ps|
  {
    if ps != [] {
      var front := ps[..|ps| - 1];
      OffsetsRotate(m, front, homes);
      NextOffsetFacts(AfterPolls(m, front).offset, |homes|);
      OffsetStep(m, ps, homes);
    }
  }

  /** The number of polls in which the rotation comes round: ceil(n / 32). */
  function Window(n: nat): nat {
    (n + 31) / 32
  }

  lemma OffsetInRange(m: Memory, ps: seq<Poll>, homes: seq<string>)
    requires homes != [] && SameHomes(ps, homes) && ps != []
    ensures AfterPolls(m, ps).offset < |homes|
  {
  }

  /** When a window is long enough: the list fits in one poll, the offset is within it, or the offset left
      over from a longer list lands where the polls after the first still reach every home from 32 on. */
  predicate Fair(n: nat, offset: nat) {
    n <= 32 || offset <= n || (n - 32 * (Window(n) - 1) <= NextOffset(offset, n) <= 32)
  }

  /** How far along a rotation from `offset` the home `h` comes. */
  function Distance(n: nat, offset: nat, h: nat): nat
    requires h < n && offset <= n
  {
    if offset <= h then h - offset else h + n - offset
  }

  /** Fairness: with a fixed list of homes, a window of ceil(n / 32) polls advances every home's cursor at
      least once.  The offset is in range initially and after every poll of the same list. */
  lemma {:induction false} EveryHomeAdvances(m: Memory, ps: seq<Poll>, homes: seq<string>, h: nat)
    requires Distinct(homes) && h < |homes| && Fair(|homes|, m.offset)
    requires SameHomes(ps, homes) && |ps| == Window(|homes|)
    ensures |ByHome(VisitLog(m, ps), homes[h])| >= 1
    ensures AfterPolls(m, ps).offset < |homes|
  {
    OffsetInRange(m, ps, homes);
    if m.offset <= |homes| {
      WithinReach(m, ps, homes, h);
    } else if h < 32 {
      FirstPollReaches(m, ps, homes, h);
    } else {
      var first, rest := ps[..1], ps[1..];
      var at := AfterPolls(m, first);
      OffsetInRange(m, first, homes);
      assert first[..0] == [];
      OffsetStep(m, first, homes);
      WithinReach(at, rest, homes, h);
      assert ps == first + rest;
      AdvancesAdd(m, first, rest, homes[h]);
    }
  }

  /** A leftover offset costs one poll: whatever the memory, ceil(n / 32) + 1 polls of one list advance
      every home's cursor. */
  lemma {:induction false} AnyOffsetAdvances(m: Memory, ps: seq<Poll>, homes: seq<string>, h: nat)
    requires Distinct(homes) && h < |homes| && SameHomes(ps, homes) && |ps| == Window(|homes|) + 1
    ensures |ByHome(VisitLog(m, ps), homes[h])| >= 1
  {
    var first, rest := ps[..1], ps[1..];
    OffsetInRange(m, first, homes);
    EveryHomeAdvances(AfterPolls(m, first), rest, homes, h);
    assert ps == first + rest;
    AdvancesAdd(m, first, rest, homes[h]);
  }

  /** The polls reach every home within 32 places of the rotation each. */
  lemma {:induction false} WithinReach(m: Memory, ps: seq<Poll>, homes: seq<string>, h: nat)
    requires Distinct(homes) && h < |homes| && m.offset <= |homes|
    requires SameHomes(ps, homes) && Distance(|homes|, m.offset, h) < 32 * |ps|
    ensures |ByHome(VisitLog(m, ps), homes[h])| >= 1
  {
    var k, v := HomeIsVisited(m, ps, homes, h);
    LogContains(m, ps, k, v);
    ByHomeMember(VisitLog(m, ps), homes[h], v.taken);
  }

  /** An offset past the end selects the list as it stands. */
  lemma FirstPollReaches(m: Memory, ps: seq<Poll>, homes: seq<string>, h: nat)
    requires Distinct(homes) && h < |homes| && h < 32 && |homes| < m.offset && SameHomes(ps, homes) && ps != []
    ensures |ByHome(VisitLog(m, ps), homes[h])| >= 1
  {
    assert ps[..0] == [];
    PollVisits(ps[0].world, m.completed, m.cursors, m.offset);
    var v := ScanOf(m, ps[0].world).visits[h];
    LogContains(m, ps, 0, v);
    ByHomeMember(VisitLog(m, ps), homes[h], v.taken);
  }

  /** The poll whose first 32 homes include this one. */
  lemma HomeIsVisited(m: Memory, ps: seq<Poll>, homes: seq<string>, h: nat) returns (k: nat, v: Visit)
    requires Distinct(homes) && h < |homes| && m.offset <= |homes|
    requires SameHomes(ps, homes) && Distance(|homes|, m.offset, h) < 32 * |ps|
    ensures k < |ps| && v in ScanOf(AfterPolls(m, ps[..k]), ps[k].world).visits && v.home == homes[h]
  {
    var distance := Distance(|homes|, m.offset, h);
    k := distance / 32;
    var place := distance - 32 * k;
    OffsetsRotate(m, ps[..k], homes);
    var at := AfterPolls(m, ps[..k]);
    PlaceInRotation(homes, m.offset, at.offset, k, h);
    PollVisits(ps[k].world, at.completed, at.cursors, at.offset);
    v := ScanOf(at, ps[k].world).visits[place];
  }

  /** After `k` polls the home has moved `32 * k` places forward. */
  lemma PlaceInRotation(homes: seq<string>, offset: nat, later: nat, k: nat, h: nat)
    requires h < |homes| && offset <= |homes| && later <= |homes| && 32 * k <= Distance(|homes|, offset, h)
    requires later == offset + 32 * k || later == offset + 32 * k - |homes|
    ensures Rotated(homes, later)[Distance(|homes|, offset, h) - 32 * k] == homes[h]
  {
    WrapsTo(|homes|, offset, later, 32 * k, h);
    RotatedAt(homes, later, Distance(|homes|, offset, h) - 32 * k);
  }

  lemma WrapsTo(n: nat, offset: nat, later: nat, moved: nat, h: nat)
    requires h < n && offset <= n && later <= n && moved <= Distance(n, offset, h)
    requires later == offset + moved || later == offset + moved - n
    ensures var i := Distance(n, offset, h) - moved; h == if later + i < n then later + i else later + i - n
  {
  }

  lemma RotatedAt(homes: seq<string>, offset: nat, i: nat)
    requires i < |homes| && offset <= |homes|
    ensures Rotated(homes, offset)[i] == homes[if offset + i < |homes| then offset + i else offset + i - |homes|]
  {
  }

  lemma {:induction false} LogContains(m: Memory, ps: seq<Poll>, k: nat, v: Visit)
    requires k < |ps| && v in ScanOf(AfterPolls(m, ps[..k]), ps[k].world).visits
    ensures v in VisitLog(m, ps)
    decreases |ps|
  {
    var front := ps[..|ps| - 1];
    if k < |front| {
      assert front[..k] == ps[..k] && front[k] == ps[k];
      LogContains(m, front, k, v);
    } else {
      assert ps[..k] == front && ps[k] == Last(ps);
    }
    InConcat(VisitLog(m, front), ScanOf(AfterPolls(m, front), Last(ps).world).visits, v);
  }

  lemma InConcat<T>(a: seq<T>, b: seq<T>, x: T)
    ensures x in a || x in b ==> x in a + b
  {
  }

  // ------------------------------------------------------------------ every file is read

  /** The `q`-th turn of a cursor over a fixed listing: its files in order, then one turn to start over. */
  function Turn(dir: Dir, files: seq<string>, q: nat): Option<Path> {
    if q < |files| then Some(Path(dir, files[q])) else None
  }

  function Next(q: nat, m: nat): nat {
    if q < m then q + 1 else 0
  }

  ghost predicate At(c: Cursor, files: seq<string>, q: nat) {
    q <= |files| && (c == Open(files[q..]) || (q == 0 && c.Unopened?))
  }

  /** Starting at turn `from`, the advances `taken` went round the listing, and the cursor is at `q`. */
  ghost predicate GoesRound(dir: Dir, files: seq<string>, from: nat, taken: seq<Option<Path>>, c: Cursor, q: nat) {
    && from <= |files|
    && At(c, files, q)
    && q == Position(from, |files|, |taken|)
    && (forall s :: 0 <= s < |taken| ==> taken[s] == Turn(dir, files, Position(from, |files|, s)))
  }

  function Position(from: nat, m: nat, steps: nat): nat {
    if steps == 0 then from else Next(Position(from, m, steps - 1), m)
  }

  /** Within m + 1 turns every position comes up. */
  lemma {:induction false} PositionComesUp(from: nat, m: nat, f: nat)
    requires from <= m && f <= m
    ensures Position(from, m, if from <= f then f - from else f + m + 1 - from) == f
    decreases if from <= f then f - from else f + m + 1 - from
  {
    if from != f {
      if f == 0 {
        PositionComesUp(from, m, m);
        assert m + 1 - from == (m - from) + 1;
      } else {
        PositionComesUp(from, m, f - 1);
      }
    }
  }

  /** No I/O fault strikes the home's own visits, and its directory keeps listing `files`. */
  ghost predicate Steady(w: World, sc: Scan, home: string, files: seq<string>) {
    && w.listing(DirOf(home)) == files
    && forall k :: 0 <= k < |sc.visits| && sc.visits[k].home == home ==> !w.fault(k)
  }

  lemma OneMoreTurn(dir: Dir, files: seq<string>, from: nat, taken: seq<Option<Path>>, c: Cursor, c': Cursor, q: nat)
    requires GoesRound(dir, files, from, taken, c, q) && At(c', files, Next(q, |files|))
    ensures GoesRound(dir, files, from, taken + [Turn(dir, files, q)], c', Next(q, |files|))
  {
  }

  lemma VisitGoesRound(
    w: World, completed: Ordered<Path, Digest>, sc: Scan, home: string, files: seq<string>,
    from: nat, earlier: seq<Option<Path>>, q: nat)
    requires GoesRound(DirOf(home), files, from, earlier + ByHome(sc.visits, home), CursorOf(sc.cursors, home), q)
    requires w.listing(DirOf(home)) == files && !w.fault(|sc.visits|)
    ensures var sc' := Visited(w, completed, sc, home);
            GoesRound(DirOf(home), files, from, earlier + ByHome(sc'.visits, home), CursorOf(sc'.cursors, home),
                      Next(q, |files|))
  {
    var sc' := Visited(w, completed, sc, home);
    var taken := earlier + ByHome(sc.visits, home);
    var t := Turn(DirOf(home), files, q);
    assert Remaining(w, CursorOf(sc.cursors, home), home) == files[q..];
    if q < |files| {
      assert files[q..][1..] == files[q + 1..];
    }
    assert sc'.visits == sc.visits + [Visit(home, t)];
    ByHomeStep(sc.visits, Visit(home, t), home);
    assert earlier + ByHome(sc'.visits, home) == taken + [t];
    OneMoreTurn(DirOf(home), files, from, taken, CursorOf(sc.cursors, home), CursorOf(sc'.cursors, home), q);
  }

  lemma OtherVisit(w: World, completed: Ordered<Path, Digest>, sc: Scan, turn: string, home: string)
    requires turn != home
    ensures var sc' := Visited(w, completed, sc, turn);
            && ByHome(sc'.visits, home) == ByHome(sc.visits, home)
            && CursorOf(sc'.cursors, home) == CursorOf(sc.cursors, home)
  {
    var sc' := Visited(w, completed, sc, turn);
    assert sc'.visits == sc.visits + [Last(sc'.visits)];
    ByHomeStep(sc.visits, Last(sc'.visits), home);
  }

  lemma {:induction false} SweepGoesRound(
    w: World, completed: Ordered<Path, Digest>, sc: Scan, turns: seq<string>, home: string, files: seq<string>,
    from: nat, earlier: seq<Option<Path>>, q: nat)
    returns (q': nat)
    requires Accounted(w, completed, sc)
    requires GoesRound(DirOf(home), files, from, earlier + ByHome(sc.visits, home), CursorOf(sc.cursors, home), q)
    requires Steady(w, Sweep(w, completed, sc, turns), home, files)
    ensures var sc' := Sweep(w, completed, sc, turns);
            GoesRound(DirOf(home), files, from, earlier + ByHome(sc'.visits, home), CursorOf(sc'.cursors, home), q')
    decreases |turns|
  {
    q' := q;
    if turns != [] && !Done(sc) {
      if turns[0] in sc.exhausted {
        q' := SweepGoesRound(w, completed, sc, turns[1..], home, files, from, earlier, q);
      } else {
        var sc' := Visited(w, completed, sc, turns[0]);
        VisitAccounted(w, completed, sc, turns[0]);
        SweepAccounted(w, completed, sc', turns[1..]);
        assert Last(sc'.visits) == Sweep(w, completed, sc', turns[1..]).visits[|sc.visits|];
        if turns[0] == home {
          VisitGoesRound(w, completed, sc, home, files, from, earlier, q);
          q' := SweepGoesRound(w, completed, sc', turns[1..], home, files, from, earlier, Next(q, |files|));
        } else {
          OtherVisit(w, completed, sc, turns[0], home);
          q' := SweepGoesRound(w, completed, sc', turns[1..], home, files, from, earlier, q);
        }
      }
    }
  }

  ghost predicate SteadyRun(m: Memory, ps: seq<Poll>, home: string, files: seq<string>) {
    forall k :: 0 <= k < |ps| ==> Steady(ps[k].world, ScanOf(AfterPolls(m, ps[..k]), ps[k].world), home, files)
  }

  lemma PollGoesRound(
    at: Memory, p: Poll, home: string, files: seq<string>, from: nat, log: seq<Option<Path>>, q: nat) returns (r: nat)
    requires Steady(p.world, ScanOf(at, p.world), home, files)
    requires GoesRound(DirOf(home), files, from, log, CursorOf(at.cursors, home), q)
    ensures GoesRound(DirOf(home), files, from, log + ByHome(ScanOf(at, p.world).visits, home),
                      CursorOf(AfterPoll(at, p).cursors, home), r)
  {
    assert log + ByHome([], home) == log;
    r := SweepGoesRound(p.world, at.completed, Start(at.cursors), Turns(Rotated(p.world.homes, at.offset), ROUNDS),
                        home, files, from, log, q);
  }

  lemma SteadyFront(m: Memory, ps: seq<Poll>, home: string, files: seq<string>)
    requires ps != [] && SteadyRun(m, ps, home, files)
    ensures SteadyRun(m, ps[..|ps| - 1], home, files)
    ensures Steady(Last(ps).world, ScanOf(AfterPolls(m, ps[..|ps| - 1]), Last(ps).world), home, files)
  {
    var front := ps[..|ps| - 1];
    assert forall k :: 0 <= k < |front| ==> front[..k] == ps[..k];
  }

  lemma LogStep(m: Memory, ps: seq<Poll>, home: string)
    requires ps != []
    ensures var at := AfterPolls(m, ps[..|ps| - 1]);
            && AfterPolls(m, ps) == AfterPoll(at, Last(ps))
            && ByHome(VisitLog(m, ps), home) ==
               ByHome(VisitLog(m, ps[..|ps| - 1]), home) + ByHome(ScanOf(at, Last(ps).world).visits, home)
  {
    var front := ps[..|ps| - 1];
    ByHomeConcat(VisitLog(m, front), ScanOf(AfterPolls(m, front), Last(ps).world).visits, home);
  }

  lemma {:induction false} RunGoesRound(m: Memory, ps: seq<Poll>, home: string, files: seq<string>, from: nat)
    returns (q: nat)
    requires At(CursorOf(m.cursors, home), files, from) && SteadyRun(m, ps, home, files)
    ensures GoesRound(DirOf(home), files, from, ByHome(VisitLog(m, ps), home),
                      CursorOf(AfterPolls(m, ps).cursors, home), q)
    decreases |ps|
  {
    if ps == [] {
      q := from;
    } else {
      var front := ps[..|ps| - 1];
      SteadyFront(m, ps, home, files);
      q := RunGoesRound(m, front, home, files, from);
      q := PollGoesRound(AfterPolls(m, front), Last(ps), home, files, from, ByHome(VisitLog(m, front), home), q);
      LogStep(m, ps, home);
    }
  }

  /** Folding any step over a sequence, and what the steps put out along the way. */
  function Fold<M, P>(step: (M, P) -> M, m: M, ps: seq<P>): M {
    if ps == [] then m else step(Fold(step, m, ps[..|ps| - 1]), Last(ps))
  }

  function Trace<M, P, V>(step: (M, P) -> M, out: (M, P) -> seq<V>, m: M, ps: seq<P>): seq<V> {
    if ps == [] then []
    else Trace(step, out, m, ps[..|ps| - 1]) + out(Fold(step, m, ps[..|ps| - 1]), Last(ps))
  }

  lemma {:induction false} FoldSplits<M, P>(step: (M, P) -> M, m: M, ps: seq<P>, qs: seq<P>)
    ensures Fold(step, m, ps + qs) == Fold(step, Fold(step, m, ps), qs)
    decreases |qs|
  {
    if qs == [] {
      assert ps + qs == ps;
    } else {
      var front := qs[..|qs| - 1];
      assert (ps + qs)[..|ps + qs| - 1] == ps + front && Last(ps + qs) == Last(qs);
      FoldSplits(step, m, ps, front);
    }
  }

  lemma {:induction false} TraceSplits<M, P, V>(
    step: (M, P) -> M, out: (M, P) -> seq<V>, m: M, ps: seq<P>, qs: seq<P>)
    ensures Trace(step, out, m, ps + qs) == Trace(step, out, m, ps) + Trace(step, out, Fold(step, m, ps), qs)
    decreases |qs|
  {
    if qs == [] {
      assert ps + qs == ps;
    } else {
      var front, at := qs[..|qs| - 1], Fold(step, m, ps);
      assert (ps + qs)[..|ps + qs| - 1] == ps + front && Last(ps + qs) == Last(qs);
      TraceSplits(step, out, m, ps, front);
      FoldSplits(step, m, ps, front);
      Regroup(Trace(step, out, m, ps), Trace(step, out, at, front), out(Fold(step, at, front), Last(qs)));
    }
  }

  lemma Regroup<T>(a: seq<T>, b: seq<T>, c: seq<T>)
    ensures a + b + c == a + (b + c)
  {
  }

  function VisitsOf(m: Memory, p: Poll): seq<Visit> {
    ScanOf(m, p.world).visits
  }

  lemma {:induction false} RunIsAFold(m: Memory, ps: seq<Poll>)
    ensures AfterPolls(m, ps) == Fold(AfterPoll, m, ps)
    ensures VisitLog(m, ps) == Trace(AfterPoll, VisitsOf, m, ps)
    decreases |ps|
  {
    if ps != [] {
      RunIsAFold(m, ps[..|ps| - 1]);
    }
  }

  lemma LogSplits(m: Memory, ps: seq<Poll>, qs: seq<Poll>)
    ensures AfterPolls(m, ps + qs) == AfterPolls(AfterPolls(m, ps), qs)
    ensures VisitLog(m, ps + qs) == VisitLog(m, ps) + VisitLog(AfterPolls(m, ps), qs)
  {
    RunIsAFold(m, ps);
    RunIsAFold(m, ps + qs);
    RunIsAFold(AfterPolls(m, ps), qs);
    FoldSplits(AfterPoll, m, ps, qs);
    TraceSplits(AfterPoll, VisitsOf, m, ps, qs);
  }

  /** The number of whole windows in a run. */
  function Windows(n: nat, c: nat): nat {
    if c == 0 || n < c then 0 else 1 + Windows(n - c, c)
  }

  lemma {:induction false} WindowsOfProduct(t: nat, c: nat)
    requires c > 0
    ensures Windows(t * c, c) == t
  {
    if t > 0 {
      assert t * c == c + (t - 1) * c;
      WindowsOfProduct(t - 1, c);
    }
  }

  lemma AdvancesAdd(m: Memory, ps: seq<Poll>, qs: seq<Poll>, home: string)
    ensures |ByHome(VisitLog(m, ps + qs), home)| ==
            |ByHome(VisitLog(m, ps), home)| + |ByHome(VisitLog(AfterPolls(m, ps), qs), home)|
  {
    LogSplits(m, ps, qs);
    ByHomeConcat(VisitLog(m, ps), VisitLog(AfterPolls(m, ps), qs), home);
  }

  /** The first window of a run, and the run that is left. */
  lemma {:induction false} OneWindow(m: Memory, ps: seq<Poll>, homes: seq<string>, h: nat, c: nat)
    returns (at: Memory, rest: seq<Poll>)
    requires Distinct(homes) && h < |homes| && Fair(|homes|, m.offset)
    requires SameHomes(ps, homes) && c == Window(|homes|) <= |ps|
    ensures Fair(|homes|, at.offset) && SameHomes(rest, homes) && |rest| == |ps| - c
    ensures |ByHome(VisitLog(m, ps), homes[h])| >= 1 + |ByHome(VisitLog(at, rest), homes[h])|
  {
    var first := ps[..c];
    at, rest := AfterPolls(m, first), ps[c..];
    assert ps == first + rest;
    EveryHomeAdvances(m, first, homes, h);
    AdvancesAdd(m, first, rest, homes[h]);
  }

  lemma {:induction false} WindowsAdvance(m: Memory, ps: seq<Poll>, homes: seq<string>, h: nat, c: nat)
    requires Distinct(homes) && h < |homes| && Fair(|homes|, m.offset)
    requires SameHomes(ps, homes) && c == Window(|homes|)
    ensures Windows(|ps|, c) <= |ByHome(VisitLog(m, ps), homes[h])|
    decreases |ps|
  {
    if c <= |ps| {
      var at, rest := OneWindow(m, ps, homes, h, c);
      WindowsAdvance(at, rest, homes, h, c);
    }
  }

  /** Whatever the memory, the windows after the first poll advance every home's cursor. */
  lemma LaterWindowsAdvance(m: Memory, ps: seq<Poll>, homes: seq<string>, h: nat, c: nat)
    requires Distinct(homes) && h < |homes| && SameHomes(ps, homes) && c == Window(|homes|) && ps != []
    ensures Windows(|ps| - 1, c) <= |ByHome(VisitLog(m, ps), homes[h])|
  {
    var first, rest := ps[..1], ps[1..];
    OffsetInRange(m, first, homes);
    WindowsAdvance(AfterPolls(m, first), rest, homes, h, c);
    assert ps == first + rest;
    AdvancesAdd(m, first, rest, homes[h]);
  }

  lemma {:induction false} AllTurnsTaken(m: Memory, ps: seq<Poll>, home: string, files: seq<string>, from: nat, f: nat)
    requires SteadyRun(m, ps, home, files) && At(CursorOf(m.cursors, home), files, from) && f < |files|
    requires |files| < |ByHome(VisitLog(m, ps), home)|
    ensures Visit(home, Some(Path(DirOf(home), files[f]))) in VisitLog(m, ps)
  {
    var taken := ByHome(VisitLog(m, ps), home);
    var q := RunGoesRound(m, ps, home, files, from);
    var s := TurnComesUp(DirOf(home), files, from, taken, CursorOf(AfterPolls(m, ps).cursors, home), q, f);
    ByHomeMember(VisitLog(m, ps), home, taken[s]);
  }

  lemma TurnComesUp(dir: Dir, files: seq<string>, from: nat, taken: seq<Option<Path>>, c: Cursor, q: nat, f: nat)
    returns (s: nat)
    requires GoesRound(dir, files, from, taken, c, q) && f < |files| < |taken|
    ensures s < |taken| && taken[s] == Some(Path(dir, files[f]))
  {
    PositionComesUp(from, |files|, f);
    s := if from <= f then f - from else f + |files| + 1 - from;
    assert taken[s] == Turn(dir, files, f);
  }

  /** Bounded fairness down to the file: with a fixed list of n homes, each of the m files of a home's
      unchanging listing is taken from the cursor, hence read, within (m + 1) * ceil(n / 32) polls. */
  lemma {:induction false} EveryFileIsRead(
    m: Memory, ps: seq<Poll>, homes: seq<string>, h: nat, files: seq<string>, from: nat, f: nat)
    requires Distinct(homes) && h < |homes| && Fair(|homes|, m.offset)
    requires SameHomes(ps, homes) && SteadyRun(m, ps, homes[h], files)
    requires At(CursorOf(m.cursors, homes[h]), files, from) && f < |files|
    requires |ps| == (|files| + 1) * Window(|homes|)
    ensures Visit(homes[h], Some(Path(DirOf(homes[h]), files[f]))) in VisitLog(m, ps)
  {
    var c := Window(|homes|);
    assert |files| + 1 == Windows(|ps|, c) by { WindowsOfProduct(|files| + 1, c); }
    assert Windows(|ps|, c) <= |ByHome(VisitLog(m, ps), homes[h])| by { WindowsAdvance(m, ps, homes, h, c); }
    AllTurnsTaken(m, ps, homes[h], files, from, f);
  }

  /** And from any memory with one poll more. */
  lemma {:induction false} EveryFileIsReadFromAnyOffset(
    m: Memory, ps: seq<Poll>, homes: seq<string>, h: nat, files: seq<string>, from: nat, f: nat)
    requires Distinct(homes) && h < |homes|
    requires SameHomes(ps, homes) && SteadyRun(m, ps, homes[h], files)
    requires At(CursorOf(m.cursors, homes[h]), files, from) && f < |files|
    requires |ps| == (|files| + 1) * Window(|homes|) + 1
    ensures Visit(homes[h], Some(Path(DirOf(homes[h]), files[f]))) in VisitLog(m, ps)
  {
    var c := Window(|homes|);
    assert |files| + 1 == Windows(|ps| - 1, c) by { WindowsOfProduct(|files| + 1, c); }
    LaterWindowsAdvance(m, ps, homes, h, c);
    AllTurnsTaken(m, ps, homes[h], files, from, f);
  }

  // ------------------------------------------------------------------ the caches over whole runs

  /** Every outcome of a run, in order. */
  function Outcomes(ps: seq<Poll>): seq<Outcome> {
    if ps == [] then [] else Outcomes(ps[..|ps| - 1]) + Last(ps).outcomes
  }

  ghost predicate SoundCache(completed: Ordered<Path, Digest>, past: seq<Outcome>) {
    && DistinctKeys(completed) && |completed| <= CACHE
    && forall e :: e in completed ==> exists o :: o in past && o.path == e.0 && o.report.ok && o.report.digest == e.1
  }

  lemma {:induction false} DeliveredIsSound(
    completed: Ordered<Path, Digest>, past: seq<Outcome>, outcomes: seq<Outcome>)
    requires SoundCache(completed, past)
    ensures SoundCache(Delivered(completed, outcomes), past + outcomes)
    ensures outcomes != [] && Last(outcomes).report.ok ==>
            Lookup(Delivered(completed, outcomes), Last(outcomes).path) == Some(Last(outcomes).report.digest)
    decreases |outcomes|
  {
    if outcomes == [] {
      assert past + outcomes == past;
    } else {
      var front, o := outcomes[..|outcomes| - 1], Last(outcomes);
      DeliveredIsSound(completed, past, front);
      var before := Delivered(completed, front);
      PutTrimmedFacts(before, o.path, o.report.digest);
      assert past + outcomes == (past + front) + [o];
      forall e | e in Delivered(completed, outcomes)
        ensures exists o :: o in past + outcomes && o.path == e.0 && o.report.ok && o.report.digest == e.1
      {
        if e in before {
          var p :| p in past + front && p.path == e.0 && p.report.ok && p.report.digest == e.1;
          assert p in past + outcomes;
        } else {
          assert o in past + outcomes;
        }
      }
    }
  }

  /** Over every run the cache is bounded, and says "delivered" only of a path and digest that some
      earlier dispatch really delivered. */
  lemma {:induction false} CacheStaysSound(ps: seq<Poll>)
    ensures SoundCache(AfterPolls(FRESH, ps).completed, Outcomes(ps))
  {
    if ps != [] {
      CacheStaysSound(ps[..|ps| - 1]);
      DeliveredIsSound(AfterPolls(FRESH, ps[..|ps| - 1]).completed, Outcomes(ps[..|ps| - 1]), Last(ps).outcomes);
    }
  }

  /** No loss over whole runs: a readable, registered hint taken in any poll is dispatched in that poll
      or was delivered, at the same digest, by an earlier one. */
  lemma HintIsDispatchedOrWasDelivered(ps: seq<Poll>, w: World, k: nat)
    requires Distinct(w.homes)
    requires var sc := ScanOf(AfterPolls(FRESH, ps), w);
             && k < |sc.visits| && sc.visits[k].taken.Some?
             && w.reading(k, sc.visits[k].taken.value).Readable?
             && w.reading(k, sc.visits[k].taken.value).identity in w.index
    ensures var sc := ScanOf(AfterPolls(FRESH, ps), w);
            var path := sc.visits[k].taken.value;
            var reading := w.reading(k, path);
            || Job(path, w.index[reading.identity], reading.digest) in sc.batch
            || exists o :: o in Outcomes(ps) && o.path == path && o.report.ok && o.report.digest == reading.digest
  {
    var m := AfterPolls(FRESH, ps);
    var path := ScanOf(m, w).visits[k].taken.value;
    var digest := w.reading(k, path).digest;
    PollLosesNothing(w, m.completed, m.cursors, m.offset);
    CacheStaysSound(ps);
    if Lookup(m.completed, path) == Some(digest) {
      LookupIsMembership(m.completed, path, digest);
    }
  }

  // ------------------------------------------------------------------ the service

  /** What the dispatch of a job reports. */
  function OutcomeOf(dispatch: Job -> (bool, string), j: Job): Outcome {
    Outcome(j.path, Report(j.digest, dispatch(j).0, dispatch(j).1))
  }

  lemma SweepStopped(w: World, completed: Ordered<Path, Digest>, sc: Scan, a: seq<string>, b: seq<string>)
    requires Done(Sweep(w, completed, sc, a)) && a <= b
    ensures Sweep(w, completed, sc, b) == Sweep(w, completed, sc, a)
  {
    assert b == a + b[|a|..];
    SweepConcat(w, completed, sc, a, b[|a|..]);
  }

  lemma {:induction false} FewerRounds(selected: seq<string>, r: nat, i: nat, rounds: nat)
    requires r < rounds && i <= |selected|
    ensures Turns(selected, r) + selected[..i] <= Turns(selected, rounds)
    decreases rounds
  {
    if r < rounds - 1 {
      FewerRounds(selected, r, i, rounds - 1);
    }
  }

  lemma OneTurn(w: World, completed: Ordered<Path, Digest>, start: Scan, before: seq<string>, home: string)
    ensures var sc := Sweep(w, completed, start, before);
            Sweep(w, completed, start, before + [home]) ==
            if Done(sc) || home in sc.exhausted then sc else Visited(w, completed, sc, home)
  {
    var sc := Sweep(w, completed, start, before);
    SweepConcat(w, completed, start, before, [home]);
    if !Done(sc) {
      var sc' := if home in sc.exhausted then sc else Visited(w, completed, sc, home);
      assert Sweep(w, completed, sc, [home]) == Sweep(w, completed, sc', []);
    }
  }

  /** The state the service keeps between polls, updated in place. */
  class Pump {
    var completed: Ordered<Path, Digest>
    var reported: Ordered<Path, Report>
    var cursors: map<string, Cursor>
    var offset: nat

    constructor ()
      ensures Contents() == FRESH
    {
      completed, reported, cursors, offset := [], [], map[], 0;
    }

    function Contents(): Memory
      reads this
    {
      Memory(completed, reported, cursors, offset)
    }

    /** The generator `jobs` consumed through `islice`: it is resumed only while jobs are wanted. */
    method Jobs(w: World) returns (batch: seq<Job>, ghost log: seq<Visit>)
      modifies this`cursors
      ensures var sc := old(ScanOf(Contents(), w));
              cursors == sc.cursors && batch == sc.batch && log == sc.visits
    {
      ghost var start, rounds := Start(cursors), ROUNDS;
      var selected := Rotated(w.homes, offset);
      var visits, exhausted: set<string> := 0, {};
      batch, log := [], [];
      for r := 0 to ROUNDS
        invariant visits == |log|
        invariant Scan(cursors, exhausted, log, batch) == Sweep(w, completed, start, Turns(selected, r))
      {
        assert Turns(selected, r) + selected[..0] == Turns(selected, r);
        for i := 0 to |selected|
          invariant visits == |log|
          invariant Scan(cursors, exhausted, log, batch) ==
                    Sweep(w, completed, start, Turns(selected, r) + selected[..i])
        {
          var home := selected[i];
          OneTurn(w, completed, start, Turns(selected, r) + selected[..i], home);
          assert Turns(selected, r) + selected[..i] + [home] == Turns(selected, r) + selected[..i + 1];
          if home !in exhausted {
            if visits >= VISITS || |batch| >= BATCH {
              FewerRounds(selected, r, i, rounds);
              SweepStopped(w, completed, start, Turns(selected, r) + selected[..i], Turns(selected, rounds));
              return;
            }
            var cursor := CursorOf(cursors, home);
            var rest := if cursor.Unopened? then w.listing(DirOf(home)) else cursor.rest;
            if w.fault(visits) || rest == [] {
              cursors := cursors[home := Unopened];
              exhausted := exhausted + {home};
              log := log + [Visit(home, None)];
            } else {
              var path := Path(DirOf(home), rest[0]);
              cursors := cursors[home := Open(rest[1..])];
              log := log + [Visit(home, Some(path))];
              var reading := w.reading(visits, path);
              if reading.Readable? && reading.identity in w.index && Lookup(completed, path) != Some(reading.digest) {
                batch := batch + [Job(path, w.index[reading.identity], reading.digest)];
              }
            }
            visits := visits + 1;
          }
        }
        assert selected[..|selected|] == selected;
      }
    }

    /** One completed future: remember a delivery, announce a changed report, evict the oldest. */
    method Settle(o: Outcome) returns (announced: bool)
      modifies this`completed, this`reported
      ensures announced <==> News(old(reported), o)
      ensures completed == Delivered(old(completed), [o])
      ensures reported == Announced(old(reported), [o])
      ensures old(|completed|) <= CACHE ==> |completed| <= CACHE
      ensures old(|reported|) <= CACHE ==> |reported| <= CACHE
    {
      assert [o][..0] == [];
      if o.report.ok {
        completed := Put(completed, o.path, o.report.digest);
        completed := EvictOldest(completed);
      }
      announced := News(reported, o);
      if announced {
        reported := Put(reported, o.path, o.report);
        reported := EvictOldest(reported);
      }
    }

    /** One poll: gather, rotate, dispatch the batch, settle the futures in whatever order they complete. */
    method PollOnce(w: World, dispatch: Job -> (bool, string))
      returns (outcomes: seq<Outcome>, events: seq<Outcome>)
      modifies this
      ensures Contents() == AfterPoll(old(Contents()), Poll(w, outcomes))
      ensures events == Events(old(reported), outcomes)
      ensures var batch := old(ScanOf(Contents(), w)).batch;
              multiset(outcomes) == multiset(seq(|batch|, i requires 0 <= i < |batch| => OutcomeOf(dispatch, batch[i])))
    {
      ghost var before := Contents();
      var batch, log := Jobs(w);
      offset := (offset + 32) % (if |w.homes| == 0 then 1 else |w.homes|);
      var futures := seq(|batch|, i requires 0 <= i < |batch| => OutcomeOf(dispatch, batch[i]));
      ghost var all := multiset(futures);
      outcomes, events := [], [];
      while futures != []
        invariant events == Events(before.reported, outcomes)
        invariant completed == Delivered(before.completed, outcomes) && reported == Announced(before.reported, outcomes)
        invariant cursors == ScanOf(before, w).cursors && offset == NextOffset(before.offset, |w.homes|)
        invariant multiset(outcomes) + multiset(futures) == all
        decreases |futures|
      {
        var i :| 0 <= i < |futures|;
        var o := futures[i];
        var announced := Settle(o);
        SettleIsStep(before.completed, before.reported, outcomes, o);
        if announced { events := events + [o]; }
        outcomes := outcomes + [o];
        assert futures == futures[..i] + [o] + futures[i + 1..];
        futures := futures[..i] + futures[i + 1..];
      }
    }
  }

  /** `while len(d) > 65536: d.popitem(last=False)`. */
  method EvictOldest<K, V>(d: Ordered<K, V>) returns (r: Ordered<K, V>)
    ensures r == Trimmed(d)
  {
    r := d;
    while |r| > CACHE
      invariant |r| <= |d| && r == d[|d| - |r|..]
      invariant |r| < CACHE ==> r == d
    {
      r := r[1..];
    }
  }

  lemma SettleIsStep(
    completed: Ordered<Path, Digest>, reported: Ordered<Path, Report>, outcomes: seq<Outcome>, o: Outcome)
    ensures Delivered(completed, outcomes + [o]) == Delivered(Delivered(completed, outcomes), [o])
    ensures Announced(reported, outcomes + [o]) == Announced(Announced(reported, outcomes), [o])
    ensures Events(reported, outcomes + [o]) ==
            Events(reported, outcomes) + (if News(Announced(reported, outcomes), o) then [o] else [])
  {
    assert (outcomes + [o])[..|outcomes|] == outcomes && [o][..0] == [];
  }
}

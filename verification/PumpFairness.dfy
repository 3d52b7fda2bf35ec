/**
 * When a window of polls is fair (deploy/hermes-dispatch/mini-hermes-dispatch.py).  The configuration is read
 * again on every poll, so a list that has shrunk can leave an offset past its end.
 */
module PumpFairness {
  import opened Common
  import opened DeliveryPump

  /** The outcomes of one poll are, in some order, those of the jobs it dispatched. */
  ghost predicate Real(m: Memory, p: Poll) {
    exists dispatch :: DispatchedBy(dispatch, m, p)
  }

  ghost predicate DispatchedBy(dispatch: Job -> (bool, string), m: Memory, p: Poll) {
    multiset(p.outcomes) == multiset(OutcomesOf(dispatch, ScanOf(m, p.world).batch))
  }

  function OutcomesOf(dispatch: Job -> (bool, string), batch: seq<Job>): seq<Outcome> {
    seq(|batch|, i requires 0 <= i < |batch| => OutcomeOf(dispatch, batch[i]))
  }

  ghost predicate AllReal(m: Memory, ps: seq<Poll>) {
    forall k :: 0 <= k < |ps| ==> Real(AfterPolls(m, ps[..k]), ps[k])
  }

  /** From this offset one window of polls advances every home, whatever the polls find. */
  ghost predicate Covers(homes: seq<string>, offset: nat) {
    forall m, ps, h: nat :: CoversFrom(homes, offset, m, ps, h)
  }

  ghost predicate CoversFrom(homes: seq<string>, offset: nat, m: Memory, ps: seq<Poll>, h: nat) {
    m.offset == offset && SameHomes(ps, homes) && |ps| == Window(|homes|) && AllReal(m, ps) && h < |homes| ==>
      |ByHome(VisitLog(m, ps), homes[h])| >= 1
  }

  // ------------------------------------------------------------------ a busy world

  function Name(i: nat): string {
    seq(i, _ => 'x')
  }

  function Names(n: nat): seq<string> {
    seq(n, i requires 0 <= i < n => Name(i))
  }

  /** Every directory holds `files` undelivered hints. */
  function Busy(homes: seq<string>, files: nat): World {
    World(homes, map[SOMEONE := ""], d => Names(files), v => false, (v, p) => Readable(SOMEONE, ""))
  }

  /** No dispatch succeeds. */
  function Refuse(j: Job): (bool, string) {
    (false, "")
  }

  /** Each of these homes has at least so many files left to give. */
  ghost predicate Stocked(w: World, cursors: map<string, Cursor>, homes: seq<string>, left: nat) {
    forall h :: h in homes ==> left <= |Remaining(w, CursorOf(cursors, h), h)|
  }

  ghost predicate AllUnopened(cursors: map<string, Cursor>) {
    forall h :: h in cursors ==> cursors[h].Unopened?
  }

  lemma UnopenedIsStocked(homes: seq<string>, files: nat, cursors: map<string, Cursor>)
    requires AllUnopened(cursors)
    ensures Stocked(Busy(homes, files), cursors, homes, files)
  {
    assert forall h :: CursorOf(cursors, h) == Unopened;
  }

  lemma BusyVisit(w: World, sc: Scan, home: string, homes: seq<string>, files: nat)
    requires w == Busy(homes, files) && Remaining(w, CursorOf(sc.cursors, home), home) != []
    ensures var sc' := Visited(w, [], sc, home);
            && |sc'.batch| == |sc.batch| + 1 && sc'.exhausted == sc.exhausted
            && |sc'.visits| == |sc.visits| + 1 && sc'.visits[..|sc.visits|] == sc.visits
            && Last(sc'.visits).home == home
            && (forall h :: h != home ==> CursorOf(sc'.cursors, h) == CursorOf(sc.cursors, h))
            && |Remaining(w, CursorOf(sc'.cursors, home), home)| == |Remaining(w, CursorOf(sc.cursors, home), home)| - 1
  {
    var path := Path(DirOf(home), Remaining(w, CursorOf(sc.cursors, home), home)[0]);
    assert JobFor(w, [], |sc.visits|, path).Some?;
  }

  /** In a busy world the first 32 homes fill the batch, one job each. */
  ghost predicate Filled(w: World, cursors: map<string, Cursor>, sc: Scan, selected: seq<string>, p: nat)
    requires p <= |selected|
  {
    && |sc.visits| == |sc.batch| == p && sc.exhausted == {}
    && (forall k :: 0 <= k < p ==> sc.visits[k].home == selected[k])
    && (forall h :: h !in selected[..p] ==> CursorOf(sc.cursors, h) == CursorOf(cursors, h))
    && (forall h :: h in selected[..p] ==>
          |Remaining(w, CursorOf(sc.cursors, h), h)| == |Remaining(w, CursorOf(cursors, h), h)| - 1)
  }

  lemma FilledStep(
    w: World, homes: seq<string>, files: nat, cursors: map<string, Cursor>, sc: Scan, selected: seq<string>, p: nat)
    requires w == Busy(homes, files) && Distinct(selected) && p < |selected| && p < BATCH
    requires Stocked(w, cursors, selected, 1) && Filled(w, cursors, sc, selected, p)
    ensures Filled(w, cursors, Sweep(w, [], sc, [selected[p]]), selected, p + 1)
  {
    var h := selected[p];
    assert h in selected && h !in selected[..p];
    assert selected[..p + 1] == selected[..p] + [h];
    BusyVisit(w, sc, h, homes, files);
    SoleTurn(w, [], sc, h);
    var sc' := Visited(w, [], sc, h);
    forall k | 0 <= k < p + 1 ensures sc'.visits[k].home == selected[k] {
      if k < p { assert sc'.visits[k] == sc.visits[k]; }
    }
  }

  lemma {:induction false} BusyRound(
    w: World, homes: seq<string>, files: nat, cursors: map<string, Cursor>, selected: seq<string>, p: nat)
    requires w == Busy(homes, files) && Distinct(selected) && p <= |selected| && p <= BATCH
    requires Stocked(w, cursors, selected, 1)
    ensures Filled(w, cursors, Sweep(w, [], Start(cursors), selected[..p]), selected, p)
    decreases p
  {
    if p > 0 {
      BusyRound(w, homes, files, cursors, selected, p - 1);
      var sc := Sweep(w, [], Start(cursors), selected[..p - 1]);
      assert selected[..p] == selected[..p - 1] + [selected[p - 1]];
      SweepConcat(w, [], Start(cursors), selected[..p - 1], [selected[p - 1]]);
      FilledStep(w, homes, files, cursors, sc, selected, p - 1);
    }
  }

  /** A busy poll of more than 32 homes visits exactly the first 32 of its rotation. */
  lemma BusyPoll(w: World, homes: seq<string>, files: nat, cursors: map<string, Cursor>, offset: nat, left: nat)
    requires w == Busy(homes, files) && Distinct(homes) && 32 <= |homes| && Stocked(w, cursors, homes, left) && 0 < left
    ensures var sc := Polled(w, [], cursors, offset);
            && |sc.visits| == 32 && (forall k :: 0 <= k < 32 ==> sc.visits[k].home == Rotated(homes, offset)[k])
            && Stocked(w, sc.cursors, homes, left - 1)
  {
    var selected := Rotated(homes, offset);
    RotatedFacts(homes, offset);
    assert forall h :: h in selected ==> h in homes;
    assert Stocked(w, cursors, selected, 1);
    BusyRound(w, homes, files, cursors, selected, 32);
    var sc := Sweep(w, [], Start(cursors), selected[..32]);
    TurnsStartWithARound(selected, ROUNDS);
    assert selected[..32] <= Turns(selected, ROUNDS) by {
      assert Turns(selected, ROUNDS)[..32] == selected[..32];
    }
    SweepStopped(w, [], Start(cursors), selected[..32], Turns(selected, ROUNDS));
    forall h | h in homes ensures left - 1 <= |Remaining(w, CursorOf(sc.cursors, h), h)| {
      assert left <= |Remaining(w, CursorOf(cursors, h), h)|;
    }
  }

  // ------------------------------------------------------------------ a busy run

  lemma {:induction false} RefusedDeliversNothing(completed: Ordered<Path, Digest>, batch: seq<Job>, n: nat)
    requires n <= |batch|
    ensures Delivered(completed, OutcomesOf(Refuse, batch)[..n]) == completed
  {
    var outcomes := OutcomesOf(Refuse, batch);
    if n > 0 {
      assert outcomes[..n][..n - 1] == outcomes[..n - 1] && Last(outcomes[..n]) == outcomes[n - 1];
      RefusedDeliversNothing(completed, batch, n - 1);
    }
  }

  function Refused(m: Memory, w: World): Poll {
    Poll(w, OutcomesOf(Refuse, ScanOf(m, w).batch))
  }

  /** A sequence each of whose elements is chosen from those before it. */
  function Grown<P>(next: seq<P> -> P, n: nat): (ps: seq<P>)
    ensures |ps| == n
  {
    if n == 0 then [] else var front := Grown(next, n - 1); front + [next(front)]
  }

  lemma {:induction false} GrownPrefix<P>(next: seq<P> -> P, n: nat, k: nat)
    requires k <= n
    ensures Grown(next, n)[..k] == Grown(next, k)
    ensures k < n ==> Grown(next, n)[k] == next(Grown(next, k))
  {
    if k < n {
      GrownPrefix(next, n - 1, k);
    }
  }

  /** So many polls of one world in which every dispatch fails. */
  function Repeated(m: Memory, w: World, n: nat): (ps: seq<Poll>)
    ensures |ps| == n
  {
    Grown(Again(m, w), n)
  }

  function Again(m: Memory, w: World): seq<Poll> -> Poll {
    ps => Refused(AfterPolls(m, ps), w)
  }

  lemma RepeatedAt(m: Memory, w: World, n: nat, k: nat)
    requires k < n
    ensures Repeated(m, w, n)[..k] == Repeated(m, w, k)
    ensures Repeated(m, w, n)[k] == Refused(AfterPolls(m, Repeated(m, w, k)), w)
  {
    GrownPrefix(Again(m, w), n, k);
  }

  lemma RefusedIsReal(m: Memory, w: World)
    ensures Real(m, Refused(m, w)) && Refused(m, w).world == w
  {
    assert DispatchedBy(Refuse, m, Refused(m, w));
  }

  lemma RepeatedIsReal(m: Memory, w: World, n: nat)
    ensures AllReal(m, Repeated(m, w, n)) && SameHomes(Repeated(m, w, n), w.homes)
  {
    var ps := Repeated(m, w, n);
    forall k | 0 <= k < |ps| ensures Real(AfterPolls(m, ps[..k]), ps[k]) && ps[k].world == w {
      RepeatedAt(m, w, n, k);
      RefusedIsReal(AfterPolls(m, ps[..k]), w);
    }
  }

  lemma RefusedAfter(m: Memory, w: World)
    ensures AfterPoll(m, Refused(m, w)).completed == m.completed
    ensures AfterPoll(m, Refused(m, w)).cursors == ScanOf(m, w).cursors
    ensures AfterPoll(m, Refused(m, w)).offset == NextOffset(m.offset, |w.homes|)
  {
    var batch := ScanOf(m, w).batch;
    RefusedDeliversNothing(m.completed, batch, |batch|);
    assert OutcomesOf(Refuse, batch)[..|batch|] == OutcomesOf(Refuse, batch);
  }

  lemma RepeatedStep(m: Memory, w: World, n: nat)
    requires n > 0
    ensures AfterPolls(m, Repeated(m, w, n)) ==
            AfterPoll(AfterPolls(m, Repeated(m, w, n - 1)), Refused(AfterPolls(m, Repeated(m, w, n - 1)), w))
    ensures VisitLog(m, Repeated(m, w, n)) ==
            VisitLog(m, Repeated(m, w, n - 1)) + ScanOf(AfterPolls(m, Repeated(m, w, n - 1)), w).visits
  {
    var front, ps := Repeated(m, w, n - 1), Repeated(m, w, n);
    assert ps[..|ps| - 1] == front && Last(ps) == Refused(AfterPolls(m, front), w);
  }

  /** A busy run keeps every home stocked and delivers nothing. */
  lemma {:induction false} BusyRun(m: Memory, homes: seq<string>, files: nat, n: nat)
    requires Distinct(homes) && 32 <= |homes| && n <= files && m.completed == []
    requires Stocked(Busy(homes, files), m.cursors, homes, files)
    ensures var at := AfterPolls(m, Repeated(m, Busy(homes, files), n));
            at.completed == [] && Stocked(Busy(homes, files), at.cursors, homes, files - n)
  {
    if n > 0 {
      var w := Busy(homes, files);
      BusyRun(m, homes, files, n - 1);
      var at := AfterPolls(m, Repeated(m, w, n - 1));
      BusyPoll(w, homes, files, at.cursors, at.offset, files - (n - 1));
      RepeatedStep(m, w, n);
      RefusedAfter(at, w);
    }
  }

  /** The home at place `h` is not among the first 32 of the rotation. */
  predicate PassedOver(homes: seq<string>, offset: nat, h: nat)
    requires h < |homes| && 32 <= |homes|
  {
    forall k :: 0 <= k < 32 ==> Rotated(homes, offset)[k] != homes[h]
  }

  /** A home that every poll of a busy run passes over is not visited at all. */
  lemma PassedOverIsMissed(m: Memory, homes: seq<string>, files: nat, n: nat, h: nat)
    requires Distinct(homes) && 32 <= |homes| && n <= files && m.completed == [] && h < |homes|
    requires Stocked(Busy(homes, files), m.cursors, homes, files)
    requires forall k :: 0 <= k < n ==> PassedOver(homes, AfterPolls(m, Repeated(m, Busy(homes, files), k)).offset, h)
    ensures ByHome(VisitLog(m, Repeated(m, Busy(homes, files), n)), homes[h]) == []
  {
    var w := Busy(homes, files);
    var ps := Repeated(m, w, n);
    forall k | 0 <= k < |ps| ensures PollMisses(m, ps, k, homes[h]) {
      RepeatedAt(m, w, n, k);
      BusyRun(m, homes, files, k);
      PassedOverOnce(AfterPolls(m, Repeated(m, w, k)), homes, files, files - k, h);
    }
    NeverVisited(m, ps, homes[h]);
  }

  ghost predicate PollMisses(m: Memory, ps: seq<Poll>, k: nat, home: string)
    requires k < |ps|
  {
    ByHome(ScanOf(AfterPolls(m, ps[..k]), ps[k].world).visits, home) == []
  }

  lemma {:induction false} NeverVisited(m: Memory, ps: seq<Poll>, home: string)
    requires forall k :: 0 <= k < |ps| ==> PollMisses(m, ps, k, home)
    ensures ByHome(VisitLog(m, ps), home) == []
    decreases |ps|
  {
    if ps != [] {
      var front := ps[..|ps| - 1];
      forall k | 0 <= k < |front| ensures PollMisses(m, front, k, home) {
        assert PollMisses(m, ps, k, home) && front[..k] == ps[..k];
      }
      NeverVisited(m, front, home);
      assert PollMisses(m, ps, |ps| - 1, home);
      ByHomeConcat(VisitLog(m, front), ScanOf(AfterPolls(m, front), Last(ps).world).visits, home);
    }
  }

  lemma PassedOverOnce(at: Memory, homes: seq<string>, files: nat, left: nat, h: nat)
    requires Distinct(homes) && 32 <= |homes| && h < |homes| && PassedOver(homes, at.offset, h)
    requires at.completed == [] && Stocked(Busy(homes, files), at.cursors, homes, left) && 0 < left
    ensures ByHome(ScanOf(at, Busy(homes, files)).visits, homes[h]) == []
  {
    BusyPoll(Busy(homes, files), homes, files, at.cursors, at.offset, left);
    RotatedFacts(homes, at.offset);
    NotVisited(ScanOf(at, Busy(homes, files)).visits, homes[h]);
  }

  lemma {:induction false} NotVisited(visits: seq<Visit>, home: string)
    requires forall k :: 0 <= k < |visits| ==> visits[k].home != home
    ensures ByHome(visits, home) == []
  {
    if visits != [] {
      NotVisited(visits[..|visits| - 1], home);
    }
  }

  // ------------------------------------------------------------------ the exact condition

  /** The home a window starting past the end of the list misses. */
  function Missed(n: nat, offset: nat): nat
    requires n > 32
  {
    if NextOffset(offset, n) > 32 then NextOffset(offset, n) - 1 else n - 1
  }

  lemma MissedIsFar(n: nat, offset: nat)
    requires n > 32 && !Fair(n, offset)
    ensures 32 <= Missed(n, offset) < n && NextOffset(offset, n) < n
    ensures 32 * (Window(n) - 1) <= Distance(n, NextOffset(offset, n), Missed(n, offset))
  {
  }

  lemma {:induction false} RepeatedOffset(m: Memory, w: World, n: nat)
    requires w.homes != [] && m.offset <= |w.homes| && (n == 0 || 32 * n < |w.homes|)
    ensures var o := AfterPolls(m, Repeated(m, w, n)).offset;
            && o <= |w.homes|
            && (o == m.offset + 32 * n || o == m.offset + 32 * n - |w.homes|)
  {
    RepeatedIsReal(m, w, n);
    OffsetsRotate(m, Repeated(m, w, n), w.homes);
  }

  /** `k` polls on, a home further than `32 * k + 31` places away is passed over. */
  lemma FarIsPassedOver(homes: seq<string>, offset: nat, later: nat, k: nat, h: nat)
    requires Distinct(homes) && 32 <= |homes| && h < |homes| && offset <= |homes| && later <= |homes|
    requires 32 * k + 32 <= Distance(|homes|, offset, h)
    requires later == offset + 32 * k || later == offset + 32 * k - |homes|
    ensures PassedOver(homes, later, h)
  {
    RotatedFacts(homes, later);
    PlaceInRotation(homes, offset, later, k, h);
    var r := Rotated(homes, later);
    forall i | 0 <= i < 32 ensures r[i] != homes[h] {
      assert r[Distance(|homes|, offset, h) - 32 * k] == homes[h];
    }
  }

  /** A run of `k + 1` polls is one poll and then a run of `k`. */
  lemma {:induction false} RepeatedAfterFirst(m: Memory, w: World, k: nat)
    ensures AfterPolls(m, Repeated(m, w, k + 1)) ==
            AfterPolls(AfterPoll(m, Refused(m, w)), Repeated(AfterPoll(m, Refused(m, w)), w, k))
    decreases k
  {
    RepeatedStep(m, w, k + 1);
    if k > 0 {
      RepeatedAfterFirst(m, w, k - 1);
      RepeatedStep(AfterPoll(m, Refused(m, w)), w, k);
    }
  }

  lemma WindowPassesOver(m: Memory, homes: seq<string>, files: nat, k: nat)
    requires Distinct(homes) && |homes| > 32 && !Fair(|homes|, m.offset) && k < Window(|homes|)
    ensures PassedOver(homes, AfterPolls(m, Repeated(m, Busy(homes, files), k)).offset, Missed(|homes|, m.offset))
  {
    var w, n := Busy(homes, files), |homes|;
    var h := Missed(n, m.offset);
    MissedIsFar(n, m.offset);
    if k == 0 {
      assert Rotated(homes, m.offset) == homes;
    } else {
      var at := AfterPoll(m, Refused(m, w));
      RepeatedAfterFirst(m, w, k - 1);
      RefusedAfter(m, w);
      RepeatedOffset(at, w, k - 1);
      FarIsPassedOver(homes, at.offset, AfterPolls(at, Repeated(at, w, k - 1)).offset, k - 1, h);
    }
  }

  /** An unfair offset: a busy window misses a home. */
  lemma UnfairWindowMisses(m: Memory, homes: seq<string>)
    requires Distinct(homes) && !Fair(|homes|, m.offset) && m.completed == []
    requires Stocked(Busy(homes, Window(|homes|)), m.cursors, homes, Window(|homes|))
    ensures var ps, h := Repeated(m, Busy(homes, Window(|homes|)), Window(|homes|)), Missed(|homes|, m.offset);
            && AllReal(m, ps) && SameHomes(ps, homes) && |ps| == Window(|homes|) && h < |homes|
            && ByHome(VisitLog(m, ps), homes[h]) == []
  {
    var c, w := Window(|homes|), Busy(homes, Window(|homes|));
    MissedIsFar(|homes|, m.offset);
    RepeatedIsReal(m, w, c);
    forall k | 0 <= k < c
      ensures PassedOver(homes, AfterPolls(m, Repeated(m, w, k)).offset, Missed(|homes|, m.offset))
    {
      WindowPassesOver(m, homes, c, k);
    }
    PassedOverIsMissed(m, homes, c, c, Missed(|homes|, m.offset));
  }

  /** With a fixed list of n homes, one window of ceil(n / 32) polls advances every home whatever the polls
      find if and only if the offset it starts from is fair. */
  lemma FairnessExactly(homes: seq<string>, offset: nat)
    requires Distinct(homes)
    ensures Covers(homes, offset) <==> Fair(|homes|, offset)
  {
    if Fair(|homes|, offset) {
      forall m, ps, h: nat ensures CoversFrom(homes, offset, m, ps, h) {
        FairCovers(homes, offset, m, ps, h);
      }
    } else {
      UnfairMisses(homes, offset);
    }
  }

  lemma FairCovers(homes: seq<string>, offset: nat, m: Memory, ps: seq<Poll>, h: nat)
    requires Distinct(homes) && Fair(|homes|, offset)
    ensures CoversFrom(homes, offset, m, ps, h)
  {
    if m.offset == offset && SameHomes(ps, homes) && |ps| == Window(|homes|) && h < |homes| {
      EveryHomeAdvances(m, ps, homes, h);
    }
  }

  lemma UnfairMisses(homes: seq<string>, offset: nat)
    requires Distinct(homes) && !Fair(|homes|, offset)
    ensures !Covers(homes, offset)
  {
    var m, c := FRESH.(offset := offset), Window(|homes|);
    UnopenedIsStocked(homes, c, m.cursors);
    UnfairWindowMisses(m, homes);
    assert !CoversFrom(homes, offset, m, Repeated(m, Busy(homes, c), c), Missed(|homes|, offset));
  }

  // ------------------------------------------------------------------ a list that shrinks

  /** Nothing to deliver anywhere. */
  function Quiet(homes: seq<string>): World {
    World(homes, map[], d => [], v => false, (v, p) => Unreadable)
  }

  lemma {:induction false} QuietSweep(homes: seq<string>, sc: Scan, turns: seq<string>)
    requires AllUnopened(sc.cursors) && sc.batch == []
    ensures var sc' := Sweep(Quiet(homes), [], sc, turns);
            AllUnopened(sc'.cursors) && sc'.batch == []
    decreases |turns|
  {
    if turns != [] && !Done(sc) {
      var next := if turns[0] in sc.exhausted then sc else Visited(Quiet(homes), [], sc, turns[0]);
      QuietSweep(homes, next, turns[1..]);
    }
  }

  lemma {:induction false} QuietRun(m: Memory, homes: seq<string>, n: nat)
    requires m.completed == [] && AllUnopened(m.cursors)
    ensures var at := AfterPolls(m, Repeated(m, Quiet(homes), n));
            at.completed == [] && AllUnopened(at.cursors)
  {
    if n > 0 {
      QuietRun(m, homes, n - 1);
      var at := AfterPolls(m, Repeated(m, Quiet(homes), n - 1));
      QuietSweep(homes, Start(at.cursors), Turns(Rotated(homes, at.offset), ROUNDS));
      RepeatedStep(m, Quiet(homes), n);
      RefusedAfter(at, Quiet(homes));
    }
  }

  /** Three polls of 62 homes from the start leave the offset at 34. */
  lemma ThreePollsOf62(many: seq<string>)
    requires |many| == 62
    ensures AfterPolls(FRESH, Repeated(FRESH, Quiet(many), 3)).offset == 34
  {
    var w := Quiet(many);
    RepeatedStep(FRESH, w, 1);
    RefusedAfter(AfterPolls(FRESH, Repeated(FRESH, w, 0)), w);
    RepeatedStep(FRESH, w, 2);
    RefusedAfter(AfterPolls(FRESH, Repeated(FRESH, w, 1)), w);
    RepeatedStep(FRESH, w, 3);
    RefusedAfter(AfterPolls(FRESH, Repeated(FRESH, w, 2)), w);
  }

  /** A run from the start: the list shrinks from 62 homes to 33 after three polls, and the next window of
      two polls both visit the first 32 of them and miss the last. */
  lemma ShrunkListMisses(many: seq<string>, few: seq<string>)
    requires |many| == 62 && |few| == 33 && Distinct(few)
    ensures var before := Repeated(FRESH, Quiet(many), 3);
            var m := AfterPolls(FRESH, before);
            var ps := Repeated(m, Busy(few, 2), 2);
            && AllReal(FRESH, before) && AllReal(m, ps) && SameHomes(ps, few) && Window(|few|) == 2
            && m.offset == 34 && ByHome(VisitLog(m, ps), few[32]) == []
  {
    var before := Repeated(FRESH, Quiet(many), 3);
    var m := AfterPolls(FRESH, before);
    RepeatedIsReal(FRESH, Quiet(many), 3);
    ThreePollsOf62(many);
    QuietRun(FRESH, many, 3);
    UnopenedIsStocked(few, 2, m.cursors);
    UnfairWindowMisses(m, few);
  }
}

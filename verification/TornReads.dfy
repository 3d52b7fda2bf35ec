/**
 * What the digest of a reading caller is a digest of (native/file_identity.rs), whether it is stored or
 * not.  `Versions` records, for each byte a caller has read, the ctime its inode had at that moment; two
 * runs have the same schedule when they differ only in what the files contain.
 */
module TornReads {
  import opened Common
  import opened FileIdentity

  /** The ctime of the inode when each byte of the caller's data was read. */
  function Versions(hash: Hash, es: seq<Event>, tid: Tid): seq<int> {
    if es == [] then []
    else
      var front, e := es[..|es| - 1], Last(es);
      var s, versions := Run(hash, EMPTY, front), Versions(hash, front, tid);
      if !Enabled(s, e) then versions
      else if e == LookUp(tid) then []
      else if e.Read? && e.tid == tid then versions + seq(e.count, _ => s.nodes[CallerOf(s, tid).identity.ino].ctime)
      else versions
  }

  predicate HasData(c: Caller) {
    c.Reading? || c.Hashed? || c.Checked?
  }

  /** Byte `j` of the data is byte `j` of the version it was read from. */
  predicate ByteOk(s: System, ino: Ino, versions: seq<int>, data: Bytes, j: nat)
    requires j < |data| && j < |versions|
  {
    && (ino, versions[j]) in s.history && j < |s.history[(ino, versions[j])]|
    && data[j] == s.history[(ino, versions[j])][j]
  }

  /** The data is made of bytes of the inode's versions, and empty data comes of an empty version. */
  ghost predicate Tracked(s: System, tid: Tid, versions: seq<int>) {
    var c := CallerOf(s, tid);
    HasData(c) ==>
      && |versions| == |c.data|
      && (forall j :: 0 <= j < |c.data| ==> ByteOk(s, c.identity.ino, versions, c.data, j))
      && (!c.Reading? && c.data == [] ==>
            exists v :: (c.identity.ino, v) in s.history && s.history[(c.identity.ino, v)] == [])
  }

  /** History only grows. */
  ghost predicate Remembers(s: System, s': System) {
    forall k :: k in s.history ==> k in s'.history && s'.history[k] == s.history[k]
  }

  lemma EventRemembers(hash: Hash, s: System, e: Event)
    requires Coherent(hash, s) && Enabled(s, e)
    ensures Remembers(s, Next(hash, s, e))
  {
    if e.Change? { assert PastOk(s, e.ino, e.node.ctime); }
  }

  lemma StillTracked(s: System, s': System, tid: Tid, versions: seq<int>)
    requires Tracked(s, tid, versions) && Remembers(s, s') && CallerOf(s', tid) == CallerOf(s, tid)
    ensures Tracked(s', tid, versions)
  {
    var c := CallerOf(s, tid);
    if HasData(c) {
      forall j | 0 <= j < |c.data| ensures ByteOk(s', c.identity.ino, versions, c.data, j) {
        assert ByteOk(s, c.identity.ino, versions, c.data, j);
      }
    }
  }

  lemma ReadIsTracked(hash: Hash, s: System, tid: Tid, count: nat, versions: seq<int>)
    requires Coherent(hash, s) && Enabled(s, Read(tid, count)) && Tracked(s, tid, versions)
    ensures Tracked(Next(hash, s, Read(tid, count)), tid,
                    versions + seq(count, _ => s.nodes[CallerOf(s, tid).identity.ino].ctime))
  {
    var c, s' := CallerOf(s, tid), Next(hash, s, Read(tid, count));
    var ino := c.identity.ino;
    var more := versions + seq(count, _ => s.nodes[ino].ctime);
    var data := CallerOf(s', tid).data;
    assert NodeOk(s, ino);
    forall j | 0 <= j < |data| ensures ByteOk(s', ino, more, data, j) {
      if j < |c.data| { assert ByteOk(s, ino, versions, c.data, j); }
    }
  }

  lemma EndIsTracked(hash: Hash, s: System, tid: Tid, versions: seq<int>)
    requires Coherent(hash, s) && Enabled(s, EndOfFile(tid)) && Tracked(s, tid, versions)
    ensures Tracked(Next(hash, s, EndOfFile(tid)), tid, versions)
  {
    var c, s' := CallerOf(s, tid), Next(hash, s, EndOfFile(tid));
    assert NodeOk(s, c.identity.ino);
    forall j | 0 <= j < |c.data| ensures ByteOk(s', c.identity.ino, versions, c.data, j) {
      assert ByteOk(s, c.identity.ino, versions, c.data, j);
    }
    if c.data == [] {
      assert s'.history[(c.identity.ino, s.nodes[c.identity.ino].ctime)] == [];
    }
  }

  lemma RestatIsTracked(hash: Hash, s: System, tid: Tid, versions: seq<int>)
    requires Enabled(s, Restat(tid)) && Tracked(s, tid, versions)
    ensures Tracked(Next(hash, s, Restat(tid)), tid, versions)
  {
    var c, s' := CallerOf(s, tid), Next(hash, s, Restat(tid));
    forall j | 0 <= j < |c.data| ensures ByteOk(s', c.identity.ino, versions, c.data, j) {
      assert ByteOk(s, c.identity.ino, versions, c.data, j);
    }
  }

  /** In every run each byte a caller holds is a byte of the version it was read from. */
  lemma {:induction false} EveryByteHasAVersion(hash: Hash, es: seq<Event>, tid: Tid)
    ensures Tracked(Run(hash, EMPTY, es), tid, Versions(hash, es, tid))
  {
    if es != [] {
      var front, e := es[..|es| - 1], Last(es);
      var s, versions := Run(hash, EMPTY, front), Versions(hash, front, tid);
      EveryByteHasAVersion(hash, front, tid);
      EveryInterleavingIsCoherent(hash, front);
      if Enabled(s, e) { EventIsTracked(hash, s, e, tid, versions); }
    }
  }

  lemma EventIsTracked(hash: Hash, s: System, e: Event, tid: Tid, versions: seq<int>)
    requires Coherent(hash, s) && Enabled(s, e) && Tracked(s, tid, versions)
    ensures var s' := Next(hash, s, e);
            if e == LookUp(tid) then Tracked(s', tid, [])
            else if e.Read? && e.tid == tid then
              Tracked(s', tid, versions + seq(e.count, _ => s.nodes[CallerOf(s, tid).identity.ino].ctime))
            else Tracked(s', tid, versions)
  {
    var s' := Next(hash, s, e);
    if e.Read? && e.tid == tid { ReadIsTracked(hash, s, tid, e.count, versions); }
    else if e == EndOfFile(tid) { EndIsTracked(hash, s, tid, versions); }
    else if e == Restat(tid) { RestatIsTracked(hash, s, tid, versions); }
    else if CallerOf(s', tid) == CallerOf(s, tid) {
      EventRemembers(hash, s, e);
      StillTracked(s, s', tid, versions);
    }
  }

  // ------------------------------------------------------------------ runs with the same schedule

  /** The same event, but for what a change writes. */
  predicate SameEvent(e: Event, e': Event) {
    if e.Change? then
      && e'.Change? && e'.ino == e.ino && e'.node == e.node.(content := e'.node.content)
      && |e'.node.content| == |e.node.content|
    else e' == e
  }

  predicate SameSchedule(es: seq<Event>, es': seq<Event>) {
    |es| == |es'| && forall i :: 0 <= i < |es| ==> SameEvent(es[i], es'[i])
  }

  predicate SameNode(n: Inode, n': Inode) {
    n' == n.(content := n'.content) && |n'.content| == |n.content|
  }

  predicate SameCaller(c: Caller, c': Caller) {
    match (c, c')
    case (Reading(path, identity, data), Reading(path', identity', data')) =>
      path' == path && identity' == identity && |data'| == |data|
    case (Hashed(path, identity, data), Hashed(path', identity', data')) =>
      path' == path && identity' == identity && |data'| == |data|
    case (Checked(path, identity, data), Checked(path', identity', data')) =>
      path' == path && identity' == identity && |data'| == |data|
    case (Returned(digest), Returned(digest')) => digest'.Some? <==> digest.Some?
    case _ => c' == c
  }

  predicate SameEntries(a: seq<Entry>, b: seq<Entry>) {
    |a| == |b| && forall i :: 0 <= i < |a| ==> b[i] == a[i].(digest := b[i].digest)
  }

  /** Two systems that differ only in bytes and digests. */
  ghost predicate Alike(s: System, s': System) {
    && s'.names == s.names && s'.nodes.Keys == s.nodes.Keys && s'.history.Keys == s.history.Keys
    && (forall ino :: ino in s.nodes ==> SameNode(s.nodes[ino], s'.nodes[ino]))
    && (forall k :: k in s.history ==> |s'.history[k]| == |s.history[k]|)
    && SameEntries(s.cache, s'.cache)
    && (forall tid :: SameCaller(CallerOf(s, tid), CallerOf(s', tid)))
  }

  lemma {:induction false} FoundAlike(a: seq<Entry>, b: seq<Entry>, path: PathName, identity: Fingerprint)
    requires SameEntries(a, b)
    ensures Found(a, path, identity).Some? <==> Found(b, path, identity).Some?
  {
    if a != [] {
      assert b[0] == a[0].(digest := b[0].digest);
      FoundAlike(a[1..], b[1..], path, identity);
    }
  }

  lemma {:induction false} OthersAlike(a: seq<Entry>, b: seq<Entry>, path: PathName)
    requires SameEntries(a, b)
    ensures SameEntries(Others(a, path), Others(b, path))
  {
    if a != [] {
      OthersAlike(a[..|a| - 1], b[..|b| - 1], path);
      assert Last(b) == Last(a).(digest := Last(b).digest);
    }
  }

  lemma SetAlike(s: System, s': System, tid: Tid, c: Caller, c': Caller)
    requires Alike(s, s') && SameCaller(c, c')
    ensures Alike(Set(s, tid, c), Set(s', tid, c'))
  {
    var t, t' := Set(s, tid, c), Set(s', tid, c');
    forall k ensures SameCaller(CallerOf(t, k), CallerOf(t', k)) {
      assert SameCaller(CallerOf(s, k), CallerOf(s', k));
    }
  }

  lemma EnabledAlike(s: System, s': System, e: Event, e': Event)
    requires Alike(s, s') && SameEvent(e, e')
    ensures Enabled(s, e) <==> Enabled(s', e')
  {
    if e.Change? {
      assert e.ino in s.nodes ==> SameNode(s.nodes[e.ino], s'.nodes[e.ino]);
    } else if !e.Name? && !e.Unname? {
      var c := CallerOf(s, e.tid);
      assert SameCaller(c, CallerOf(s', e.tid));
      if c.Reading? && c.identity.ino in s.nodes { assert SameNode(s.nodes[c.identity.ino], s'.nodes[c.identity.ino]); }
    }
  }

  lemma ChangeAlike(hash: Hash, s: System, s': System, e: Event, e': Event)
    requires Alike(s, s') && SameEvent(e, e') && e.Change? && Enabled(s, e) && Enabled(s', e')
    ensures Alike(Next(hash, s, e), Next(hash, s', e'))
  {
    var t, t' := Next(hash, s, e), Next(hash, s', e');
    forall k ensures SameCaller(CallerOf(t, k), CallerOf(t', k)) {
      assert SameCaller(CallerOf(s, k), CallerOf(s', k));
    }
  }

  lemma NamingAlike(hash: Hash, s: System, s': System, e: Event)
    requires Alike(s, s') && (e.Name? || e.Unname?) && Enabled(s, e) && Enabled(s', e)
    ensures Alike(Next(hash, s, e), Next(hash, s', e))
  {
    var t, t' := Next(hash, s, e), Next(hash, s', e);
    forall k ensures SameCaller(CallerOf(t, k), CallerOf(t', k)) {
      assert SameCaller(CallerOf(s, k), CallerOf(s', k));
    }
  }

  lemma KeepAlike(hash: Hash, s: System, s': System, tid: Tid)
    requires Alike(s, s') && Enabled(s, Keep(tid)) && Enabled(s', Keep(tid))
    ensures Alike(Next(hash, s, Keep(tid)), Next(hash, s', Keep(tid)))
  {
    var c, c' := CallerOf(s, tid), CallerOf(s', tid);
    assert SameCaller(c, c');
    SetAlike(s, s', tid, Returned(Some(hash(c.data))), Returned(Some(hash(c'.data))));
    OthersAlike(s.cache, s'.cache, c.path);
    var t, t' := Next(hash, s, Keep(tid)), Next(hash, s', Keep(tid));
    var u, u' := Set(s, tid, Returned(Some(hash(c.data)))), Set(s', tid, Returned(Some(hash(c'.data))));
    forall k ensures SameCaller(CallerOf(t, k), CallerOf(t', k)) {
      assert SameCaller(CallerOf(u, k), CallerOf(u', k));
    }
  }

  /** The caller a step leaves, for the steps that change only their caller. */
  function CallerAfter(hash: Hash, s: System, e: Event): Caller
    requires Enabled(s, e) && !e.Change? && !e.Name? && !e.Unname? && !e.Keep?
  {
    CallerOf(Next(hash, s, e), e.tid)
  }

  lemma OnlyTheCaller(hash: Hash, s: System, e: Event)
    requires Enabled(s, e) && !e.Change? && !e.Name? && !e.Unname? && !e.Keep?
    ensures Next(hash, s, e) == Set(s, e.tid, CallerAfter(hash, s, e))
  {
  }

  lemma CallerAlike(hash: Hash, s: System, s': System, e: Event)
    requires Alike(s, s') && !e.Change? && !e.Name? && !e.Unname? && !e.Keep? && Enabled(s, e) && Enabled(s', e)
    ensures SameCaller(CallerAfter(hash, s, e), CallerAfter(hash, s', e))
  {
    assert SameCaller(CallerOf(s, e.tid), CallerOf(s', e.tid));
    if e.Stat? { StatAlike(hash, s, s', e); }
    else if e.LookUp? { FoundAlike(s.cache, s'.cache, CallerOf(s, e.tid).path, CallerOf(s, e.tid).identity); }
    else if e.Read? { ReadAlike(hash, s, s', e); }
    else if e.Restat? { RestatAlike(hash, s, s', e); }
  }

  lemma StatAlike(hash: Hash, s: System, s': System, e: Event)
    requires Alike(s, s') && e.Stat? && Enabled(s, e) && Enabled(s', e)
    ensures SameCaller(CallerAfter(hash, s, e), CallerAfter(hash, s', e))
  {
    var c := CallerOf(s, e.tid);
    assert SameCaller(c, CallerOf(s', e.tid)) && SameNode(s.nodes[c.ino], s'.nodes[c.ino]);
  }

  lemma ReadAlike(hash: Hash, s: System, s': System, e: Event)
    requires Alike(s, s') && e.Read? && Enabled(s, e) && Enabled(s', e)
    ensures SameCaller(CallerAfter(hash, s, e), CallerAfter(hash, s', e))
  {
    var c := CallerOf(s, e.tid);
    assert SameCaller(c, CallerOf(s', e.tid)) && SameNode(s.nodes[c.identity.ino], s'.nodes[c.identity.ino]);
  }

  lemma RestatAlike(hash: Hash, s: System, s': System, e: Event)
    requires Alike(s, s') && e.Restat? && Enabled(s, e) && Enabled(s', e)
    ensures SameCaller(CallerAfter(hash, s, e), CallerAfter(hash, s', e))
  {
    var c := CallerOf(s, e.tid);
    assert SameCaller(c, CallerOf(s', e.tid)) && SameNode(s.nodes[c.identity.ino], s'.nodes[c.identity.ino]);
  }

  lemma NextAlike(hash: Hash, s: System, s': System, e: Event, e': Event)
    requires Alike(s, s') && SameEvent(e, e') && Enabled(s, e) && Enabled(s', e')
    ensures Alike(Next(hash, s, e), Next(hash, s', e'))
  {
    if e.Change? { ChangeAlike(hash, s, s', e, e'); }
    else if e.Name? || e.Unname? { NamingAlike(hash, s, s', e); }
    else if e.Keep? { KeepAlike(hash, s, s', e.tid); }
    else {
      CallerAlike(hash, s, s', e);
      OnlyTheCaller(hash, s, e);
      OnlyTheCaller(hash, s', e);
      SetAlike(s, s', e.tid, CallerAfter(hash, s, e), CallerAfter(hash, s', e));
    }
  }

  /** Runs with the same schedule do the same things at the same times. */
  lemma {:induction false} RunsAlike(hash: Hash, es: seq<Event>, es': seq<Event>, tid: Tid)
    requires SameSchedule(es, es')
    ensures Alike(Run(hash, EMPTY, es), Run(hash, EMPTY, es'))
    ensures Versions(hash, es', tid) == Versions(hash, es, tid)
    decreases |es|
  {
    if es != [] {
      var n := |es| - 1;
      var s, s' := Run(hash, EMPTY, es[..n]), Run(hash, EMPTY, es'[..n]);
      assert SameEvent(es[n], es'[n]);
      RunsAlike(hash, es[..n], es'[..n], tid);
      EnabledAlike(s, s', es[n], es'[n]);
      if Enabled(s, es[n]) {
        NextAlike(hash, s, s', es[n], es'[n]);
        VersionsAlike(s, s', es[n], tid);
      }
    }
  }

  lemma VersionsAlike(s: System, s': System, e: Event, tid: Tid)
    requires Alike(s, s') && Enabled(s, e)
    ensures e.Read? && e.tid == tid ==>
            var c, c' := CallerOf(s, tid), CallerOf(s', tid);
            c'.Reading? && c'.identity == c.identity && c.identity.ino in s'.nodes
            && s'.nodes[c.identity.ino].ctime == s.nodes[c.identity.ino].ctime
  {
    if e.Read? && e.tid == tid {
      var c := CallerOf(s, tid);
      assert SameCaller(c, CallerOf(s', tid)) && SameNode(s.nodes[c.identity.ino], s'.nodes[c.identity.ino]);
    }
  }

  // ------------------------------------------------------------------ telling the versions apart

  function Shade(marked: bool, n: nat): (b: Bytes)
    ensures |b| == n && forall i :: 0 <= i < n ==> b[i] == if marked then 1 else 2
  {
    seq(n, _ => if marked then 1 else 2)
  }

  /** The same schedule with the version `v` of `ino` all ones and every other content all twos. */
  function Shaded(es: seq<Event>, ino: Ino, v: int): (es': seq<Event>)
    ensures SameSchedule(es, es')
  {
    seq(|es|, i requires 0 <= i < |es| =>
      if es[i].Change? then
        es[i].(node := es[i].node.(content := Shade((es[i].ino, es[i].node.ctime) == (ino, v), |es[i].node.content|)))
      else es[i])
  }

  ghost predicate HistoryShaded(s: System, ino: Ino, v: int) {
    forall k :: k in s.history ==> s.history[k] == Shade(k == (ino, v), |s.history[k]|)
  }

  lemma {:induction false} RunIsShaded(hash: Hash, es: seq<Event>, ino: Ino, v: int)
    ensures HistoryShaded(Run(hash, EMPTY, Shaded(es, ino, v)), ino, v)
    decreases |es|
  {
    var es' := Shaded(es, ino, v);
    if es != [] {
      var n := |es| - 1;
      assert es'[..n] == Shaded(es[..n], ino, v);
      RunIsShaded(hash, es[..n], ino, v);
      assert Last(es') == es'[n];
    }
  }

  // ------------------------------------------------------------------ the exact condition

  /** These bytes are what some inode held, whole, at some moment. */
  ghost predicate IsSnapshot(s: System, data: Bytes) {
    exists k :: k in s.history && s.history[k] == data
  }

  /** All of one version was read, and nothing else. */
  ghost predicate OneWhole(s: System, ino: Ino, versions: seq<int>) {
    exists v :: WholeVersion(s, ino, versions, v)
  }

  predicate WholeVersion(s: System, ino: Ino, versions: seq<int>, v: int) {
    (ino, v) in s.history && |s.history[(ino, v)]| == |versions| && forall j :: 0 <= j < |versions| ==> versions[j] == v
  }

  /** The bytes a caller is about to return the digest of. */
  function DataOf(hash: Hash, es: seq<Event>, tid: Tid): Bytes {
    var c := CallerOf(Run(hash, EMPTY, es), tid);
    if HasData(c) then c.data else []
  }

  lemma WholeIsASnapshot(hash: Hash, es: seq<Event>, tid: Tid)
    requires var s := Run(hash, EMPTY, es);
             CallerOf(s, tid).Hashed? && OneWhole(s, CallerOf(s, tid).identity.ino, Versions(hash, es, tid))
    ensures IsSnapshot(Run(hash, EMPTY, es), DataOf(hash, es, tid))
  {
    var s, versions := Run(hash, EMPTY, es), Versions(hash, es, tid);
    var c := CallerOf(s, tid);
    EveryByteHasAVersion(hash, es, tid);
    var v :| WholeVersion(s, c.identity.ino, versions, v);
    forall j | 0 <= j < |c.data| ensures c.data[j] == s.history[(c.identity.ino, v)][j] {
      assert ByteOk(s, c.identity.ino, versions, c.data, j);
    }
    assert s.history[(c.identity.ino, v)] == c.data;
  }

  lemma WholeAlike(s: System, s': System, ino: Ino, versions: seq<int>)
    requires Alike(s, s')
    ensures OneWhole(s, ino, versions) <==> OneWhole(s', ino, versions)
  {
    if v :| WholeVersion(s, ino, versions, v) { assert WholeVersion(s', ino, versions, v); }
    if v :| WholeVersion(s', ino, versions, v) { assert WholeVersion(s, ino, versions, v); }
  }

  /** Shading the version of the first byte read shows up any other mixture. */
  lemma MixtureIsNoSnapshot(s: System, ino: Ino, versions: seq<int>, data: Bytes)
    requires versions != [] && |data| == |versions| && !OneWhole(s, ino, versions)
    requires forall j :: 0 <= j < |data| ==> ByteOk(s, ino, versions, data, j)
    requires HistoryShaded(s, ino, versions[0])
    ensures !IsSnapshot(s, data)
  {
    var v := versions[0];
    assert ByteOk(s, ino, versions, data, 0) && data[0] == 1;
    forall k | k in s.history ensures s.history[k] != data {
      if s.history[k] == data {
        assert k == (ino, v);
        forall j | 0 <= j < |versions| ensures versions[j] == v {
          assert ByteOk(s, ino, versions, data, j) && data[j] == 1;
        }
        assert WholeVersion(s, ino, versions, v);
      }
    }
  }

  /** What the schedule promises whatever the files contain. */
  ghost predicate AlwaysASnapshot(hash: Hash, es: seq<Event>, tid: Tid) {
    forall es' :: SameSchedule(es, es') ==> IsSnapshot(Run(hash, EMPTY, es'), DataOf(hash, es', tid))
  }

  /** A mixture shows up as no snapshot in the run with its first version shaded. */
  lemma MixtureShowsUp(hash: Hash, es: seq<Event>, tid: Tid, ino: Ino)
    requires var s, versions := Run(hash, EMPTY, es), Versions(hash, es, tid);
             && CallerOf(s, tid).Hashed? && CallerOf(s, tid).identity.ino == ino
             && versions != [] && !OneWhole(s, ino, versions)
    ensures var es' := Shaded(es, ino, Versions(hash, es, tid)[0]);
            !IsSnapshot(Run(hash, EMPTY, es'), DataOf(hash, es', tid))
  {
    var s, versions := Run(hash, EMPTY, es), Versions(hash, es, tid);
    var es' := Shaded(es, ino, versions[0]);
    var s' := Run(hash, EMPTY, es');
    RunsAlike(hash, es, es', tid);
    RunIsShaded(hash, es, ino, versions[0]);
    EveryByteHasAVersion(hash, es', tid);
    assert SameCaller(CallerOf(s, tid), CallerOf(s', tid));
    WholeAlike(s, s', ino, versions);
    MixtureIsNoSnapshot(s', ino, versions, CallerOf(s', tid).data);
  }

  lemma AlwaysMeansWhole(hash: Hash, es: seq<Event>, tid: Tid)
    requires CallerOf(Run(hash, EMPTY, es), tid).Hashed? && AlwaysASnapshot(hash, es, tid)
    ensures OneWhole(Run(hash, EMPTY, es), CallerOf(Run(hash, EMPTY, es), tid).identity.ino, Versions(hash, es, tid))
  {
    var s, versions := Run(hash, EMPTY, es), Versions(hash, es, tid);
    var ino := CallerOf(s, tid).identity.ino;
    if versions == [] {
      EveryByteHasAVersion(hash, es, tid);
      var v :| (ino, v) in s.history && s.history[(ino, v)] == [];
      assert WholeVersion(s, ino, versions, v);
    } else if !OneWhole(s, ino, versions) {
      MixtureShowsUp(hash, es, tid, ino);
    }
  }

  /** The digest a reader returns, stored or not, is a snapshot's whatever the files contain if and only
      if its reads took all of one version of the inode and nothing else. */
  lemma ReturnedIsASnapshotExactly(hash: Hash, es: seq<Event>, tid: Tid)
    requires CallerOf(Run(hash, EMPTY, es), tid).Hashed?
    ensures var s := Run(hash, EMPTY, es);
            AlwaysASnapshot(hash, es, tid) <==> OneWhole(s, CallerOf(s, tid).identity.ino, Versions(hash, es, tid))
  {
    var s, versions := Run(hash, EMPTY, es), Versions(hash, es, tid);
    if AlwaysASnapshot(hash, es, tid) { AlwaysMeansWhole(hash, es, tid); }
    if OneWhole(s, CallerOf(s, tid).identity.ino, versions) {
      forall es' | SameSchedule(es, es') ensures IsSnapshot(Run(hash, EMPTY, es'), DataOf(hash, es', tid)) {
        RunsAlike(hash, es, es', tid);
        var s' := Run(hash, EMPTY, es');
        assert SameCaller(CallerOf(s, tid), CallerOf(s', tid));
        WholeAlike(s, s', CallerOf(s, tid).identity.ino, versions);
        WholeIsASnapshot(hash, es', tid);
      }
    }
  }

  /** What a reader has hashed is what it returns, stored or not. */
  lemma HashedIsReturned(hash: Hash, s: System, tid: Tid)
    requires Enabled(s, Restat(tid))
    ensures var data, s' := CallerOf(s, tid).data, Next(hash, s, Restat(tid));
            || (CallerOf(s', tid) == Returned(Some(hash(data))) && s'.cache == s.cache)
            || (Enabled(s', Keep(tid)) && CallerOf(Next(hash, s', Keep(tid)), tid) == Returned(Some(hash(data))))
  {
  }

  /** With the inode's ctime unchanged at the end of the reads, the version is the stated one. */
  lemma UnchangedReaderIsWhole(hash: Hash, es: seq<Event>, tid: Tid)
    requires var s := Run(hash, EMPTY, es);
             var c := CallerOf(s, tid);
             c.Hashed? && c.identity.ino in s.nodes && s.nodes[c.identity.ino].ctime == c.identity.ctime
    ensures var s := Run(hash, EMPTY, es);
            DataOf(hash, es, tid) == Then(s, CallerOf(s, tid).identity) && IsSnapshot(s, DataOf(hash, es, tid))
  {
    var s := Run(hash, EMPTY, es);
    EveryInterleavingIsCoherent(hash, es);
    assert CallerOk(s, tid);
  }

  // ------------------------------------------------------------------ a reader overtaken by a writer

  function Regular(content: Bytes, ctime: int): Inode {
    Inode(content, true, 0, 0, ctime, ctime)
  }

  /** A file is opened and `k` of its bytes are read; then it is rewritten and read to its end. */
  function Overtaken(was: Bytes, now: Bytes, k: nat): seq<Event>
    requires k <= |now|
  {
    [Change(0, Regular(was, 0)), Name("file", 0), Open(0, "file"), Stat(0, |was|), LookUp(0), Read(0, k),
     Change(0, Regular(now, 1)), Read(0, |now| - k), EndOfFile(0), Restat(0)]
  }

  lemma RunReaches(hash: Hash, es: seq<Event>, n: nat, s: System, s': System)
    requires n < |es| && Run(hash, EMPTY, es[..n]) == s && Enabled(s, es[n]) && Next(hash, s, es[n]) == s'
    ensures Run(hash, EMPTY, es[..n + 1]) == s'
  {
    assert es[..n + 1][..n] == es[..n] && Last(es[..n + 1]) == es[n];
  }

  /** One file, one caller, nothing cached. */
  function Lone(node: Inode, c: Caller, history: map<(Ino, int), Bytes>): System {
    System(map[0 := node], map["file" := 0], [], map[0 := c], history)
  }

  lemma LoneSet(node: Inode, c: Caller, c': Caller, history: map<(Ino, int), Bytes>)
    ensures Set(Lone(node, c, history), 0, c') == Lone(node, c', history)
  {
    assert map[0 := c][0 := c'] == map[0 := c'];
  }

  lemma OvertakenOpens(hash: Hash, es: seq<Event>, node: Inode)
    requires 3 <= |es| && es[0] == Change(0, node) && es[1] == Name("file", 0) && es[2] == Open(0, "file")
    ensures Run(hash, EMPTY, es[..3]) == Lone(node, Opened("file", 0), map[(0, node.ctime) := node.content])
  {
    var s1 := System(map[0 := node], map[], [], map[], map[(0, node.ctime) := node.content]);
    var s2 := s1.(names := map["file" := 0]);
    assert es[..0] == [];
    RunReaches(hash, es, 0, EMPTY, s1);
    RunReaches(hash, es, 1, s1, s2);
    RunReaches(hash, es, 2, s2, Lone(node, Opened("file", 0), s1.history));
  }

  lemma OvertakenMisses(hash: Hash, es: seq<Event>, node: Inode, history: map<(Ino, int), Bytes>)
    requires 5 <= |es| && node.regular && es[3] == Stat(0, |node.content|) && es[4] == LookUp(0)
    requires Run(hash, EMPTY, es[..3]) == Lone(node, Opened("file", 0), history)
    ensures Run(hash, EMPTY, es[..5]) == Lone(node, Reading("file", FingerprintOf(0, node), []), history)
  {
    var id := FingerprintOf(0, node);
    LoneSet(node, Opened("file", 0), Stated("file", id), history);
    RunReaches(hash, es, 3, Lone(node, Opened("file", 0), history), Lone(node, Stated("file", id), history));
    LoneSet(node, Stated("file", id), Reading("file", id, []), history);
    RunReaches(hash, es, 4, Lone(node, Stated("file", id), history), Lone(node, Reading("file", id, []), history));
  }

  /** The first `k` bytes are read. */
  lemma OvertakenReads(
    hash: Hash, es: seq<Event>, node: Inode, k: nat, id: Fingerprint, history: map<(Ino, int), Bytes>)
    requires 6 <= |es| && 0 < k <= |node.content| && es[5] == Read(0, k) && id.ino == 0
    requires Run(hash, EMPTY, es[..5]) == Lone(node, Reading("file", id, []), history)
    ensures Run(hash, EMPTY, es[..6]) == Lone(node, Reading("file", id, node.content[..k]), history)
  {
    assert [] + node.content[0..0 + k] == node.content[..k];
    LoneSet(node, Reading("file", id, []), Reading("file", id, node.content[..k]), history);
    RunReaches(hash, es, 5, Lone(node, Reading("file", id, []), history),
               Lone(node, Reading("file", id, node.content[..k]), history));
  }

  /** The writer comes, and the rest is read. */
  lemma OvertakenReadsOn(hash: Hash, es: seq<Event>, was: Bytes, now: Bytes, k: nat, id: Fingerprint)
    requires 8 <= |es| && k <= |was| && k < |now| && id.ino == 0
    requires es[6] == Change(0, Regular(now, 1)) && es[7] == Read(0, |now| - k)
    requires Run(hash, EMPTY, es[..6]) == Lone(Regular(was, 0), Reading("file", id, was[..k]), map[(0, 0) := was])
    ensures Run(hash, EMPTY, es[..8]) ==
            Lone(Regular(now, 1), Reading("file", id, was[..k] + now[k..]), map[(0, 0) := was, (0, 1) := now])
  {
    var history := map[(0, 0) := was, (0, 1) := now];
    var c := Reading("file", id, was[..k]);
    assert map[(0, 0) := was][(0, 1) := now] == history;
    assert map[0 := Regular(was, 0)][0 := Regular(now, 1)] == map[0 := Regular(now, 1)];
    RunReaches(hash, es, 6, Lone(Regular(was, 0), c, map[(0, 0) := was]), Lone(Regular(now, 1), c, history));
    assert now[k..k + (|now| - k)] == now[k..];
    LoneSet(Regular(now, 1), c, Reading("file", id, was[..k] + now[k..]), history);
    RunReaches(hash, es, 7, Lone(Regular(now, 1), c, history),
               Lone(Regular(now, 1), Reading("file", id, was[..k] + now[k..]), history));
  }

  lemma OvertakenEnds(
    hash: Hash, es: seq<Event>, node: Inode, id: Fingerprint, data: Bytes, history: map<(Ino, int), Bytes>)
    requires |es| == 10 && id.ino == 0 && id.ctime != node.ctime && |data| == |node.content|
    requires es[8] == EndOfFile(0) && es[9] == Restat(0)
    requires Run(hash, EMPTY, es[..8]) == Lone(node, Reading("file", id, data), history)
    ensures Run(hash, EMPTY, es) == Lone(node, Returned(Some(hash(data))), history)
  {
    LoneSet(node, Reading("file", id, data), Hashed("file", id, data), history);
    RunReaches(hash, es, 8, Lone(node, Reading("file", id, data), history),
               Lone(node, Hashed("file", id, data), history));
    LoneSet(node, Hashed("file", id, data), Returned(Some(hash(data))), history);
    RunReaches(hash, es, 9, Lone(node, Hashed("file", id, data), history),
               Lone(node, Returned(Some(hash(data))), history));
    assert es[..10] == es;
  }

  lemma OvertakenRuns(hash: Hash, es: seq<Event>, was: Bytes, now: Bytes, k: nat)
    requires 0 < k <= |was| && k < |now| && |es| == 10
    requires es[0] == Change(0, Regular(was, 0)) && es[1] == Name("file", 0) && es[2] == Open(0, "file")
    requires es[3] == Stat(0, |was|) && es[4] == LookUp(0) && es[5] == Read(0, k)
    requires es[6] == Change(0, Regular(now, 1)) && es[7] == Read(0, |now| - k)
    requires es[8] == EndOfFile(0) && es[9] == Restat(0)
    ensures Run(hash, EMPTY, es) ==
            Lone(Regular(now, 1), Returned(Some(hash(was[..k] + now[k..]))), map[(0, 0) := was, (0, 1) := now])
  {
    var id := FingerprintOf(0, Regular(was, 0));
    OvertakenOpens(hash, es, Regular(was, 0));
    OvertakenMisses(hash, es, Regular(was, 0), map[(0, 0) := was]);
    OvertakenReads(hash, es, Regular(was, 0), k, id, map[(0, 0) := was]);
    OvertakenReadsOn(hash, es, was, now, k, id);
    OvertakenEnds(hash, es, Regular(now, 1), id, was[..k] + now[k..], map[(0, 0) := was, (0, 1) := now]);
  }

  /** It returns the digest of the old beginning and the new rest, and stores nothing. */
  lemma OvertakenReaderReturnsAMixture(hash: Hash, was: Bytes, now: Bytes, k: nat)
    requires 0 < k <= |was| && k < |now|
    ensures var s := Run(hash, EMPTY, Overtaken(was, now, k));
            && CallerOf(s, 0) == Returned(Some(hash(was[..k] + now[k..]))) && s.cache == []
            && s.history == map[(0, 0) := was, (0, 1) := now]
  {
    OvertakenRuns(hash, Overtaken(was, now, k), was, now, k);
  }

  /** Such a digest need not be a snapshot's: from the empty system, a file of bytes 1, 2 rewritten to
      3, 4 half way through returns the digest of 1, 4. */
  lemma ReturnedDigestMayBeTorn(hash: Hash)
    ensures var s := Run(hash, EMPTY, Overtaken([1, 2], [3, 4], 1));
            && CallerOf(s, 0) == Returned(Some(hash([1, 4]))) && !IsSnapshot(s, [1, 4])
            && ((forall a, b :: hash(a) == hash(b) ==> a == b) ==>
                  forall k :: k in s.history ==> hash(s.history[k]) != hash([1, 4]))
  {
    OvertakenReaderReturnsAMixture(hash, [1, 2], [3, 4], 1);
    var mixed: Bytes := [1, 2][..1] + [3, 4][1..];
    assert mixed == [1, 4];
    var s := Run(hash, EMPTY, Overtaken([1, 2], [3, 4], 1));
    forall k | k in s.history ensures s.history[k] != [1, 4] {
      assert s.history[k][0] == 3 || s.history[k][1] == 2;
    }
  }
}

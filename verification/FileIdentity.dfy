/**
 * The digest cache (native/file_identity.rs).
 *
 * `System` interleaves any number of callers of `cached_regular_file_sha256` with writers.  A caller
 * opens, stats, looks up, reads in chunks of any size, re-stats and stores; the lock covers the lookup
 * and the store only.  A writer may change any file at any moment, and every change moves the file's
 * ctime strictly forward: that is the one assumption.  `history` remembers what each inode held at
 * each ctime.  The hash is any function of the bytes.
 */
module FileIdentity {
  import opened Common

  type Digest = string
  type PathName = string
  type Ino = nat
  type Hash = Bytes -> Digest

  datatype Inode = Inode(content: Bytes, regular: bool, mode: nat, uid: nat, mtime: int, ctime: int)

  datatype Fingerprint = Fingerprint(ino: Ino, size: nat, mode: nat, uid: nat, mtime: int, ctime: int)

  function FingerprintOf(ino: Ino, node: Inode): Fingerprint {
    Fingerprint(ino, |node.content|, node.mode, node.uid, node.mtime, node.ctime)
  }

  datatype Entry = Entry(path: PathName, identity: Fingerprint, digest: Digest)

  // ------------------------------------------------------------------ the vector behind the lock

  /** The digest of the first entry for this path and identity. */
  function Found(entries: seq<Entry>, path: PathName, identity: Fingerprint): Option<Digest> {
    if entries == [] then None
    else if entries[0].path == path && entries[0].identity == identity then Some(entries[0].digest)
    else Found(entries[1..], path, identity)
  }

  function Others(entries: seq<Entry>, path: PathName): seq<Entry> {
    if entries == [] then []
    else Others(entries[..|entries| - 1], path) + (if Last(entries).path == path then [] else [Last(entries)])
  }

  /** Drop the path's entry, append the new one. */
  function Kept(entries: seq<Entry>, e: Entry): seq<Entry> {
    Others(entries, e.path) + [e]
  }

  ghost predicate OnePerPath(entries: seq<Entry>) {
    forall i, j :: 0 <= i < j < |entries| ==> entries[i].path != entries[j].path
  }

  lemma {:induction false} OthersMeans(entries: seq<Entry>, path: PathName)
    ensures forall e :: e in Others(entries, path) <==> e in entries && e.path != path
    ensures OnePerPath(entries) ==> OnePerPath(Others(entries, path))
  {
    if entries != [] {
      var front := entries[..|entries| - 1];
      OthersMeans(front, path);
      var kept := Others(front, path);
      if OnePerPath(entries) {
        forall i | 0 <= i < |kept| ensures kept[i].path != Last(entries).path {
          assert kept[i] in front;
        }
      }
    }
  }

  lemma KeptMeans(entries: seq<Entry>, e: Entry)
    requires OnePerPath(entries)
    ensures OnePerPath(Kept(entries, e))
    ensures forall x :: x in Kept(entries, e) <==> x == e || (x in entries && x.path != e.path)
  {
    OthersMeans(entries, e.path);
    var kept := Others(entries, e.path);
    forall i | 0 <= i < |kept| ensures kept[i].path != e.path {
      assert kept[i] in kept;
    }
  }

  lemma {:induction false} FoundIsAnEntry(entries: seq<Entry>, path: PathName, identity: Fingerprint)
    ensures Found(entries, path, identity).Some? ==>
            Entry(path, identity, Found(entries, path, identity).value) in entries
    ensures Found(entries, path, identity).None? ==> forall d :: Entry(path, identity, d) !in entries
  {
    if entries != [] {
      FoundIsAnEntry(entries[1..], path, identity);
    }
  }

  /** The guarded vector, searched and filtered in place. */
  class DigestCache {
    var entries: seq<Entry>

    constructor ()
      ensures entries == []
    {
      entries := [];
    }

    method Find(path: PathName, identity: Fingerprint) returns (r: Option<Digest>)
      ensures r == Found(entries, path, identity)
    {
      for i := 0 to |entries|
        invariant Found(entries, path, identity) == Found(entries[i..], path, identity)
      {
        if entries[i].path == path && entries[i].identity == identity {
          return Some(entries[i].digest);
        }
      }
      r := None;
    }

    /** `retain` what belongs to other paths, then `push`. */
    method Store(path: PathName, identity: Fingerprint, digest: Digest)
      modifies this
      ensures entries == Kept(old(entries), Entry(path, identity, digest))
      ensures old(OnePerPath(entries)) ==> OnePerPath(entries)
    {
      var kept := [];
      for i := 0 to |entries|
        invariant kept == Others(entries[..i], path)
      {
        assert entries[..i + 1][..i] == entries[..i] && Last(entries[..i + 1]) == entries[i];
        if entries[i].path != path {
          kept := kept + [entries[i]];
        }
      }
      assert entries[..|entries|] == entries;
      if OnePerPath(entries) { KeptMeans(entries, Entry(path, identity, digest)); }
      entries := kept + [Entry(path, identity, digest)];
    }
  }

  /** The read loop on a file nobody touches: any schedule of short and interrupted reads hashes the whole
      content.  `interruptions` counts how often each read is interrupted before it delivers. */
  method HashFile(hash: Hash, content: Bytes, most: nat, short: nat -> nat, interruptions: nat -> nat)
    returns (digest: Digest)
    requires most > 0
    ensures digest == hash(content)
  {
    var data: Bytes, turn := [], 0;
    var interrupted := interruptions(turn);
    while |data| < |content|
      invariant |data| <= |content| && data == content[..|data|]
      decreases |content| - |data|, interrupted
    {
      if interrupted > 0 {
        interrupted := interrupted - 1;
        continue;
      }
      var left := |content| - |data|;
      var count := 1 + short(turn) % (if left < most then left else most);
      data := data + content[|data|..|data| + count];
      turn := turn + 1;
      interrupted := interruptions(turn);
    }
    assert content[..|content|] == content;
    digest := hash(data);
  }

  // ------------------------------------------------------------------ callers and writers

  /** A caller of `cached_regular_file_sha256`, by what it has done so far. */
  datatype Caller =
    | Idle
    | Opened(path: PathName, ino: Ino)
    | Stated(path: PathName, identity: Fingerprint)
    | Reading(path: PathName, identity: Fingerprint, data: Bytes)
    | Hashed(path: PathName, identity: Fingerprint, data: Bytes)
    | Checked(path: PathName, identity: Fingerprint, data: Bytes)
    | Returned(digest: Option<Digest>)

  type Tid = nat

  datatype System = System(
    nodes: map<Ino, Inode>,
    names: map<PathName, Ino>,
    cache: seq<Entry>,
    callers: map<Tid, Caller>,
    history: map<(Ino, int), Bytes>)

  datatype Event =
    | Change(ino: Ino, node: Inode)
    | Name(path: PathName, ino: Ino)
    | Unname(path: PathName)
    | Open(tid: Tid, path: PathName)
    | Stat(tid: Tid, maximum: nat)
    | LookUp(tid: Tid)
    | Read(tid: Tid, count: nat)
    | EndOfFile(tid: Tid)
    | Fail(tid: Tid)
    | Restat(tid: Tid)
    | Keep(tid: Tid)

  function CallerOf(s: System, tid: Tid): Caller {
    if tid in s.callers then s.callers[tid] else Idle
  }

  function Set(s: System, tid: Tid, c: Caller): System {
    s.(callers := s.callers[tid := c])
  }

  /** May this event happen now? */
  predicate Enabled(s: System, e: Event) {
    match e
    case Change(ino, node) => ino in s.nodes ==> s.nodes[ino].ctime < node.ctime
    case Name(_, ino) => ino in s.nodes
    case Unname(_) => true
    case Open(tid, _) => CallerOf(s, tid).Idle? || CallerOf(s, tid).Returned?
    case Stat(tid, _) => CallerOf(s, tid).Opened? && CallerOf(s, tid).ino in s.nodes
    case LookUp(tid) => CallerOf(s, tid).Stated?
    case Read(tid, count) =>
      var c := CallerOf(s, tid);
      c.Reading? && c.identity.ino in s.nodes && 0 < count && |c.data| + count <= |s.nodes[c.identity.ino].content|
    case EndOfFile(tid) =>
      var c := CallerOf(s, tid);
      c.Reading? && c.identity.ino in s.nodes && |s.nodes[c.identity.ino].content| <= |c.data|
    case Fail(tid) => !CallerOf(s, tid).Idle? && !CallerOf(s, tid).Returned?
    case Restat(tid) => CallerOf(s, tid).Hashed? && CallerOf(s, tid).identity.ino in s.nodes
    case Keep(tid) => CallerOf(s, tid).Checked?
  }

  function Next(hash: Hash, s: System, e: Event): System
    requires Enabled(s, e)
  {
    match e
    case Change(ino, node) =>
      s.(nodes := s.nodes[ino := node], history := s.history[(ino, node.ctime) := node.content])
    case Name(path, ino) => s.(names := s.names[path := ino])
    case Unname(path) => s.(names := s.names - {path})
    case Open(tid, path) =>
      Set(s, tid, if path in s.names then Opened(path, s.names[path]) else Returned(None))
    case Stat(tid, maximum) =>
      var c := CallerOf(s, tid);
      var node := s.nodes[c.ino];
      Set(s, tid,
          if !node.regular || maximum < |node.content| then Returned(None)
          else Stated(c.path, FingerprintOf(c.ino, node)))
    case LookUp(tid) =>
      var c := CallerOf(s, tid);
      var hit := Found(s.cache, c.path, c.identity);
      Set(s, tid, if hit.Some? then Returned(hit) else Reading(c.path, c.identity, []))
    case Read(tid, count) =>
      var c := CallerOf(s, tid);
      var content := s.nodes[c.identity.ino].content;
      Set(s, tid, Reading(c.path, c.identity, c.data + content[|c.data|..|c.data| + count]))
    case EndOfFile(tid) =>
      var c := CallerOf(s, tid);
      Set(s, tid, Hashed(c.path, c.identity, c.data))
    case Fail(tid) => Set(s, tid, Returned(None))
    case Restat(tid) =>
      var c := CallerOf(s, tid);
      if FingerprintOf(c.identity.ino, s.nodes[c.identity.ino]) == c.identity then
        Set(s, tid, Checked(c.path, c.identity, c.data))
      else Set(s, tid, Returned(Some(hash(c.data))))
    case Keep(tid) =>
      var c := CallerOf(s, tid);
      Set(s, tid, Returned(Some(hash(c.data)))).(cache := Kept(s.cache, Entry(c.path, c.identity, hash(c.data))))
  }

  /** Events that are not possible are skipped. */
  function Run(hash: Hash, s: System, es: seq<Event>): System {
    if es == [] then s
    else
      var before := Run(hash, s, es[..|es| - 1]);
      if Enabled(before, Last(es)) then Next(hash, before, Last(es)) else before
  }

  // ------------------------------------------------------------------ coherence

  /** `identity` was the identity of an inode that then held `content`. */
  predicate WasThen(s: System, identity: Fingerprint, content: Bytes) {
    && (identity.ino, identity.ctime) in s.history
    && s.history[(identity.ino, identity.ctime)] == content
    && |content| == identity.size
    && identity.ino in s.nodes && identity.ctime <= s.nodes[identity.ino].ctime
  }

  function Then(s: System, identity: Fingerprint): Bytes {
    if (identity.ino, identity.ctime) in s.history then s.history[(identity.ino, identity.ctime)] else []
  }

  predicate Known(s: System, identity: Fingerprint) {
    WasThen(s, identity, Then(s, identity))
  }

  /** While the ctime has not moved, the inode still holds what it held. */
  predicate NodeOk(s: System, ino: Ino) {
    ino in s.nodes ==>
      && (ino, s.nodes[ino].ctime) in s.history
      && s.history[(ino, s.nodes[ino].ctime)] == s.nodes[ino].content
  }

  predicate PastOk(s: System, ino: Ino, ctime: int) {
    (ino, ctime) in s.history ==> ino in s.nodes && ctime <= s.nodes[ino].ctime
  }

  predicate CallerOk(s: System, tid: Tid) {
    var c := CallerOf(s, tid);
    match c
    case Idle => true
    case Opened(_, ino) => ino in s.nodes
    case Stated(_, identity) => Known(s, identity)
    case Reading(_, identity, data) =>
      && Known(s, identity)
      && (s.nodes[identity.ino].ctime == identity.ctime ==> data <= Then(s, identity))
    case Hashed(_, identity, data) =>
      && Known(s, identity)
      && (s.nodes[identity.ino].ctime == identity.ctime ==> data == Then(s, identity))
    case Checked(_, identity, data) => Known(s, identity) && data == Then(s, identity)
    case Returned(_) => true
  }

  predicate EntryOk(hash: Hash, s: System, e: Entry) {
    Known(s, e.identity) && e.digest == hash(Then(s, e.identity))
  }

  ghost predicate Coherent(hash: Hash, s: System) {
    && (forall ino :: NodeOk(s, ino))
    && (forall ino, ctime :: PastOk(s, ino, ctime))
    && (forall path :: path in s.names ==> s.names[path] in s.nodes)
    && (forall tid :: CallerOk(s, tid))
    && (forall e :: e in s.cache ==> EntryOk(hash, s, e))
    && OnePerPath(s.cache)
  }

  lemma ChangeKeepsThen(hash: Hash, s: System, ino: Ino, node: Inode, identity: Fingerprint)
    requires Enabled(s, Change(ino, node)) && (forall i, c :: PastOk(s, i, c)) && Known(s, identity)
    ensures var s' := Next(hash, s, Change(ino, node));
            && Known(s', identity) && Then(s', identity) == Then(s, identity)
            && (s'.nodes[identity.ino].ctime == identity.ctime ==> s.nodes[identity.ino].ctime == identity.ctime)
  {
    assert PastOk(s, ino, node.ctime);
  }

  lemma ChangeKeepsCoherence(hash: Hash, s: System, ino: Ino, node: Inode)
    requires Coherent(hash, s) && Enabled(s, Change(ino, node))
    ensures Coherent(hash, Next(hash, s, Change(ino, node)))
  {
    var s' := Next(hash, s, Change(ino, node));
    forall i ensures NodeOk(s', i) {
      assert NodeOk(s, i);
    }
    forall i, c ensures PastOk(s', i, c) {
      assert PastOk(s, i, c);
    }
    forall tid ensures CallerOk(s', tid) {
      assert CallerOk(s, tid);
      var c := CallerOf(s, tid);
      if c.Stated? || c.Reading? || c.Hashed? || c.Checked? {
        ChangeKeepsThen(hash, s, ino, node, c.identity);
      }
    }
    forall e | e in s'.cache ensures EntryOk(hash, s', e) {
      assert EntryOk(hash, s, e);
      ChangeKeepsThen(hash, s, ino, node, e.identity);
    }
  }

  /** A caller's step changes nobody else's view of the files. */
  lemma CallerStepKeepsCoherence(hash: Hash, s: System, tid: Tid, c: Caller)
    requires Coherent(hash, s) && CallerOk(Set(s, tid, c), tid)
    ensures Coherent(hash, Set(s, tid, c))
  {
    var s' := Set(s, tid, c);
    forall i ensures NodeOk(s', i) { assert NodeOk(s, i); }
    forall i, x ensures PastOk(s', i, x) { assert PastOk(s, i, x); }
    forall t ensures CallerOk(s', t) { assert CallerOk(s, t); }
    forall e | e in s'.cache ensures EntryOk(hash, s', e) { assert EntryOk(hash, s, e); }
  }

  lemma KeepKeepsCoherence(hash: Hash, s: System, tid: Tid)
    requires Coherent(hash, s) && Enabled(s, Keep(tid))
    ensures Coherent(hash, Next(hash, s, Keep(tid)))
  {
    var c := CallerOf(s, tid);
    assert CallerOk(s, tid);
    var s1 := Set(s, tid, Returned(Some(hash(c.data))));
    var entry := Entry(c.path, c.identity, hash(c.data));
    CallerStepKeepsCoherence(hash, s, tid, Returned(Some(hash(c.data))));
    var s' := s1.(cache := Kept(s.cache, entry));
    KeptMeans(s.cache, entry);
    forall i ensures NodeOk(s', i) { assert NodeOk(s1, i); }
    forall i, x ensures PastOk(s', i, x) { assert PastOk(s1, i, x); }
    forall t ensures CallerOk(s', t) { assert CallerOk(s1, t); }
    forall e | e in s'.cache ensures EntryOk(hash, s', e) {
      if e != entry { assert EntryOk(hash, s1, e); }
    }
  }

  lemma StatedIsKnown(hash: Hash, s: System, ino: Ino)
    requires Coherent(hash, s) && ino in s.nodes
    ensures Known(s, FingerprintOf(ino, s.nodes[ino])) &&
            Then(s, FingerprintOf(ino, s.nodes[ino])) == s.nodes[ino].content
  {
    assert NodeOk(s, ino);
  }

  lemma ReadExtendsPrefix(hash: Hash, s: System, tid: Tid, count: nat)
    requires Coherent(hash, s) && Enabled(s, Read(tid, count))
    ensures CallerOk(Next(hash, s, Read(tid, count)), tid)
  {
    var c := CallerOf(s, tid);
    assert CallerOk(s, tid) && NodeOk(s, c.identity.ino);
  }

  lemma RestatDecides(hash: Hash, s: System, tid: Tid)
    requires Coherent(hash, s) && Enabled(s, Restat(tid))
    ensures CallerOk(Next(hash, s, Restat(tid)), tid)
  {
    assert CallerOk(s, tid);
  }

  /** One event, whoever performs it, keeps the cache coherent. */
  lemma EventKeepsCoherence(hash: Hash, s: System, e: Event)
    requires Coherent(hash, s) && Enabled(s, e)
    ensures Coherent(hash, Next(hash, s, e))
  {
    var s' := Next(hash, s, e);
    match e
    case Change(ino, node) => ChangeKeepsCoherence(hash, s, ino, node);
    case Name(path, ino) => NamesKeepCoherence(hash, s, s');
    case Unname(path) => NamesKeepCoherence(hash, s, s');
    case Open(tid, path) => CallerStepKeepsCoherence(hash, s, tid, CallerOf(s', tid));
    case Stat(tid, _) =>
      StatedIsKnown(hash, s, CallerOf(s, tid).ino);
      CallerStepKeepsCoherence(hash, s, tid, CallerOf(s', tid));
    case LookUp(tid) =>
      assert CallerOk(s, tid);
      CallerStepKeepsCoherence(hash, s, tid, CallerOf(s', tid));
    case Read(tid, count) =>
      ReadExtendsPrefix(hash, s, tid, count);
      CallerStepKeepsCoherence(hash, s, tid, CallerOf(s', tid));
    case EndOfFile(tid) =>
      assert CallerOk(s, tid) && NodeOk(s, CallerOf(s, tid).identity.ino);
      CallerStepKeepsCoherence(hash, s, tid, CallerOf(s', tid));
    case Fail(tid) => CallerStepKeepsCoherence(hash, s, tid, CallerOf(s', tid));
    case Restat(tid) =>
      RestatDecides(hash, s, tid);
      CallerStepKeepsCoherence(hash, s, tid, CallerOf(s', tid));
    case Keep(tid) => KeepKeepsCoherence(hash, s, tid);
  }

  lemma NamesKeepCoherence(hash: Hash, s: System, s': System)
    requires Coherent(hash, s) && s' == s.(names := s'.names)
    requires forall path :: path in s'.names ==> s'.names[path] in s.nodes
    ensures Coherent(hash, s')
  {
    forall i ensures NodeOk(s', i) { assert NodeOk(s, i); }
    forall i, x ensures PastOk(s', i, x) { assert PastOk(s, i, x); }
    forall t ensures CallerOk(s', t) { assert CallerOk(s, t); }
    forall e | e in s'.cache ensures EntryOk(hash, s', e) { assert EntryOk(hash, s, e); }
  }

  const EMPTY := System(map[], map[], [], map[], map[])

  /** Every interleaving from the empty system stays coherent. */
  lemma {:induction false} EveryInterleavingIsCoherent(hash: Hash, es: seq<Event>)
    ensures Coherent(hash, Run(hash, EMPTY, es))
  {
    if es != [] {
      EveryInterleavingIsCoherent(hash, es[..|es| - 1]);
      var before := Run(hash, EMPTY, es[..|es| - 1]);
      if Enabled(before, Last(es)) {
        EventKeepsCoherence(hash, before, Last(es));
      }
    }
  }

  // ------------------------------------------------------------------ what callers may rely on

  /** In every interleaving: one entry per path, and each cached digest is the hash of what the inode
      held, whole, at the identity it is filed under. */
  lemma CachedDigestsAreSnapshots(hash: Hash, es: seq<Event>, e: Entry)
    requires e in Run(hash, EMPTY, es).cache
    ensures var s := Run(hash, EMPTY, es);
            && OnePerPath(s.cache)
            && (e.identity.ino, e.identity.ctime) in s.history
            && e.digest == hash(s.history[(e.identity.ino, e.identity.ctime)])
            && |s.history[(e.identity.ino, e.identity.ctime)]| == e.identity.size
  {
    EveryInterleavingIsCoherent(hash, es);
    assert EntryOk(hash, Run(hash, EMPTY, es), e);
  }

  /** A hit is the hash of the opened file as it stood when it was stated; and of the file as it stands
      now, unless it has been changed since. */
  lemma HitEqualsHashingAfresh(hash: Hash, es: seq<Event>, tid: Tid)
    requires var s := Run(hash, EMPTY, es);
             CallerOf(s, tid).Stated? && Found(s.cache, CallerOf(s, tid).path, CallerOf(s, tid).identity).Some?
    ensures var s := Run(hash, EMPTY, es);
            var c := CallerOf(s, tid);
            var after := CallerOf(Next(hash, s, LookUp(tid)), tid);
            && after == Returned(Some(hash(Then(s, c.identity))))
            && c.identity.ino in s.nodes
            && (s.nodes[c.identity.ino].ctime == c.identity.ctime ==>
                  after == Returned(Some(hash(s.nodes[c.identity.ino].content))))
  {
    var s := Run(hash, EMPTY, es);
    var c := CallerOf(s, tid);
    EveryInterleavingIsCoherent(hash, es);
    FoundIsAnEntry(s.cache, c.path, c.identity);
    assert EntryOk(hash, s, Entry(c.path, c.identity, Found(s.cache, c.path, c.identity).value));
    assert CallerOk(s, tid) && NodeOk(s, c.identity.ino);
  }

  /** A caller that had to read stores, and returns, the digest of one whole snapshot. */
  lemma StoredDigestIsNeverTorn(hash: Hash, es: seq<Event>, tid: Tid)
    requires CallerOf(Run(hash, EMPTY, es), tid).Checked?
    ensures var s := Run(hash, EMPTY, es);
            var c := CallerOf(s, tid);
            var s' := Next(hash, s, Keep(tid));
            && CallerOf(s', tid) == Returned(Some(hash(Then(s, c.identity))))
            && Entry(c.path, c.identity, hash(Then(s, c.identity))) in s'.cache
  {
    var s := Run(hash, EMPTY, es);
    EveryInterleavingIsCoherent(hash, es);
    assert CallerOk(s, tid);
    KeptMeans(s.cache, Entry(CallerOf(s, tid).path, CallerOf(s, tid).identity, hash(CallerOf(s, tid).data)));
  }

  // ------------------------------------------------------------------ which files are read at all

  /** The caller looked at the file it has open, found a regular one no longer than it allows, and took this
      identity. */
  predicate Admits(s: System, e: Event, tid: Tid, identity: Option<Fingerprint>) {
    && e.Stat? && e.tid == tid && Enabled(s, e)
    && var node := s.nodes[CallerOf(s, tid).ino];
       && node.regular && |node.content| <= e.maximum
       && (identity.Some? ==> identity.value == FingerprintOf(CallerOf(s, tid).ino, node))
  }

  function IdentityOf(c: Caller): Option<Fingerprint> {
    if HasIdentity(c) then Some(c.identity) else None
  }

  /** The `k`-th event admitted what the caller has open since. */
  ghost predicate AdmittedAt(hash: Hash, es: seq<Event>, tid: Tid, k: nat, identity: Option<Fingerprint>) {
    && k < |es| && Admits(Run(hash, EMPTY, es[..k]), es[k], tid, identity)
    && forall j :: k < j < |es| ==> !Reopens(hash, es, tid, j)
  }

  ghost predicate Reopens(hash: Hash, es: seq<Event>, tid: Tid, j: nat)
    requires j < |es|
  {
    es[j].Open? && es[j].tid == tid && Enabled(Run(hash, EMPTY, es[..j]), es[j])
  }

  predicate HasIdentity(c: Caller) {
    c.Stated? || c.Reading? || c.Hashed? || c.Checked?
  }

  /** The caller has an identity, or got a digest. */
  predicate Past(c: Caller) {
    HasIdentity(c) || (c.Returned? && c.digest.Some?)
  }

  lemma OthersLeave(hash: Hash, s: System, e: Event, tid: Tid)
    requires Enabled(s, e) && (e.Change? || e.Name? || e.Unname? || e.tid != tid)
    ensures CallerOf(Next(hash, s, e), tid) == CallerOf(s, tid)
  {
  }

  lemma OwnStep(hash: Hash, s: System, e: Event, tid: Tid)
    requires Enabled(s, e) && !e.Change? && !e.Name? && !e.Unname? && e.tid == tid
    requires Past(CallerOf(Next(hash, s, e), tid))
    ensures e.Stat? || (Past(CallerOf(s, tid)) && !e.Open?)
    ensures !e.Stat? && HasIdentity(CallerOf(Next(hash, s, e), tid)) ==>
            HasIdentity(CallerOf(s, tid)) && CallerOf(Next(hash, s, e), tid).identity == CallerOf(s, tid).identity
  {
  }

  lemma AdmittedStays(hash: Hash, es: seq<Event>, tid: Tid, k: nat, was: Option<Fingerprint>, now: Option<Fingerprint>)
    requires es != [] && AdmittedAt(hash, es[..|es| - 1], tid, k, was) && (now == was || now == None)
    requires !Reopens(hash, es, tid, |es| - 1)
    ensures AdmittedAt(hash, es, tid, k, now)
  {
    var front := es[..|es| - 1];
    assert front[..k] == es[..k] && front[k] == es[k];
    forall j | k < j < |es| ensures !Reopens(hash, es, tid, j) {
      if j < |front| {
        assert !Reopens(hash, front, tid, j);
        assert front[..j] == es[..j] && front[j] == es[j];
      }
    }
  }

  /** Over every interleaving, whoever reads a file or gets a digest did so of one that was a regular file no
      longer than allowed when it was opened; anything else is refused before any read. */
  lemma {:induction false} OnlyAdmittedFilesAreRead(hash: Hash, es: seq<Event>, tid: Tid) returns (k: nat)
    requires Past(CallerOf(Run(hash, EMPTY, es), tid))
    ensures AdmittedAt(hash, es, tid, k, IdentityOf(CallerOf(Run(hash, EMPTY, es), tid)))
    decreases |es|
  {
    var front, e := es[..|es| - 1], Last(es);
    var s, c := Run(hash, EMPTY, front), CallerOf(Run(hash, EMPTY, es), tid);
    StepOf(hash, s, e, tid, c);
    if Enabled(s, e) && e.Stat? && e.tid == tid {
      k := |front|;
    } else {
      k := OnlyAdmittedFilesAreRead(hash, front, tid);
      AdmittedStays(hash, es, tid, k, IdentityOf(CallerOf(s, tid)), IdentityOf(c));
    }
  }

  /** One event, seen from a caller past its look at the file. */
  lemma StepOf(hash: Hash, s: System, e: Event, tid: Tid, c: Caller)
    requires c == (if Enabled(s, e) then CallerOf(Next(hash, s, e), tid) else CallerOf(s, tid)) && Past(c)
    ensures if Enabled(s, e) && e.Stat? && e.tid == tid then Admits(s, e, tid, IdentityOf(c))
            else
              && Past(CallerOf(s, tid)) && (IdentityOf(c) == IdentityOf(CallerOf(s, tid)) || IdentityOf(c) == None)
              && !(Enabled(s, e) && e.Open? && e.tid == tid)
  {
    if Enabled(s, e) {
      if e.Change? || e.Name? || e.Unname? || e.tid != tid {
        OthersLeave(hash, s, e, tid);
      } else {
        OwnStep(hash, s, e, tid);
      }
    }
  }
}

/**
 * Candidates and what an overlay makes of one (deploy/candidate/package.py): the files of a candidate
 * directory as a map from relative names to contents, without inodes.  OverlayStore adds the inodes.
 *
 * `sha` is any function of contents; `idHash` is the hash behind `overlay_id`.  A name built with
 * `Tmp` is the name it wraps with ".overlay.tmp" appended.
 */
module Candidate {
  import opened Common

  type Digest = string
  type Commit = string

  datatype Role =
    | Host | Consent | Mini | MiniLine | Store | Verifier | GrainRuntime | GrainProviderBridge | InferenceScheduler
    | SpkHost | SpkBrowserProxy | SpkBroker | SpkVolumeHelper | Discord | Door | DoorProcess | DiscordMirror
    | PayWatcher | Keys | LaunchGate | Web | WebSpawn | PrivateCompute

  datatype Crate =
    | ResourceClient | SqliteStore | SignatureVerifier | Grain | Scheduler | Spk | Entrance | Watcher | KeysCrate
    | Gate | WebCrate | SpawnCrate | PrivateBackend

  const RUST_ROLES: seq<(Role, Crate)> := [
    (Mini, ResourceClient), (MiniLine, ResourceClient), (Store, SqliteStore), (Verifier, SignatureVerifier),
    (GrainRuntime, Grain), (GrainProviderBridge, Grain), (InferenceScheduler, Scheduler),
    (SpkHost, Spk), (SpkBrowserProxy, Spk), (SpkBroker, Spk), (SpkVolumeHelper, Spk),
    (Discord, Entrance), (Door, Entrance), (DoorProcess, Entrance), (DiscordMirror, Entrance),
    (PayWatcher, Watcher), (Keys, KeysCrate), (LaunchGate, Gate), (Web, WebCrate), (WebSpawn, SpawnCrate),
    (PrivateCompute, PrivateBackend)]

  datatype Alias = Shell | Hermes | BrowserProxy | ConsentHost

  function RoleOf(a: Alias): Role {
    match a
    case Shell => Mini
    case Hermes => GrainRuntime
    case BrowserProxy => SpkBrowserProxy
    case ConsentHost => Consent
  }

  predicate Bundled(r: Role) {
    r == Mini || r == Host || r == Consent || r == Verifier || r == Store
  }

  predicate Required(r: Role) {
    r == Host || r == Consent || r == Mini || r == Store || r == Verifier || r == Keys
  }

  /** A file name relative to a candidate directory. */
  datatype Rel =
    | Bin(role: Role)
    | Bundle(role: Role)
    | OtherBin(name: string)
    | SourceTar(commit: Commit)
    | ProvenanceJson
    | ManifestJson
    | Sha256Sums
    | Other(name: string)
    | Tmp(of: Rel)

  predicate UnderBin(rel: Rel) {
    match rel
    case Bin(_) => true
    case Bundle(_) => true
    case OtherBin(_) => true
    case Tmp(of) => UnderBin(of)
    case _ => false
  }

  // ------------------------------------------------------------------ records

  datatype Build = Build(tree: string, flags: string)

  datatype Output = Output(sha: Digest, build: Build)

  datatype RoleRecord = RoleRecord(commit: Commit, sha: Digest, stamp: string)

  /** Where an overlay's base was (its directory by absolute path), the digest of its provenance, and its commit. */
  datatype BaseRef = BaseRef(tree: nat, sha: Digest, commit: Commit)

  datatype Record = Record(
    name: string, id: Option<string>, base: BaseRef, sources: map<Commit, Digest>, roles: map<Role, RoleRecord>)

  datatype Provenance = Provenance(
    commit: Commit,
    binaries: map<Role, Digest>,
    linux: Digest,
    consent: map<Rel, Digest>,
    outputs: map<Rel, Output>,
    record: Option<Record>,
    stamp: string,
    rest: string)

  datatype Key = Of(role: Role) | Called(nick: Alias) | Itself

  /** Where an absolute path of the manifest points: into a candidate directory, or elsewhere. */
  datatype Home = Home(tree: nat, rel: Rel)

  datatype Manifest = Manifest(paths: map<Key, Home>, pins: map<Key, Digest>, outputs: map<Rel, Output>)

  datatype Content =
    | Blob(bytes: Bytes)
    | Prov(p: Provenance)
    | Man(m: Manifest)
    | Sums(lines: seq<(Digest, Rel)>)

  type View = map<Rel, Content>

  type Sha = Content -> Digest
  type IdHash = Provenance -> string

  // ------------------------------------------------------------------ families

  /** The crate that builds a role; the two Lean roles have none. */
  function CrateOf(r: Role): Option<Crate> {
    match r
    case Host => None
    case Consent => None
    case Mini => Some(ResourceClient)
    case MiniLine => Some(ResourceClient)
    case Store => Some(SqliteStore)
    case Verifier => Some(SignatureVerifier)
    case GrainRuntime => Some(Grain)
    case GrainProviderBridge => Some(Grain)
    case InferenceScheduler => Some(Scheduler)
    case SpkHost => Some(Spk)
    case SpkBrowserProxy => Some(Spk)
    case SpkBroker => Some(Spk)
    case SpkVolumeHelper => Some(Spk)
    case Discord => Some(Entrance)
    case Door => Some(Entrance)
    case DoorProcess => Some(Entrance)
    case DiscordMirror => Some(Entrance)
    case PayWatcher => Some(Watcher)
    case Keys => Some(KeysCrate)
    case LaunchGate => Some(Gate)
    case Web => Some(WebCrate)
    case WebSpawn => Some(SpawnCrate)
    case PrivateCompute => Some(PrivateBackend)
  }

  /** Built together: by one crate, or both from Lean. */
  predicate SameFamily(a: Role, b: Role) {
    CrateOf(a) == CrateOf(b)
  }

  /** The table lists every crate-built role under its crate. */
  ghost predicate Lists(table: seq<(Role, Crate)>) {
    && (forall i :: 0 <= i < |table| ==> CrateOf(table[i].0) == Some(table[i].1))
    && (forall r: Role :: CrateOf(r).Some? ==> (r, CrateOf(r).value) in table)
  }

  /** Where the table lists a role. */
  function Row(r: Role): nat {
    match r
    case Mini => 0 case MiniLine => 1 case Store => 2 case Verifier => 3 case GrainRuntime => 4
    case GrainProviderBridge => 5 case InferenceScheduler => 6 case SpkHost => 7 case SpkBrowserProxy => 8
    case SpkBroker => 9 case SpkVolumeHelper => 10 case Discord => 11 case Door => 12 case DoorProcess => 13
    case DiscordMirror => 14 case PayWatcher => 15 case Keys => 16 case LaunchGate => 17 case Web => 18
    case WebSpawn => 19 case _ => 20
  }

  lemma RowLists(r: Role)
    requires CrateOf(r).Some?
    ensures Row(r) < |RUST_ROLES| && RUST_ROLES[Row(r)] == (r, CrateOf(r).value)
  {
  }

  lemma RowsName(i: nat)
    requires i < |RUST_ROLES|
    ensures CrateOf(RUST_ROLES[i].0) == Some(RUST_ROLES[i].1)
  {
  }

  lemma RustRolesAreListed()
    ensures Lists(RUST_ROLES)
  {
    forall i | 0 <= i < |RUST_ROLES| ensures CrateOf(RUST_ROLES[i].0) == Some(RUST_ROLES[i].1) {
      RowsName(i);
    }
    forall r: Role | CrateOf(r).Some? ensures (r, CrateOf(r).value) in RUST_ROLES {
      RowLists(r);
    }
  }

  /** The roles of each crate, in table order. */
  method GroupByCrate(table: seq<(Role, Crate)>) returns (byCrate: map<Crate, seq<Role>>)
    ensures forall c, r :: (r, c) in table ==> c in byCrate && r in byCrate[c]
    ensures forall c, r :: c in byCrate && r in byCrate[c] ==> (r, c) in table
  {
    byCrate := map[];
    for i := 0 to |table|
      invariant forall c, r :: (r, c) in table[..i] ==> c in byCrate && r in byCrate[c]
      invariant forall c, r :: c in byCrate && r in byCrate[c] ==> (r, c) in table
    {
      var (role, crate) := table[i];
      assert table[..i + 1] == table[..i] + [table[i]];
      byCrate := byCrate[crate := (if crate in byCrate then byCrate[crate] else []) + [role]];
    }
    assert table[..|table|] == table;
  }

  ghost predicate IsFamilyOf(roles: seq<Role>, a: Role) {
    forall b :: b in roles <==> SameFamily(a, b)
  }

  /** `families`: each role is given the roles of its crate; the two Lean roles are one family. */
  method Families(table: seq<(Role, Crate)>) returns (family: map<Role, seq<Role>>)
    requires Lists(table)
    ensures forall a: Role :: a in family && IsFamilyOf(family[a], a)
  {
    var byCrate := GroupByCrate(table);
    family := map[];
    for i := 0 to |table|
      invariant forall j :: 0 <= j < i ==> table[j].0 in family
      invariant forall a :: a in family ==> IsFamilyOf(family[a], a)
    {
      var (role, crate) := table[i];
      CrateIsFamily(table, byCrate, role, crate);
      family := family[role := byCrate[crate]];
    }
    family := family[Host := [Host, Consent]];
    family := family[Consent := [Host, Consent]];
    forall a: Role ensures a in family && IsFamilyOf(family[a], a) {
      if CrateOf(a).Some? {
        var j :| 0 <= j < |table| && table[j] == (a, CrateOf(a).value);
      }
    }
  }

  lemma CrateIsFamily(table: seq<(Role, Crate)>, byCrate: map<Crate, seq<Role>>, role: Role, crate: Crate)
    requires Lists(table) && (role, crate) in table
    requires forall c, r :: (r, c) in table ==> c in byCrate && r in byCrate[c]
    requires forall c, r :: c in byCrate && r in byCrate[c] ==> (r, c) in table
    ensures crate in byCrate && IsFamilyOf(byCrate[crate], role)
  {
    var i :| 0 <= i < |table| && table[i] == (role, crate);
    forall b ensures b in byCrate[crate] <==> SameFamily(role, b) {
      if b in byCrate[crate] {
        var j :| 0 <= j < |table| && table[j] == (b, crate);
      }
    }
  }

  // ------------------------------------------------------------------ consistency

  /** The commit a role was built from: the last overlay that swapped it, or the package. */
  function CommitOf(p: Provenance, r: Role): Commit {
    if p.record.Some? && r in p.record.value.roles then p.record.value.roles[r].commit else p.commit
  }

  /** Without the id and the clock: what the id is computed from. */
  function Stripped(p: Provenance): Provenance {
    p.(stamp := "",
       record := match p.record
         case None => None
         case Some(r) => Some(StrippedRecord(r)))
  }

  function StrippedRecord(r: Record): Record {
    r.(id := None, roles := map role | role in r.roles :: r.roles[role].(stamp := ""))
  }

  function OverlayId(idHash: IdHash, p: Provenance): string {
    idHash(Stripped(p))
  }

  predicate Pinned(sha: Sha, v: View, rel: Rel, digest: Digest) {
    rel in v && sha(v[rel]) == digest
  }

  predicate BinariesPinned(sha: Sha, v: View, p: Provenance) {
    forall r :: r in p.binaries ==> Pinned(sha, v, Bin(r), p.binaries[r])
  }

  ghost predicate OutputsPinned(sha: Sha, v: View, outputs: map<Rel, Output>) {
    && (forall rel :: rel in outputs <==> rel in v && UnderBin(rel))
    && (forall rel :: rel in outputs ==> outputs[rel].sha == sha(v[rel]))
  }

  predicate ClientsPinned(sha: Sha, v: View, p: Provenance) {
    && Mini in p.binaries && p.linux == p.binaries[Mini]
    && forall rel :: rel in p.consent ==> UnderBin(rel) && Pinned(sha, v, rel, p.consent[rel])
  }

  /** Names the overlay itself rewrites after the sums are taken. */
  predicate Listable(rel: Rel) {
    rel != ManifestJson && rel != Sha256Sums && rel != Tmp(ManifestJson) && rel != Tmp(Sha256Sums)
  }

  predicate SumsPinned(sha: Sha, v: View, lines: seq<(Digest, Rel)>) {
    forall i :: 0 <= i < |lines| ==> Listable(lines[i].1) && Pinned(sha, v, lines[i].1, lines[i].0)
  }

  /** The names a list of sums has, in order. */
  function SumNames(lines: seq<(Digest, Rel)>): (names: seq<Rel>)
    ensures |names| == |lines| && forall i :: 0 <= i < |lines| ==> names[i] == lines[i].1
  {
    seq(|lines|, i requires 0 <= i < |lines| => lines[i].1)
  }

  /** The sums have a line for the provenance, every recorded binary and every copy clients use. */
  predicate SumsCover(lines: seq<(Digest, Rel)>, p: Provenance) {
    var names := SumNames(lines);
    && ProvenanceJson in names
    && (forall r :: r in p.binaries ==> Bin(r) in names)
    && (forall rel :: rel in p.consent ==> rel in names)
  }

  /** The overlay record: every archive has its digest, and every overlaid role is the recorded binary, from a
      commit whose archive is there. */
  predicate RecordPinned(sha: Sha, v: View, p: Provenance) {
    p.record.Some? ==>
      && (forall c :: c in p.record.value.sources ==> Pinned(sha, v, SourceTar(c), p.record.value.sources[c]))
      && (forall r :: r in p.record.value.roles ==> RoleRecorded(p, r))
  }

  predicate RoleRecorded(p: Provenance, r: Role)
    requires p.record.Some? && r in p.record.value.roles
  {
    var overlaid := p.record.value.roles[r];
    r in p.binaries && overlaid.sha == p.binaries[r] && overlaid.commit in p.record.value.sources
  }

  predicate ManifestPinned(sha: Sha, v: View, tree: nat, p: Provenance, m: Manifest) {
    && Itself in m.pins && ProvenanceJson in v && m.pins[Itself] == sha(v[ProvenanceJson])
    && m.outputs == p.outputs
    && (forall r :: Of(r) in m.paths ==>
          r in p.binaries && m.paths[Of(r)] == Home(tree, Bin(r)) && Of(r) in m.pins && m.pins[Of(r)] == p.binaries[r])
    && (forall a :: Called(a) in m.paths ==>
          && Of(RoleOf(a)) in m.paths && m.paths[Called(a)] == m.paths[Of(RoleOf(a))]
          && Called(a) in m.pins && m.pins[Called(a)] == m.pins[Of(RoleOf(a))])
  }

  /** Every required role has a path. */
  predicate Complete(m: Manifest) {
    forall r: Role :: Required(r) ==> Of(r) in m.paths
  }

  /** Every recorded binary has a path in the manifest, every alias of a role with one has one too, and the
      provenance is this directory's. */
  predicate NamesAll(m: Manifest, p: Provenance, tree: nat) {
    && Itself in m.paths && m.paths[Itself] == Home(tree, ProvenanceJson)
    && (forall r :: r in p.binaries ==> Of(r) in m.paths)
    && (forall a: Alias :: Of(RoleOf(a)) in m.paths ==> Called(a) in m.paths)
  }

  /** Every friend-bundle copy is its binary. */
  predicate BundlesMatch(sha: Sha, v: View) {
    forall r: Role :: Bundled(r) && Bundle(r) in v ==> Bin(r) in v && sha(v[Bundle(r)]) == sha(v[Bin(r)])
  }

  predicate FamiliesWhole(p: Provenance) {
    forall a, b :: a in p.binaries && b in p.binaries && SameFamily(a, b) ==> CommitOf(p, a) == CommitOf(p, b)
  }

  predicate IdRecorded(idHash: IdHash, p: Provenance) {
    p.record.Some? ==> p.record.value.id == Some(OverlayId(idHash, p))
  }

  predicate HasParts(v: View) {
    && ProvenanceJson in v && v[ProvenanceJson].Prov?
    && ManifestJson in v && v[ManifestJson].Man?
    && Sha256Sums in v && v[Sha256Sums].Sums?
  }

  /** Every record of the candidate agrees with its bytes, and no build family is split. */
  ghost predicate Consistent(sha: Sha, idHash: IdHash, v: View, tree: nat) {
    && HasParts(v)
    && var p := v[ProvenanceJson].p;
       && BinariesPinned(sha, v, p)
       && OutputsPinned(sha, v, p.outputs)
       && ClientsPinned(sha, v, p)
       && SumsPinned(sha, v, v[Sha256Sums].lines)
       && SumsCover(v[Sha256Sums].lines, p)
       && RecordPinned(sha, v, p)
       && ManifestPinned(sha, v, tree, p, v[ManifestJson].m)
       && Complete(v[ManifestJson].m)
       && NamesAll(v[ManifestJson].m, p, tree)
       && BundlesMatch(sha, v)
       && FamiliesWhole(p)
       && IdRecorded(idHash, p)
       && Tmp(Sha256Sums) !in v
  }

  // ------------------------------------------------------------------ the package, on views

  /** What a package is made from besides its files: the roles with their pinned digests, and the names
      `SHA256SUMS` lists. */
  datatype Package = Package(
    chosen: map<Role, Digest>, commit: Commit, build: Build, listed: seq<Rel>, stamp: string, rest: string)

  /** What is checked of the files before the records are written: every required role is there, every
      chosen binary has its pinned digest, every bundle copy is its binary, every listed file exists; and the
      list has what the records name. */
  predicate Packable(sha: Sha, w: View, k: Package) {
    && (forall r: Role :: Required(r) ==> r in k.chosen)
    && (forall r :: r in k.chosen ==> Pinned(sha, w, Bin(r), k.chosen[r]))
    && (forall r: Role :: Bundled(r) ==> Bundle(r) in w && Bin(r) in w && sha(w[Bundle(r)]) == sha(w[Bin(r)]))
    && (forall i :: 0 <= i < |k.listed| ==>
          Listable(k.listed[i]) && (k.listed[i] in w || k.listed[i] == ProvenanceJson))
    && ListsRecorded(k)
  }

  predicate ListsRecorded(k: Package) {
    && ProvenanceJson in k.listed && (forall r :: r in k.chosen ==> Bin(r) in k.listed)
    && (forall r :: r in CONSENT_ROLES ==> Bundle(r) in k.listed)
  }

  const CONSENT_ROLES: set<Role> := {Host, Consent, Verifier, Store}

  function PackageProvenance(sha: Sha, w: View, k: Package): Provenance
    requires Packable(sha, w, k)
  {
    var consent := set r | r in CONSENT_ROLES :: Bundle(r);
    Provenance(k.commit, k.chosen, k.chosen[Mini],
               map rel | rel in consent && rel.Bundle? :: sha(w[Bin(rel.role)]),
               map rel | rel in w && UnderBin(rel) :: Output(sha(w[rel]), k.build),
               None, k.stamp, k.rest)
  }

  function RoleFor(key: Key): Option<Role> {
    match key
    case Of(r) => Some(r)
    case Called(a) => Some(RoleOf(a))
    case Itself => None
  }

  function PackageManifest(sha: Sha, tree: nat, p: Provenance): Manifest {
    var roles := set r | r in p.binaries :: Of(r);
    var nicks := set a: Alias | RoleOf(a) in p.binaries :: Called(a);
    var keys := map key | key in roles + nicks && RoleFor(key).Some? && RoleFor(key).value in p.binaries ::
      RoleFor(key).value;
    Manifest((map key | key in keys :: Home(tree, Bin(keys[key])))[Itself := Home(tree, ProvenanceJson)],
             (map key | key in keys :: p.binaries[keys[key]])[Itself := sha(Prov(p))],
             p.outputs)
  }

  function Packaged(sha: Sha, w: View, tree: nat, k: Package): View
    requires Packable(sha, w, k)
  {
    var p := PackageProvenance(sha, w, k);
    var recorded := w[ProvenanceJson := Prov(p)];
    recorded[Sha256Sums := Sums(SumLines(sha, recorded, k.listed))][ManifestJson := Man(PackageManifest(sha, tree, p))]
  }

  lemma PackageManifestIsPinned(sha: Sha, v: View, tree: nat, p: Provenance)
    requires ProvenanceJson in v && v[ProvenanceJson] == Prov(p)
    ensures ManifestPinned(sha, v, tree, p, PackageManifest(sha, tree, p))
  {
  }

  lemma PackageManifestIsComplete(sha: Sha, tree: nat, p: Provenance)
    requires forall r: Role :: Required(r) ==> r in p.binaries
    ensures Complete(PackageManifest(sha, tree, p))
  {
  }

  lemma PackageManifestNamesAll(sha: Sha, tree: nat, p: Provenance)
    ensures NamesAll(PackageManifest(sha, tree, p), p, tree)
  {
  }

  lemma SameBinBundlesMatch(sha: Sha, v: View, w: View)
    requires SameBin(v, w) && BundlesMatch(sha, w)
    ensures BundlesMatch(sha, v)
  {
    forall r: Role | Bundled(r) && Bundle(r) in v ensures Bin(r) in v && sha(v[Bundle(r)]) == sha(v[Bin(r)]) {
      assert UnderBin(Bundle(r)) && UnderBin(Bin(r));
    }
  }

  lemma ManifestStaysComplete(m: Manifest, base: nat, tree: nat, p: Provenance, provenance: Digest)
    requires Complete(m)
    ensures Complete(ManifestAfter(m, base, tree, p, provenance))
  {
  }

  lemma ManifestStillNamesAll(m: Manifest, base: nat, tree: nat, p: Provenance, q: Provenance, provenance: Digest)
    requires NamesAll(m, p, base) && q.binaries.Keys == p.binaries.Keys
    ensures NamesAll(ManifestAfter(m, base, tree, q, provenance), q, tree)
  {
    assert ManifestAfter(m, base, tree, q, provenance).paths.Keys == m.paths.Keys;
  }

  /** The records change no file under `bin`. */
  ghost predicate SameBin(v: View, w: View) {
    forall rel :: UnderBin(rel) ==> (rel in v <==> rel in w) && (rel in w ==> v[rel] == w[rel])
  }

  lemma PackagedBinIsSame(sha: Sha, w: View, tree: nat, k: Package)
    requires Packable(sha, w, k)
    ensures SameBin(Packaged(sha, w, tree, k), w)
  {
  }

  lemma PackageBinariesArePinned(sha: Sha, v: View, w: View, k: Package, p: Provenance)
    requires SameBin(v, w) && p.binaries == k.chosen
    requires forall r :: r in k.chosen ==> Pinned(sha, w, Bin(r), k.chosen[r])
    ensures BinariesPinned(sha, v, p)
  {
    forall r | r in p.binaries ensures Pinned(sha, v, Bin(r), p.binaries[r]) {
      assert Pinned(sha, w, Bin(r), k.chosen[r]) && UnderBin(Bin(r));
    }
  }

  lemma PackageClientsArePinned(sha: Sha, v: View, w: View, k: Package)
    requires Packable(sha, w, k) && SameBin(v, w)
    ensures ClientsPinned(sha, v, PackageProvenance(sha, w, k))
  {
    var p := PackageProvenance(sha, w, k);
    assert Required(Mini);
    forall rel | rel in p.consent ensures UnderBin(rel) && Pinned(sha, v, rel, p.consent[rel]) {
      assert Bundled(rel.role) && UnderBin(rel);
    }
  }

  lemma PackageSumsArePinned(sha: Sha, w: View, tree: nat, k: Package)
    requires Packable(sha, w, k)
    ensures SumsPinned(sha, Packaged(sha, w, tree, k), Packaged(sha, w, tree, k)[Sha256Sums].lines)
  {
  }

  lemma PackagedHasParts(sha: Sha, w: View, tree: nat, k: Package)
    requires Packable(sha, w, k)
    ensures var v, p := Packaged(sha, w, tree, k), PackageProvenance(sha, w, k);
            && HasParts(v) && v[ProvenanceJson] == Prov(p) && v[ManifestJson] == Man(PackageManifest(sha, tree, p))
            && (Tmp(Sha256Sums) in v <==> Tmp(Sha256Sums) in w)
  {
    var p := PackageProvenance(sha, w, k);
    ThreeRecords(w, Prov(p), Sums(SumLines(sha, w[ProvenanceJson := Prov(p)], k.listed)),
                 Man(PackageManifest(sha, tree, p)), Tmp(Sha256Sums));
  }

  lemma ThreeRecords(w: View, a: Content, b: Content, c: Content, rel: Rel)
    requires rel != ProvenanceJson && rel != ManifestJson && rel != Sha256Sums
    ensures var p := w[ProvenanceJson := a][Sha256Sums := b][ManifestJson := c];
            && (rel in p <==> rel in w) && (rel in w ==> p[rel] == w[rel])
            && ProvenanceJson in p && p[ProvenanceJson] == a && Sha256Sums in p && p[Sha256Sums] == b
            && ManifestJson in p && p[ManifestJson] == c
  {
  }

  lemma PackageProvenanceFacts(sha: Sha, w: View, k: Package)
    requires Packable(sha, w, k)
    ensures var p := PackageProvenance(sha, w, k);
            && p.record == None && p.binaries == k.chosen && p.commit == k.commit
            && p.outputs == (map rel | rel in w && UnderBin(rel) :: Output(sha(w[rel]), k.build))
  {
  }

  lemma PackageOutputsArePinned(sha: Sha, v: View, w: View, outputs: map<Rel, Output>, build: Build)
    requires SameBin(v, w) && outputs == map rel | rel in w && UnderBin(rel) :: Output(sha(w[rel]), build)
    ensures OutputsPinned(sha, v, outputs)
  {
  }

  lemma UnrecordedIsWhole(idHash: IdHash, p: Provenance)
    requires p.record == None
    ensures FamiliesWhole(p) && IdRecorded(idHash, p)
  {
  }

  lemma AssembleRecords(sha: Sha, idHash: IdHash, v: View, tree: nat, p: Provenance, m: Manifest)
    requires HasParts(v) && v[ProvenanceJson] == Prov(p) && v[ManifestJson] == Man(m) && Tmp(Sha256Sums) !in v
    requires BinariesPinned(sha, v, p) && OutputsPinned(sha, v, p.outputs) && ClientsPinned(sha, v, p)
    requires SumsPinned(sha, v, v[Sha256Sums].lines) && ManifestPinned(sha, v, tree, p, m) && Complete(m)
    requires SumsCover(v[Sha256Sums].lines, p) && RecordPinned(sha, v, p)
    requires NamesAll(m, p, tree) && BundlesMatch(sha, v)
    requires FamiliesWhole(p) && IdRecorded(idHash, p)
    ensures Consistent(sha, idHash, v, tree)
  {
  }

  lemma PackageSumsCover(sha: Sha, w: View, tree: nat, k: Package)
    requires Packable(sha, w, k)
    ensures SumsCover(Packaged(sha, w, tree, k)[Sha256Sums].lines, PackageProvenance(sha, w, k))
  {
    assert SumNames(Packaged(sha, w, tree, k)[Sha256Sums].lines) == k.listed;
  }

  /** The records of a package make its files a consistent candidate. */
  lemma PackageIsConsistent(sha: Sha, idHash: IdHash, w: View, tree: nat, k: Package)
    requires Packable(sha, w, k) && Tmp(Sha256Sums) !in w
    ensures Consistent(sha, idHash, Packaged(sha, w, tree, k), tree)
  {
    var v, p := Packaged(sha, w, tree, k), PackageProvenance(sha, w, k);
    PackagedBinIsSame(sha, w, tree, k);
    PackagedHasParts(sha, w, tree, k);
    PackageProvenanceFacts(sha, w, k);
    PackageBinariesArePinned(sha, v, w, k, p);
    PackageOutputsArePinned(sha, v, w, p.outputs, k.build);
    PackageClientsArePinned(sha, v, w, k);
    PackageSumsArePinned(sha, w, tree, k);
    PackageSumsCover(sha, w, tree, k);
    PackageManifestIsPinned(sha, v, tree, p);
    PackageManifestIsComplete(sha, tree, p);
    PackageManifestNamesAll(sha, tree, p);
    SameBinBundlesMatch(sha, v, w);
    UnrecordedIsWhole(idHash, p);
    AssembleRecords(sha, idHash, v, tree, p, PackageManifest(sha, tree, p));
  }

  // ------------------------------------------------------------------ the overlay, on views

  /** What an overlay is given besides its base. */
  datatype Input = Input(
    swaps: map<Role, Bytes>, commit: Commit, archive: Bytes, build: Build, name: string, stamp: string)

  /** The swap request is refused unless it takes whole families the base carries. */
  predicate WholeFamilies(p: Provenance, swaps: map<Role, Bytes>) {
    && (forall r :: r in swaps ==> r in p.binaries)
    && (forall r, q :: r in swaps && q in p.binaries && SameFamily(r, q) ==> q in swaps)
  }

  /** `replace_file`: the temporary's name ends up unused. */
  function Put(v: View, rel: Rel, c: Content): View {
    (v - {Tmp(rel)})[rel := c]
  }

  /** One swapped binary, and its friend-bundle copy where there is one. */
  function Swapped(v: View, r: Role, bytes: Bytes): View {
    var w := Put(v, Bin(r), Blob(bytes));
    if Bundled(r) && Bundle(r) in w then Put(w, Bundle(r), Blob(bytes)) else w
  }

  function AllSwapped(v: View, order: seq<Role>, swaps: map<Role, Bytes>): View
    requires forall r :: r in order ==> r in swaps
  {
    if order == [] then v
    else Swapped(AllSwapped(v, order[..|order| - 1], swaps), Last(order), swaps[Last(order)])
  }

  function WithSource(v: View, input: Input): View {
    if SourceTar(input.commit) in v then v else v[SourceTar(input.commit) := Blob(input.archive)]
  }

  function BinariesAfter(sha: Sha, p: Provenance, swaps: map<Role, Bytes>): map<Role, Digest> {
    p.binaries + map r | r in swaps :: sha(Blob(swaps[r]))
  }

  function RecordAfter(sha: Sha, p: Provenance, v: View, base: BaseRef, input: Input): Record
    requires SourceTar(input.commit) in v
  {
    var r := if p.record.Some? then p.record.value else Record("", None, BaseRef(0, "", ""), map[], map[]);
    r.(name := input.name,
       base := base,
       sources := r.sources[input.commit := sha(v[SourceTar(input.commit)])],
       roles := r.roles + map role | role in input.swaps ::
         RoleRecord(input.commit, sha(Blob(input.swaps[role])), input.stamp))
  }

  /** An unchanged file keeps the base's entry, a changed one gets this build's. */
  function OutputsAfter(sha: Sha, p: Provenance, v: View, build: Build): map<Rel, Output> {
    map rel | rel in v && UnderBin(rel) ::
      if rel in p.outputs && p.outputs[rel].sha == sha(v[rel]) then p.outputs[rel] else Output(sha(v[rel]), build)
  }

  function ProvenanceAfter(sha: Sha, idHash: IdHash, p: Provenance, base: BaseRef, v: View, input: Input): Provenance
    requires SourceTar(input.commit) in v && Mini in p.binaries && (forall rel :: rel in p.consent ==> rel in v)
  {
    var binaries := BinariesAfter(sha, p, input.swaps);
    var record := RecordAfter(sha, p, v, base, input);
    var draft := p.(binaries := binaries,
                    linux := binaries[Mini],
                    consent := map rel | rel in p.consent :: sha(v[rel]),
                    outputs := OutputsAfter(sha, p, v, input.build),
                    record := Some(record),
                    stamp := input.stamp);
    draft.(record := Some(record.(id := Some(OverlayId(idHash, draft)))))
  }

  function Listing(lines: seq<(Digest, Rel)>, tar: Rel): seq<Rel> {
    var names := seq(|lines|, i requires 0 <= i < |lines| => lines[i].1);
    if tar in names then names else names + [tar]
  }

  function SumLines(sha: Sha, v: View, names: seq<Rel>): seq<(Digest, Rel)>
    requires forall i :: 0 <= i < |names| ==> names[i] in v
  {
    seq(|names|, i requires 0 <= i < |names| => (sha(v[names[i]]), names[i]))
  }

  function ManifestAfter(m: Manifest, base: nat, tree: nat, p: Provenance, provenance: Digest): Manifest {
    var paths := map k | k in m.paths :: if m.paths[k].tree == base then Home(tree, m.paths[k].rel) else m.paths[k];
    var roles := m.pins + map k | k in paths && k.Of? && k.role in p.binaries :: p.binaries[k.role];
    var aliases := roles + map k |
      k in paths && k.Called? && RoleOf(k.nick) in p.binaries && Of(RoleOf(k.nick)) in roles ::
      roles[Of(RoleOf(k.nick))];
    Manifest(paths[Itself := Home(tree, ProvenanceJson)], aliases[Itself := provenance], p.outputs)
  }

  /** The views of the work directory after each stage; an overlay that refuses has none. */
  datatype Stages = Stages(
    sourced: View, provenance: Provenance, recorded: View, lines: seq<(Digest, Rel)>, summed: View, manifest: Manifest,
    final: View)

  /** The base's records name only files the swapped directory has. */
  predicate CanRecord(p: Provenance, sourced: View, input: Input) {
    Mini in p.binaries && SourceTar(input.commit) in sourced && forall rel :: rel in p.consent ==> rel in sourced
  }

  function BaseOf(sha: Sha, v: View, base: nat): BaseRef
    requires HasParts(v)
  {
    BaseRef(base, sha(v[ProvenanceJson]), v[ProvenanceJson].p.commit)
  }

  function Recorded(sha: Sha, idHash: IdHash, v: View, base: nat, sourced: View, input: Input): View
    requires HasParts(v) && CanRecord(v[ProvenanceJson].p, sourced, input)
  {
    Put(sourced, ProvenanceJson,
        Prov(ProvenanceAfter(sha, idHash, v[ProvenanceJson].p, BaseOf(sha, v, base), sourced, input)))
  }

  predicate CanSum(v: View, recorded: View, input: Input)
    requires HasParts(v)
  {
    var names := Listing(v[Sha256Sums].lines, SourceTar(input.commit));
    forall i :: 0 <= i < |names| ==> names[i] in recorded
  }

  function LinesOf(sha: Sha, v: View, recorded: View, input: Input): seq<(Digest, Rel)>
    requires HasParts(v) && CanSum(v, recorded, input)
  {
    SumLines(sha, recorded, Listing(v[Sha256Sums].lines, SourceTar(input.commit)))
  }

  function StagesOf(
    sha: Sha, idHash: IdHash, v: View, base: nat, tree: nat, order: seq<Role>, input: Input): Option<Stages>
    requires HasParts(v) && (forall r :: r in order ==> r in input.swaps)
  {
    var sourced := WithSource(AllSwapped(v, order, input.swaps), input);
    if !CanRecord(v[ProvenanceJson].p, sourced, input) then None
    else
      var recorded := Recorded(sha, idHash, v, base, sourced, input);
      if !CanSum(v, recorded, input) then None
      else
        var provenance := recorded[ProvenanceJson].p;
        var lines := LinesOf(sha, v, recorded, input);
        var summed := Put(recorded, Sha256Sums, Sums(lines));
        var manifest := ManifestAfter(v[ManifestJson].m, base, tree, provenance, sha(Prov(provenance)));
        Some(Stages(sourced, provenance, recorded, lines, summed, manifest, Put(summed, ManifestJson, Man(manifest))))
  }

  // ------------------------------------------------------------------ what an overlay keeps

  lemma PutElsewhere(v: View, rel: Rel, c: Content, other: Rel)
    requires other != rel && other != Tmp(rel)
    ensures var w := Put(v, rel, c);
            (other in w <==> other in v) && (other in v ==> w[other] == v[other])
  {
  }

  lemma SwappedMeans(v: View, q: Role, bytes: Bytes, r: Role)
    ensures var w := Swapped(v, q, bytes);
            && (r == q ==> Bin(r) in w && w[Bin(r)] == Blob(bytes))
            && (r != q ==> (Bin(r) in w <==> Bin(r) in v) && (Bin(r) in v ==> w[Bin(r)] == v[Bin(r)]))
            && (Tmp(Sha256Sums) in w ==> Tmp(Sha256Sums) in v)
  {
    var put := Put(v, Bin(q), Blob(bytes));
    PutElsewhere(put, Bundle(q), Blob(bytes), Bin(r));
    PutElsewhere(put, Bundle(q), Blob(bytes), Tmp(Sha256Sums));
    PutElsewhere(v, Bin(q), Blob(bytes), Tmp(Sha256Sums));
    if r != q { PutElsewhere(v, Bin(q), Blob(bytes), Bin(r)); }
  }

  lemma {:induction false} SwapsMeans(v: View, order: seq<Role>, swaps: map<Role, Bytes>, r: Role)
    requires forall q :: q in order ==> q in swaps
    ensures var w := AllSwapped(v, order, swaps);
            && (r in order ==> Bin(r) in w && w[Bin(r)] == Blob(swaps[r]))
            && (r !in order ==> (Bin(r) in w <==> Bin(r) in v) && (Bin(r) in v ==> w[Bin(r)] == v[Bin(r)]))
            && (Tmp(Sha256Sums) !in v ==> Tmp(Sha256Sums) !in w)
  {
    if order != [] {
      var init := order[..|order| - 1];
      assert order == init + [Last(order)];
      SwapsMeans(v, init, swaps, r);
      SwappedMeans(AllSwapped(v, init, swaps), Last(order), swaps[Last(order)], r);
    }
  }

  /** The only names an overlay can change before the records: swapped binaries, their bundle copies,
      the temporaries of both, and the source archive. */
  lemma {:induction false} SwapsLeaveOthers(v: View, order: seq<Role>, swaps: map<Role, Bytes>, rel: Rel)
    requires forall q :: q in order ==> q in swaps
    requires forall r :: r in order ==> rel != Bin(r) && rel != Bundle(r) && rel != Tmp(Bin(r)) && rel != Tmp(Bundle(r))
    ensures var w := AllSwapped(v, order, swaps);
            (rel in w <==> rel in v) && (rel in v ==> w[rel] == v[rel])
  {
    if order != [] {
      assert Last(order) in order;
      SwapsLeaveOthers(v, order[..|order| - 1], swaps, rel);
    }
  }

  lemma StrippedIgnoresId(p: Provenance, r: Record, id: Option<string>)
    requires p.record == Some(r)
    ensures Stripped(p.(record := Some(r.(id := id)))) == Stripped(p)
  {
  }

  /** Two provenances that differ in nothing but the recorded id and clock readings. */
  predicate SameButClock(p: Provenance, q: Provenance) {
    && q == p.(stamp := q.stamp, record := q.record)
    && (p.record.Some? <==> q.record.Some?)
    && (p.record.Some? && q.record.Some? ==> SameRecordButClock(p.record.value, q.record.value))
  }

  predicate SameRecordButClock(a: Record, b: Record) {
    && b == a.(id := b.id, roles := b.roles) && a.roles.Keys == b.roles.Keys
    && forall r :: r in a.roles && r in b.roles ==> b.roles[r] == a.roles[r].(stamp := b.roles[r].stamp)
  }

  lemma StrippedRecordExactly(a: Record, b: Record)
    ensures StrippedRecord(a) == StrippedRecord(b) <==> SameRecordButClock(a, b)
  {
    var x, y := StrippedRecord(a).roles, StrippedRecord(b).roles;
    if x == y {
      assert a.roles.Keys == x.Keys && b.roles.Keys == y.Keys;
      forall r | r in a.roles && r in b.roles ensures b.roles[r] == a.roles[r].(stamp := b.roles[r].stamp) {
        assert x[r] == y[r];
      }
    }
    if SameRecordButClock(a, b) {
      assert x == y;
    }
  }

  /** The id depends on neither the recorded id nor any clock reading, and on everything else: two
      provenances have one id exactly when they differ in nothing else, or the hash collides. */
  lemma IdIgnoresIdAndClock(idHash: IdHash, p: Provenance, q: Provenance)
    ensures Stripped(p) == Stripped(q) <==> SameButClock(p, q)
    ensures OverlayId(idHash, p) == OverlayId(idHash, q) <==>
            SameButClock(p, q) || Collide(idHash, Stripped(p), Stripped(q))
  {
    if p.record.Some? && q.record.Some? { StrippedRecordExactly(p.record.value, q.record.value); }
  }

  /** Overlays with one id have the same files below `bin`, up to a collision of either hash. */
  lemma SameIdSameFiles(sha: Sha, idHash: IdHash, s: Stages, t: Stages, rel: Rel)
    requires OutputsPinned(sha, s.final, s.provenance.outputs) && OutputsPinned(sha, t.final, t.provenance.outputs)
    requires OverlayId(idHash, s.provenance) == OverlayId(idHash, t.provenance)
    requires !Collide(idHash, Stripped(s.provenance), Stripped(t.provenance)) && UnderBin(rel)
    ensures rel in s.final <==> rel in t.final
    ensures rel in s.final && rel in t.final ==> sha(s.final[rel]) == sha(t.final[rel])
  {
    IdIgnoresIdAndClock(idHash, s.provenance, t.provenance);
    assert rel in s.provenance.outputs <==> rel in s.final;
    assert rel in t.provenance.outputs <==> rel in t.final;
  }

  /** The same overlay of the same bytes, from the base directories `a` and `b` and at two times: the id is one
      exactly when the directory is one, or two different provenances collide.  The recorded path of the base
      is part of what is hashed. */
  lemma IdsAgreeExactly(
    sha: Sha, idHash: IdHash, v: View, a: nat, b: nat, sourced: View, input: Input, stamp: string)
    requires HasParts(v) && CanRecord(v[ProvenanceJson].p, sourced, input)
    ensures var p := v[ProvenanceJson].p;
            var q := ProvenanceAfter(sha, idHash, p, BaseOf(sha, v, a), sourced, input);
            var q' := ProvenanceAfter(sha, idHash, p, BaseOf(sha, v, b), sourced, input.(stamp := stamp));
            && (Stripped(q) == Stripped(q') <==> a == b)
            && (OverlayId(idHash, q) == OverlayId(idHash, q') <==> a == b || Collide(idHash, Stripped(q), Stripped(q')))
  {
    var p := v[ProvenanceJson].p;
    var q := ProvenanceAfter(sha, idHash, p, BaseOf(sha, v, a), sourced, input);
    var q' := ProvenanceAfter(sha, idHash, p, BaseOf(sha, v, b), sourced, input.(stamp := stamp));
    assert Stripped(q).record.value.base.tree == a && Stripped(q').record.value.base.tree == b;
    if a == b {
      StampIsStripped(sha, idHash, p, BaseOf(sha, v, a), sourced, input, stamp);
    }
  }

  predicate Collide(idHash: IdHash, p: Provenance, q: Provenance) {
    p != q && idHash(p) == idHash(q)
  }

  lemma StampIsStripped(
    sha: Sha, idHash: IdHash, p: Provenance, base: BaseRef, v: View, input: Input, stamp: string)
    requires CanRecord(p, v, input)
    ensures Stripped(ProvenanceAfter(sha, idHash, p, base, v, input)) ==
            Stripped(ProvenanceAfter(sha, idHash, p, base, v, input.(stamp := stamp)))
  {
    var q := ProvenanceAfter(sha, idHash, p, base, v, input);
    var q' := ProvenanceAfter(sha, idHash, p, base, v, input.(stamp := stamp));
    RecordStampIsStripped(sha, p, base, v, input, stamp, q.record.value.id, q'.record.value.id);
  }

  lemma RecordStampIsStripped(
    sha: Sha, p: Provenance, base: BaseRef, v: View, input: Input, stamp: string,
    id: Option<string>, id': Option<string>)
    requires SourceTar(input.commit) in v
    ensures StrippedRecord(RecordAfter(sha, p, v, base, input).(id := id)) ==
            StrippedRecord(RecordAfter(sha, p, v, base, input.(stamp := stamp)).(id := id'))
  {
    var r, r' := RecordAfter(sha, p, v, base, input), RecordAfter(sha, p, v, base, input.(stamp := stamp));
    assert StrippedRecord(r).roles == StrippedRecord(r').roles;
  }

  lemma CommitsAfter(sha: Sha, idHash: IdHash, p: Provenance, base: BaseRef, v: View, input: Input, r: Role)
    requires SourceTar(input.commit) in v && Mini in p.binaries && (forall rel :: rel in p.consent ==> rel in v)
    ensures CommitOf(ProvenanceAfter(sha, idHash, p, base, v, input), r) ==
            if r in input.swaps then input.commit else CommitOf(p, r)
  {
  }

  lemma FamiliesFollowCommits(p: Provenance, q: Provenance, swaps: map<Role, Bytes>, commit: Commit)
    requires FamiliesWhole(p) && WholeFamilies(p, swaps) && q.binaries.Keys == p.binaries.Keys
    requires forall r :: CommitOf(q, r) == if r in swaps then commit else CommitOf(p, r)
    ensures FamiliesWhole(q)
  {
    forall a, b | a in q.binaries && b in q.binaries && SameFamily(a, b) ensures CommitOf(q, a) == CommitOf(q, b) {
      assert a in p.binaries && b in p.binaries && SameFamily(b, a);
    }
  }

  lemma FamiliesStayWhole(sha: Sha, idHash: IdHash, p: Provenance, base: BaseRef, v: View, input: Input)
    requires SourceTar(input.commit) in v && Mini in p.binaries && (forall rel :: rel in p.consent ==> rel in v)
    requires FamiliesWhole(p) && WholeFamilies(p, input.swaps)
    ensures FamiliesWhole(ProvenanceAfter(sha, idHash, p, base, v, input))
  {
    var q := ProvenanceAfter(sha, idHash, p, base, v, input);
    assert q.binaries.Keys == p.binaries.Keys;
    forall r ensures CommitOf(q, r) == if r in input.swaps then input.commit else CommitOf(p, r) {
      CommitsAfter(sha, idHash, p, base, v, input, r);
    }
    FamiliesFollowCommits(p, q, input.swaps, input.commit);
  }

  function FamilyIn(p: Provenance, r: Role): set<Role> {
    set q | q in p.binaries && SameFamily(r, q)
  }

  /** A request is for whole families exactly when the base has every role of it and each of the base's families is
      swapped whole or not at all. */
  lemma WholeFamiliesExactly(p: Provenance, swaps: map<Role, Bytes>)
    ensures WholeFamilies(p, swaps) <==>
            && swaps.Keys <= p.binaries.Keys
            && forall r :: r in p.binaries ==> FamilyIn(p, r) <= swaps.Keys || FamilyIn(p, r) !! swaps.Keys
  {
    if swaps.Keys <= p.binaries.Keys
       && forall r :: r in p.binaries ==> FamilyIn(p, r) <= swaps.Keys || FamilyIn(p, r) !! swaps.Keys {
      forall r, q | r in swaps && q in p.binaries && SameFamily(r, q) ensures q in swaps {
        assert r in FamilyIn(p, r) && q in FamilyIn(p, r);
      }
    }
    if WholeFamilies(p, swaps) {
      forall r | r in p.binaries ensures FamilyIn(p, r) <= swaps.Keys || FamilyIn(p, r) !! swaps.Keys {
        if x :| x in FamilyIn(p, r) && x in swaps.Keys {
          forall q | q in FamilyIn(p, r) ensures q in swaps { assert SameFamily(x, q); }
        }
      }
    }
  }

  /** For a commit no binary of the base is from, the families stay whole if and only if the request is for whole
      families: the refusal of a partial one is needed. */
  lemma FamiliesStayWholeExactly(sha: Sha, idHash: IdHash, p: Provenance, base: BaseRef, v: View, input: Input)
    requires CanRecord(p, v, input) && FamiliesWhole(p) && input.swaps.Keys <= p.binaries.Keys
    requires forall r :: r in p.binaries ==> CommitOf(p, r) != input.commit
    ensures FamiliesWhole(ProvenanceAfter(sha, idHash, p, base, v, input)) <==> WholeFamilies(p, input.swaps)
  {
    var q := ProvenanceAfter(sha, idHash, p, base, v, input);
    if WholeFamilies(p, input.swaps) {
      FamiliesStayWhole(sha, idHash, p, base, v, input);
    } else {
      var a, b :| a in input.swaps && b in p.binaries && SameFamily(a, b) && b !in input.swaps;
      CommitsAfter(sha, idHash, p, base, v, input, a);
      CommitsAfter(sha, idHash, p, base, v, input, b);
      assert a in q.binaries && b in q.binaries;
    }
  }

  lemma IdIsRecorded(sha: Sha, idHash: IdHash, p: Provenance, base: BaseRef, v: View, input: Input)
    requires SourceTar(input.commit) in v && Mini in p.binaries && (forall rel :: rel in p.consent ==> rel in v)
    ensures IdRecorded(idHash, ProvenanceAfter(sha, idHash, p, base, v, input))
  {
    var q := ProvenanceAfter(sha, idHash, p, base, v, input);
    var record := RecordAfter(sha, p, v, base, input);
    StrippedIgnoresId(q.(record := Some(record)), record, q.record.value.id);
  }

  /** How the stages follow from one another. */
  predicate Chained(s: Stages) {
    && s.recorded == Put(s.sourced, ProvenanceJson, Prov(s.provenance))
    && s.summed == Put(s.recorded, Sha256Sums, Sums(s.lines))
    && s.final == Put(s.summed, ManifestJson, Man(s.manifest))
  }

  /** From the swapped view to the final one only the three record files and their temporaries change. */
  lemma FinalLeavesOthers(s: Stages, rel: Rel)
    requires Chained(s) && Listable(rel)
    ensures (rel in s.final <==> rel in s.recorded) && (rel in s.final ==> s.final[rel] == s.recorded[rel])
    ensures rel != ProvenanceJson && rel != Tmp(ProvenanceJson) ==>
            (rel in s.final <==> rel in s.sourced) && (rel in s.final ==> s.final[rel] == s.sourced[rel])
  {
  }

  lemma FinalHasParts(s: Stages)
    requires Chained(s)
    ensures HasParts(s.final) && Tmp(Sha256Sums) !in s.final
    ensures s.final[ProvenanceJson] == Prov(s.provenance) && s.final[Sha256Sums] == Sums(s.lines)
    ensures s.final[ManifestJson] == Man(s.manifest)
  {
  }

  lemma BinariesStayPinned(sha: Sha, v: View, s: Stages, p: Provenance, order: seq<Role>, input: Input)
    requires Chained(s) && (forall r :: r in order <==> r in input.swaps)
    requires s.sourced == WithSource(AllSwapped(v, order, input.swaps), input)
    requires s.provenance.binaries == BinariesAfter(sha, p, input.swaps) && BinariesPinned(sha, v, p)
    ensures BinariesPinned(sha, s.final, s.provenance)
  {
    forall r | r in s.provenance.binaries ensures Pinned(sha, s.final, Bin(r), s.provenance.binaries[r]) {
      SwapsMeans(v, order, input.swaps, r);
      FinalLeavesOthers(s, Bin(r));
    }
  }

  lemma OutputsStayPinned(sha: Sha, s: Stages, p: Provenance, build: Build)
    requires Chained(s) && s.provenance.outputs == OutputsAfter(sha, p, s.sourced, build)
    ensures OutputsPinned(sha, s.final, s.provenance.outputs)
  {
    forall rel | UnderBin(rel)
      ensures (rel in s.final <==> rel in s.sourced) && (rel in s.final ==> s.final[rel] == s.sourced[rel])
    {
      FinalLeavesOthers(s, rel);
    }
  }

  lemma ClientsStayPinned(sha: Sha, s: Stages, p: Provenance)
    requires Chained(s) && Mini in s.provenance.binaries && s.provenance.linux == s.provenance.binaries[Mini]
    requires forall rel :: rel in p.consent ==> UnderBin(rel) && rel in s.sourced
    requires s.provenance.consent == map rel | rel in p.consent :: sha(s.sourced[rel])
    ensures ClientsPinned(sha, s.final, s.provenance)
  {
    forall rel | rel in s.provenance.consent
      ensures UnderBin(rel) && Pinned(sha, s.final, rel, s.provenance.consent[rel])
    {
      FinalLeavesOthers(s, rel);
    }
  }

  lemma SumsStayPinned(sha: Sha, s: Stages, lines: seq<(Digest, Rel)>, commit: Commit)
    requires Chained(s) && (forall i :: 0 <= i < |lines| ==> Listable(lines[i].1))
    requires var names := Listing(lines, SourceTar(commit));
             (forall i :: 0 <= i < |names| ==> names[i] in s.recorded) && s.lines == SumLines(sha, s.recorded, names)
    ensures SumsPinned(sha, s.final, s.lines)
  {
    var names := Listing(lines, SourceTar(commit));
    forall i | 0 <= i < |s.lines| ensures Listable(s.lines[i].1) && Pinned(sha, s.final, s.lines[i].1, s.lines[i].0) {
      assert s.lines[i].1 == names[i];
      assert i < |lines| ==> names[i] == lines[i].1;
      FinalLeavesOthers(s, names[i]);
    }
  }

  lemma ManifestStaysPinned(sha: Sha, v: View, w: View, m: Manifest, base: nat, tree: nat, p: Provenance, q: Provenance)
    requires ManifestPinned(sha, v, base, p, m) && p.binaries.Keys == q.binaries.Keys
    requires ProvenanceJson in w && w[ProvenanceJson] == Prov(q)
    ensures ManifestPinned(sha, w, tree, q, ManifestAfter(m, base, tree, q, sha(Prov(q))))
  {
  }

  /** The equations behind the stages of an overlay that is not refused. */
  lemma StagesFacts(sha: Sha, idHash: IdHash, v: View, base: nat, tree: nat, order: seq<Role>, input: Input, s: Stages)
    requires HasParts(v) && (forall r :: r in order ==> r in input.swaps)
    requires StagesOf(sha, idHash, v, base, tree, order, input) == Some(s)
    ensures var p := v[ProvenanceJson].p;
            && Chained(s)
            && s.sourced == WithSource(AllSwapped(v, order, input.swaps), input)
            && Mini in p.binaries && (forall rel :: rel in p.consent ==> rel in s.sourced)
            && SourceTar(input.commit) in s.sourced
            && s.provenance == ProvenanceAfter(sha, idHash, p, BaseOf(sha, v, base), s.sourced, input)
            && s.manifest == ManifestAfter(v[ManifestJson].m, base, tree, s.provenance, sha(Prov(s.provenance)))
    ensures var names := Listing(v[Sha256Sums].lines, SourceTar(input.commit));
            (forall i :: 0 <= i < |names| ==> names[i] in s.recorded) && s.lines == SumLines(sha, s.recorded, names)
  {
  }

  lemma ProvenanceFacts(sha: Sha, idHash: IdHash, p: Provenance, base: BaseRef, v: View, input: Input)
    requires SourceTar(input.commit) in v && Mini in p.binaries && (forall rel :: rel in p.consent ==> rel in v)
    ensures var q := ProvenanceAfter(sha, idHash, p, base, v, input);
            && q.binaries == BinariesAfter(sha, p, input.swaps)
            && Mini in q.binaries && q.linux == q.binaries[Mini]
            && q.consent == (map rel | rel in p.consent :: sha(v[rel]))
            && q.outputs == OutputsAfter(sha, p, v, input.build)
            && q.commit == p.commit && q.rest == p.rest && q.stamp == input.stamp
  {
  }

  lemma Assemble(sha: Sha, idHash: IdHash, s: Stages, tree: nat)
    requires Chained(s)
    requires BinariesPinned(sha, s.final, s.provenance) && OutputsPinned(sha, s.final, s.provenance.outputs)
    requires ClientsPinned(sha, s.final, s.provenance) && SumsPinned(sha, s.final, s.lines)
    requires SumsCover(s.lines, s.provenance) && RecordPinned(sha, s.final, s.provenance)
    requires ManifestPinned(sha, s.final, tree, s.provenance, s.manifest) && Complete(s.manifest)
    requires NamesAll(s.manifest, s.provenance, tree) && BundlesMatch(sha, s.final)
    requires FamiliesWhole(s.provenance) && IdRecorded(idHash, s.provenance)
    ensures Consistent(sha, idHash, s.final, tree)
  {
    FinalHasParts(s);
    AssembleRecords(sha, idHash, s.final, tree, s.provenance, s.manifest);
  }

  lemma FilesStayPinned(
    sha: Sha, idHash: IdHash, v: View, base: nat, tree: nat, order: seq<Role>, input: Input, s: Stages)
    requires HasParts(v) && BinariesPinned(sha, v, v[ProvenanceJson].p) && ClientsPinned(sha, v, v[ProvenanceJson].p)
    requires SumsPinned(sha, v, v[Sha256Sums].lines)
    requires forall r :: r in order <==> r in input.swaps
    requires StagesOf(sha, idHash, v, base, tree, order, input) == Some(s)
    ensures BinariesPinned(sha, s.final, s.provenance) && OutputsPinned(sha, s.final, s.provenance.outputs)
    ensures ClientsPinned(sha, s.final, s.provenance) && SumsPinned(sha, s.final, s.lines)
  {
    var p := v[ProvenanceJson].p;
    StagesFacts(sha, idHash, v, base, tree, order, input, s);
    ProvenanceFacts(sha, idHash, p, BaseOf(sha, v, base), s.sourced, input);
    assert BinariesPinned(sha, s.final, s.provenance) by { BinariesStayPinned(sha, v, s, p, order, input); }
    assert OutputsPinned(sha, s.final, s.provenance.outputs) by { OutputsStayPinned(sha, s, p, input.build); }
    assert ClientsPinned(sha, s.final, s.provenance) by { ClientsStayPinned(sha, s, p); }
    assert SumsPinned(sha, s.final, s.lines) by { SumsStayPinned(sha, s, v[Sha256Sums].lines, input.commit); }
  }

  lemma RecordsStayTrue(
    sha: Sha, idHash: IdHash, v: View, base: nat, tree: nat, order: seq<Role>, input: Input, s: Stages)
    requires HasParts(v) && FamiliesWhole(v[ProvenanceJson].p) && WholeFamilies(v[ProvenanceJson].p, input.swaps)
    requires ManifestPinned(sha, v, base, v[ProvenanceJson].p, v[ManifestJson].m)
    requires forall r :: r in order ==> r in input.swaps
    requires StagesOf(sha, idHash, v, base, tree, order, input) == Some(s)
    ensures FamiliesWhole(s.provenance) && IdRecorded(idHash, s.provenance)
    ensures ManifestPinned(sha, s.final, tree, s.provenance, s.manifest)
  {
    var p := v[ProvenanceJson].p;
    StagesFacts(sha, idHash, v, base, tree, order, input, s);
    assert FamiliesWhole(s.provenance) by {
      FamiliesStayWhole(sha, idHash, p, BaseOf(sha, v, base), s.sourced, input);
    }
    assert IdRecorded(idHash, s.provenance) by {
      IdIsRecorded(sha, idHash, p, BaseOf(sha, v, base), s.sourced, input);
    }
    FinalHasParts(s);
    assert p.binaries.Keys == s.provenance.binaries.Keys;
    ManifestStaysPinned(sha, v, s.final, v[ManifestJson].m, base, tree, p, s.provenance);
  }

  /** An overlay lists exactly what its base lists, in order, and then its archive unless the base lists it. */
  lemma OverlayLists(sha: Sha, idHash: IdHash, v: View, base: nat, tree: nat, order: seq<Role>, input: Input, s: Stages)
    requires HasParts(v) && (forall r :: r in order ==> r in input.swaps)
    requires StagesOf(sha, idHash, v, base, tree, order, input) == Some(s)
    ensures var listed, tar := SumNames(v[Sha256Sums].lines), SourceTar(input.commit);
            SumNames(s.lines) == if tar in listed then listed else listed + [tar]
  {
    var listed, tar := SumNames(v[Sha256Sums].lines), SourceTar(input.commit);
    StagesFacts(sha, idHash, v, base, tree, order, input, s);
    assert SumNames(s.lines) == Listing(v[Sha256Sums].lines, tar);
  }

  lemma KeysStay(sha: Sha, idHash: IdHash, p: Provenance, base: BaseRef, v: View, input: Input)
    requires CanRecord(p, v, input) && WholeFamilies(p, input.swaps)
    ensures var q := ProvenanceAfter(sha, idHash, p, base, v, input);
            q.binaries.Keys == p.binaries.Keys && q.consent.Keys == p.consent.Keys
  {
  }

  lemma CoverageStays(sha: Sha, idHash: IdHash, v: View, base: nat, tree: nat, order: seq<Role>, input: Input,
                      s: Stages)
    requires HasParts(v) && (forall r :: r in order ==> r in input.swaps)
    requires SumsCover(v[Sha256Sums].lines, v[ProvenanceJson].p) && WholeFamilies(v[ProvenanceJson].p, input.swaps)
    requires StagesOf(sha, idHash, v, base, tree, order, input) == Some(s)
    ensures SumsCover(s.lines, s.provenance)
  {
    var p := v[ProvenanceJson].p;
    assert s.provenance.binaries.Keys == p.binaries.Keys && s.provenance.consent.Keys == p.consent.Keys by {
      StagesFacts(sha, idHash, v, base, tree, order, input, s);
      KeysStay(sha, idHash, p, BaseOf(sha, v, base), s.sourced, input);
    }
    OverlayLists(sha, idHash, v, base, tree, order, input, s);
    CoverageGrows(v[Sha256Sums].lines, p, s.lines, s.provenance, SourceTar(input.commit));
  }

  lemma CoverageGrows(lines: seq<(Digest, Rel)>, p: Provenance, lines': seq<(Digest, Rel)>, q: Provenance, tar: Rel)
    requires SumsCover(lines, p) && q.binaries.Keys == p.binaries.Keys && q.consent.Keys == p.consent.Keys
    requires SumNames(lines') == SumNames(lines) || SumNames(lines') == SumNames(lines) + [tar]
    ensures SumsCover(lines', q)
  {
  }

  /** What a new record says of archives and roles, given the old one and the digest of the commit's archive. */
  ghost predicate Extends(sha: Sha, was: Option<Record>, now: Record, archive: Digest, input: Input) {
    && (forall c :: c in now.sources <==> c == input.commit || (was.Some? && c in was.value.sources))
    && (forall c :: c in now.sources && was.Some? && c in was.value.sources && c != input.commit ==>
          now.sources[c] == was.value.sources[c])
    && input.commit in now.sources && now.sources[input.commit] == archive
    && (forall r :: r in now.roles <==> r in input.swaps || (was.Some? && r in was.value.roles))
    && (forall r :: r in now.roles && r in input.swaps ==>
          now.roles[r] == RoleRecord(input.commit, sha(Blob(input.swaps[r])), input.stamp))
    && (forall r :: r in now.roles && r !in input.swaps && was.Some? && r in was.value.roles ==>
          now.roles[r] == was.value.roles[r])
  }

  /** The new record names the overlay and its base, and extends the base's record by the archive and the
      swapped roles. */
  lemma RecordFacts(sha: Sha, idHash: IdHash, p: Provenance, base: BaseRef, v: View, input: Input)
    requires CanRecord(p, v, input)
    ensures var q := ProvenanceAfter(sha, idHash, p, base, v, input);
            && q.record.Some? && q.record.value.name == input.name && q.record.value.base == base
            && Extends(sha, p.record, q.record.value, sha(v[SourceTar(input.commit)]), input)
  {
  }

  lemma ExtendedIsPinned(sha: Sha, v: View, w: View, p: Provenance, q: Provenance, archive: Digest, input: Input)
    requires RecordPinned(sha, v, p) && q.record.Some? && Extends(sha, p.record, q.record.value, archive, input)
    requires Pinned(sha, w, SourceTar(input.commit), archive)
    requires forall c :: SourceTar(c) in v ==> SourceTar(c) in w && w[SourceTar(c)] == v[SourceTar(c)]
    requires WholeFamilies(p, input.swaps) && q.binaries == BinariesAfter(sha, p, input.swaps)
    ensures RecordPinned(sha, w, q)
  {
    forall c | c in q.record.value.sources ensures Pinned(sha, w, SourceTar(c), q.record.value.sources[c]) {
      if c != input.commit { assert Pinned(sha, v, SourceTar(c), p.record.value.sources[c]); }
    }
    forall r | r in q.record.value.roles ensures RoleRecorded(q, r) {
      if r !in input.swaps { assert RoleRecorded(p, r); }
    }
  }

  lemma RecordStaysPinned(
    sha: Sha, idHash: IdHash, v: View, base: nat, tree: nat, order: seq<Role>, input: Input, s: Stages)
    requires HasParts(v) && (forall r :: r in order ==> r in input.swaps)
    requires RecordPinned(sha, v, v[ProvenanceJson].p) && WholeFamilies(v[ProvenanceJson].p, input.swaps)
    requires StagesOf(sha, idHash, v, base, tree, order, input) == Some(s)
    ensures RecordPinned(sha, s.final, s.provenance)
  {
    var p, tar := v[ProvenanceJson].p, SourceTar(input.commit);
    StagesFacts(sha, idHash, v, base, tree, order, input, s);
    RecordFacts(sha, idHash, p, BaseOf(sha, v, base), s.sourced, input);
    forall c ensures SourceTar(c) in v ==> SourceTar(c) in s.final && s.final[SourceTar(c)] == v[SourceTar(c)]
      ensures tar in s.final && s.final[tar] == s.sourced[tar]
    {
      SourceStays(v, order, input, s, c);
    }
    assert Pinned(sha, s.final, tar, sha(s.sourced[tar])) by { SourceStays(v, order, input, s, input.commit); }
    ExtendedIsPinned(sha, v, s.final, p, s.provenance, sha(s.sourced[tar]), input);
  }

  /** An archive that was there is there unchanged. */
  lemma SourceStays(v: View, order: seq<Role>, input: Input, s: Stages, c: Commit)
    requires Chained(s) && (forall r :: r in order ==> r in input.swaps)
    requires s.sourced == WithSource(AllSwapped(v, order, input.swaps), input)
    ensures SourceTar(input.commit) in s.final && s.final[SourceTar(input.commit)] == s.sourced[SourceTar(input.commit)]
    ensures SourceTar(c) in v ==> SourceTar(c) in s.final && s.final[SourceTar(c)] == v[SourceTar(c)]
  {
    FinalLeavesOthers(s, SourceTar(c));
    FinalLeavesOthers(s, SourceTar(input.commit));
    SwapsLeaveOthers(v, order, input.swaps, SourceTar(c));
  }

  /** A swapped binary's copy has the new bytes too, and a copy is never removed. */
  lemma {:induction false} SwapsCopy(v: View, order: seq<Role>, swaps: map<Role, Bytes>, r: Role)
    requires forall q :: q in order ==> q in swaps
    ensures var w := AllSwapped(v, order, swaps);
            && (Bundled(r) && r in order && Bundle(r) in v ==> Bundle(r) in w && w[Bundle(r)] == Blob(swaps[r]))
            && (r !in order || !Bundled(r) ==>
                  (Bundle(r) in w <==> Bundle(r) in v) && (Bundle(r) in v ==> w[Bundle(r)] == v[Bundle(r)]))
            && (Bundle(r) in w ==> Bundle(r) in v)
  {
    if order != [] {
      var init := order[..|order| - 1];
      assert order == init + [Last(order)];
      SwapsCopy(v, init, swaps, r);
      SwapCopies(AllSwapped(v, init, swaps), Last(order), swaps[Last(order)], r);
    }
  }

  lemma SwapCopies(v: View, q: Role, bytes: Bytes, r: Role)
    ensures var w := Swapped(v, q, bytes);
            && (Bundle(r) in w <==> Bundle(r) in v)
            && (Bundle(r) in v ==> w[Bundle(r)] == if r == q && Bundled(q) then Blob(bytes) else v[Bundle(r)])
  {
    PutElsewhere(v, Bin(q), Blob(bytes), Bundle(r));
    if r != q { PutElsewhere(Put(v, Bin(q), Blob(bytes)), Bundle(q), Blob(bytes), Bundle(r)); }
  }

  lemma BundlesStayMatched(
    sha: Sha, idHash: IdHash, v: View, base: nat, tree: nat, order: seq<Role>, input: Input, s: Stages)
    requires HasParts(v) && BundlesMatch(sha, v) && (forall r :: r in order ==> r in input.swaps)
    requires StagesOf(sha, idHash, v, base, tree, order, input) == Some(s)
    ensures BundlesMatch(sha, s.final)
  {
    StagesFacts(sha, idHash, v, base, tree, order, input, s);
    forall r: Role | Bundled(r) && Bundle(r) in s.final
      ensures Bin(r) in s.final && sha(s.final[Bundle(r)]) == sha(s.final[Bin(r)])
    {
      BundleStaysMatched(sha, v, order, input, s, r);
    }
  }

  lemma BundleStaysMatched(sha: Sha, v: View, order: seq<Role>, input: Input, s: Stages, r: Role)
    requires Chained(s) && BundlesMatch(sha, v) && (forall q :: q in order ==> q in input.swaps)
    requires s.sourced == WithSource(AllSwapped(v, order, input.swaps), input) && Bundled(r) && Bundle(r) in s.final
    ensures Bin(r) in s.final && sha(s.final[Bundle(r)]) == sha(s.final[Bin(r)])
  {
    FinalLeavesOthers(s, Bundle(r));
    FinalLeavesOthers(s, Bin(r));
    SwapsCopy(v, order, input.swaps, r);
    SwapsMeans(v, order, input.swaps, r);
  }

  /** An overlay of a consistent candidate by whole families is consistent again: every line of the sums,
      every output, role and alias pin matches the final bytes, no family is split, and the recorded id
      is the one recomputed from the final provenance. */
  lemma OverlayIsConsistent(
    sha: Sha, idHash: IdHash, v: View, base: nat, tree: nat, order: seq<Role>, input: Input, s: Stages)
    requires Consistent(sha, idHash, v, base) && WholeFamilies(v[ProvenanceJson].p, input.swaps)
    requires forall r :: r in order <==> r in input.swaps
    requires StagesOf(sha, idHash, v, base, tree, order, input) == Some(s)
    ensures Consistent(sha, idHash, s.final, tree)
  {
    FilesStayPinned(sha, idHash, v, base, tree, order, input, s);
    RecordsStayTrue(sha, idHash, v, base, tree, order, input, s);
    assert SumsCover(s.lines, s.provenance) by { CoverageStays(sha, idHash, v, base, tree, order, input, s); }
    assert RecordPinned(sha, s.final, s.provenance) by {
      RecordStaysPinned(sha, idHash, v, base, tree, order, input, s);
    }
    assert BundlesMatch(sha, s.final) by { BundlesStayMatched(sha, idHash, v, base, tree, order, input, s); }
    assert Chained(s) && Complete(s.manifest) && NamesAll(s.manifest, s.provenance, tree) by {
      StagesFacts(sha, idHash, v, base, tree, order, input, s);
      KeysStay(sha, idHash, v[ProvenanceJson].p, BaseOf(sha, v, base), s.sourced, input);
      ManifestStillNamesAll(v[ManifestJson].m, base, tree, v[ProvenanceJson].p, s.provenance, sha(Prov(s.provenance)));
      ManifestStaysComplete(v[ManifestJson].m, base, tree, s.provenance, sha(Prov(s.provenance)));
    }
    Assemble(sha, idHash, s, tree);
  }

  /** An output whose bytes the overlay did not change keeps the base's build identity, and only such an
      output has another build than this overlay's. */
  lemma UnchangedKeepsItsBuild(
    sha: Sha, v: View, s: Stages, p: Provenance, build: Build, rel: Rel)
    requires Chained(s) && s.provenance.outputs == OutputsAfter(sha, p, s.sourced, build) &&
             OutputsPinned(sha, v, p.outputs)
    requires rel in s.provenance.outputs
    ensures rel in s.final
    ensures rel in v && s.final[rel] == v[rel] ==> s.provenance.outputs[rel] == p.outputs[rel]
    ensures s.provenance.outputs[rel].build != build ==> rel in v && s.provenance.outputs[rel] == p.outputs[rel]
  {
    FinalLeavesOthers(s, rel);
  }
}

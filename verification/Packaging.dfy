/**
 * Making a package (deploy/candidate/package.py, `package`): the binaries copied or adopted in place, the
 * extracted files, the friend bundle, then the records of Candidate.
 */
module Packaging {
  import opened Common
  import opened Candidate

  /** Where a chosen role's binary comes from: its place in the package already, or elsewhere. */
  datatype Origin = InPlace | From(bytes: Bytes)

  datatype Choice = Choice(origin: Origin, want: Digest)

  /** Everything a package is made from besides the files already in its directory. */
  datatype Order = Order(
    roles: seq<Role>, chosen: map<Role, Choice>, extracted: map<Rel, Bytes>, names: seq<Rel>, cross: seq<Rel>,
    commit: Commit, build: Build, stamp: string, rest: string)

  /** The roles and the extracted files are each listed once; extracted files lie beside `bin`, cross
      clients below it. */
  ghost predicate WellFormed(v: View, o: Order) {
    && Distinct(o.roles) && (forall r :: r in o.roles <==> r in o.chosen)
    && (forall rel :: rel in o.names <==> rel in o.extracted) && (forall rel :: rel in o.extracted ==> rel.Other?)
    && (forall i :: 0 <= i < |o.cross| ==> o.cross[i].OtherBin? && o.cross[i] in v)
  }

  const BUNDLE := [Mini, Host, Consent, Verifier, Store]

  // ------------------------------------------------------------------ what the files become

  predicate RoleFits(sha: Sha, v: View, r: Role, c: Choice) {
    match c.origin
    case InPlace => Bin(r) in v && sha(v[Bin(r)]) == c.want
    case From(bytes) => Bin(r) !in v && sha(Blob(bytes)) == c.want
  }

  /** When a package can be made: the required roles are chosen, each binary has its digest and takes no
      other file's place, and a bundle copy that is there already is the binary. */
  predicate CanPack(sha: Sha, v: View, chosen: map<Role, Choice>) {
    && (forall r: Role :: Required(r) ==> r in chosen)
    && (forall r :: r in chosen ==> RoleFits(sha, v, r, chosen[r]))
    && (forall r: Role :: Bundled(r) && r in chosen && Bundle(r) in v ==> sha(v[Bundle(r)]) == chosen[r].want)
  }

  function ChoiceAt(chosen: map<Role, Choice>, rel: Rel): Option<Bytes> {
    if rel.Bin? && rel.role in chosen && chosen[rel.role].origin.From? then Some(chosen[rel.role].origin.bytes)
    else None
  }

  /** `w` is `v` with the chosen binaries from elsewhere copied in. */
  ghost predicate WithBinaries(v: View, w: View, chosen: map<Role, Choice>) {
    forall rel :: BinaryAt(v, w, chosen, rel)
  }

  predicate BinaryAt(v: View, w: View, chosen: map<Role, Choice>, rel: Rel) {
    var copied := ChoiceAt(chosen, rel);
    && (rel in w <==> copied.Some? || rel in v)
    && (rel in w ==> w[rel] == if copied.Some? then Blob(copied.value) else v[rel])
  }

  function WithFiles(w: View, extracted: map<Rel, Bytes>): View {
    w + map rel | rel in extracted :: Blob(extracted[rel])
  }

  /** `w` is `v` with every missing bundle copy linked to its binary. */
  ghost predicate WithBundle(v: View, w: View, roles: seq<Role>) {
    forall rel :: BundleAt(v, w, roles, rel)
  }

  predicate BundleAt(v: View, w: View, roles: seq<Role>, rel: Rel) {
    var linked := rel.Bundle? && rel.role in roles && rel !in v && Bin(rel.role) in v;
    && (rel in w <==> linked || rel in v)
    && (rel in w ==> w[rel] == if linked then v[Bin(rel.role)] else v[rel])
  }

  // ------------------------------------------------------------------ the loops

  /** Copy or adopt each chosen binary, and require its digest. */
  method CopyBinaries(sha: Sha, v: View, roles: seq<Role>, chosen: map<Role, Choice>) returns (r: Option<View>)
    requires Distinct(roles) && (forall x :: x in roles <==> x in chosen)
    ensures r.Some? <==> forall x :: x in chosen ==> RoleFits(sha, v, x, chosen[x])
    ensures r.Some? ==> WithBinaries(v, r.value, chosen)
  {
    var w := v;
    ghost var done: map<Role, Choice> := map[];
    for i := 0 to |roles|
      invariant WithBinaries(v, w, done)
      invariant forall x :: x in done <==> x in roles[..i]
      invariant forall x :: x in done ==> x in chosen && done[x] == chosen[x] && RoleFits(sha, v, x, chosen[x])
    {
      var x := roles[i];
      assert x in roles && x !in roles[..i] && roles[..i + 1] == roles[..i] + [x];
      assert BinaryAt(v, w, done, Bin(x));
      var c := chosen[x];
      if c.origin.From? {
        if Bin(x) in w { return None; }
        if sha(Blob(c.origin.bytes)) != c.want { return None; }
        ghost var before := w;
        w := w[Bin(x) := Blob(c.origin.bytes)];
        OneMoreBinary(v, before, w, done, x, c);
      } else {
        if Bin(x) !in w || sha(w[Bin(x)]) != c.want { return None; }
        OneMoreBinary(v, w, w, done, x, c);
      }
      done := done[x := c];
    }
    assert roles[..|roles|] == roles && done == chosen;
    r := Some(w);
  }

  lemma OneMoreBinary(v: View, w: View, w': View, done: map<Role, Choice>, x: Role, c: Choice)
    requires WithBinaries(v, w, done) && x !in done
    requires w' == if c.origin.From? then w[Bin(x) := Blob(c.origin.bytes)] else w
    ensures WithBinaries(v, w', done[x := c])
  {
    var more := done[x := c];
    forall rel ensures BinaryAt(v, w', more, rel) {
      assert BinaryAt(v, w, done, rel);
    }
  }

  method ExtractFiles(w: View, extracted: map<Rel, Bytes>, names: seq<Rel>) returns (r: View)
    requires forall rel :: rel in names <==> rel in extracted
    ensures r == WithFiles(w, extracted)
  {
    r := w;
    for i := 0 to |names|
      invariant r == w + map rel | rel in names[..i] && rel in extracted :: Blob(extracted[rel])
    {
      assert names[i] in names && names[..i + 1] == names[..i] + [names[i]];
      r := r[names[i] := Blob(extracted[names[i]])];
    }
    assert names[..|names|] == names;
    assert r == WithFiles(w, extracted);
  }

  /** Link each missing bundle copy to its binary, and require both to have one digest. */
  method LinkBundle(sha: Sha, v: View) returns (r: Option<View>)
    requires forall x :: x in BUNDLE ==> Bin(x) in v
    ensures r.Some? <==> forall x :: x in BUNDLE && Bundle(x) in v ==> sha(v[Bundle(x)]) == sha(v[Bin(x)])
    ensures r.Some? ==> WithBundle(v, r.value, BUNDLE)
  {
    var w := v;
    for i := 0 to |BUNDLE|
      invariant WithBundle(v, w, BUNDLE[..i])
      invariant forall x :: x in BUNDLE[..i] && Bundle(x) in v ==> sha(v[Bundle(x)]) == sha(v[Bin(x)])
    {
      var x := BUNDLE[i];
      assert x in BUNDLE && BUNDLE[..i + 1] == BUNDLE[..i] + [x];
      assert BundleAt(v, w, BUNDLE[..i], Bin(x)) && BundleAt(v, w, BUNDLE[..i], Bundle(x));
      ghost var before := w;
      if Bundle(x) !in w {
        w := w[Bundle(x) := w[Bin(x)]];
      }
      OneMoreLink(v, before, w, BUNDLE[..i], x);
      if sha(w[Bundle(x)]) != sha(w[Bin(x)]) { return None; }
    }
    assert BUNDLE[..|BUNDLE|] == BUNDLE;
    r := Some(w);
  }

  lemma OneMoreLink(v: View, w: View, w': View, roles: seq<Role>, x: Role)
    requires WithBundle(v, w, roles) && Bin(x) in w
    requires w' == if Bundle(x) in w then w else w[Bundle(x) := w[Bin(x)]]
    ensures WithBundle(v, w', roles + [x])
  {
    assert BundleAt(v, w, roles, Bin(x));
    forall rel ensures BundleAt(v, w', roles + [x], rel) {
      assert BundleAt(v, w, roles, rel);
    }
  }

  // ------------------------------------------------------------------ the package

  function Listed(o: Order): seq<Rel> {
    seq(|o.roles|, i requires 0 <= i < |o.roles| => Bin(o.roles[i])) + o.cross
    + seq(|BUNDLE|, i requires 0 <= i < |BUNDLE| => Bundle(BUNDLE[i])) + [ProvenanceJson] + o.names
  }

  function RecordsOf(o: Order): Package {
    Package(map r | r in o.chosen :: o.chosen[r].want, o.commit, o.build, Listed(o), o.stamp, o.rest)
  }

  /** The files of the finished package, in three steps. */
  ghost predicate Assembled(sha: Sha, v: View, o: Order, copied: View, w: View) {
    WithBinaries(v, copied, o.chosen) && WithBundle(WithFiles(copied, o.extracted), w, BUNDLE)
  }

  lemma AssembledAt(sha: Sha, v: View, o: Order, copied: View, w: View, rel: Rel)
    requires WellFormed(v, o) && CanPack(sha, v, o.chosen) && Assembled(sha, v, o, copied, w)
    ensures rel in v && !rel.Other? ==> rel in w && w[rel] == v[rel]
    ensures rel.Bin? && rel.role in o.chosen ==> Pinned(sha, w, rel, o.chosen[rel.role].want)
    ensures rel in o.extracted ==> rel in w && w[rel] == Blob(o.extracted[rel])
    ensures rel in w ==> Expected(v, o, rel) && (rel.Tmp? ==> rel in v)
  {
    if rel.Bundle? { BundledIsListed(rel.role); }
    assert BinaryAt(v, copied, o.chosen, rel);
    assert BundleAt(WithFiles(copied, o.extracted), w, BUNDLE, rel);
    if rel.Bin? && rel.role in o.chosen { assert RoleFits(sha, v, rel.role, o.chosen[rel.role]); }
  }

  lemma BundledIsListed(r: Role)
    ensures Bundled(r) <==> r in BUNDLE
  {
    if Bundled(r) {
      assert BUNDLE[0] == Mini && BUNDLE[1] == Host && BUNDLE[2] == Consent && BUNDLE[3] == Verifier &&
             BUNDLE[4] == Store;
    }
  }

  lemma BundleIsAssembled(sha: Sha, v: View, o: Order, copied: View, w: View, r: Role)
    requires WellFormed(v, o) && CanPack(sha, v, o.chosen) && Assembled(sha, v, o, copied, w) && Bundled(r)
    ensures Bundle(r) in w && Bin(r) in w && sha(w[Bundle(r)]) == sha(w[Bin(r)])
  {
    BundledIsListed(r);
    assert Required(r);
    AssembledAt(sha, v, o, copied, w, Bin(r));
    var files := WithFiles(copied, o.extracted);
    assert BinaryAt(v, copied, o.chosen, Bundle(r)) && BinaryAt(v, copied, o.chosen, Bin(r));
    assert BundleAt(files, w, BUNDLE, Bundle(r)) && BundleAt(files, w, BUNDLE, Bin(r));
  }

  /** The sums list the chosen binaries, the cross clients, the bundle, the provenance and the extracted files,
      and nothing else. */
  lemma ListedExactly(o: Order, rel: Rel)
    ensures rel in Listed(o) <==>
            || (rel.Bin? && rel.role in o.roles) || rel in o.cross || (rel.Bundle? && Bundled(rel.role))
            || rel == ProvenanceJson || rel in o.names
  {
    var bins := seq(|o.roles|, i requires 0 <= i < |o.roles| => Bin(o.roles[i]));
    var bundle := seq(|BUNDLE|, i requires 0 <= i < |BUNDLE| => Bundle(BUNDLE[i]));
    assert Listed(o) == bins + o.cross + bundle + [ProvenanceJson] + o.names;
    if rel.Bin? && rel.role in o.roles {
      var i :| 0 <= i < |o.roles| && o.roles[i] == rel.role;
      assert bins[i] == rel;
    }
    if rel.Bundle? {
      BundledIsListed(rel.role);
      if rel.role in BUNDLE {
        var i :| 0 <= i < |BUNDLE| && BUNDLE[i] == rel.role;
        assert bundle[i] == rel;
      }
    }
  }

  lemma ListedAreThere(sha: Sha, v: View, o: Order, copied: View, w: View, rel: Rel)
    requires WellFormed(v, o) && CanPack(sha, v, o.chosen) && Assembled(sha, v, o, copied, w) && rel in Listed(o)
    ensures Listable(rel) && (rel in w || rel == ProvenanceJson)
  {
    ListedExactly(o, rel);
    AssembledAt(sha, v, o, copied, w, rel);
    if rel.Bundle? && Bundled(rel.role) { BundleIsAssembled(sha, v, o, copied, w, rel.role); }
  }

  lemma AssembledIsPackable(sha: Sha, v: View, o: Order, copied: View, w: View)
    requires WellFormed(v, o) && CanPack(sha, v, o.chosen) && Assembled(sha, v, o, copied, w)
    ensures Packable(sha, w, RecordsOf(o))
  {
    var k := RecordsOf(o);
    forall r | r in k.chosen ensures Pinned(sha, w, Bin(r), k.chosen[r]) {
      AssembledAt(sha, v, o, copied, w, Bin(r));
    }
    forall r: Role | Bundled(r) ensures Bundle(r) in w && Bin(r) in w && sha(w[Bundle(r)]) == sha(w[Bin(r)]) {
      BundleIsAssembled(sha, v, o, copied, w, r);
    }
    forall i | 0 <= i < |k.listed|
      ensures Listable(k.listed[i]) && (k.listed[i] in w || k.listed[i] == ProvenanceJson)
    {
      assert k.listed[i] in Listed(o);
      ListedAreThere(sha, v, o, copied, w, k.listed[i]);
    }
    forall rel ensures rel == ProvenanceJson || (rel.Bin? && rel.role in k.chosen) ==> rel in k.listed
      ensures rel.Bundle? && Bundled(rel.role) ==> rel in k.listed
    {
      ListedExactly(o, rel);
    }
  }

  /** The bundle check sees the binaries and the copies that were there. */
  lemma BundleCheckMeans(sha: Sha, v: View, o: Order, copied: View)
    requires WellFormed(v, o) && WithBinaries(v, copied, o.chosen) && (forall r: Role :: Required(r) ==> r in o.chosen)
    requires forall r :: r in o.chosen ==> RoleFits(sha, v, r, o.chosen[r])
    ensures var files := WithFiles(copied, o.extracted);
            && (forall x :: x in BUNDLE ==> Bin(x) in files)
            && (CanPack(sha, v, o.chosen) <==>
                  forall x :: x in BUNDLE && Bundle(x) in files ==> sha(files[Bundle(x)]) == sha(files[Bin(x)]))
  {
    var files := WithFiles(copied, o.extracted);
    forall x: Role | Bundled(x)
      ensures Bin(x) in files && sha(files[Bin(x)]) == o.chosen[x].want
      ensures (Bundle(x) in files <==> Bundle(x) in v) && (Bundle(x) in v ==> files[Bundle(x)] == v[Bundle(x)])
    {
      assert Required(x) && RoleFits(sha, v, x, o.chosen[x]);
      assert BinaryAt(v, copied, o.chosen, Bin(x)) && BinaryAt(v, copied, o.chosen, Bundle(x));
    }
    forall x: Role ensures Bundled(x) <==> x in BUNDLE {
      BundledIsListed(x);
    }
  }

  /** `package`, into a new directory or one that has a `bin`: it is made exactly when it can be, and is
      then a consistent candidate in which every file that was there below `bin` is as it was. */
  method MakePackage(sha: Sha, idHash: IdHash, tree: nat, v: View, o: Order) returns (r: Option<View>)
    requires WellFormed(v, o)
    ensures r.Some? <==> CanPack(sha, v, o.chosen)
    ensures r.Some? && Tmp(Sha256Sums) !in v ==> Consistent(sha, idHash, r.value, tree)
    ensures r.Some? ==> FilesKept(sha, v, o, r.value)
  {
    if x: Role :| Required(x) && x !in o.chosen { return None; }
    var copied := CopyBinaries(sha, v, o.roles, o.chosen);
    if copied.None? { return None; }
    BundleCheckMeans(sha, v, o, copied.value);
    var files := ExtractFiles(copied.value, o.extracted, o.names);
    var linked := LinkBundle(sha, files);
    if linked.None? { return None; }
    var w := linked.value;
    AssembledIsPackable(sha, v, o, copied.value, w);
    r := Some(Packaged(sha, w, tree, RecordsOf(o)));
    PackagedFacts(sha, idHash, tree, v, o, copied.value, w);
  }

  /** What a finished package promises of its files, besides consistency: the chosen binaries, every file
      already below `bin`, the extracted files, and none but those it may have. */
  ghost predicate FilesKept(sha: Sha, v: View, o: Order, p: View) {
    && (forall x :: x in o.chosen ==> Pinned(sha, p, Bin(x), o.chosen[x].want))
    && (forall rel :: rel in v && UnderBin(rel) ==> rel in p && p[rel] == v[rel])
    && (forall rel :: rel in o.extracted ==> rel in p && p[rel] == Blob(o.extracted[rel]))
    && (forall rel :: rel in p ==> Expected(v, o, rel))
  }

  /** The files a package may have: what was there, and what the order and the records bring. */
  predicate Expected(v: View, o: Order, rel: Rel) {
    || rel in v || rel in o.extracted || (rel.Bin? && rel.role in o.chosen) || (rel.Bundle? && Bundled(rel.role))
    || rel == ProvenanceJson || rel == ManifestJson || rel == Sha256Sums
  }

  lemma AssembledKeepsFiles(sha: Sha, v: View, o: Order, copied: View, w: View, p: View)
    requires WellFormed(v, o) && CanPack(sha, v, o.chosen) && Assembled(sha, v, o, copied, w) && SameBin(p, w)
    requires forall rel: Rel :: rel != ProvenanceJson && rel != ManifestJson && rel != Sha256Sums ==>
               (rel in p <==> rel in w) && (rel in w ==> p[rel] == w[rel])
    ensures FilesKept(sha, v, o, p)
  {
    forall rel | rel in o.extracted ensures rel in p && p[rel] == Blob(o.extracted[rel]) {
      AssembledAt(sha, v, o, copied, w, rel);
    }
    forall rel | rel in p ensures Expected(v, o, rel) {
      AssembledAt(sha, v, o, copied, w, rel);
    }
    forall x | x in o.chosen ensures Pinned(sha, p, Bin(x), o.chosen[x].want) {
      AssembledAt(sha, v, o, copied, w, Bin(x));
      assert UnderBin(Bin(x));
    }
    forall rel | rel in v && UnderBin(rel) ensures rel in p && p[rel] == v[rel] {
      AssembledAt(sha, v, o, copied, w, rel);
    }
  }

  lemma PackagedElsewhere(sha: Sha, w: View, tree: nat, k: Package, rel: Rel)
    requires Packable(sha, w, k) && rel != ProvenanceJson && rel != ManifestJson && rel != Sha256Sums
    ensures var p := Packaged(sha, w, tree, k); (rel in p <==> rel in w) && (rel in w ==> p[rel] == w[rel])
  {
    var p := PackageProvenance(sha, w, k);
    ThreeRecords(w, Prov(p), Sums(SumLines(sha, w[ProvenanceJson := Prov(p)], k.listed)),
                 Man(PackageManifest(sha, tree, p)), rel);
  }

  lemma PackagedFacts(sha: Sha, idHash: IdHash, tree: nat, v: View, o: Order, copied: View, w: View)
    requires WellFormed(v, o) && CanPack(sha, v, o.chosen) && Assembled(sha, v, o, copied, w) &&
             Packable(sha, w, RecordsOf(o))
    ensures Tmp(Sha256Sums) !in v ==> Consistent(sha, idHash, Packaged(sha, w, tree, RecordsOf(o)), tree)
    ensures FilesKept(sha, v, o, Packaged(sha, w, tree, RecordsOf(o)))
  {
    PackagedBinIsSame(sha, w, tree, RecordsOf(o));
    forall rel: Rel | rel != ProvenanceJson && rel != ManifestJson && rel != Sha256Sums
      ensures var p := Packaged(sha, w, tree, RecordsOf(o)); (rel in p <==> rel in w) && (rel in w ==> p[rel] == w[rel])
    {
      PackagedElsewhere(sha, w, tree, RecordsOf(o), rel);
    }
    AssembledKeepsFiles(sha, v, o, copied, w, Packaged(sha, w, tree, RecordsOf(o)));
    AssembledAt(sha, v, o, copied, w, Tmp(Sha256Sums));
    if Tmp(Sha256Sums) !in v { PackageIsConsistent(sha, idHash, w, tree, RecordsOf(o)); }
  }
}

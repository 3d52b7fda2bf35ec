/**
 * When the overlays of a base leave everything else alone (deploy/candidate/package.py, `_overlay`, step 5).
 * The sums' temporary is opened without freeing its name, so a base that has a file of that name is written
 * through the hard link.
 */
module OverlayIsolation {
  import opened Common
  import opened Candidate
  import opened OverlayStore

  ghost predicate RunIsolated(e: Env, fs: Fs, base: nat, order: seq<Role>, input: Input)
    requires Sound(fs) && (forall q :: q in order ==> q in input.swaps)
  {
    var run := Overlaid(e, fs, base, order, input);
    Isolated(fs, run.fs, run.made)
  }

  /** Whatever is asked of it, an overlay of this base changes nothing but what it makes. */
  ghost predicate AlwaysIsolated(e: Env, fs: Fs, base: nat)
    requires Sound(fs)
  {
    forall order: seq<Role>, input: Input ::
      (forall q :: q in order ==> q in input.swaps) ==> RunIsolated(e, fs, base, order, input)
  }

  /** No step before the sums removes this name: it is not a temporary of a replaced file. */
  predicate Survives(rel: Rel, order: seq<Role>) {
    rel != Tmp(ProvenanceJson) && forall r :: r in order ==> rel != Tmp(Bin(r)) && rel != Tmp(Bundle(r))
  }

  /** The base's records name only files it has, and none that the request would remove. */
  predicate Usable(v: View, order: seq<Role>)
    requires HasParts(v)
  {
    && Mini in v[ProvenanceJson].p.binaries
    && (forall rel :: rel in v[ProvenanceJson].p.consent ==> rel in v && Survives(rel, order))
    && (forall i :: 0 <= i < |v[Sha256Sums].lines| ==>
          v[Sha256Sums].lines[i].1 in v && Survives(v[Sha256Sums].lines[i].1, order))
  }

  predicate Unlisted(v: View, commit: Commit)
    requires HasParts(v)
  {
    forall i :: 0 <= i < |v[Sha256Sums].lines| ==> v[Sha256Sums].lines[i].1 != SourceTar(commit)
  }

  lemma {:induction false} SwapsKeep(v: View, order: seq<Role>, swaps: map<Role, Bytes>, rel: Rel)
    requires (forall q :: q in order ==> q in swaps) && rel in v && Survives(rel, order)
    ensures rel in AllSwapped(v, order, swaps)
    decreases |order|
  {
    if order != [] {
      assert Last(order) in order;
      SwapsKeep(v, order[..|order| - 1], swaps, rel);
    }
  }

  lemma UsableCanRecord(v: View, order: seq<Role>, input: Input)
    requires HasParts(v) && Usable(v, order) && (forall q :: q in order ==> q in input.swaps)
    ensures CanRecord(v[ProvenanceJson].p, WithSource(AllSwapped(v, order, input.swaps), input), input)
  {
    forall rel | rel in v[ProvenanceJson].p.consent ensures rel in AllSwapped(v, order, input.swaps) {
      SwapsKeep(v, order, input.swaps, rel);
    }
  }

  lemma UsableCanSum(e: Env, v: View, base: nat, order: seq<Role>, input: Input)
    requires HasParts(v) && Usable(v, order) && (forall q :: q in order ==> q in input.swaps)
    requires CanRecord(v[ProvenanceJson].p, WithSource(AllSwapped(v, order, input.swaps), input), input)
    ensures var sourced := WithSource(AllSwapped(v, order, input.swaps), input);
            CanSum(v, Recorded(e.sha, e.idHash, v, base, sourced, input), input)
  {
    var lines := v[Sha256Sums].lines;
    var names := Listing(lines, SourceTar(input.commit));
    var swapped := AllSwapped(v, order, input.swaps);
    forall i | 0 <= i < |names| ensures names[i] in WithSource(swapped, input) && names[i] != Tmp(ProvenanceJson) {
      if i < |lines| {
        assert names[i] == lines[i].1;
        SwapsKeep(v, order, input.swaps, names[i]);
      }
    }
  }

  /** With the temporary's name taken and every listed file there, the loop writes one line for each. */
  lemma {:induction false} HashingNames(e: Env, fs: Fs, names: seq<Rel>)
    requires Sound(fs) && At(Work, SUMS_TMP) in fs.names
    requires forall i :: 0 <= i < |names| ==> At(Work, names[i]) in fs.names
    ensures var (o, lines) := Hashing(e, fs, names);
            o.Done? && |lines| == |names| && forall i :: 0 <= i < |names| ==> lines[i].1 == names[i]
    decreases |names|
  {
    if names != [] {
      HashingNames(e, fs, names[..|names| - 1]);
    }
  }

  /** The last of the new sums names the commit's archive. */
  lemma LastLine(e: Env, at: Fs, v: View, input: Input)
    requires Sound(at) && HasParts(v) && At(Work, SUMS_TMP) in at.names
    requires CanSum(v, ViewOf(at, Work), input) && Unlisted(v, input.commit)
    ensures var lines := NewSums(e, at, v, input).lines;
            lines != [] && Last(lines).1 == SourceTar(input.commit)
  {
    var names := Listing(v[Sha256Sums].lines, SourceTar(input.commit));
    forall i | 0 <= i < |names| ensures At(Work, names[i]) in at.names {
      ViewOfAt(at, Work, names[i]);
    }
    HashingNames(e, at, names);
    assert Last(names) == SourceTar(input.commit);
  }

  /** An isolated overlay of a base with the temporary found exactly its own sums there. */
  lemma IsolatedReadsItsSums(e: Env, fs: Fs, base: nat, order: seq<Role>, input: Input)
    requires Sound(fs) && (forall q :: q in order ==> q in input.swaps) && At(Dir(base), SUMS_TMP) in fs.names
    requires BeforeSums(e, fs, base, order, input).Some?
    ensures RunIsolated(e, fs, base, order, input) <==>
            Read(fs, At(Dir(base), SUMS_TMP)) ==
              NewSums(e, BeforeSums(e, fs, base, order, input).value, ViewOf(fs, Dir(base)), input)
  {
    var run := Overlaid(e, fs, base, order, input);
    var sums := NewSums(e, BeforeSums(e, fs, base, order, input).value, ViewOf(fs, Dir(base)), input);
    assert SumsThroughBase(fs, base, sums, run.made, run.fs) by { OverlaidOverwrites(e, fs, base, order, input); }
    OverwrittenIsIsolatedExactly(fs, run.fs, base, run.made, sums);
  }

  /** What is there when step 5 begins, for a usable base. */
  lemma UsableBegins(e: Env, fs: Fs, base: nat, order: seq<Role>, input: Input)
    requires Sound(fs) && Accepted(e.sha, fs, base, input.swaps) && (forall q :: q in order ==> q in input.swaps)
    requires Usable(ViewOf(fs, Dir(base)), order)
    ensures var at := BeforeSums(e, fs, base, order, input);
            && at.Some? && SharesTmp(fs, base, at.value)
            && CanSum(ViewOf(fs, Dir(base)), ViewOf(at.value, Work), input)
  {
    var v := ViewOf(fs, Dir(base));
    UsableCanRecord(v, order, input);
    UsableCanSum(e, v, base, order, input);
    BeforeSumsFacts(e, fs, base, order, input);
  }

  /** An isolated overlay of a usable base with the temporary found its commit's archive in the last line. */
  lemma IsolatedFoundItsCommit(e: Env, fs: Fs, base: nat, order: seq<Role>, input: Input)
    requires Sound(fs) && Accepted(e.sha, fs, base, input.swaps) && (forall q :: q in order ==> q in input.swaps)
    requires Usable(ViewOf(fs, Dir(base)), order) && Unlisted(ViewOf(fs, Dir(base)), input.commit)
    requires At(Dir(base), SUMS_TMP) in fs.names && RunIsolated(e, fs, base, order, input)
    ensures var c := Read(fs, At(Dir(base), SUMS_TMP));
            c.Sums? && c.lines != [] && Last(c.lines).1 == SourceTar(input.commit)
  {
    UsableBegins(e, fs, base, order, input);
    IsolatedReadsItsSums(e, fs, base, order, input);
    LastLine(e, BeforeSums(e, fs, base, order, input).value, ViewOf(fs, Dir(base)), input);
  }

  /** A request against a usable base, once for each of two commits the base does not list: both overlays leave
      everything else alone if and only if the base lacks the temporary. */
  lemma TwoCommitsIsolatedExactly(e: Env, fs: Fs, base: nat, order: seq<Role>, input: Input, c: Commit, d: Commit)
    requires Sound(fs) && Accepted(e.sha, fs, base, input.swaps) && (forall q :: q in order ==> q in input.swaps)
    requires Usable(ViewOf(fs, Dir(base)), order)
    requires c != d && Unlisted(ViewOf(fs, Dir(base)), c) && Unlisted(ViewOf(fs, Dir(base)), d)
    ensures RunIsolated(e, fs, base, order, input.(commit := c)) && RunIsolated(e, fs, base, order, input.(commit := d))
            <==> At(Dir(base), SUMS_TMP) !in fs.names
  {
    if At(Dir(base), SUMS_TMP) !in fs.names {
      OverlaidIsolates(e, fs, base, order, input.(commit := c));
      OverlaidIsolates(e, fs, base, order, input.(commit := d));
    } else if forall x :: x == c || x == d ==> RunIsolated(e, fs, base, order, input.(commit := x)) {
      IsolatedFoundItsCommit(e, fs, base, order, input.(commit := c));
      IsolatedFoundItsCommit(e, fs, base, order, input.(commit := d));
      assert false;
    }
  }

  /** For a base that can serve some request from two commits it does not list: every overlay of it leaves
      everything else alone if and only if it has no file with the name of the temporary. */
  lemma AlwaysIsolatedExactly(e: Env, fs: Fs, base: nat, order: seq<Role>, input: Input, c: Commit, d: Commit)
    requires Sound(fs) && Accepted(e.sha, fs, base, input.swaps) && (forall q :: q in order ==> q in input.swaps)
    requires Usable(ViewOf(fs, Dir(base)), order)
    requires c != d && Unlisted(ViewOf(fs, Dir(base)), c) && Unlisted(ViewOf(fs, Dir(base)), d)
    ensures AlwaysIsolated(e, fs, base) <==> At(Dir(base), SUMS_TMP) !in fs.names
  {
    if At(Dir(base), SUMS_TMP) in fs.names {
      TwoCommitsIsolatedExactly(e, fs, base, order, input, c, d);
    } else {
      forall o: seq<Role>, i: Input | forall q :: q in o ==> q in i.swaps ensures RunIsolated(e, fs, base, o, i) {
        OverlaidIsolates(e, fs, base, o, i);
      }
    }
  }

  // ------------------------------------------------------------------ a base that is overwritten

  const NEEDED: set<Role> := {Host, Consent, Mini, Store, Verifier, Keys}

  function PlainProvenance(sha: Sha): Provenance {
    var empty := sha(Blob([]));
    Provenance("", map r | r in NEEDED :: empty, empty, map[], map[], None, "", "")
  }

  function PlainManifest(sha: Sha): Manifest {
    var keys := set r | r in NEEDED :: Of(r);
    Manifest((map k | k in keys && k.Of? :: Home(0, Bin(k.role))),
             (map k | k in keys :: sha(Blob([])))[Itself := sha(Prov(PlainProvenance(sha)))], map[])
  }

  /** The required roles as names of one empty file, the three records, and an empty file with the name of the
      sums' temporary. */
  function PlainBase(sha: Sha): Fs {
    var bins := set r | r in NEEDED :: At(Dir(0), Bin(r));
    Fs((map p | p in bins :: 4) + map[At(Dir(0), ProvenanceJson) := 0, At(Dir(0), ManifestJson) := 1,
                                      At(Dir(0), Sha256Sums) := 2, At(Dir(0), SUMS_TMP) := 3],
       map[0 := Prov(PlainProvenance(sha)), 1 := Man(PlainManifest(sha)), 2 := Sums([]), 3 := Blob([]), 4 := Blob([])],
       5)
  }

  lemma PlainBaseReads(sha: Sha)
    ensures var fs := PlainBase(sha);
            && Sound(fs) && At(Dir(0), SUMS_TMP) in fs.names && Read(fs, At(Dir(0), SUMS_TMP)) == Blob([])
            && HasParts(ViewOf(fs, Dir(0)))
            && ViewOf(fs, Dir(0))[ProvenanceJson] == Prov(PlainProvenance(sha))
            && ViewOf(fs, Dir(0))[ManifestJson] == Man(PlainManifest(sha))
            && ViewOf(fs, Dir(0))[Sha256Sums] == Sums([])
  {
    var fs := PlainBase(sha);
    ViewOfAt(fs, Dir(0), ProvenanceJson);
    ViewOfAt(fs, Dir(0), ManifestJson);
    ViewOfAt(fs, Dir(0), Sha256Sums);
  }

  lemma PlainRoleHolds(sha: Sha, r: Role)
    requires Sound(PlainBase(sha))
    ensures Of(r) in PlainManifest(sha).paths <==> r in NEEDED
    ensures r in NEEDED ==> RoleHolds(sha, PlainBase(sha), PlainManifest(sha), r)
  {
    if r in NEEDED {
      assert At(Dir(0), Bin(r)) in PlainBase(sha).names;
    }
  }

  lemma PlainRolesHold(sha: Sha)
    requires Sound(PlainBase(sha))
    ensures RolesHold(sha, PlainBase(sha), PlainManifest(sha))
  {
    forall r: Role
      ensures (Of(r) in PlainManifest(sha).paths <==> r in NEEDED)
      ensures r in NEEDED ==> RoleHolds(sha, PlainBase(sha), PlainManifest(sha), r)
    {
      PlainRoleHolds(sha, r);
    }
  }

  lemma PlainRecords(sha: Sha, swaps: map<Role, Bytes>)
    requires swaps.Keys == {Keys}
    ensures var p, m := PlainProvenance(sha), PlainManifest(sha);
            && Mini in p.binaries && p.consent == map[] && WholeFamilies(p, swaps)
            && Itself in m.pins && m.pins[Itself] == sha(Prov(p))
  {
  }

  lemma AcceptedAndUsable(
    sha: Sha, fs: Fs, p: Provenance, m: Manifest, order: seq<Role>, swaps: map<Role, Bytes>)
    requires Sound(fs) && RolesHold(sha, fs, m) && HasParts(ViewOf(fs, Dir(0)))
    requires ViewOf(fs, Dir(0))[ProvenanceJson] == Prov(p) && ViewOf(fs, Dir(0))[ManifestJson] == Man(m)
    requires ViewOf(fs, Dir(0))[Sha256Sums] == Sums([]) && Mini in p.binaries && p.consent == map[]
    requires WholeFamilies(p, swaps) && Itself in m.pins && m.pins[Itself] == sha(Prov(p))
    ensures Accepted(sha, fs, 0, swaps) && Usable(ViewOf(fs, Dir(0)), order)
  {
  }

  lemma PlainBaseIsAccepted(sha: Sha, swaps: map<Role, Bytes>)
    requires swaps.Keys == {Keys}
    ensures var fs := PlainBase(sha);
            Sound(fs) && Accepted(sha, fs, 0, swaps) && Usable(ViewOf(fs, Dir(0)), [Keys])
  {
    PlainBaseReads(sha);
    PlainRolesHold(sha);
    PlainRecords(sha, swaps);
    AcceptedAndUsable(sha, PlainBase(sha), PlainProvenance(sha), PlainManifest(sha), [Keys], swaps);
  }

  /** Whatever the hashes and the flushing, swapping one role of this base leaves another file where the base
      had an empty one. */
  lemma PlainBaseIsOverwritten(e: Env, input: Input)
    requires input.swaps.Keys == {Keys}
    ensures Sound(PlainBase(e.sha)) && Accepted(e.sha, PlainBase(e.sha), 0, input.swaps)
    ensures !RunIsolated(e, PlainBase(e.sha), 0, [Keys], input)
  {
    var fs := PlainBase(e.sha);
    PlainBaseIsAccepted(e.sha, input.swaps);
    UsableBegins(e, fs, 0, [Keys], input);
    IsolatedReadsItsSums(e, fs, 0, [Keys], input);
    PlainBaseReads(e.sha);
  }
}

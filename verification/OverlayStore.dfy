/**
 * An overlay on a file system with hard links (deploy/candidate/package.py, `replace_file`, `overlay`,
 * `_overlay`).  Names map to inodes and inodes to contents, so a write in place is seen through every
 * name of the inode.  Candidates are the directories `Dir(k)`; `Work` is the hidden directory an
 * overlay builds in, a tree of its own.
 */
module OverlayStore {
  import opened Common
  import opened Candidate

  datatype Tree = Dir(k: nat) | Work

  datatype Place = At(tree: Tree, rel: Rel)

  datatype Fs = Fs(names: map<Place, nat>, data: map<nat, Content>, next: nat)

  datatype Outcome = Done | Refused

  /** What an overlay depends on besides files: the hashes, the directory an id names, and what the list of
      sums reads while its k-th line is being hashed.  The list is written through a buffer, so that is any
      content at all. */
  datatype Env = Env(sha: Sha, idHash: IdHash, dirOf: string -> nat, flushed: nat -> Content)

  predicate Sound(fs: Fs) {
    && (forall p :: p in fs.names ==> fs.names[p] in fs.data)
    && (forall i :: i in fs.data ==> i < fs.next)
  }

  function Read(fs: Fs, p: Place): Content
    requires Sound(fs) && p in fs.names
  {
    fs.data[fs.names[p]]
  }

  function RelsOf(fs: Fs, tree: Tree): (rels: set<Rel>)
    ensures forall rel :: rel in rels <==> At(tree, rel) in fs.names
  {
    set p | p in fs.names && p.tree == tree :: p.rel
  }

  /** The files of one directory, by relative name. */
  function ViewOf(fs: Fs, tree: Tree): View
    requires Sound(fs)
  {
    map rel | rel in RelsOf(fs, tree) :: Read(fs, At(tree, rel))
  }

  /** No name outside `except` was added, removed or given another inode, and its bytes are the same. */
  ghost predicate Untouched(fs: Fs, fs': Fs, except: Tree)
    requires Sound(fs) && Sound(fs')
  {
    forall p: Place :: p.tree != except ==>
      && (p in fs'.names <==> p in fs.names)
      && (p in fs.names ==> fs'.names[p] == fs.names[p] && Read(fs', p) == Read(fs, p))
  }

  /** The one temporary that `_overlay` opens without freeing its name first. */
  const SUMS_TMP := Tmp(Sha256Sums)

  predicate SameName(fs: Fs, fs': Fs, p: Place) {
    (p in fs'.names <==> p in fs.names) && (p in fs.names ==> fs'.names[p] == fs.names[p])
  }

  // ------------------------------------------------------------------ system calls

  function Linked(fs: Fs, src: Place, dst: Place): Fs
    requires src in fs.names
  {
    fs.(names := fs.names[dst := fs.names[src]])
  }

  function Removed(fs: Fs, p: Place): Fs {
    fs.(names := fs.names - {p})
  }

  function Moved(fs: Fs, src: Place, dst: Place): Fs
    requires src in fs.names
  {
    fs.(names := (fs.names - {src})[dst := fs.names[src]])
  }

  /** `open(p, "w")`: a new inode if the name is free, otherwise the bytes of the inode it names. */
  function Written(fs: Fs, p: Place, c: Content): Fs {
    if p in fs.names then fs.(data := fs.data[fs.names[p] := c])
    else Fs(fs.names[p := fs.next], fs.data[fs.next := c], fs.next + 1)
  }

  lemma ViewOfAt(fs: Fs, tree: Tree, rel: Rel)
    requires Sound(fs)
    ensures rel in ViewOf(fs, tree) <==> At(tree, rel) in fs.names
    ensures rel in ViewOf(fs, tree) ==> ViewOf(fs, tree)[rel] == Read(fs, At(tree, rel))
  {
  }

  /** Two directories whose names reach the same contents have the same view. */
  lemma SameViews(fs: Fs, tree: Tree, fs': Fs, tree': Tree)
    requires Sound(fs) && Sound(fs')
    requires forall rel :: At(tree', rel) in fs'.names <==> At(tree, rel) in fs.names
    requires forall rel :: At(tree, rel) in fs.names ==> Read(fs', At(tree', rel)) == Read(fs, At(tree, rel))
    ensures ViewOf(fs', tree') == ViewOf(fs, tree)
  {
    var a, b := ViewOf(fs, tree), ViewOf(fs', tree');
    forall rel: Rel ensures (rel in b <==> rel in a) && (rel in a && rel in b ==> b[rel] == a[rel]) {
      ViewOfAt(fs, tree, rel);
      ViewOfAt(fs', tree', rel);
    }
  }

  lemma UntouchedView(fs: Fs, fs': Fs, except: Tree, tree: Tree)
    requires Sound(fs) && Sound(fs') && Untouched(fs, fs', except) && tree != except
    ensures ViewOf(fs', tree) == ViewOf(fs, tree)
  {
    SameViews(fs, tree, fs', tree);
  }

  /** The three calls of `replace_file` with fresh bytes, as one: a new inode under the target's name. */
  function Fresh(fs: Fs, tree: Tree, rel: Rel, c: Content): (fs': Fs)
    ensures Sound(fs) ==> Sound(fs')
  {
    Fs((fs.names - {At(tree, Tmp(rel))})[At(tree, rel) := fs.next], fs.data[fs.next := c], fs.next + 1)
  }

  lemma FreshFacts(fs: Fs, tree: Tree, rel: Rel, c: Content)
    requires Sound(fs)
    ensures var fs' := Fresh(fs, tree, rel, c);
            && Untouched(fs, fs', tree) && ViewOf(fs', tree) == Put(ViewOf(fs, tree), rel, c)
            && (rel != Sha256Sums && rel != SUMS_TMP ==> SameName(fs, fs', At(tree, SUMS_TMP)))
  {
    var fs' := Fresh(fs, tree, rel, c);
    forall r: Rel ensures r in ViewOf(fs', tree) <==> r in Put(ViewOf(fs, tree), rel, c)
      ensures r in ViewOf(fs', tree) ==> ViewOf(fs', tree)[r] == Put(ViewOf(fs, tree), rel, c)[r]
    {
      ViewOfAt(fs, tree, r);
      ViewOfAt(fs', tree, r);
    }
  }

  lemma FreshSteps(fs: Fs, tree: Tree, rel: Rel, c: Content)
    ensures var tmp := At(tree, Tmp(rel));
            var freed := if tmp in fs.names then Removed(fs, tmp) else fs;
            Moved(Written(freed, tmp, c), tmp, At(tree, rel)) == Fresh(fs, tree, rel, c)
  {
    var tmp := At(tree, Tmp(rel));
    var freed := if tmp in fs.names then Removed(fs, tmp) else fs;
    assert Moved(Written(freed, tmp, c), tmp, At(tree, rel)).names == Fresh(fs, tree, rel, c).names;
  }

  /** `replace_file` with a hard link of another name in the directory. */
  function Relinked(fs: Fs, tree: Tree, rel: Rel, from: Rel): (fs': Fs)
    requires At(tree, from) in fs.names
    ensures Sound(fs) ==> Sound(fs')
  {
    fs.(names := (fs.names - {At(tree, Tmp(rel))})[At(tree, rel) := fs.names[At(tree, from)]])
  }

  lemma RelinkSteps(fs: Fs, tree: Tree, rel: Rel, from: Rel)
    requires At(tree, from) in fs.names && from != Tmp(rel)
    ensures var tmp := At(tree, Tmp(rel));
            var freed := if tmp in fs.names then Removed(fs, tmp) else fs;
            Moved(Linked(freed, At(tree, from), tmp), tmp, At(tree, rel)) == Relinked(fs, tree, rel, from)
  {
    var tmp := At(tree, Tmp(rel));
    var freed := if tmp in fs.names then Removed(fs, tmp) else fs;
    assert Moved(Linked(freed, At(tree, from), tmp), tmp, At(tree, rel)).names == Relinked(fs, tree, rel, from).names;
  }

  lemma RelinkedFacts(fs: Fs, tree: Tree, rel: Rel, from: Rel)
    requires Sound(fs) && At(tree, from) in fs.names && from != Tmp(rel)
    ensures var fs' := Relinked(fs, tree, rel, from);
            && Untouched(fs, fs', tree)
            && (rel != Sha256Sums && rel != SUMS_TMP ==> SameName(fs, fs', At(tree, SUMS_TMP)))
            && from in ViewOf(fs, tree) && ViewOf(fs', tree) == Put(ViewOf(fs, tree), rel, ViewOf(fs, tree)[from])
  {
    var fs' := Relinked(fs, tree, rel, from);
    ViewOfAt(fs, tree, from);
    var put := Put(ViewOf(fs, tree), rel, ViewOf(fs, tree)[from]);
    forall r: Rel ensures r in ViewOf(fs', tree) <==> r in put
      ensures r in ViewOf(fs', tree) ==> ViewOf(fs', tree)[r] == put[r]
    {
      ViewOfAt(fs, tree, r);
      ViewOfAt(fs', tree, r);
    }
  }

  lemma UntouchedTrans(a: Fs, b: Fs, c: Fs, except: Tree)
    requires Sound(a) && Sound(b) && Sound(c) && Untouched(a, b, except) && Untouched(b, c, except)
    ensures Untouched(a, c, except)
  {
  }

  // ------------------------------------------------------------------ linking and moving whole trees

  /** The directory `tree` holds links of these names of `base` and nothing else. */
  ghost predicate LinksOf(fs: Fs, base: Tree, tree: Tree, done: set<Rel>) {
    && (forall rel :: At(tree, rel) in fs.names <==> rel in done)
    && (forall rel :: rel in done ==> At(base, rel) in fs.names && fs.names[At(tree, rel)] == fs.names[At(base, rel)])
  }

  /** Every file of the base linked into the work directory. */
  function BaseLinked(fs: Fs, base: Tree): (fs': Fs)
    ensures Sound(fs) ==> Sound(fs')
  {
    var places := set rel | rel in RelsOf(fs, base) :: At(Work, rel);
    fs.(names := fs.names + map p | p in places :: fs.names[At(base, p.rel)])
  }

  lemma BaseLinkedAt(fs: Fs, base: Tree, p: Place)
    requires base != Work && !Exists(fs, Work)
    ensures p.tree != Work ==> SameName(fs, BaseLinked(fs, base), p)
    ensures p.tree == Work ==>
            && (p in BaseLinked(fs, base).names <==> At(base, p.rel) in fs.names)
            && (At(base, p.rel) in fs.names ==> BaseLinked(fs, base).names[p] == fs.names[At(base, p.rel)])
  {
    if p.tree == Work && At(base, p.rel) in fs.names {
      assert p.rel in RelsOf(fs, base) && p == At(Work, p.rel);
    }
  }

  lemma BaseLinkedFacts(fs: Fs, base: Tree)
    requires Sound(fs) && base != Work && !Exists(fs, Work)
    ensures var fs' := BaseLinked(fs, base);
            && Untouched(fs, fs', Work) && ViewOf(fs', Work) == ViewOf(fs, base)
            && (At(Work, SUMS_TMP) in fs'.names <==> At(base, SUMS_TMP) in fs.names)
            && (At(base, SUMS_TMP) in fs.names ==> fs'.names[At(Work, SUMS_TMP)] == fs.names[At(base, SUMS_TMP)])
  {
    var fs' := BaseLinked(fs, base);
    forall p: Place ensures p.tree != Work ==> SameName(fs, fs', p) {
      BaseLinkedAt(fs, base, p);
    }
    forall rel: Rel ensures At(Work, rel) in fs'.names <==> At(base, rel) in fs.names
      ensures At(base, rel) in fs.names ==> fs'.names[At(Work, rel)] == fs.names[At(base, rel)]
    {
      BaseLinkedAt(fs, base, At(Work, rel));
    }
    SameViews(fs, base, fs', Work);
  }

  /** A walk that has linked every file of the base, in whatever order. */
  lemma WalkIsBaseLinked(before: Fs, fs: Fs, base: Tree, done: set<Rel>)
    requires Sound(before) && Sound(fs) && base != Work && !Exists(before, Work)
    requires Untouched(before, fs, Work) && LinksOf(fs, base, Work, done) && fs.data == before.data &&
             fs.next == before.next
    requires forall rel :: At(base, rel) in before.names ==> rel in done
    ensures fs == BaseLinked(before, base)
  {
    var linked := BaseLinked(before, base);
    forall p: Place ensures SameName(fs, linked, p) {
      BaseLinkedAt(before, base, p);
      if p.tree == Work { assert p == At(Work, p.rel); }
    }
    assert fs.names == linked.names;
  }

  /** `shutil.rmtree`. */
  function Cleared(fs: Fs, tree: Tree): (fs': Fs)
    ensures Sound(fs) ==> Sound(fs')
  {
    fs.(names := map p | p in fs.names && p.tree != tree :: fs.names[p])
  }

  /** `os.rename` of the work directory. */
  function Renamed(fs: Fs, tree: Tree): (fs': Fs)
    ensures Sound(fs) ==> Sound(fs')
  {
    var moved := set rel | rel in RelsOf(fs, Work) :: At(tree, rel);
    fs.(names := (map p | p in fs.names && p.tree != Work :: fs.names[p])
               + (map p | p in moved :: fs.names[At(Work, p.rel)]))
  }

  predicate Exists(fs: Fs, tree: Tree) {
    exists p :: p in fs.names && p.tree == tree
  }

  lemma RenamedAt(fs: Fs, tree: Tree, rel: Rel)
    requires tree != Work && !Exists(fs, tree)
    ensures At(tree, rel) in Renamed(fs, tree).names <==> At(Work, rel) in fs.names
    ensures At(Work, rel) in fs.names ==> Renamed(fs, tree).names[At(tree, rel)] == fs.names[At(Work, rel)]
    ensures At(Work, rel) !in Renamed(fs, tree).names
  {
  }

  lemma RenamedElsewhere(fs: Fs, tree: Tree, p: Place)
    requires tree != Work && p.tree != Work && p.tree != tree
    ensures p in Renamed(fs, tree).names <==> p in fs.names
    ensures p in fs.names ==> Renamed(fs, tree).names[p] == fs.names[p]
  {
  }

  lemma RenamedView(fs: Fs, tree: Tree)
    requires Sound(fs) && tree != Work && !Exists(fs, tree)
    ensures ViewOf(Renamed(fs, tree), tree) == ViewOf(fs, Work)
  {
    var fs' := Renamed(fs, tree);
    forall rel: Rel
      ensures (At(tree, rel) in fs'.names <==> At(Work, rel) in fs.names)
      ensures At(Work, rel) in fs.names ==> fs'.names[At(tree, rel)] == fs.names[At(Work, rel)]
    {
      RenamedAt(fs, tree, rel);
    }
    SameViews(fs, Work, fs', tree);
  }

  /** A sums list that names its own temporary would be hashed while it is being written. */
  predicate ListsItself(v: View)
    requires HasParts(v)
  {
    exists i :: 0 <= i < |v[Sha256Sums].lines| && v[Sha256Sums].lines[i].1 == SUMS_TMP
  }

  lemma WrittenTwice(fs: Fs, p: Place, c: Content, d: Content)
    ensures Written(Written(fs, p, c), p, d) == Written(fs, p, d)
  {
    var a, b := Written(Written(fs, p, c), p, d), Written(fs, p, d);
    assert a.data == b.data && a.names == b.names;
  }

  lemma WrittenSound(fs: Fs, p: Place, c: Content)
    requires Sound(fs)
    ensures Sound(Written(fs, p, c))
  {
  }

  /** With the name free, writing it is seen through no other name. */
  lemma WrittenReads(fs: Fs, tmp: Place, c: Content, p: Place)
    requires Sound(fs)
    ensures var fs' := Written(fs, tmp, c);
            && Sound(fs') && (p in fs'.names <==> p in fs.names || p == tmp)
            && (tmp !in fs.names && p in fs.names ==> Read(fs', p) == Read(fs, p))
  {
  }

  lemma WrittenFreshFacts(fs: Fs, tree: Tree, rel: Rel, c: Content)
    requires Sound(fs) && At(tree, rel) !in fs.names
    ensures var fs' := Written(fs, At(tree, rel), c);
            Sound(fs') && Untouched(fs, fs', tree) && ViewOf(fs', tree) == ViewOf(fs, tree)[rel := c]
  {
    var fs' := Written(fs, At(tree, rel), c);
    forall r: Rel ensures r in ViewOf(fs', tree) <==> r in ViewOf(fs, tree)[rel := c]
      ensures r in ViewOf(fs', tree) ==> ViewOf(fs', tree)[r] == ViewOf(fs, tree)[rel := c][r]
    {
      ViewOfAt(fs, tree, r);
      ViewOfAt(fs', tree, r);
    }
  }

  /** The hashing loop: how it ends and the lines it has written, reading each file as it is by then.  The open
      temporary reads whatever has been flushed. */
  function Hashing(e: Env, fs: Fs, names: seq<Rel>): (Outcome, seq<(Digest, Rel)>)
    requires Sound(fs)
  {
    if names == [] then (Done, [])
    else
      var (o, lines) := Hashing(e, fs, names[..|names| - 1]);
      if o.Refused? then (o, lines)
      else
        var now := Written(fs, At(Work, SUMS_TMP), e.flushed(|names| - 1));
        var p := At(Work, Last(names));
        WrittenSound(fs, At(Work, SUMS_TMP), e.flushed(|names| - 1));
        if p !in now.names then (Refused, lines) else (Done, lines + [(e.sha(Read(now, p)), Last(names))])
  }

  lemma HashingStep(e: Env, fs: Fs, names: seq<Rel>, k: nat, lines: seq<(Digest, Rel)>)
    requires Sound(fs) && k < |names| && Hashing(e, fs, names[..k]) == (Done, lines)
    ensures var now := Written(fs, At(Work, SUMS_TMP), e.flushed(k));
            && Sound(now)
            && Hashing(e, fs, names[..k + 1]) ==
               if At(Work, names[k]) !in now.names then (Refused, lines)
               else (Done, lines + [(e.sha(Read(now, At(Work, names[k]))), names[k])])
  {
    WrittenSound(fs, At(Work, SUMS_TMP), e.flushed(k));
    assert names[..k + 1][..k] == names[..k] && Last(names[..k + 1]) == names[k];
  }

  /** With the temporary's name free and not listed, the lines are the hashes of the listed files. */
  lemma {:induction false} HashingIsSumLines(e: Env, fs: Fs, names: seq<Rel>)
    requires Sound(fs) && At(Work, SUMS_TMP) !in fs.names && SUMS_TMP !in names
    ensures var v, h := ViewOf(fs, Work), Hashing(e, fs, names);
            && (h.0.Done? <==> forall i :: 0 <= i < |names| ==> names[i] in v)
            && (h.0.Done? ==> h.1 == SumLines(e.sha, v, names))
  {
    if names != [] {
      var n := |names| - 1;
      var init := names[..n];
      HashingIsSumLines(e, fs, init);
      WrittenReads(fs, At(Work, SUMS_TMP), e.flushed(n), At(Work, names[n]));
      ViewOfAt(fs, Work, names[n]);
      assert names[n] in names && forall i :: 0 <= i < n ==> names[i] == init[i];
    }
  }

  lemma {:induction false} HashingStops(e: Env, fs: Fs, names: seq<Rel>, k: nat)
    requires Sound(fs) && k <= |names| && Hashing(e, fs, names[..k]).0.Refused?
    ensures Hashing(e, fs, names) == Hashing(e, fs, names[..k])
    decreases |names|
  {
    if k < |names| {
      var init := names[..|names| - 1];
      assert init[..k] == names[..k];
      HashingStops(e, fs, init, k);
    } else {
      assert names[..k] == names;
    }
  }

  /** What the sums' temporary reads when step 5 ends, opened in `at`. */
  function NewSums(e: Env, at: Fs, v: View, input: Input): Content
    requires Sound(at) && HasParts(v)
  {
    Sums(Hashing(e, at, Listing(v[Sha256Sums].lines, SourceTar(input.commit))).1)
  }

  /** Outside `except` names and inodes are the same, and so are the bytes of every inode but `ino`, which
      holds `c`. */
  ghost predicate Through(fs: Fs, fs': Fs, except: Tree, ino: nat, c: Content)
    requires Sound(fs) && Sound(fs')
  {
    forall p: Place :: p.tree != except ==> ReadsThrough(fs, fs', ino, c, p)
  }

  predicate ReadsThrough(fs: Fs, fs': Fs, ino: nat, c: Content, p: Place)
    requires Sound(fs) && Sound(fs')
  {
    && (p in fs'.names <==> p in fs.names)
    && (p in fs.names ==> fs'.names[p] == fs.names[p] && Read(fs', p) == if fs.names[p] == ino then c else Read(fs, p))
  }

  /** The same, outside the work directory and the candidate made, whose directory is new. */
  ghost predicate Overwritten(fs: Fs, fs': Fs, made: Option<nat>, ino: nat, c: Content)
    requires Sound(fs) && Sound(fs')
  {
    && (forall p: Place :: p.tree != Work && (made.None? || p.tree != Dir(made.value)) ==>
          ReadsThrough(fs, fs', ino, c, p))
    && (made.Some? ==> !Exists(fs, Dir(made.value)))
  }

  /** With the temporary in the base and step 5 begun, the rest is isolated if and only if the temporary
      already read exactly the new sums. */
  lemma OverwrittenIsIsolatedExactly(fs: Fs, fs': Fs, base: nat, made: Option<nat>, c: Content)
    requires Sound(fs) && Sound(fs') && At(Dir(base), SUMS_TMP) in fs.names
    requires Overwritten(fs, fs', made, fs.names[At(Dir(base), SUMS_TMP)], c)
    ensures At(Dir(base), SUMS_TMP) in fs'.names && Read(fs', At(Dir(base), SUMS_TMP)) == c
    ensures Isolated(fs, fs', made) <==> Read(fs, At(Dir(base), SUMS_TMP)) == c
  {
    var tmp := At(Dir(base), SUMS_TMP);
    assert made.Some? ==> made.value != base;
    assert ReadsThrough(fs, fs', fs.names[tmp], c, tmp);
    if Read(fs, tmp) == c {
      forall p: Place | p.tree != Work && (made.None? || p.tree != Dir(made.value))
        ensures p in fs'.names <==> p in fs.names
        ensures p in fs.names ==> fs'.names[p] == fs.names[p] && Read(fs', p) == Read(fs, p)
      {
        assert ReadsThrough(fs, fs', fs.names[tmp], c, p);
      }
    }
  }

  /** Writing a name that is taken, and moving it, in the work directory. */
  lemma SumsThrough(fs: Fs, c: Content)
    requires Sound(fs) && At(Work, SUMS_TMP) in fs.names
    ensures var written := Written(fs, At(Work, SUMS_TMP), c);
            var moved := Moved(written, At(Work, SUMS_TMP), At(Work, Sha256Sums));
            && Sound(written) && Sound(moved)
            && Through(fs, written, Work, fs.names[At(Work, SUMS_TMP)], c)
            && Through(fs, moved, Work, fs.names[At(Work, SUMS_TMP)], c)
            && At(Work, Sha256Sums) in moved.names && Read(moved, At(Work, Sha256Sums)) == c
  {
    var ino := fs.names[At(Work, SUMS_TMP)];
    var written := Written(fs, At(Work, SUMS_TMP), c);
    var moved := Moved(written, At(Work, SUMS_TMP), At(Work, Sha256Sums));
    forall p: Place | p.tree != Work
      ensures ReadsThrough(fs, written, ino, c, p) && ReadsThrough(fs, moved, ino, c, p)
    {
    }
  }

  lemma UntouchedThenThrough(a: Fs, b: Fs, c: Fs, ino: nat, content: Content)
    requires Sound(a) && Sound(b) && Sound(c) && Untouched(a, b, Work) && Through(b, c, Work, ino, content)
    ensures Through(a, c, Work, ino, content)
  {
    forall p: Place | p.tree != Work ensures ReadsThrough(a, c, ino, content, p) {
      assert ReadsThrough(b, c, ino, content, p);
    }
  }

  lemma SameExists(a: Fs, c: Fs, tree: nat, ino: nat, content: Content)
    requires Sound(a) && Sound(c) && Through(a, c, Work, ino, content)
    ensures Exists(a, Dir(tree)) ==> Exists(c, Dir(tree))
  {
    if p :| p in a.names && p.tree == Dir(tree) { assert ReadsThrough(a, c, ino, content, p); }
  }

  lemma ExistsStill(a: Fs, b: Fs)
    requires Sound(a) && Sound(b) && Untouched(a, b, Work)
    ensures forall tree :: tree != Work ==> (Exists(b, tree) <==> Exists(a, tree))
  {
    forall tree | tree != Work ensures Exists(b, tree) <==> Exists(a, tree) {
      if Exists(a, tree) { var p :| p in a.names && p.tree == tree; assert p in b.names; }
      if Exists(b, tree) { var p :| p in b.names && p.tree == tree; assert p in a.names; }
    }
  }

  lemma UntouchedThenIsolated(a: Fs, b: Fs, c: Fs, made: Option<nat>)
    requires Sound(a) && Sound(b) && Sound(c) && Untouched(a, b, Work) && Isolated(b, c, made)
    ensures Isolated(a, c, made)
  {
    ExistsStill(a, b);
  }

  /** Nothing outside the work directory and the candidate made changed its inode or its bytes, and that
      candidate's directory is new. */
  ghost predicate Isolated(fs: Fs, fs': Fs, made: Option<nat>)
    requires Sound(fs) && Sound(fs')
  {
    && (forall p: Place :: p.tree != Work && (made.None? || p.tree != Dir(made.value)) ==>
          && (p in fs'.names <==> p in fs.names)
          && (p in fs.names ==> fs'.names[p] == fs.names[p] && Read(fs', p) == Read(fs, p)))
    && (made.Some? ==> !Exists(fs, Dir(made.value)))
  }

  /** The base neither has nor lists the sums' temporary. */
  predicate Clean(fs: Fs, base: nat)
    requires Sound(fs)
  {
    var v := ViewOf(fs, Dir(base));
    At(Dir(base), SUMS_TMP) !in fs.names && HasParts(v) && !ListsItself(v)
  }

  lemma ClearedFacts(fs: Fs, tree: Tree)
    requires Sound(fs)
    ensures Sound(Cleared(fs, tree)) && Untouched(fs, Cleared(fs, tree), tree) && !Exists(Cleared(fs, tree), tree)
  {
  }

  lemma PublishIsolates(a: Fs, b: Fs, c: Fs, tree: nat)
    requires Sound(a) && Sound(b) && Sound(c) && !Exists(a, Dir(tree))
    requires b == Renamed(a, Dir(tree)) && Untouched(b, c, Dir(tree))
    ensures Isolated(a, c, Some(tree)) && !Exists(c, Work)
  {
    forall p: Place | p.tree != Work && p.tree != Dir(tree) ensures SameName(a, b, p) {
      RenamedElsewhere(a, Dir(tree), p);
    }
    forall p: Place | p.tree == Work ensures p !in c.names {
      RenamedAt(a, Dir(tree), p.rel);
    }
  }

  // ------------------------------------------------------------------ what is checked

  /** `roles_from_manifest`: every role with a path is pinned and is those bytes, no required role is absent,
      and no alias pins other bytes than its role. */
  predicate RolesHold(sha: Sha, fs: Fs, m: Manifest)
    requires Sound(fs)
  {
    && (forall r: Role :: Of(r) in m.paths ==> RoleHolds(sha, fs, m, r))
    && Complete(m)
    && (forall a: Alias :: Called(a) in m.paths && Of(RoleOf(a)) in m.paths && Called(a) in m.pins ==>
          Of(RoleOf(a)) in m.pins && m.pins[Called(a)] == m.pins[Of(RoleOf(a))])
  }

  predicate RoleHolds(sha: Sha, fs: Fs, m: Manifest, r: Role)
    requires Sound(fs) && Of(r) in m.paths
  {
    var home := m.paths[Of(r)];
    && Of(r) in m.pins && At(Dir(home.tree), home.rel) in fs.names
    && sha(Read(fs, At(Dir(home.tree), home.rel))) == m.pins[Of(r)]
  }

  /** What is refused before anything is linked: a base whose role pins do not hold or whose manifest does not
      pin its provenance, a role the base lacks, a family in part. */
  predicate Accepted(sha: Sha, fs: Fs, base: nat, swaps: map<Role, Bytes>)
    requires Sound(fs)
  {
    var v := ViewOf(fs, Dir(base));
    && HasParts(v) && RolesHold(sha, fs, v[ManifestJson].m)
    && Itself in v[ManifestJson].m.pins && v[ManifestJson].m.pins[Itself] == sha(v[ProvenanceJson])
    && WholeFamilies(v[ProvenanceJson].p, swaps)
  }

  predicate SameOrCollide(sha: Sha, x: Content, y: Content) {
    x == y || (x != y && sha(x) == sha(y))
  }

  /** An accepted base is the one its manifest was written for: wherever two that carry one manifest are
      accepted, the provenance and every named role are the same bytes, unless the hash collides; every required
      role is named, and an alias pins what its role is. */
  lemma AcceptedBasesAgree(sha: Sha, fs: Fs, base: nat, swaps: map<Role, Bytes>,
                           fs': Fs, base': nat, swaps': map<Role, Bytes>, r: Role)
    requires Sound(fs) && Sound(fs') && Accepted(sha, fs, base, swaps) && Accepted(sha, fs', base', swaps')
    requires ViewOf(fs, Dir(base))[ManifestJson] == ViewOf(fs', Dir(base'))[ManifestJson]
    ensures SameOrCollide(sha, ViewOf(fs, Dir(base))[ProvenanceJson], ViewOf(fs', Dir(base'))[ProvenanceJson])
    ensures var m := ViewOf(fs, Dir(base))[ManifestJson].m;
            && (Required(r) ==> Of(r) in m.paths)
            && (Of(r) in m.paths ==>
                  var n := At(Dir(m.paths[Of(r)].tree), m.paths[Of(r)].rel);
                  && n in fs.names && n in fs'.names && SameOrCollide(sha, Read(fs, n), Read(fs', n))
                  && forall a :: RoleOf(a) == r && Called(a) in m.paths && Called(a) in m.pins ==>
                       m.pins[Called(a)] == sha(Read(fs, n)))
  {
    var m := ViewOf(fs, Dir(base))[ManifestJson].m;
    if Of(r) in m.paths { assert RoleHolds(sha, fs, m, r) && RoleHolds(sha, fs', m, r); }
  }

  /** The provenance carries an overlay record with its id. */
  predicate Identified(p: Provenance) {
    p.record.Some? && p.record.value.id.Some?
  }

  function IdOf(p: Provenance): string {
    if Identified(p) then p.record.value.id.value else ""
  }

  // ------------------------------------------------------------------ the steps

  /** One swapped binary, then its friend-bundle link. */
  function RoleSwapped(fs: Fs, r: Role, bytes: Bytes): (fs': Fs)
    ensures Sound(fs) ==> Sound(fs')
  {
    var put := Fresh(fs, Work, Bin(r), Blob(bytes));
    if Bundled(r) && At(Work, Bundle(r)) in put.names then Relinked(put, Work, Bundle(r), Bin(r)) else put
  }

  lemma RoleSwappedFacts(fs: Fs, r: Role, bytes: Bytes)
    requires Sound(fs)
    ensures var fs' := RoleSwapped(fs, r, bytes);
            && Untouched(fs, fs', Work) && SameName(fs, fs', At(Work, SUMS_TMP))
            && ViewOf(fs', Work) == Swapped(ViewOf(fs, Work), r, bytes)
  {
    var put := Fresh(fs, Work, Bin(r), Blob(bytes));
    FreshFacts(fs, Work, Bin(r), Blob(bytes));
    ViewOfAt(put, Work, Bin(r));
    ViewOfAt(put, Work, Bundle(r));
    if Bundled(r) && At(Work, Bundle(r)) in put.names {
      RelinkedFacts(put, Work, Bundle(r), Bin(r));
      UntouchedTrans(fs, put, RoleSwapped(fs, r, bytes), Work);
    }
  }

  /** Step 2: the swapped binaries, in order. */
  function RolesSwapped(fs: Fs, order: seq<Role>, swaps: map<Role, Bytes>): (fs': Fs)
    requires forall r :: r in order ==> r in swaps
    ensures Sound(fs) ==> Sound(fs')
  {
    if order == [] then fs
    else RoleSwapped(RolesSwapped(fs, order[..|order| - 1], swaps), Last(order), swaps[Last(order)])
  }

  lemma {:induction false} RolesSwappedFacts(fs: Fs, order: seq<Role>, swaps: map<Role, Bytes>)
    requires Sound(fs) && (forall r :: r in order ==> r in swaps)
    ensures var fs' := RolesSwapped(fs, order, swaps);
            && Untouched(fs, fs', Work) && SameName(fs, fs', At(Work, SUMS_TMP))
            && ViewOf(fs', Work) == AllSwapped(ViewOf(fs, Work), order, swaps)
    decreases |order|
  {
    if order != [] {
      var front := order[..|order| - 1];
      RolesSwappedFacts(fs, front, swaps);
      var at := RolesSwapped(fs, front, swaps);
      RoleSwappedFacts(at, Last(order), swaps[Last(order)]);
      UntouchedTrans(fs, at, RolesSwapped(fs, order, swaps), Work);
    }
  }

  /** Step 3: the source archive, unless an earlier overlay of the commit brought it. */
  function SourceAdded(fs: Fs, input: Input): (fs': Fs)
    ensures Sound(fs) ==> Sound(fs')
  {
    var p := At(Work, SourceTar(input.commit));
    if p in fs.names then fs else Written(fs, p, Blob(input.archive))
  }

  lemma SourceAddedFacts(fs: Fs, input: Input)
    requires Sound(fs)
    ensures var fs' := SourceAdded(fs, input);
            && Untouched(fs, fs', Work) && SameName(fs, fs', At(Work, SUMS_TMP))
            && ViewOf(fs', Work) == WithSource(ViewOf(fs, Work), input)
  {
    ViewOfAt(fs, Work, SourceTar(input.commit));
    if At(Work, SourceTar(input.commit)) !in fs.names {
      WrittenFreshFacts(fs, Work, SourceTar(input.commit), Blob(input.archive));
    }
  }

  /** Steps 1 to 3. */
  function Populated(fs: Fs, base: nat, order: seq<Role>, input: Input): (fs': Fs)
    requires forall r :: r in order ==> r in input.swaps
    ensures Sound(fs) ==> Sound(fs')
  {
    SourceAdded(RolesSwapped(BaseLinked(fs, Dir(base)), order, input.swaps), input)
  }

  /** The names of the sums' temporary in the base and in the work directory are one inode, or neither is there. */
  predicate SharesTmp(fs: Fs, base: nat, fs': Fs) {
    && (At(Work, SUMS_TMP) in fs'.names <==> At(Dir(base), SUMS_TMP) in fs.names)
    && (At(Work, SUMS_TMP) in fs'.names && At(Dir(base), SUMS_TMP) in fs.names ==>
          fs'.names[At(Work, SUMS_TMP)] == fs.names[At(Dir(base), SUMS_TMP)])
  }

  /** A base file with the name of the sums' temporary is in the populated work directory as the same inode. */
  lemma PopulatedFacts(fs: Fs, base: nat, order: seq<Role>, input: Input)
    requires Sound(fs) && !Exists(fs, Work) && (forall r :: r in order ==> r in input.swaps)
    ensures var fs' := Populated(fs, base, order, input);
            && Untouched(fs, fs', Work) && SharesTmp(fs, base, fs')
            && ViewOf(fs', Work) == WithSource(AllSwapped(ViewOf(fs, Dir(base)), order, input.swaps), input)
  {
    var linked := BaseLinked(fs, Dir(base));
    BaseLinkedFacts(fs, Dir(base));
    var swapped := RolesSwapped(linked, order, input.swaps);
    RolesSwappedFacts(linked, order, input.swaps);
    UntouchedTrans(fs, linked, swapped, Work);
    SourceAddedFacts(swapped, input);
    UntouchedTrans(fs, swapped, SourceAdded(swapped, input), Work);
  }

  /** The provenance step 4 writes from the populated directory. */
  function NewProvenance(e: Env, fs: Fs, v: View, base: nat, input: Input): Provenance
    requires Sound(fs) && HasParts(v) && CanRecord(v[ProvenanceJson].p, ViewOf(fs, Work), input)
  {
    ProvenanceAfter(e.sha, e.idHash, v[ProvenanceJson].p, BaseOf(e.sha, v, base), ViewOf(fs, Work), input)
  }

  /** Steps 1 to 4: the provenance and the file system as step 5 finds it, unless a record names a missing file. */
  function Opened(e: Env, fs: Fs, base: nat, order: seq<Role>, input: Input): (r: Option<(Provenance, Fs)>)
    requires Sound(fs) && HasParts(ViewOf(fs, Dir(base))) && (forall q :: q in order ==> q in input.swaps)
    ensures r.Some? ==> Sound(r.value.1)
  {
    var v, populated := ViewOf(fs, Dir(base)), Populated(fs, base, order, input);
    if CanRecord(v[ProvenanceJson].p, ViewOf(populated, Work), input) then
      var p := NewProvenance(e, populated, v, base, input);
      Some((p, Fresh(populated, Work, ProvenanceJson, Prov(p))))
    else None
  }

  lemma OpenedFacts(e: Env, fs: Fs, base: nat, order: seq<Role>, input: Input)
    requires Sound(fs) && !Exists(fs, Work) && HasParts(ViewOf(fs, Dir(base)))
    requires forall q :: q in order ==> q in input.swaps
    ensures var v, r := ViewOf(fs, Dir(base)), Opened(e, fs, base, order, input);
            var sourced := WithSource(AllSwapped(v, order, input.swaps), input);
            && (r.Some? <==> CanRecord(v[ProvenanceJson].p, sourced, input))
            && (r.Some? ==>
                  && Untouched(fs, r.value.1, Work) && SharesTmp(fs, base, r.value.1) && Identified(r.value.0)
                  && ViewOf(r.value.1, Work) == Recorded(e.sha, e.idHash, v, base, sourced, input)
                  && ViewOf(r.value.1, Work)[ProvenanceJson] == Prov(r.value.0))
  {
    var populated, r := Populated(fs, base, order, input), Opened(e, fs, base, order, input);
    PopulatedFacts(fs, base, order, input);
    if r.Some? {
      FreshFacts(populated, Work, ProvenanceJson, Prov(r.value.0));
      UntouchedTrans(fs, populated, r.value.1, Work);
    }
  }

  /** Step 5: every listed file hashed, the list closed, then moved into place unless a file was missing. */
  function SumsRecorded(e: Env, fs: Fs, v: View, input: Input): (r: (Outcome, Fs))
    requires Sound(fs) && HasParts(v)
    ensures Sound(r.1)
  {
    var (o, lines) := Hashing(e, fs, Listing(v[Sha256Sums].lines, SourceTar(input.commit)));
    var closed := Written(fs, At(Work, SUMS_TMP), Sums(lines));
    WrittenSound(fs, At(Work, SUMS_TMP), Sums(lines));
    if o.Done? then (Done, Moved(closed, At(Work, SUMS_TMP), At(Work, Sha256Sums))) else (Refused, closed)
  }

  lemma SumsFresh(fs: Fs, lines: seq<(Digest, Rel)>)
    requires Sound(fs) && At(Work, SUMS_TMP) !in fs.names
    ensures var closed := Written(fs, At(Work, SUMS_TMP), Sums(lines));
            var moved := Moved(closed, At(Work, SUMS_TMP), At(Work, Sha256Sums));
            && Sound(closed) && Untouched(fs, closed, Work) && Sound(moved) && Untouched(fs, moved, Work)
            && ViewOf(moved, Work) == Put(ViewOf(fs, Work), Sha256Sums, Sums(lines))
  {
    WrittenFreshFacts(fs, Work, SUMS_TMP, Sums(lines));
    FreshFacts(fs, Work, Sha256Sums, Sums(lines));
    FreshSteps(fs, Work, Sha256Sums, Sums(lines));
  }

  /** With the temporary's name free and not listed. */
  lemma SumsRecordedFresh(e: Env, fs: Fs, v: View, input: Input)
    requires Sound(fs) && HasParts(v) && At(Work, SUMS_TMP) !in fs.names
    ensures var (o, fs') := SumsRecorded(e, fs, v, input);
            && Untouched(fs, fs', Work)
            && (!ListsItself(v) ==>
                  var recorded := ViewOf(fs, Work);
                  && (o.Done? <==> CanSum(v, recorded, input))
                  && (o.Done? ==>
                        ViewOf(fs', Work) == Put(recorded, Sha256Sums, Sums(LinesOf(e.sha, v, recorded, input)))))
  {
    var names := Listing(v[Sha256Sums].lines, SourceTar(input.commit));
    if SUMS_TMP !in names { HashingIsSumLines(e, fs, names); }
    SumsFresh(fs, Hashing(e, fs, names).1);
  }

  /** With the name taken, its inode is overwritten. */
  lemma SumsRecordedThrough(e: Env, fs: Fs, v: View, input: Input)
    requires Sound(fs) && HasParts(v) && At(Work, SUMS_TMP) in fs.names
    ensures var (o, fs') := SumsRecorded(e, fs, v, input);
            && Through(fs, fs', Work, fs.names[At(Work, SUMS_TMP)], NewSums(e, fs, v, input))
            && (o.Done? ==>
                  At(Work, Sha256Sums) in fs'.names && Read(fs', At(Work, Sha256Sums)) == NewSums(e, fs, v, input))
  {
    SumsThrough(fs, NewSums(e, fs, v, input));
  }

  /** Steps 6 and 7: the work directory under its name, with the manifest re-pinned there. */
  function Published(e: Env, fs: Fs, base: nat, tree: nat, m: Manifest, p: Provenance): (fs': Fs)
    ensures Sound(fs) ==> Sound(fs')
  {
    Fresh(Renamed(fs, Dir(tree)), Dir(tree), ManifestJson, Man(ManifestAfter(m, base, tree, p, e.sha(Prov(p)))))
  }

  lemma PublishedFacts(e: Env, fs: Fs, base: nat, tree: nat, m: Manifest, p: Provenance)
    requires Sound(fs) && !Exists(fs, Dir(tree))
    ensures var fs' := Published(e, fs, base, tree, m, p);
            && Isolated(fs, fs', Some(tree)) && !Exists(fs', Work)
            && ViewOf(fs', Dir(tree)) ==
               Put(ViewOf(fs, Work), ManifestJson, Man(ManifestAfter(m, base, tree, p, e.sha(Prov(p)))))
  {
    var renamed := Renamed(fs, Dir(tree));
    RenamedView(fs, Dir(tree));
    FreshFacts(renamed, Dir(tree), ManifestJson, Man(ManifestAfter(m, base, tree, p, e.sha(Prov(p)))));
    PublishIsolates(fs, renamed, Published(e, fs, base, tree, m, p), tree);
  }

  /** How an overlay ends: the directory it made, whether it reports success, and the file system.  The new
      manifest is checked where it lies, so a directory can be made and a failure reported. */
  datatype Run = Run(made: Option<nat>, ok: bool, fs: Fs)

  /** `_overlay` from an empty work directory, once the base and the request are accepted. */
  function Made(e: Env, fs: Fs, base: nat, order: seq<Role>, input: Input): (run: Run)
    requires Sound(fs) && HasParts(ViewOf(fs, Dir(base))) && (forall q :: q in order ==> q in input.swaps)
    ensures Sound(run.fs) && (run.ok ==> run.made.Some?)
  {
    match Opened(e, fs, base, order, input)
    case None => Run(None, false, Cleared(Populated(fs, base, order, input), Work))
    case Some((p, at)) => Closed(e, fs, base, input, p, at)
  }

  /** Steps 5 to 7. */
  function Closed(e: Env, fs: Fs, base: nat, input: Input, p: Provenance, at: Fs): (run: Run)
    requires Sound(fs) && HasParts(ViewOf(fs, Dir(base))) && Sound(at)
    ensures Sound(run.fs) && (run.ok ==> run.made.Some?)
  {
    var v := ViewOf(fs, Dir(base));
    var (o, summed) := SumsRecorded(e, at, v, input);
    var tree := e.dirOf(IdOf(p));
    if o.Refused? || Exists(summed, Dir(tree)) then Run(None, false, Cleared(summed, Work))
    else
      var fs' := Published(e, summed, base, tree, v[ManifestJson].m, p);
      Run(Some(tree), RolesHold(e.sha, fs', ManifestAfter(v[ManifestJson].m, base, tree, p, e.sha(Prov(p)))), fs')
  }

  /** `overlay`: however it ends, the work directory is gone. */
  function Overlaid(e: Env, fs: Fs, base: nat, order: seq<Role>, input: Input): (run: Run)
    requires Sound(fs) && (forall q :: q in order ==> q in input.swaps)
    ensures Sound(run.fs) && (run.ok ==> run.made.Some?)
  {
    if !Accepted(e.sha, fs, base, input.swaps) then Run(None, false, Cleared(fs, Work))
    else
      ClearedView(fs, base);
      Made(e, Cleared(fs, Work), base, order, input)
  }

  // ------------------------------------------------------------------ isolation

  /** With the temporary in the base: once step 5 has begun, however the run ends, exactly the names of its
      inode read the new sums, which are also the new candidate's if one is made. */
  ghost predicate SumsOverBase(
    e: Env, fs: Fs, base: nat, order: seq<Role>, input: Input, made: Option<nat>, fs': Fs)
    requires Sound(fs) && Sound(fs') && At(Dir(base), SUMS_TMP) in fs.names
    requires forall q :: q in order ==> q in input.swaps
  {
    match BeforeSums(e, fs, base, order, input)
    case None => made.None? && Isolated(fs, fs', made)
    case Some(at) => SumsThroughBase(fs, base, NewSums(e, at, ViewOf(fs, Dir(base)), input), made, fs')
  }

  ghost predicate SumsThroughBase(fs: Fs, base: nat, sums: Content, made: Option<nat>, fs': Fs)
    requires Sound(fs) && Sound(fs') && At(Dir(base), SUMS_TMP) in fs.names
  {
    && Overwritten(fs, fs', made, fs.names[At(Dir(base), SUMS_TMP)], sums)
    && (made.Some? ==> Sha256Sums in ViewOf(fs', Dir(made.value)) && ViewOf(fs', Dir(made.value))[Sha256Sums] == sums)
  }

  /** The file system when the sums' temporary is opened, if the run gets there. */
  function BeforeSums(e: Env, fs: Fs, base: nat, order: seq<Role>, input: Input): (at: Option<Fs>)
    requires Sound(fs) && (forall q :: q in order ==> q in input.swaps)
    ensures at.Some? ==> Sound(at.value) && HasParts(ViewOf(fs, Dir(base)))
  {
    if !Accepted(e.sha, fs, base, input.swaps) then None
    else
      ClearedFacts(fs, Work);
      UntouchedView(fs, Cleared(fs, Work), Work, Dir(base));
      var begun := Opened(e, Cleared(fs, Work), base, order, input);
      if begun.None? then None else Some(begun.value.1)
  }

  /** There is a state to begin step 5 in exactly when the base's records name only files that are there; it
      holds the recorded stage, and nothing outside the work directory has changed. */
  ghost predicate HoldsRecorded(e: Env, fs: Fs, base: nat, order: seq<Role>, input: Input, at: Option<Fs>)
    requires Sound(fs) && HasParts(ViewOf(fs, Dir(base))) && (forall q :: q in order ==> q in input.swaps)
    requires at.Some? ==> Sound(at.value)
  {
    var v := ViewOf(fs, Dir(base));
    var sourced := WithSource(AllSwapped(v, order, input.swaps), input);
    && (at.Some? <==> CanRecord(v[ProvenanceJson].p, sourced, input))
    && (at.Some? ==>
          && Untouched(fs, at.value, Work) && SharesTmp(fs, base, at.value)
          && ViewOf(at.value, Work) == Recorded(e.sha, e.idHash, v, base, sourced, input))
  }

  lemma BeforeSumsFacts(e: Env, fs: Fs, base: nat, order: seq<Role>, input: Input)
    requires Sound(fs) && Accepted(e.sha, fs, base, input.swaps) && (forall q :: q in order ==> q in input.swaps)
    ensures HoldsRecorded(e, fs, base, order, input, BeforeSums(e, fs, base, order, input))
  {
    ClearedView(fs, base);
    OpenedAfterClearing(e, fs, base, order, input);
  }

  lemma ClearedView(fs: Fs, base: nat)
    requires Sound(fs)
    ensures Untouched(fs, Cleared(fs, Work), Work) && !Exists(Cleared(fs, Work), Work)
    ensures ViewOf(Cleared(fs, Work), Dir(base)) == ViewOf(fs, Dir(base))
  {
    ClearedFacts(fs, Work);
    UntouchedView(fs, Cleared(fs, Work), Work, Dir(base));
  }

  lemma OpenedAfterClearing(e: Env, fs: Fs, base: nat, order: seq<Role>, input: Input)
    requires Sound(fs) && HasParts(ViewOf(fs, Dir(base))) && (forall q :: q in order ==> q in input.swaps)
    requires ViewOf(Cleared(fs, Work), Dir(base)) == ViewOf(fs, Dir(base))
    ensures var r := Opened(e, Cleared(fs, Work), base, order, input);
            HoldsRecorded(e, fs, base, order, input, if r.None? then None else Some(r.value.1))
  {
    var cleared := Cleared(fs, Work);
    ClearedView(fs, base);
    OpenedFacts(e, cleared, base, order, input);
    var begun := Opened(e, cleared, base, order, input);
    if begun.Some? { UntouchedTrans(fs, cleared, begun.value.1, Work); }
  }

  /** Steps 5 to 7 with the temporary's name free: isolation, however they end. */
  lemma ClosedIsolates(e: Env, fs: Fs, base: nat, input: Input, p: Provenance, at: Fs)
    requires Sound(fs) && HasParts(ViewOf(fs, Dir(base))) && Sound(at) && Untouched(fs, at, Work)
    requires At(Work, SUMS_TMP) !in at.names
    ensures var run := Closed(e, fs, base, input, p, at);
            Isolated(fs, run.fs, run.made) && !Exists(run.fs, Work)
  {
    var v := ViewOf(fs, Dir(base));
    var (o, summed) := SumsRecorded(e, at, v, input);
    SumsRecordedFresh(e, at, v, input);
    UntouchedTrans(fs, at, summed, Work);
    var tree := e.dirOf(IdOf(p));
    if o.Refused? || Exists(summed, Dir(tree)) {
      ClearedFacts(summed, Work);
      UntouchedTrans(fs, summed, Cleared(summed, Work), Work);
    } else {
      PublishedFacts(e, summed, base, tree, v[ManifestJson].m, p);
      UntouchedThenIsolated(fs, summed, Published(e, summed, base, tree, v[ManifestJson].m, p), Some(tree));
    }
  }

  lemma ClearedThrough(fs: Fs, base: nat, sums: Content, c: Fs)
    requires Sound(fs) && Sound(c) && At(Dir(base), SUMS_TMP) in fs.names
    requires Through(fs, c, Work, fs.names[At(Dir(base), SUMS_TMP)], sums)
    ensures SumsThroughBase(fs, base, sums, None, Cleared(c, Work)) && !Exists(Cleared(c, Work), Work)
  {
    ClearedFacts(c, Work);
    var cleared, ino := Cleared(c, Work), fs.names[At(Dir(base), SUMS_TMP)];
    forall p: Place | p.tree != Work ensures ReadsThrough(fs, cleared, ino, sums, p) {
      assert ReadsThrough(fs, c, ino, sums, p);
    }
  }

  lemma PublishedThrough(fs: Fs, base: nat, sums: Content, c: Fs, tree: nat, fs': Fs, m: Manifest)
    requires Sound(fs) && Sound(c) && Sound(fs') && At(Dir(base), SUMS_TMP) in fs.names
    requires Through(fs, c, Work, fs.names[At(Dir(base), SUMS_TMP)], sums) && Isolated(c, fs', Some(tree))
    requires At(Work, Sha256Sums) in c.names && Read(c, At(Work, Sha256Sums)) == sums
    requires ViewOf(fs', Dir(tree)) == Put(ViewOf(c, Work), ManifestJson, Man(m))
    ensures SumsThroughBase(fs, base, sums, Some(tree), fs')
  {
    var ino := fs.names[At(Dir(base), SUMS_TMP)];
    SameExists(fs, c, tree, ino, sums);
    forall p: Place | p.tree != Work && p.tree != Dir(tree) ensures ReadsThrough(fs, fs', ino, sums, p) {
      assert ReadsThrough(fs, c, ino, sums, p);
    }
    ViewOfAt(c, Work, Sha256Sums);
    PutElsewhere(ViewOf(c, Work), ManifestJson, Man(m), Sha256Sums);
  }

  /** Steps 5 to 7 with the name taken: the base's inode is overwritten, however they end. */
  lemma ClosedOverwrites(e: Env, fs: Fs, base: nat, input: Input, p: Provenance, at: Fs)
    requires Sound(fs) && HasParts(ViewOf(fs, Dir(base))) && Sound(at) && Untouched(fs, at, Work)
    requires At(Dir(base), SUMS_TMP) in fs.names && SharesTmp(fs, base, at)
    ensures var run := Closed(e, fs, base, input, p, at);
            && SumsThroughBase(fs, base, NewSums(e, at, ViewOf(fs, Dir(base)), input), run.made, run.fs)
            && !Exists(run.fs, Work)
  {
    var v, ino := ViewOf(fs, Dir(base)), fs.names[At(Dir(base), SUMS_TMP)];
    var sums := NewSums(e, at, v, input);
    var (o, summed) := SumsRecorded(e, at, v, input);
    SumsRecordedThrough(e, at, v, input);
    UntouchedThenThrough(fs, at, summed, ino, sums);
    var tree := e.dirOf(IdOf(p));
    if o.Refused? || Exists(summed, Dir(tree)) {
      ClearedThrough(fs, base, sums, summed);
    } else {
      PublishedFacts(e, summed, base, tree, v[ManifestJson].m, p);
      PublishedThrough(fs, base, sums, summed, tree, Published(e, summed, base, tree, v[ManifestJson].m, p),
                       ManifestAfter(v[ManifestJson].m, base, tree, p, e.sha(Prov(p))));
    }
  }

  lemma PopulatedThenCleared(fs: Fs, base: nat, order: seq<Role>, input: Input)
    requires Sound(fs) && !Exists(fs, Work) && (forall q :: q in order ==> q in input.swaps)
    ensures var fs' := Cleared(Populated(fs, base, order, input), Work);
            Isolated(fs, fs', None) && !Exists(fs', Work)
  {
    var populated := Populated(fs, base, order, input);
    PopulatedFacts(fs, base, order, input);
    ClearedFacts(populated, Work);
    UntouchedTrans(fs, populated, Cleared(populated, Work), Work);
  }

  /** An overlay of a base without the sums' temporary isolates everything but what it makes. */
  lemma OverlaidIsolates(e: Env, fs: Fs, base: nat, order: seq<Role>, input: Input)
    requires Sound(fs) && (forall q :: q in order ==> q in input.swaps) && At(Dir(base), SUMS_TMP) !in fs.names
    ensures var run := Overlaid(e, fs, base, order, input);
            Isolated(fs, run.fs, run.made) && !Exists(run.fs, Work)
  {
    var cleared, run := Cleared(fs, Work), Overlaid(e, fs, base, order, input);
    ClearedFacts(fs, Work);
    if Accepted(e.sha, fs, base, input.swaps) {
      UntouchedView(fs, cleared, Work, Dir(base));
      var begun := Opened(e, cleared, base, order, input);
      if begun.None? {
        PopulatedThenCleared(cleared, base, order, input);
      } else {
        OpenedFacts(e, cleared, base, order, input);
        ClosedIsolates(e, cleared, base, input, begun.value.0, begun.value.1);
      }
      UntouchedThenIsolated(fs, cleared, run.fs, run.made);
    }
  }

  lemma ClearedThenThrough(fs: Fs, base: nat, sums: Content, made: Option<nat>, fs': Fs)
    requires Sound(fs) && Sound(fs') && At(Dir(base), SUMS_TMP) in fs.names
    requires At(Dir(base), SUMS_TMP) in Cleared(fs, Work).names
    requires SumsThroughBase(Cleared(fs, Work), base, sums, made, fs')
    ensures SumsThroughBase(fs, base, sums, made, fs')
  {
    var cleared, ino := Cleared(fs, Work), fs.names[At(Dir(base), SUMS_TMP)];
    ClearedFacts(fs, Work);
    ExistsStill(fs, cleared);
    forall p: Place | p.tree != Work && (made.None? || p.tree != Dir(made.value))
      ensures ReadsThrough(fs, fs', ino, sums, p)
    {
      assert ReadsThrough(cleared, fs', ino, sums, p);
    }
  }

  /** An overlay of a base with the temporary overwrites it once step 5 begins. */
  lemma OverlaidOverwrites(e: Env, fs: Fs, base: nat, order: seq<Role>, input: Input)
    requires Sound(fs) && (forall q :: q in order ==> q in input.swaps) && At(Dir(base), SUMS_TMP) in fs.names
    ensures var run := Overlaid(e, fs, base, order, input);
            SumsOverBase(e, fs, base, order, input, run.made, run.fs) && !Exists(run.fs, Work)
  {
    var cleared, run := Cleared(fs, Work), Overlaid(e, fs, base, order, input);
    ClearedFacts(fs, Work);
    if Accepted(e.sha, fs, base, input.swaps) {
      UntouchedView(fs, cleared, Work, Dir(base));
      var begun := Opened(e, cleared, base, order, input);
      if begun.None? {
        PopulatedThenCleared(cleared, base, order, input);
        UntouchedThenIsolated(fs, cleared, run.fs, run.made);
      } else {
        OpenedFacts(e, cleared, base, order, input);
        ClosedOverwrites(e, cleared, base, input, begun.value.0, begun.value.1);
        ClearedThenThrough(fs, base, NewSums(e, begun.value.1, ViewOf(fs, Dir(base)), input), run.made, run.fs);
      }
    }
  }

  // ------------------------------------------------------------------ what is made

  /** The candidate made is the one the stages describe, under the name its id gives; a refusal means that
      a stage refuses or that the name is taken. */
  ghost predicate AsStaged(e: Env, fs: Fs, base: nat, order: seq<Role>, input: Input, made: Option<nat>, fs': Fs)
    requires Sound(fs) && Sound(fs') && HasParts(ViewOf(fs, Dir(base))) && (forall q :: q in order ==> q in input.swaps)
  {
    var v := ViewOf(fs, Dir(base));
    match made
    case Some(tree) =>
      var s := StagesOf(e.sha, e.idHash, v, base, tree, order, input);
      s.Some? && tree == e.dirOf(IdOf(s.value.provenance)) && ViewOf(fs', Dir(tree)) == s.value.final
    case None =>
      forall tree: nat ::
        var s := StagesOf(e.sha, e.idHash, v, base, tree, order, input);
        s.Some? ==> Exists(fs, Dir(e.dirOf(IdOf(s.value.provenance))))
  }

  /** How the stages read off a file system in step 5. */
  lemma StagesFrom(e: Env, v: View, base: nat, tree: nat, order: seq<Role>, input: Input, p: Provenance, recorded: View)
    requires HasParts(v) && (forall q :: q in order ==> q in input.swaps)
    requires CanRecord(v[ProvenanceJson].p, WithSource(AllSwapped(v, order, input.swaps), input), input)
    requires recorded == Recorded(e.sha, e.idHash, v, base, WithSource(AllSwapped(v, order, input.swaps), input), input)
    requires recorded[ProvenanceJson] == Prov(p)
    ensures var s := StagesOf(e.sha, e.idHash, v, base, tree, order, input);
            && (s.Some? <==> CanSum(v, recorded, input))
            && (s.Some? ==>
                  && s.value.provenance == p
                  && s.value.summed == Put(recorded, Sha256Sums, Sums(LinesOf(e.sha, v, recorded, input)))
                  && s.value.final == Put(s.value.summed, ManifestJson,
                                          Man(ManifestAfter(v[ManifestJson].m, base, tree, p, e.sha(Prov(p))))))
  {
  }

  lemma StagedFrom(
    e: Env, fs: Fs, base: nat, order: seq<Role>, input: Input, p: Provenance, recorded: View, o: Outcome, w: View,
    made: Option<nat>, fs': Fs)
    requires Sound(fs) && Sound(fs') && HasParts(ViewOf(fs, Dir(base))) && (forall q :: q in order ==> q in input.swaps)
    requires var v := ViewOf(fs, Dir(base));
             var sourced := WithSource(AllSwapped(v, order, input.swaps), input);
             && CanRecord(v[ProvenanceJson].p, sourced, input)
             && recorded == Recorded(e.sha, e.idHash, v, base, sourced, input) && recorded[ProvenanceJson] == Prov(p)
             && (o.Done? <==> CanSum(v, recorded, input))
             && (o.Done? ==> w == Put(recorded, Sha256Sums, Sums(LinesOf(e.sha, v, recorded, input))))
    requires made == if o.Refused? || Exists(fs, Dir(e.dirOf(IdOf(p)))) then None else Some(e.dirOf(IdOf(p)))
    requires made.Some? ==>
               ViewOf(fs', Dir(made.value)) ==
               Put(w, ManifestJson,
                   Man(ManifestAfter(ViewOf(fs, Dir(base))[ManifestJson].m, base, made.value, p, e.sha(Prov(p)))))
    ensures AsStaged(e, fs, base, order, input, made, fs')
  {
    var v := ViewOf(fs, Dir(base));
    if made.Some? {
      StagesFrom(e, v, base, made.value, order, input, p, recorded);
    } else {
      forall tree: nat
        ensures var s := StagesOf(e.sha, e.idHash, v, base, tree, order, input);
                s.Some? ==> Exists(fs, Dir(e.dirOf(IdOf(s.value.provenance))))
      {
        StagesFrom(e, v, base, tree, order, input, p, recorded);
      }
    }
  }

  /** Steps 5 to 7 with the temporary's name free and not listed. */
  lemma ClosedFacts(e: Env, fs: Fs, base: nat, input: Input, p: Provenance, at: Fs)
    requires Sound(fs) && HasParts(ViewOf(fs, Dir(base))) && Sound(at) && Untouched(fs, at, Work)
    requires At(Work, SUMS_TMP) !in at.names && !ListsItself(ViewOf(fs, Dir(base)))
    ensures var v, recorded := ViewOf(fs, Dir(base)), ViewOf(at, Work);
            var run, tree := Closed(e, fs, base, input, p, at), e.dirOf(IdOf(p));
            && run.made == (if !CanSum(v, recorded, input) || Exists(fs, Dir(tree)) then None else Some(tree))
            && (run.made.Some? ==>
                  ViewOf(run.fs, Dir(tree)) ==
                  Put(Put(recorded, Sha256Sums, Sums(LinesOf(e.sha, v, recorded, input))), ManifestJson,
                      Man(ManifestAfter(v[ManifestJson].m, base, tree, p, e.sha(Prov(p))))))
  {
    var v, tree := ViewOf(fs, Dir(base)), e.dirOf(IdOf(p));
    var (o, summed) := SumsRecorded(e, at, v, input);
    SumsRecordedFresh(e, at, v, input);
    UntouchedTrans(fs, at, summed, Work);
    ExistsStill(fs, summed);
    if o.Done? && !Exists(summed, Dir(tree)) {
      PublishedFacts(e, summed, base, tree, v[ManifestJson].m, p);
    }
  }

  lemma ClosedIsStaged(e: Env, fs: Fs, base: nat, order: seq<Role>, input: Input, p: Provenance, at: Fs)
    requires Sound(fs) && !Exists(fs, Work) && Clean(fs, base) && (forall q :: q in order ==> q in input.swaps)
    requires Opened(e, fs, base, order, input) == Some((p, at))
    ensures var run := Closed(e, fs, base, input, p, at);
            AsStaged(e, fs, base, order, input, run.made, run.fs)
  {
    var v, recorded := ViewOf(fs, Dir(base)), ViewOf(at, Work);
    OpenedFacts(e, fs, base, order, input);
    ClosedFacts(e, fs, base, input, p, at);
    var run := Closed(e, fs, base, input, p, at);
    var sums := CanSum(v, recorded, input);
    var w := if sums then Put(recorded, Sha256Sums, Sums(LinesOf(e.sha, v, recorded, input))) else map[];
    StagedFrom(e, fs, base, order, input, p, recorded, if sums then Done else Refused, w, run.made, run.fs);
  }

  lemma MadeIsStaged(e: Env, fs: Fs, base: nat, order: seq<Role>, input: Input)
    requires Sound(fs) && !Exists(fs, Work) && Clean(fs, base) && (forall q :: q in order ==> q in input.swaps)
    ensures var run := Made(e, fs, base, order, input);
            AsStaged(e, fs, base, order, input, run.made, run.fs)
  {
    OpenedFacts(e, fs, base, order, input);
    var begun := Opened(e, fs, base, order, input);
    if begun.Some? {
      ClosedIsStaged(e, fs, base, order, input, begun.value.0, begun.value.1);
    }
  }

  /** An accepted overlay of a clean base makes the candidate the stages describe. */
  lemma OverlaidIsStaged(e: Env, fs: Fs, base: nat, order: seq<Role>, input: Input)
    requires Sound(fs) && Clean(fs, base) && (forall q :: q in order ==> q in input.swaps)
    requires Accepted(e.sha, fs, base, input.swaps)
    ensures var run := Overlaid(e, fs, base, order, input);
            AsStaged(e, fs, base, order, input, run.made, run.fs)
  {
    var cleared := Cleared(fs, Work);
    ClearedFacts(fs, Work);
    UntouchedView(fs, cleared, Work, Dir(base));
    ExistsStill(fs, cleared);
    MadeIsStaged(e, cleared, base, order, input);
  }

  // ------------------------------------------------------------------ chains

  ghost predicate ConsistentAt(e: Env, fs: Fs, k: nat)
    requires Sound(fs)
  {
    Consistent(e.sha, e.idHash, ViewOf(fs, Dir(k)), k)
  }

  ghost predicate AllConsistent(e: Env, fs: Fs, dirs: set<nat>)
    requires Sound(fs)
  {
    forall k :: k in dirs ==> ConsistentAt(e, fs, k)
  }

  /** The candidates of `dirs` read as they did. */
  ghost predicate SameCandidates(fs: Fs, fs': Fs, dirs: set<nat>)
    requires Sound(fs) && Sound(fs')
  {
    forall k :: k in dirs ==> ViewOf(fs', Dir(k)) == ViewOf(fs, Dir(k))
  }

  /** Every candidate of `dirs` has these names in its sums. */
  ghost predicate AllList(fs: Fs, dirs: set<nat>, names: set<Rel>)
    requires Sound(fs)
  {
    forall k :: k in dirs ==> ListsAll(ViewOf(fs, Dir(k)), names)
  }

  ghost predicate ListsAll(v: View, names: set<Rel>) {
    HasParts(v) && forall rel :: rel in names ==> rel in SumNames(v[Sha256Sums].lines)
  }

  lemma ConsistentIsClean(e: Env, fs: Fs, base: nat)
    requires Sound(fs) && ConsistentAt(e, fs, base)
    ensures Clean(fs, base)
  {
    ViewOfAt(fs, Dir(base), SUMS_TMP);
  }

  /** The role pins of a consistent candidate hold where it lies. */
  lemma ConsistentRolesHold(e: Env, fs: Fs, k: nat)
    requires Sound(fs) && ConsistentAt(e, fs, k)
    ensures RolesHold(e.sha, fs, ViewOf(fs, Dir(k))[ManifestJson].m)
  {
    var v := ViewOf(fs, Dir(k));
    var m := v[ManifestJson].m;
    forall r: Role | Of(r) in m.paths ensures RoleHolds(e.sha, fs, m, r) {
      ViewOfAt(fs, Dir(k), Bin(r));
      assert Pinned(e.sha, v, Bin(r), v[ProvenanceJson].p.binaries[r]);
    }
  }

  lemma IsolatedView(fs: Fs, fs': Fs, made: Option<nat>, k: nat)
    requires Sound(fs) && Sound(fs') && Isolated(fs, fs', made) && (made.Some? ==> made.value != k)
    ensures ViewOf(fs', Dir(k)) == ViewOf(fs, Dir(k))
  {
    SameViews(fs, Dir(k), fs', Dir(k));
  }

  /** A candidate that has records occupies its directory, so a new one never takes its place. */
  lemma MadeElsewhere(fs: Fs, fs': Fs, made: nat, k: nat)
    requires Sound(fs) && Sound(fs') && Isolated(fs, fs', Some(made)) && HasParts(ViewOf(fs, Dir(k)))
    ensures made != k
  {
    ViewOfAt(fs, Dir(k), ManifestJson);
  }

  lemma OverlayKeepsCandidates(e: Env, fs: Fs, fs': Fs, made: Option<nat>, dirs: set<nat>)
    requires Sound(fs) && Sound(fs') && Isolated(fs, fs', made) && AllConsistent(e, fs, dirs)
    ensures SameCandidates(fs, fs', dirs) && AllConsistent(e, fs', dirs)
    ensures made.Some? ==> made.value !in dirs
  {
    forall k | k in dirs
      ensures ViewOf(fs', Dir(k)) == ViewOf(fs, Dir(k)) && (made.Some? ==> made.value != k) && ConsistentAt(e, fs', k)
    {
      assert ConsistentAt(e, fs, k);
      if made.Some? { MadeElsewhere(fs, fs', made.value, k); }
      IsolatedView(fs, fs', made, k);
    }
  }

  /** A candidate made lists everything its base lists. */
  lemma StagedListsAll(e: Env, fs: Fs, q: Request, tree: nat, fs': Fs, names: set<Rel>)
    requires Sound(fs) && Sound(fs') && ListsAll(ViewOf(fs, Dir(q.base)), names)
    requires (forall r :: r in q.order ==> r in q.input.swaps)
    requires AsStaged(e, fs, q.base, q.order, q.input, Some(tree), fs')
    ensures ListsAll(ViewOf(fs', Dir(tree)), names)
  {
    var v := ViewOf(fs, Dir(q.base));
    var s := StagesOf(e.sha, e.idHash, v, q.base, tree, q.order, q.input);
    StagesFacts(e.sha, e.idHash, v, q.base, tree, q.order, q.input, s.value);
    FinalHasParts(s.value);
    OverlayLists(e.sha, e.idHash, v, q.base, tree, q.order, q.input, s.value);
  }

  /** Whatever every candidate lists, every candidate lists after another overlay. */
  lemma ServedListsAll(e: Env, fs: Fs, q: Request, dirs: set<nat>, run: Run, names: set<Rel>)
    requires Sound(fs) && AllConsistent(e, fs, dirs) && q.base in dirs && AllList(fs, dirs, names)
    requires forall r :: r in q.order <==> r in q.input.swaps
    requires run == Overlaid(e, fs, q.base, q.order, q.input) && SameCandidates(fs, run.fs, dirs)
    ensures AllList(run.fs, if run.made.Some? then dirs + {run.made.value} else dirs, names)
  {
    assert ConsistentAt(e, fs, q.base) && ListsAll(ViewOf(fs, Dir(q.base)), names);
    if run.made.Some? { MadeListsAll(e, fs, q, run, names); }
    ListStays(fs, run.fs, dirs, run.made, names);
  }

  lemma MadeListsAll(e: Env, fs: Fs, q: Request, run: Run, names: set<Rel>)
    requires Sound(fs) && ConsistentAt(e, fs, q.base) && ListsAll(ViewOf(fs, Dir(q.base)), names)
    requires forall r :: r in q.order ==> r in q.input.swaps
    requires run == Overlaid(e, fs, q.base, q.order, q.input) && run.made.Some?
    ensures ListsAll(ViewOf(run.fs, Dir(run.made.value)), names)
  {
    assert Clean(fs, q.base) by { ConsistentIsClean(e, fs, q.base); }
    OverlaidIsStaged(e, fs, q.base, q.order, q.input);
    StagedListsAll(e, fs, q, run.made.value, run.fs, names);
  }

  lemma ListStays(fs: Fs, fs': Fs, dirs: set<nat>, made: Option<nat>, names: set<Rel>)
    requires Sound(fs) && Sound(fs') && AllList(fs, dirs, names) && SameCandidates(fs, fs', dirs)
    requires made.Some? ==> ListsAll(ViewOf(fs', Dir(made.value)), names)
    ensures AllList(fs', if made.Some? then dirs + {made.value} else dirs, names)
  {
    forall k | k in dirs ensures ListsAll(ViewOf(fs', Dir(k)), names) {
      assert ListsAll(ViewOf(fs, Dir(k)), names);
    }
  }

  lemma StagedIsConsistent(e: Env, fs: Fs, q: Request, tree: nat, fs': Fs)
    requires Sound(fs) && Sound(fs') && ConsistentAt(e, fs, q.base) &&
             (forall r :: r in q.order <==> r in q.input.swaps)
    requires WholeFamilies(ViewOf(fs, Dir(q.base))[ProvenanceJson].p, q.input.swaps)
    requires AsStaged(e, fs, q.base, q.order, q.input, Some(tree), fs')
    ensures ConsistentAt(e, fs', tree)
  {
    var v := ViewOf(fs, Dir(q.base));
    var s := StagesOf(e.sha, e.idHash, v, q.base, tree, q.order, q.input);
    OverlayIsConsistent(e.sha, e.idHash, v, q.base, tree, q.order, q.input, s.value);
  }

  /** The success a run reports is that of the check on the manifest it wrote. */
  lemma ReportsTheCheck(e: Env, fs: Fs, base: nat, order: seq<Role>, input: Input)
    requires Sound(fs) && (forall q :: q in order ==> q in input.swaps)
    ensures Reported(e, Overlaid(e, fs, base, order, input))
  {
    ClearedView(fs, base);
    if Accepted(e.sha, fs, base, input.swaps) {
      var begun := Opened(e, Cleared(fs, Work), base, order, input);
      if begun.Some? {
        ClosedReports(e, Cleared(fs, Work), base, input, begun.value.0, begun.value.1);
      }
    }
  }

  ghost predicate Reported(e: Env, run: Run)
    requires Sound(run.fs)
  {
    run.made.Some? ==>
      var v := ViewOf(run.fs, Dir(run.made.value));
      ManifestJson in v && v[ManifestJson].Man? && (run.ok <==> RolesHold(e.sha, run.fs, v[ManifestJson].m))
  }

  lemma ClosedReports(e: Env, fs: Fs, base: nat, input: Input, p: Provenance, at: Fs)
    requires Sound(fs) && HasParts(ViewOf(fs, Dir(base))) && Sound(at)
    ensures Reported(e, Closed(e, fs, base, input, p, at))
  {
    var v, tree := ViewOf(fs, Dir(base)), e.dirOf(IdOf(p));
    var (o, summed) := SumsRecorded(e, at, v, input);
    if !Exists(summed, Dir(tree)) {
      PublishedFacts(e, summed, base, tree, v[ManifestJson].m, p);
    }
  }

  /** What an overlay makes of a consistent candidate is consistent and passes the final check. */
  lemma MadeIsConsistent(e: Env, fs: Fs, q: Request, run: Run)
    requires Sound(fs) && ConsistentAt(e, fs, q.base) && (forall r :: r in q.order <==> r in q.input.swaps)
    requires run == Overlaid(e, fs, q.base, q.order, q.input) && run.made.Some?
    ensures ConsistentAt(e, run.fs, run.made.value) && run.ok
  {
    assert Clean(fs, q.base) by { ConsistentIsClean(e, fs, q.base); }
    OverlaidIsStaged(e, fs, q.base, q.order, q.input);
    StagedIsConsistent(e, fs, q, run.made.value, run.fs);
    ConsistentRolesHold(e, run.fs, run.made.value);
    ReportsTheCheck(e, fs, q.base, q.order, q.input);
  }

  lemma OneMore(e: Env, fs: Fs, dirs: set<nat>, k: nat)
    requires Sound(fs) && AllConsistent(e, fs, dirs) && ConsistentAt(e, fs, k)
    ensures AllConsistent(e, fs, dirs + {k})
  {
  }

  /** And every other candidate reads as it did. */
  lemma ServedIsConsistent(e: Env, fs: Fs, q: Request, dirs: set<nat>, run: Run)
    requires Sound(fs) && AllConsistent(e, fs, dirs) && q.base in dirs
    requires forall r :: r in q.order <==> r in q.input.swaps
    requires run == Overlaid(e, fs, q.base, q.order, q.input)
    ensures SameCandidates(fs, run.fs, dirs) && (run.ok <==> run.made.Some?)
    ensures run.made.Some? ==> run.made.value !in dirs
    ensures AllConsistent(e, run.fs, if run.made.Some? then dirs + {run.made.value} else dirs)
  {
    assert ConsistentAt(e, fs, q.base);
    assert Isolated(fs, run.fs, run.made) by {
      ConsistentIsClean(e, fs, q.base);
      OverlaidIsolates(e, fs, q.base, q.order, q.input);
    }
    OverlayKeepsCandidates(e, fs, run.fs, run.made, dirs);
    if run.made.Some? {
      MadeIsConsistent(e, fs, q, run);
      OneMore(e, run.fs, dirs, run.made.value);
    }
  }

  /** A consistent candidate is refused as a base only for a split family or a role it lacks. */
  lemma ConsistentIsAccepted(e: Env, fs: Fs, base: nat, swaps: map<Role, Bytes>)
    requires Sound(fs) && ConsistentAt(e, fs, base)
    ensures Accepted(e.sha, fs, base, swaps) <==> WholeFamilies(ViewOf(fs, Dir(base))[ProvenanceJson].p, swaps)
  {
    ConsistentRolesHold(e, fs, base);
  }

  /** A chain of overlays may start from any package. */
  lemma PackageStartsAChain(e: Env, fs: Fs, tree: nat, w: View, k: Package)
    requires Sound(fs) && Packable(e.sha, w, k) && Tmp(Sha256Sums) !in w
    requires ViewOf(fs, Dir(tree)) == Packaged(e.sha, w, tree, k)
    ensures AllConsistent(e, fs, {tree})
  {
    PackageIsConsistent(e.sha, e.idHash, w, tree, k);
    assert ConsistentAt(e, fs, tree);
  }

  // ------------------------------------------------------------------ the program

  class Packager {
    const env: Env
    var fs: Fs

    constructor (env: Env, fs: Fs)
      ensures this.env == env && this.fs == fs
    {
      this.env, this.fs := env, fs;
    }

    /** `replace_file` with new bytes: the temporary's name is freed first, so the inode is always new. */
    method ReplaceFile(tree: Tree, rel: Rel, c: Content)
      modifies this
      ensures fs == Fresh(old(fs), tree, rel, c)
    {
      FreshSteps(fs, tree, rel, c);
      var tmp := At(tree, Tmp(rel));
      if tmp in fs.names {
        fs := Removed(fs, tmp);
      }
      fs := Written(fs, tmp, c);
      fs := Moved(fs, tmp, At(tree, rel));
    }

    method ReplaceLink(tree: Tree, rel: Rel, from: Rel)
      requires At(tree, from) in fs.names && from != Tmp(rel)
      modifies this
      ensures fs == Relinked(old(fs), tree, rel, from)
    {
      RelinkSteps(fs, tree, rel, from);
      var tmp := At(tree, Tmp(rel));
      if tmp in fs.names {
        fs := Removed(fs, tmp);
      }
      fs := Linked(fs, At(tree, from), tmp);
      fs := Moved(fs, tmp, At(tree, rel));
    }

    /** Step 1: every file of the base, in whatever order the walk finds them. */
    method LinkBase(base: Tree)
      requires Sound(fs) && base != Work && !Exists(fs, Work)
      modifies this
      ensures fs == BaseLinked(old(fs), base)
    {
      var todo := RelsOf(fs, base);
      ghost var done := {};
      ghost var before := fs;
      while todo != {}
        invariant Sound(fs) && Untouched(before, fs, Work) && LinksOf(fs, base, Work, done)
        invariant fs.data == before.data && fs.next == before.next
        invariant forall rel :: rel in todo ==> At(base, rel) in fs.names
        invariant forall rel :: At(base, rel) in before.names ==> rel in todo || rel in done
        decreases todo
      {
        var rel :| rel in todo;
        todo := todo - {rel};
        fs := Linked(fs, At(base, rel), At(Work, rel));
        done := done + {rel};
      }
      WalkIsBaseLinked(before, fs, base, done);
    }

    method SwapOne(r: Role, bytes: Bytes)
      modifies this
      ensures fs == RoleSwapped(old(fs), r, bytes)
    {
      ReplaceFile(Work, Bin(r), Blob(bytes));
      if Bundled(r) && At(Work, Bundle(r)) in fs.names {
        ReplaceLink(Work, Bundle(r), Bin(r));
      }
    }

    method SwapAll(order: seq<Role>, swaps: map<Role, Bytes>)
      requires forall r :: r in order ==> r in swaps
      modifies this
      ensures fs == RolesSwapped(old(fs), order, swaps)
    {
      assert order[..0] == [];
      for i := 0 to |order|
        invariant fs == RolesSwapped(old(fs), order[..i], swaps)
      {
        assert order[i] in order && order[..i + 1][..i] == order[..i] && Last(order[..i + 1]) == order[i];
        SwapOne(order[i], swaps[order[i]]);
      }
      assert order[..|order|] == order;
    }

    method AddSource(input: Input)
      modifies this
      ensures fs == SourceAdded(old(fs), input)
    {
      var p := At(Work, SourceTar(input.commit));
      if p !in fs.names {
        fs := Written(fs, p, Blob(input.archive));
      }
    }

    /** Steps 1 to 4. */
    method Prepare(base: nat, order: seq<Role>, input: Input) returns (p: Option<Provenance>)
      requires Sound(fs) && !Exists(fs, Work) && (forall q :: q in order ==> q in input.swaps)
      requires HasParts(ViewOf(fs, Dir(base)))
      modifies this
      ensures match Opened(env, old(fs), base, order, input)
              case None => p == None && fs == Populated(old(fs), base, order, input)
              case Some((provenance, at)) => p == Some(provenance) && fs == at
    {
      var v := ViewOf(fs, Dir(base));
      LinkBase(Dir(base));
      SwapAll(order, input.swaps);
      AddSource(input);
      if !CanRecord(v[ProvenanceJson].p, ViewOf(fs, Work), input) { return None; }
      var provenance := NewProvenance(env, fs, v, base, input);
      ReplaceFile(Work, ProvenanceJson, Prov(provenance));
      p := Some(provenance);
    }

    /** The hashing loop of step 5.  The temporary is opened before anything is hashed and without
        freeing its name: with the name free that makes a new inode, otherwise it truncates the inode
        behind the name.  What has been flushed by the time a file is hashed is up to the environment.  A
        listed file that is not there ends the loop; either way the stream is closed and reads its lines. */
    method HashListed(names: seq<Rel>) returns (o: Outcome, lines: seq<(Digest, Rel)>)
      requires Sound(fs)
      modifies this
      ensures (o, lines) == Hashing(env, old(fs), names) && fs == Written(old(fs), At(Work, SUMS_TMP), Sums(lines))
    {
      ghost var before := fs;
      var tmp := At(Work, SUMS_TMP);
      lines, o := [], Done;
      fs := Written(fs, tmp, Sums([]));
      ghost var seen := Sums([]);
      assert names[..0] == [];
      for k := 0 to |names|
        invariant fs == Written(before, tmp, seen) && Hashing(env, before, names[..k]) == (Done, lines) && o.Done?
      {
        WrittenTwice(before, tmp, seen, env.flushed(k));
        fs := Written(fs, tmp, env.flushed(k));
        seen := env.flushed(k);
        var p := At(Work, names[k]);
        HashingStep(env, before, names, k, lines);
        if p !in fs.names {
          HashingStops(env, before, names, k + 1);
          WrittenTwice(before, tmp, seen, Sums(lines));
          fs := Written(fs, tmp, Sums(lines));
          return Refused, lines;
        }
        lines := lines + [(env.sha(Read(fs, p)), names[k])];
      }
      assert names[..|names|] == names;
      WrittenTwice(before, tmp, seen, Sums(lines));
      fs := Written(fs, tmp, Sums(lines));
    }

    /** Step 5: rehash every listed file, then move the list into place. */
    method RecordSums(v: View, input: Input) returns (o: Outcome)
      requires Sound(fs) && HasParts(v)
      modifies this
      ensures (o, fs) == SumsRecorded(env, old(fs), v, input)
    {
      var lines;
      o, lines := HashListed(Listing(v[Sha256Sums].lines, SourceTar(input.commit)));
      if o.Refused? { return; }
      fs := Moved(fs, At(Work, SUMS_TMP), At(Work, Sha256Sums));
    }

    /** Steps 6 and 7. */
    method Publish(base: nat, tree: nat, m: Manifest, p: Provenance)
      modifies this
      ensures fs == Published(env, old(fs), base, tree, m, p)
    {
      fs := Renamed(fs, Dir(tree));
      ReplaceFile(Dir(tree), ManifestJson, Man(ManifestAfter(m, base, tree, p, env.sha(Prov(p)))));
    }

    /** `_overlay` once the base and the request are accepted and the work directory is empty. */
    method Make(base: nat, order: seq<Role>, input: Input) returns (r: Option<nat>, ok: bool)
      requires Sound(fs) && !Exists(fs, Work) && (forall q :: q in order ==> q in input.swaps)
      requires HasParts(ViewOf(fs, Dir(base)))
      modifies this
      ensures Run(r, ok, fs) == Made(env, old(fs), base, order, input)
    {
      var v := ViewOf(fs, Dir(base));
      var p := Prepare(base, order, input);
      r, ok := None, false;
      if p.None? {
        fs := Cleared(fs, Work);
        return;
      }
      var o := RecordSums(v, input);
      var tree := env.dirOf(IdOf(p.value));
      if o.Refused? || Exists(fs, Dir(tree)) {
        fs := Cleared(fs, Work);
        return;
      }
      Publish(base, tree, v[ManifestJson].m, p.value);
      r := Some(tree);
      ok := RolesHold(env.sha, fs, ManifestAfter(v[ManifestJson].m, base, tree, p.value, env.sha(Prov(p.value))));
    }

    /** `overlay`: the new candidate's directory, if one is made, and whether success is reported. */
    method Overlay(base: nat, order: seq<Role>, input: Input) returns (r: Option<nat>, ok: bool)
      requires Sound(fs) && (forall q :: q in order ==> q in input.swaps)
      modifies this
      ensures Run(r, ok, fs) == Overlaid(env, old(fs), base, order, input)
    {
      var accepted := Accepted(env.sha, fs, base, input.swaps);
      ClearedFacts(fs, Work);
      UntouchedView(fs, Cleared(fs, Work), Work, Dir(base));
      fs := Cleared(fs, Work);
      r, ok := None, false;
      if !accepted { return; }
      r, ok := Make(base, order, input);
    }

    /** One overlay of a consistent candidate.  If a directory is made, success is reported. */
    method Serve(q: Request, dirs: set<nat>) returns (all: set<nat>, ok: bool)
      requires Sound(fs) && AllConsistent(env, fs, dirs) && q.base in dirs
      requires forall r :: r in q.order <==> r in q.input.swaps
      modifies this
      ensures Sound(fs) && dirs <= all && AllConsistent(env, fs, all) && SameCandidates(old(fs), fs, dirs)
      ensures ok <==> all != dirs
      ensures forall names :: AllList(old(fs), dirs, names) ==> AllList(fs, all, names)
    {
      ghost var before := fs;
      var made;
      made, ok := Overlay(q.base, q.order, q.input);
      ServedIsConsistent(env, before, q, dirs, Run(made, ok, fs));
      all := if made.Some? then dirs + {made.value} else dirs;
      forall names | AllList(before, dirs, names) ensures AllList(fs, all, names) {
        ServedListsAll(env, before, q, dirs, Run(made, ok, fs), names);
      }
    }

    /** Any number of overlays, each of a candidate made before it: every candidate is consistent at the
        end, none has changed since it was made, and whatever name the first ones list every one lists.
        `states` and `known` are the file system and the candidates before each request and at the end. */
    method Chain(requests: seq<Request>, dirs: set<nat>)
      returns (all: set<nat>, ghost states: seq<Fs>, ghost known: seq<set<nat>>)
      requires Sound(fs) && AllConsistent(env, fs, dirs)
      requires forall q :: q in requests ==> forall r :: r in q.order <==> r in q.input.swaps
      modifies this
      ensures Sound(fs) && AllConsistent(env, fs, all)
      ensures |states| == |known| == |requests| + 1 && states[0] == old(fs) && known[0] == dirs
      ensures Last(states) == fs && Last(known) == all && Steady(states, known)
      ensures forall names :: AllList(old(fs), dirs, names) ==> AllList(fs, all, names)
    {
      all := dirs;
      states, known := [fs], [dirs];
      for i := 0 to |requests|
        invariant Sound(fs) && AllConsistent(env, fs, all)
        invariant |states| == |known| == i + 1 && states[0] == old(fs) && known[0] == dirs
        invariant Last(states) == fs && Last(known) == all && Steady(states, known)
        invariant forall names :: AllList(old(fs), dirs, names) ==> AllList(fs, all, names)
      {
        assert requests[i] in requests;
        if requests[i].base in all {
          var ok;
          all, ok := Serve(requests[i], all);
        }
        SteadyGrows(states, known, fs, all);
        states, known := states + [fs], known + [all];
      }
    }
  }

  /** Candidates are only added, and those known at a state read the same at every later one. */
  ghost predicate Steady(states: seq<Fs>, known: seq<set<nat>>) {
    && |states| == |known|
    && (forall i :: 0 <= i < |states| ==> Sound(states[i]))
    && (forall i, j :: 0 <= i <= j < |states| ==>
          known[i] <= known[j] && SameCandidates(states[i], states[j], known[i]))
  }

  lemma SteadyGrows(states: seq<Fs>, known: seq<set<nat>>, fs: Fs, all: set<nat>)
    requires states != [] && Steady(states, known) && Sound(fs)
    requires Last(known) <= all && SameCandidates(Last(states), fs, Last(known))
    ensures Steady(states + [fs], known + [all])
  {
    var s, k := states + [fs], known + [all];
    forall i, j | 0 <= i <= j < |s| ensures k[i] <= k[j] && SameCandidates(s[i], s[j], k[i]) {
      if j == |states| && i < j {
        assert known[i] <= known[j - 1] && SameCandidates(states[i], states[j - 1], known[i]);
      }
    }
  }

  datatype Request = Request(base: nat, order: seq<Role>, input: Input)
}

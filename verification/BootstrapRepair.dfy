/**
 * The three-file publication of the bootstrap repair (scripts/application-attachment.py,
 * `repair_prepared_bootstrap`) and the gate every ordinary phase passes (`Attachment.__init__`).
 *
 * As in PayerRepair, a file whose creation was interrupted is `Torn`, `doom` counts the disk steps the
 * process still survives, and one process runs at a time (the repair holds an exclusive lock).
 */
module BootstrapRepair {
  import opened Common
  import opened CrashDisk
  import Edit = BootstrapEdit

  datatype Target = Controller | Stage | Attachment

  datatype Item =
    | Request | SourceBefore | SourceAfter | Status | Evidence | Before(target: Target) | After(target: Target)

  datatype Name = Archive | Saved(item: Item) | Intent | Live(target: Target) | Staged(target: Target) | Complete

  type Files = map<Name, Content>

  /** How the script reads the bytes it handles: the three documents of an archive, the names that follow
      from the attachment, the intent, and whether a request asks for the foreground allowance. */
  datatype Reader = Reader(
    documents: Three -> Option<Edit.Documents>,
    names: Bytes -> Edit.Names,
    intent: Bytes -> Edit.Intent,
    wantsForeground: Bytes -> bool,
    digest: Edit.Laid -> string)

  datatype Three = Three(controller: Bytes, stage: Bytes, attachment: Bytes)

  /** The archived bytes the undo-and-compare check reads. */
  datatype Archived = Archived(request: Bytes, intent: Bytes, before: Three, after: Three)

  /** `BootstrapEdit.Passes` on the documents the bytes hold. */
  predicate Passes(reader: Reader, a: Archived) {
    var before, after := reader.documents(a.before), reader.documents(a.after);
    && before.Some? && after.Some?
    && Edit.Passes(reader.names(a.before.attachment), reader.wantsForeground(a.request), reader.digest,
                   reader.intent(a.intent), before.value, after.value)
  }

  /** What one attempt finds outside the files.  `edited` is the forward edit of the live documents;
      `inputsHold` are the checks of the files the repair does not touch. */
  datatype Attempt = Attempt(
    request: Bytes,
    valid: bool,
    sameSource: bool,
    inputsHold: bool,
    source: Item -> Bytes,
    edited: Target -> Bytes,
    intent: Bytes,
    result: Bytes)

  const ORDER := [Controller, Stage, Attachment]

  const ITEMS := [
    Request, SourceBefore, SourceAfter, Status, Evidence,
    Before(Attachment), Before(Controller), Before(Stage), After(Attachment), After(Controller), After(Stage)]

  predicate Has(f: Files, n: Name, data: Bytes) {
    n in f && f[n] == Whole(data)
  }

  predicate Intact(f: Files, n: Name) {
    n in f && f[n].Whole?
  }

  /** The live file holds its original bytes, or the archived successor. */
  predicate AtBefore(origin: Target -> Bytes, f: Files, t: Target) {
    Has(f, Live(t), origin(t))
  }

  predicate AtAfter(f: Files, t: Target) {
    Intact(f, Saved(After(t))) && Live(t) in f && f[Live(t)] == f[Saved(After(t))]
  }

  predicate AllSaved(f: Files) {
    && Intact(f, Intent) && Intact(f, Saved(Request))
    && forall t :: Intact(f, Saved(Before(t))) && Intact(f, Saved(After(t)))
  }

  function DataAt(f: Files, n: Name): Bytes {
    if Intact(f, n) then f[n].data else []
  }

  function ArchivedOf(f: Files): Archived {
    Archived(
      DataAt(f, Saved(Request)), DataAt(f, Intent),
      Three(DataAt(f, Saved(Before(Controller))), DataAt(f, Saved(Before(Stage))),
            DataAt(f, Saved(Before(Attachment)))),
      Three(DataAt(f, Saved(After(Controller))), DataAt(f, Saved(After(Stage))), DataAt(f, Saved(After(Attachment)))))
  }

  /** The archive is complete and passes the check. */
  predicate Vouched(reader: Reader, f: Files) {
    AllSaved(f) && Passes(reader, ArchivedOf(f))
  }

  predicate SavedOk(origin: Target -> Bytes, f: Files, t: Target) {
    && (Intact(f, Saved(Before(t))) ==> Has(f, Saved(Before(t)), origin(t)))
    && (Intact(f, Intent) ==> Intact(f, Saved(Before(t))) && Intact(f, Saved(After(t))))
  }

  /** A live file that is not the original, like a staged one, comes of an archive that passes. */
  predicate LiveOk(reader: Reader, origin: Target -> Bytes, f: Files, t: Target) {
    && (AtBefore(origin, f, t) || (Vouched(reader, f) && AtAfter(f, t)))
    && (Staged(t) in f ==> Vouched(reader, f))
    && (Intact(f, Staged(t)) ==> f[Staged(t)] == f[Saved(After(t))])
  }

  /** What every crash point keeps. */
  predicate Inv(reader: Reader, origin: Target -> Bytes, f: Files) {
    && (forall t :: SavedOk(origin, f, t))
    && (Intact(f, Intent) ==> Intact(f, Saved(Request)))
    && (forall t :: LiveOk(reader, origin, f, t))
    && (Archive !in f ==> forall t :: AtBefore(origin, f, t))
    && (Archive !in f ==> forall n :: n in f ==> n.Live?)
    && (!AtBefore(origin, f, Stage) ==> AtAfter(f, Controller))
    && (!AtBefore(origin, f, Attachment) ==> AtAfter(f, Controller) && AtAfter(f, Stage))
    && (Complete in f ==> Vouched(reader, f) && forall t :: AtAfter(f, t))
  }

  /** `repair.exists() and not (repair / "complete.json").is_file()` refuses. */
  predicate GateOpen(f: Files) {
    Archive !in f || Complete in f
  }

  /** An ordinary phase that passes the gate sees three before-files or three after-files, never a mix. */
  lemma GateSeesNoMix(reader: Reader, origin: Target -> Bytes, f: Files)
    requires Inv(reader, origin, f) && GateOpen(f)
    ensures (forall t :: AtBefore(origin, f, t)) || (forall t :: AtAfter(f, t))
  {
  }

  /** Whatever is published differs from the original by the rename, the foreground allowance, the stage's
      name and digest and the orchestrator pin, and nothing else: no live file changes otherwise. */
  lemma PublishedIsTheRepair(reader: Reader, origin: Target -> Bytes, f: Files, t: Target)
    requires Inv(reader, origin, f) && !AtBefore(origin, f, t)
    ensures AtAfter(f, t)
    ensures var a := ArchivedOf(f);
            var before, after := reader.documents(Origin(origin)), reader.documents(a.after);
            && before.Some? && after.Some?
            && exists k ::
                 Edit.OnlyTheRepair(reader.names(origin(Attachment)), reader.wantsForeground(a.request), reader.digest,
                                    before.value, after.value, k)
  {
    assert LiveOk(reader, origin, f, t);
    var a := ArchivedOf(f);
    assert SavedOk(origin, f, Controller) && SavedOk(origin, f, Stage) && SavedOk(origin, f, Attachment);
    assert a.before == Origin(origin);
    Edit.PassesExactly(reader.names(a.before.attachment), reader.wantsForeground(a.request), reader.digest,
                       reader.intent(a.intent), reader.documents(a.before).value, reader.documents(a.after).value);
  }

  // ------------------------------------------------------------------ writes

  predicate MayWrite(reader: Reader, origin: Target -> Bytes, f: Files, n: Name, data: Bytes) {
    && Archive in f && n !in f
    && match n
       case Saved(Before(t)) => !Intact(f, Intent) && data == origin(t)
       case Saved(_) => !Intact(f, Intent)
       case Intent => Intact(f, Saved(Request)) && forall t :: Intact(f, Saved(Before(t))) && Intact(f, Saved(After(t)))
       case Staged(t) => Vouched(reader, f) && Has(f, Saved(After(t)), data)
       case Complete => Vouched(reader, f) && forall t :: AtAfter(f, t)
       case _ => false
  }

  /** An archive that is complete is not written again. */
  lemma ArchiveStays(f: Files, g: Files)
    requires AllSaved(f) && g.Keys >= f.Keys - (set n | n in f && n.Staged?)
    requires forall n :: n in f && n in g && (n.Saved? || n == Intent) ==> g[n] == f[n]
    ensures AllSaved(g) && ArchivedOf(g) == ArchivedOf(f)
  {
    forall t ensures Intact(g, Saved(Before(t))) && Intact(g, Saved(After(t))) {
      assert Intact(f, Saved(Before(t))) && Intact(f, Saved(After(t)));
    }
  }

  lemma WriteKeeps(reader: Reader, origin: Target -> Bytes, f: Files, n: Name, data: Bytes, c: Content)
    requires Inv(reader, origin, f) && MayWrite(reader, origin, f, n, data) && (c == Torn || c == Whole(data))
    ensures Inv(reader, origin, f[n := c])
    ensures AllSaved(f) ==> AllSaved(f[n := c]) && ArchivedOf(f[n := c]) == ArchivedOf(f)
  {
    var g := f[n := c];
    if AllSaved(f) { ArchiveStays(f, g); }
    forall t
      ensures SavedOk(origin, g, t) && LiveOk(reader, origin, g, t)
      ensures (AtBefore(origin, f, t) <==> AtBefore(origin, g, t)) && (AtAfter(f, t) ==> AtAfter(g, t))
    {
      assert SavedOk(origin, f, t) && LiveOk(reader, origin, f, t);
    }
  }

  // ------------------------------------------------------------------ publication

  function Replaced(f: Files, t: Target, data: Bytes): Files {
    (f - {Staged(t)})[Live(t) := Whole(data)]
  }

  predicate TurnOf(reader: Reader, f: Files, t: Target) {
    && Vouched(reader, f)
    && (t != Controller ==> AtAfter(f, Controller))
    && (t == Attachment ==> AtAfter(f, Stage))
  }

  lemma ReplaceKeepsArchive(f: Files, t: Target, data: Bytes)
    requires AllSaved(f)
    ensures AllSaved(Replaced(f, t, data)) && ArchivedOf(Replaced(f, t, data)) == ArchivedOf(f)
  {
    ArchiveStays(f, Replaced(f, t, data));
  }

  lemma ReplaceKeeps(reader: Reader, origin: Target -> Bytes, f: Files, t: Target, data: Bytes)
    requires Inv(reader, origin, f) && TurnOf(reader, f, t) && Has(f, Saved(After(t)), data)
    ensures Inv(reader, origin, Replaced(f, t, data)) && AtAfter(Replaced(f, t, data), t)
    ensures forall u :: AtAfter(f, u) ==> AtAfter(Replaced(f, t, data), u)
  {
    var g := Replaced(f, t, data);
    assert Archive in f;
    ReplaceKeepsArchive(f, t, data);
    forall u
      ensures SavedOk(origin, g, u) && LiveOk(reader, origin, g, u)
      ensures u != t ==> (AtBefore(origin, f, u) <==> AtBefore(origin, g, u))
      ensures AtAfter(f, u) ==> AtAfter(g, u)
    {
      assert SavedOk(origin, f, u) && LiveOk(reader, origin, f, u);
    }
  }

  /** Everything the publication of `t` may leave behind, by how it ended: bytes that are neither the
      before- nor the after-bytes are never replaced. */
  predicate PublishEffect(f: Files, g: Files, t: Target, before: Bytes, after: Bytes, o: Outcome) {
    if Has(f, Live(t), after) then
      o == Done && g == f
    else if !Has(f, Live(t), before) || (Staged(t) in f && !Has(f, Staged(t), after)) then
      o == Refused && g == f
    else if o == Done then
      g == Replaced(f, t, after)
    else
      o == Crashed && (g == f || (Staged(t) !in f && (g == f[Staged(t) := Torn] || g == f[Staged(t) := Whole(after)])))
  }

  lemma PublishKeeps(
    reader: Reader, origin: Target -> Bytes, f: Files, g: Files, t: Target, before: Bytes, after: Bytes, o: Outcome)
    requires Inv(reader, origin, f) && TurnOf(reader, f, t) && Has(f, Saved(After(t)), after)
    requires PublishEffect(f, g, t, before, after, o)
    ensures Inv(reader, origin, g) && Vouched(reader, g) && ArchivedOf(g) == ArchivedOf(f)
    ensures o.Done? ==> AtAfter(g, t)
    ensures forall u :: AtAfter(f, u) ==> AtAfter(g, u)
  {
    assert Archive in f;
    if g == f {
    } else if o.Done? {
      ReplaceKeeps(reader, origin, f, t, after);
      ReplaceKeepsArchive(f, t, after);
    } else if g == f[Staged(t) := Torn] {
      WriteKeeps(reader, origin, f, Staged(t), after, Torn);
    } else {
      WriteKeeps(reader, origin, f, Staged(t), after, Whole(after));
    }
  }

  /** With the invariant and no torn temporary, a publication that is not interrupted succeeds. */
  lemma PublishSucceeds(
    reader: Reader, origin: Target -> Bytes, f: Files, g: Files, t: Target, before: Bytes, after: Bytes, o: Outcome)
    requires Inv(reader, origin, f) && Vouched(reader, f)
    requires Has(f, Saved(Before(t)), before) && Has(f, Saved(After(t)), after)
    requires PublishEffect(f, g, t, before, after, o) && !o.Crashed?
    requires Staged(t) in f ==> f[Staged(t)].Whole?
    ensures o.Done?
  {
    assert SavedOk(origin, f, t) && LiveOk(reader, origin, f, t);
  }

  // ------------------------------------------------------------------ the process

  /** The bytes of an archive item, as an attempt on the untouched documents saves it. */
  ghost function ItemBytes(origin: Target -> Bytes, a: Attempt, i: Item): Bytes {
    match i
    case Before(t) => origin(t)
    case After(t) => a.edited(t)
    case Request => a.request
    case _ => a.source(i)
  }

  ghost predicate AllWhole(f: Files) {
    forall n :: n in f ==> f[n].Whole?
  }

  /** Nothing interrupted stands in the way: no torn file, and what earlier attempts left is what this one
      would write. */
  ghost predicate Resumable(reader: Reader, origin: Target -> Bytes, f: Files, a: Attempt) {
    && AllWhole(f) && a.inputsHold && (Complete in f ==> f[Complete] == Whole(a.result))
    && (Intent in f ==> Has(f, Saved(Request), a.request) && a.sameSource && Vouched(reader, f))
    && (Intent !in f ==> a.valid && ItemsFit(origin, f, a) && Passes(reader, FreshArchive(origin, a)))
  }

  ghost predicate ItemsFit(origin: Target -> Bytes, f: Files, a: Attempt) {
    forall i :: Saved(i) in f ==> f[Saved(i)] == Whole(ItemBytes(origin, a, i))
  }

  ghost function FreshArchive(origin: Target -> Bytes, a: Attempt): Archived {
    Archived(a.request, a.intent, Origin(origin),
             Three(a.edited(Controller), a.edited(Stage), a.edited(Attachment)))
  }

  ghost function Origin(origin: Target -> Bytes): Three {
    Three(origin(Controller), origin(Stage), origin(Attachment))
  }

  /** The archive holds the forward edit of the original documents, under some pin of the orchestrator. */
  ghost predicate EditedArchive(reader: Reader, origin: Target -> Bytes, x: Archived) {
    exists source, sourceDigest :: EditedWith(reader, origin, x, source, sourceDigest)
  }

  ghost predicate EditedWith(reader: Reader, origin: Target -> Bytes, x: Archived, source: string,
                             sourceDigest: string) {
    var before := reader.documents(Origin(origin));
    && before.Some?
    && var f := Edit.Forward(reader.names(origin(Attachment)), reader.wantsForeground(x.request), source, sourceDigest,
                             reader.digest, before.value);
       && f.Some? && reader.documents(x.after) == Some(f.value.0) && reader.intent(x.intent) == f.value.1
  }

  /** The attempt's bytes are a forward edit of the original documents. */
  ghost predicate EditsForward(reader: Reader, origin: Target -> Bytes, a: Attempt) {
    EditedArchive(reader, origin, FreshArchive(origin, a))
  }

  /** A complete archive holds a forward edit. */
  ghost predicate Forwarded(reader: Reader, origin: Target -> Bytes, f: Files) {
    AllSaved(f) ==> EditedArchive(reader, origin, ArchivedOf(f))
  }

  function LiveThree(f: Files): Three {
    Three(DataAt(f, Live(Controller)), DataAt(f, Live(Stage)), DataAt(f, Live(Attachment)))
  }

  /** The live documents are a stage prepared for the new name, which differs from the original by the repair. */
  ghost predicate LivePrepared(reader: Reader, origin: Target -> Bytes, f: Files) {
    var names := reader.names(origin(Attachment));
    var before, now := reader.documents(Origin(origin)), reader.documents(LiveThree(f));
    && before.Some? && now.Some? && Edit.PreparedFor(names.newName, reader.digest, now.value)
    && exists k, wants :: Edit.RepairAt(names, wants, reader.digest, before.value, now.value, k)
  }

  /** Published from a forward edit, the live documents are prepared again. */
  lemma PublishedIsPrepared(reader: Reader, origin: Target -> Bytes, f: Files)
    requires AllSaved(f) && Forwarded(reader, origin, f) && (forall t :: AtAfter(f, t))
    ensures LivePrepared(reader, origin, f)
  {
    var x, names := ArchivedOf(f), reader.names(origin(Attachment));
    assert AtAfter(f, Controller) && AtAfter(f, Stage) && AtAfter(f, Attachment);
    assert LiveThree(f) == x.after;
    var source, sourceDigest :| EditedWith(reader, origin, x, source, sourceDigest);
    var before, wants := reader.documents(Origin(origin)).value, reader.wantsForeground(x.request);
    Edit.ForwardPrepares(names, wants, source, sourceDigest, reader.digest, before);
    var k := Edit.ForwardIsTheRepair(names, wants, source, sourceDigest, reader.digest, before);
  }

  lemma StillForwarded(reader: Reader, origin: Target -> Bytes, f: Files, g: Files)
    requires AllSaved(f) && AllSaved(g) && ArchivedOf(g) == ArchivedOf(f)
    ensures Forwarded(reader, origin, f) ==> Forwarded(reader, origin, g)
    ensures Forwarded(reader, origin, f) && (forall t :: AtAfter(g, t)) ==> LivePrepared(reader, origin, g)
  {
    if Forwarded(reader, origin, f) && (forall t :: AtAfter(g, t)) { PublishedIsPrepared(reader, origin, g); }
  }

  /** The original attachment lists the orchestrator's file. */
  ghost predicate ListsOrchestrator(reader: Reader, origin: Target -> Bytes) {
    var before := reader.documents(Origin(origin));
    before.Some? && Edit.ORCHESTRATOR in before.value.pins.files
  }

  /** The archive of a forward edit passes the check exactly when the attachment lists the orchestrator. */
  lemma ForwardArchivePassesExactly(reader: Reader, origin: Target -> Bytes, a: Attempt)
    requires EditsForward(reader, origin, a)
    ensures Passes(reader, FreshArchive(origin, a)) <==> ListsOrchestrator(reader, origin)
  {
    var source, sourceDigest :| EditedWith(reader, origin, FreshArchive(origin, a), source, sourceDigest);
    Edit.ForwardPassesExactly(reader.names(origin(Attachment)), reader.wantsForeground(a.request), source, sourceDigest,
                              reader.digest, reader.documents(Origin(origin)).value);
  }

  /** What has to hold for an attempt to publish anything: the checks of the untouched files, and an archive of
      this request and script, or a valid request whose edit passes. */
  ghost predicate Proceeds(reader: Reader, origin: Target -> Bytes, f: Files, a: Attempt) {
    && a.inputsHold
    && if Intent in f then Has(f, Saved(Request), a.request) && a.sameSource && Vouched(reader, f)
       else a.valid && Passes(reader, FreshArchive(origin, a))
  }

  /** No live file and no staged one differs. */
  ghost predicate SameLive(f: Files, g: Files) {
    forall n: Name :: n.Live? || n.Staged? ==> (n in g <==> n in f) && (n in f ==> g[n] == f[n])
  }

  /** Before the first attempt nothing stands in the way but the attempt's own checks. */
  lemma FreshIsResumableExactly(reader: Reader, origin: Target -> Bytes, f: Files, a: Attempt)
    requires Inv(reader, origin, f) && Archive !in f
    ensures Resumable(reader, origin, f, a) <==> a.valid && a.inputsHold && Passes(reader, FreshArchive(origin, a))
  {
    forall n | n in f ensures f[n].Whole? {
      assert AtBefore(origin, f, n.target);
    }
  }

  /** A first attempt with a forward edit is held up by its checks and an unlisted orchestrator, and by nothing
      else. */
  lemma FirstAttemptExactly(reader: Reader, origin: Target -> Bytes, f: Files, a: Attempt)
    requires Inv(reader, origin, f)
    ensures Archive !in f && EditsForward(reader, origin, a) ==>
            && (Proceeds(reader, origin, f, a) <==> a.valid && a.inputsHold && ListsOrchestrator(reader, origin))
            && (Resumable(reader, origin, f, a) <==> Proceeds(reader, origin, f, a))
  {
    if Archive !in f && EditsForward(reader, origin, a) {
      FreshIsResumableExactly(reader, origin, f, a);
      ForwardArchivePassesExactly(reader, origin, a);
    }
  }

  /** The bytes a completed repair leaves: those archived, or this attempt's edit if nothing is yet. */
  ghost function Successor(f: Files, a: Attempt, t: Target): Bytes {
    if Intent in f then DataAt(f, Saved(After(t))) else a.edited(t)
  }

  /** Only `n` may differ. */
  ghost predicate OnlyAt(f: Files, g: Files, n: Name) {
    forall m :: m != n ==> (m in g <==> m in f) && (m in f ==> g[m] == f[m])
  }

  ghost predicate AllForward(reader: Reader, origin: Target -> Bytes, attempts: seq<(Attempt, Option<nat>)>) {
    forall i :: 0 <= i < |attempts| ==> EditsForward(reader, origin, attempts[i].0)
  }

  class Repair {
    const reader: Reader
    ghost const origin: Target -> Bytes
    var files: Files
    var doom: Option<nat>

    constructor (reader: Reader, live: map<Target, Bytes>, ghost origin: Target -> Bytes)
      requires forall t :: t in live && live[t] == origin(t)
      ensures this.origin == origin && this.reader == reader && Inv(reader, origin, files) && Archive !in files
    {
      this.reader, this.origin := reader, origin;
      var names := set t | t in live :: Live(t);
      files := map n | n in names :: Whole(live[n.target]);
      doom := None;
      new;
      forall t ensures SavedOk(origin, files, t) && LiveOk(reader, origin, files, t) && AtBefore(origin, files, t) {
        assert t in live;
      }
    }

    method Tick() returns (o: Outcome)
      modifies this`doom
      ensures o.Done? || o.Crashed?
      ensures old(doom).None? ==> doom.None? && o.Done?
    {
      if doom.None? { return Done; }
      if doom.value == 0 { return Crashed; }
      doom := Some(doom.value - 1);
      o := Done;
    }

    /** Exclusive creation, then the bytes: a crash in between leaves a torn file. */
    method Create(n: Name, data: Bytes) returns (o: Outcome)
      requires n !in files
      modifies this
      ensures !o.Refused?
      ensures o.Done? ==> files == old(files)[n := Whole(data)]
      ensures o.Crashed? ==> files == old(files) || files == old(files)[n := Torn]
      ensures old(doom).None? ==> doom.None? && o.Done?
    {
      o := Tick();
      if o.IsFailure() { return; }
      files := files[n := Torn];
      :- Tick();
      files := files[n := Whole(data)];
      o := Done;
    }

    /** One item of the archive: an item left by an interrupted attempt must already hold these bytes. */
    method Save(i: Item, data: Bytes) returns (o: Outcome)
      requires Inv(reader, origin, files) && Archive in files && !Intact(files, Intent)
      requires i.Before? ==> data == origin(i.target)
      modifies this
      ensures Inv(reader, origin, files) && OnlyAt(old(files), files, Saved(i))
      ensures o.Done? ==> Has(files, Saved(i), data)
      ensures old(doom).None? ==> doom.None?
      ensures old(doom).None? && (Saved(i) in old(files) ==> old(files)[Saved(i)] == Whole(data)) ==> o.Done?
    {
      if Saved(i) in files {
        if files[Saved(i)] != Whole(data) { return Refused; }
        return Done;
      }
      ghost var f := files;
      o := Create(Saved(i), data);
      if files != f { WriteKeeps(reader, origin, f, Saved(i), data, files[Saved(i)]); }
    }

    /** One item with the bytes it should hold, read from the live file where it is a copy of one. */
    method SaveItem(a: Attempt, i: Item) returns (o: Outcome)
      requires Inv(reader, origin, files) && Archive in files && Intent !in files
      modifies this
      ensures Inv(reader, origin, files) && OnlyAt(old(files), files, Saved(i))
      ensures o.Done? ==> Has(files, Saved(i), ItemBytes(origin, a, i))
      ensures old(doom).None? ==> doom.None?
      ensures old(doom).None? && old(ItemsFit(origin, files, a)) ==> o.Done?
    {
      BeforeIntent(reader, origin, files);
      assert i.Before? ==> AtBefore(origin, files, i.target);
      var data := match i
        case Before(t) => files[Live(t)].data
        case After(t) => a.edited(t)
        case Request => a.request
        case _ => a.source(i);
      o := Save(i, data);
    }

    /** The archive items, one by one. */
    method SaveItems(a: Attempt) returns (o: Outcome)
      requires Inv(reader, origin, files) && Archive in files && Intent !in files
      modifies this
      ensures Inv(reader, origin, files) && Archive in files && Intent !in files
      ensures o.Done? ==> forall i :: Has(files, Saved(i), ItemBytes(origin, a, i))
      ensures forall n: Name :: !n.Saved? ==>
              (n in files <==> n in old(files)) && (n in files ==> files[n] == old(files)[n])
      ensures old(doom).None? ==> doom.None?
      ensures old(doom).None? && old(ItemsFit(origin, files, a)) ==> o.Done?
    {
      ghost var undisturbed := doom.None? && ItemsFit(origin, files, a);
      for k := 0 to |ITEMS|
        invariant Inv(reader, origin, files) && Archive in files && Intent !in files
        invariant forall j :: 0 <= j < k ==> Has(files, Saved(ITEMS[j]), ItemBytes(origin, a, ITEMS[j]))
        invariant forall n: Name :: !n.Saved? ==>
                  (n in files <==> n in old(files)) && (n in files ==> files[n] == old(files)[n])
        invariant (old(doom).None? ==> doom.None?) && (undisturbed ==> ItemsFit(origin, files, a))
      {
        ghost var f := files;
        o := SaveItem(a, ITEMS[k]);
        FitsStill(origin, f, files, a, ITEMS[k], o);
        if o.IsFailure() { return; }
      }
      forall i ensures Has(files, Saved(i), ItemBytes(origin, a, i)) {
        ItemsCover(i);
      }
      o := Done;
    }

    /** The archive, then the intent that makes it binding. */
    method SaveArchive(a: Attempt) returns (o: Outcome)
      requires Inv(reader, origin, files) && Archive in files && Intent !in files
      modifies this
      ensures Inv(reader, origin, files)
      ensures o.Done? ==> AllSaved(files) && ArchivedOf(files) == FreshArchive(origin, a)
      ensures o.Done? ==> forall t :: Has(files, Saved(After(t)), a.edited(t))
      ensures o.Done? ==> forall n: Name :: !n.Saved? && n != Intent ==>
              (n in files <==> n in old(files)) && (n in files ==> files[n] == old(files)[n])
      ensures o.Done? && old(AllWhole(files)) ==> AllWhole(files)
      ensures old(doom).None? ==> doom.None?
      ensures old(doom).None? && old(ItemsFit(origin, files, a)) ==> o.Done?
      ensures SameLive(old(files), files) && (!o.Done? ==> !AllSaved(files))
    {
      o := SaveItems(a);
      if o.IsFailure() { return; }
      ghost var f := files;
      SealedArchive(origin, f, a);
      o := Create(Intent, a.intent);
      if files != f { WriteKeeps(reader, origin, f, Intent, a.intent, files[Intent]); }
    }

    /** One target: compare, stage, replace. */
    method Publish(t: Target, before: Bytes, after: Bytes) returns (o: Outcome)
      modifies this
      ensures PublishEffect(old(files), files, t, before, after, o)
      ensures old(doom).None? ==> doom.None? && !o.Crashed?
    {
      if Live(t) !in files { return Refused; }
      var current := files[Live(t)];
      if current == Whole(after) { return Done; }
      if current != Whole(before) { return Refused; }
      if Staged(t) in files {
        if files[Staged(t)] != Whole(after) { return Refused; }
      } else {
        :- Create(Staged(t), after);
      }
      :- Tick();
      files := Replaced(files, t, after);
      o := Done;
    }

    /** One target in its turn, from the archived bytes. */
    method PublishTurn(t: Target) returns (o: Outcome)
      requires Inv(reader, origin, files) && TurnOf(reader, files, t)
      modifies this
      ensures Inv(reader, origin, files) && Vouched(reader, files) && ArchivedOf(files) == old(ArchivedOf(files))
      ensures (forall u :: old(AtAfter(files, u)) ==> AtAfter(files, u)) && (o.Done? ==> AtAfter(files, t))
      ensures forall n: Name :: !n.Live? && !n.Staged? ==>
              (n in files <==> n in old(files)) && (n in files ==> files[n] == old(files)[n])
      ensures old(doom).None? ==> doom.None?
      ensures old(doom).None? && old(AllWhole(files)) ==> o.Done? && AllWhole(files)
    {
      assert SavedOk(origin, files, t) && Intact(files, Saved(Before(t))) && Intact(files, Saved(After(t)));
      ghost var f := files;
      var before, after := files[Saved(Before(t))].data, files[Saved(After(t))].data;
      o := Publish(t, before, after);
      PublishKeeps(reader, origin, f, files, t, before, after, o);
      if old(doom).None? && AllWhole(f) { PublishSucceeds(reader, origin, f, files, t, before, after, o); }
    }

    /** The three targets, in order, from the archived bytes. */
    method PublishAll() returns (o: Outcome)
      requires Inv(reader, origin, files) && Vouched(reader, files)
      modifies this
      ensures Inv(reader, origin, files) && Vouched(reader, files) && ArchivedOf(files) == old(ArchivedOf(files))
      ensures o.Done? ==> forall t :: AtAfter(files, t)
      ensures Complete in files <==> Complete in old(files)
      ensures Complete in files ==> files[Complete] == old(files)[Complete]
      ensures old(doom).None? ==> doom.None?
      ensures old(doom).None? && old(AllWhole(files)) ==> o.Done?
    {
      ghost var undisturbed := doom.None? && AllWhole(files);
      for k := 0 to |ORDER|
        invariant Inv(reader, origin, files) && Vouched(reader, files) && ArchivedOf(files) == old(ArchivedOf(files))
        invariant forall j :: 0 <= j < k ==> AtAfter(files, ORDER[j])
        invariant Complete in files <==> Complete in old(files)
        invariant Complete in files ==> files[Complete] == old(files)[Complete]
        invariant (old(doom).None? ==> doom.None?) && (undisturbed ==> AllWhole(files))
      {
        assert k > 0 ==> AtAfter(files, ORDER[0]);
        assert k > 1 ==> AtAfter(files, ORDER[1]);
        o := PublishTurn(ORDER[k]);
        if !o.Done? { return; }
      }
      assert AtAfter(files, ORDER[0]) && AtAfter(files, ORDER[1]) && AtAfter(files, ORDER[2]);
      forall t ensures AtAfter(files, t) {
        assert t == ORDER[0] || t == ORDER[1] || t == ORDER[2];
      }
      o := Done;
    }

    /** From an archive that passes to completion. */
    method Finish(a: Attempt) returns (o: Outcome)
      requires Inv(reader, origin, files) && Vouched(reader, files)
      modifies this
      ensures Inv(reader, origin, files)
      ensures o.Done? ==> GateOpen(files) && Has(files, Complete, a.result) && forall t :: AtAfter(files, t)
      ensures AllSaved(files) && ArchivedOf(files) == old(ArchivedOf(files))
      ensures old(doom).None? && old(AllWhole(files))
              && (Complete in old(files) ==> old(files)[Complete] == Whole(a.result))
              ==> o.Done?
    {
      o := PublishAll();
      if o.IsFailure() { return; }
      if Complete in files {
        if files[Complete] != Whole(a.result) { return Refused; }
        return Done;
      }
      ghost var f := files;
      assert Archive in f;
      o := Create(Complete, a.result);
      if files != f {
        WriteKeeps(reader, origin, f, Complete, a.result, files[Complete]);
      }
    }

    /** The archive directory. */
    method MakeArchive() returns (o: Outcome)
      requires Inv(reader, origin, files)
      modifies this
      ensures Inv(reader, origin, files) && OnlyAt(old(files), files, Archive)
      ensures o.Done? ==> Archive in files && (Archive !in old(files) ==> files[Archive].Whole?)
      ensures Archive in old(files) ==> o.Done? && files == old(files)
      ensures old(doom).None? ==> doom.None? && o.Done?
    {
      if Archive !in files {
        ghost var f := files;
        o := Tick();
        if o.IsFailure() { return; }
        files := files[Archive := Whole([])];
        MakeArchiveKeeps(reader, origin, f);
      }
      o := Done;
    }

    /** The archive's bytes: retained ones are resumed only for the same request and script. */
    method Retain(a: Attempt) returns (o: Outcome)
      requires Inv(reader, origin, files) && Archive in files
      modifies this
      ensures Inv(reader, origin, files)
      ensures o.Done? && Intent in old(files) ==> files == old(files) && AllSaved(files)
      ensures o.Done? && Intent !in old(files) ==>
              && AllSaved(files) && ArchivedOf(files) == FreshArchive(origin, a)
              && forall t :: Has(files, Saved(After(t)), a.edited(t))
      ensures o.Done? ==>
              && (Complete in files <==> Complete in old(files))
              && (Complete in files ==> files[Complete] == old(files)[Complete])
      ensures o.Done? && old(AllWhole(files)) ==> AllWhole(files)
      ensures old(doom).None? ==> doom.None?
      ensures old(doom).None? && old(Resumable(reader, origin, files, a)) ==> o.Done?
      ensures o.Done? && Intent !in old(files) ==> a.valid
      ensures o.Done? && Intent in old(files) ==> Has(old(files), Saved(Request), a.request) && a.sameSource
      ensures SameLive(old(files), files) && (Intent in old(files) ==> files == old(files))
      ensures old(Forwarded(reader, origin, files)) && EditsForward(reader, origin, a) ==>
                Forwarded(reader, origin, files)
    {
      if Intent in files {
        if !files[Intent].Whole? { return Refused; }
        if Saved(Request) !in files || files[Saved(Request)] != Whole(a.request) { return Refused; }
        if !a.sameSource { return Refused; }
        forall t ensures Intact(files, Saved(Before(t))) && Intact(files, Saved(After(t))) {
          assert SavedOk(origin, files, t);
        }
        o := Done;
      } else {
        if !a.valid { return Refused; }
        o := SaveArchive(a);
      }
    }

    /** The archive, resumed or made; either way it has to pass before anything is published. */
    method Begin(a: Attempt) returns (o: Outcome)
      requires Inv(reader, origin, files)
      modifies this
      ensures Inv(reader, origin, files)
      ensures o.Done? ==> Vouched(reader, files) && forall t :: Has(files, Saved(After(t)), old(Successor(files, a, t)))
      ensures o.Done? ==>
              && (Complete in files <==> Complete in old(files))
              && (Complete in files ==> files[Complete] == old(files)[Complete])
      ensures o.Done? && old(AllWhole(files)) ==> AllWhole(files)
      ensures old(doom).None? ==> doom.None?
      ensures old(doom).None? && old(Resumable(reader, origin, files, a)) ==> o.Done?
      ensures o.Done? ==> old(Proceeds(reader, origin, files, a))
      ensures SameLive(old(files), files) && (Intent in old(files) ==> files == old(files))
      ensures old(Forwarded(reader, origin, files)) && EditsForward(reader, origin, a) ==>
                Forwarded(reader, origin, files)
    {
      ghost var f := files;
      o := MakeArchive();
      if o.IsFailure() { return; }
      ghost var g := files;
      StillResumable(reader, origin, f, g, a);
      o := Retain(a);
      if o.IsFailure() { return; }
      if !Vouched(reader, files) || !a.inputsHold { return Refused; }
    }

    /** `repair_prepared_bootstrap`, from start to completion, refusal or crash.  An attempt that nothing
        disturbs, from any state that nothing torn or foreign blocks, completes with the archived bytes; the
        first one, with the forward edit of the original documents, completes exactly when its checks hold
        and the attachment lists the orchestrator.  An attempt that may not proceed touches no live file, and
        one that resumes another request or script touches nothing.  When every archive was made by forward
        edits, a completed attempt leaves a prepared stage. */
    method Try(a: Attempt, doom: Option<nat>) returns (o: Outcome)
      requires Inv(reader, origin, files)
      modifies this
      ensures Inv(reader, origin, files)
      ensures o.Done? ==>
              GateOpen(files) && forall t :: AtAfter(files, t) && Has(files, Live(t), old(Successor(files, a, t)))
      ensures o.Done? ==> Has(files, Complete, a.result)
      ensures doom.None? && old(Resumable(reader, origin, files, a)) ==> o.Done?
      ensures doom.None? && Archive !in old(files) && EditsForward(reader, origin, a) ==>
              (o.Done? <==> a.valid && a.inputsHold && ListsOrchestrator(reader, origin))
      ensures o.Done? ==> old(Proceeds(reader, origin, files, a))
      ensures !old(Proceeds(reader, origin, files, a)) ==>
              SameLive(old(files), files) && (Intent in old(files) ==> files == old(files))
      ensures old(Forwarded(reader, origin, files)) && EditsForward(reader, origin, a) ==>
              Forwarded(reader, origin, files) && (o.Done? ==> LivePrepared(reader, origin, files))
    {
      FirstAttemptExactly(reader, origin, files, a);
      this.doom := doom;
      o := Begin(a);
      if o.IsFailure() { return; }
      ghost var f := files;
      o := Finish(a);
      if o.Done? { SuccessorsAreLive(f, files); }
      StillForwarded(reader, origin, f, files);
    }

    /** Any number of attempts, each dying wherever it may: the gate never shows a mix, and with forward edits
        it shows the original or a prepared stage. */
    method Lifetime(attempts: seq<(Attempt, Option<nat>)>)
      requires Inv(reader, origin, files)
      modifies this
      ensures Inv(reader, origin, files)
      ensures GateOpen(files) ==> (forall t :: AtBefore(origin, files, t)) || (forall t :: AtAfter(files, t))
      ensures old(Forwarded(reader, origin, files)) && AllForward(reader, origin, attempts) && GateOpen(files) ==>
              (forall t :: AtBefore(origin, files, t)) || LivePrepared(reader, origin, files)
    {
      for i := 0 to |attempts|
        invariant Inv(reader, origin, files)
        invariant old(Forwarded(reader, origin, files)) && AllForward(reader, origin, attempts) ==>
                  Forwarded(reader, origin, files)
      {
        var o := Try(attempts[i].0, attempts[i].1);
      }
      if GateOpen(files) {
        GateSeesNoMix(reader, origin, files);
        if Complete in files && Forwarded(reader, origin, files) { PublishedIsPrepared(reader, origin, files); }
      }
    }
  }

  lemma MakeArchiveKeeps(reader: Reader, origin: Target -> Bytes, f: Files)
    requires Inv(reader, origin, f) && Archive !in f
    ensures Inv(reader, origin, f[Archive := Whole([])])
  {
    var g := f[Archive := Whole([])];
    forall t ensures SavedOk(origin, g, t) && LiveOk(reader, origin, g, t) && AtBefore(origin, g, t) {
      assert SavedOk(origin, f, t) && LiveOk(reader, origin, f, t) && AtBefore(origin, f, t);
    }
  }

  lemma StillResumable(reader: Reader, origin: Target -> Bytes, f: Files, g: Files, a: Attempt)
    requires OnlyAt(f, g, Archive) && Archive in g && (Archive in f ==> g == f) && (Archive !in f ==> g[Archive].Whole?)
    ensures Resumable(reader, origin, f, a) ==> Resumable(reader, origin, g, a)
    ensures AllWhole(f) ==> AllWhole(g)
    ensures forall t :: Successor(g, a, t) == Successor(f, a, t)
  {
    if Vouched(reader, f) { ArchiveStays(f, g); }
  }

  /** Without an intent nothing is published. */
  lemma BeforeIntent(reader: Reader, origin: Target -> Bytes, f: Files)
    requires Inv(reader, origin, f) && Intent !in f
    ensures forall t :: AtBefore(origin, f, t)
  {
    forall t ensures AtBefore(origin, f, t) {
      assert LiveOk(reader, origin, f, t);
    }
  }

  /** With every item saved, the intent completes the archive. */
  lemma SealedArchive(origin: Target -> Bytes, f: Files, a: Attempt)
    requires forall i :: Has(f, Saved(i), ItemBytes(origin, a, i))
    ensures Intact(f, Saved(Request)) && forall t :: Intact(f, Saved(Before(t))) && Intact(f, Saved(After(t)))
    ensures var g := f[Intent := Whole(a.intent)];
            AllSaved(g) && ArchivedOf(g) == FreshArchive(origin, a) && forall t :: Has(g, Saved(After(t)), a.edited(t))
  {
    var g := f[Intent := Whole(a.intent)];
    assert Has(g, Saved(Request), ItemBytes(origin, a, Request)) by {
      assert Has(f, Saved(Request), ItemBytes(origin, a, Request));
    }
    forall t ensures Has(f, Saved(Before(t)), origin(t)) && Has(f, Saved(After(t)), a.edited(t))
      ensures Has(g, Saved(Before(t)), origin(t)) && Has(g, Saved(After(t)), a.edited(t))
    {
      assert Has(f, Saved(Before(t)), ItemBytes(origin, a, Before(t))) &&
             Has(f, Saved(After(t)), ItemBytes(origin, a, After(t)));
    }
  }

  lemma FitsStill(origin: Target -> Bytes, f: Files, g: Files, a: Attempt, i: Item, o: Outcome)
    requires OnlyAt(f, g, Saved(i)) && (o.Done? ==> Has(g, Saved(i), ItemBytes(origin, a, i)))
    ensures o.Done? && ItemsFit(origin, f, a) ==> ItemsFit(origin, g, a)
  {
  }

  /** The same archive, all three published: the live bytes are the archived successors. */
  lemma SuccessorsAreLive(f: Files, g: Files)
    requires AllSaved(f) && AllSaved(g) && ArchivedOf(g) == ArchivedOf(f) && (forall t :: AtAfter(g, t))
    ensures forall t :: Has(g, Live(t), DataAt(f, Saved(After(t))))
  {
    var a, b := ArchivedOf(f), ArchivedOf(g);
    assert a.after.controller == b.after.controller && a.after.stage == b.after.stage &&
           a.after.attachment == b.after.attachment;
    forall t ensures Has(g, Live(t), DataAt(f, Saved(After(t)))) {
      assert AtAfter(g, t);
      assert t == Controller || t == Stage || t == Attachment;
    }
  }

  lemma ItemsCover(i: Item)
    ensures exists j :: 0 <= j < |ITEMS| && ITEMS[j] == i
  {
    match i
    case Request => assert ITEMS[0] == i;
    case SourceBefore => assert ITEMS[1] == i;
    case SourceAfter => assert ITEMS[2] == i;
    case Status => assert ITEMS[3] == i;
    case Evidence => assert ITEMS[4] == i;
    case Before(Attachment) => assert ITEMS[5] == i;
    case Before(Controller) => assert ITEMS[6] == i;
    case Before(Stage) => assert ITEMS[7] == i;
    case After(Attachment) => assert ITEMS[8] == i;
    case After(Controller) => assert ITEMS[9] == i;
    case After(Stage) => assert ITEMS[10] == i;
  }
}

/**
 * The bootstrap rename and its undo-and-compare check (scripts/application-attachment.py,
 * `repair_prepared_bootstrap`): the forward edit that builds the after-documents, and the check that
 * every publication, fresh or resumed from an archive, must pass first.
 *
 * The documents keep the fields the repair reads or writes; everything else is one opaque `rest`.
 * `digest` stands for the SHA-256 of a controller file's bytes.
 */
module BootstrapEdit {
  import opened Common

  datatype Entry = Entry(name: Option<string>, rest: string)

  /** A `foregroundTool` member: missing, null, or a value. */
  datatype Foreground = Missing | Null | Value(text: string)

  datatype Controller = Controller(applications: seq<Entry>, foreground: Foreground, rest: string)

  datatype Stage = Stage(application: string, configDigest: string, rest: string)

  datatype Pins = Pins(files: map<string, string>, digests: map<string, string>, rest: string)

  /** The controller file's bytes are its value and its layout; the repair writes layout 0. */
  datatype Laid = Laid(value: Controller, layout: nat)

  datatype Documents = Documents(controller: Laid, stage: Stage, pins: Pins)

  datatype Names = Names(oldName: string, newName: string)

  datatype Intent = Intent(names: Names, initialized: bool)

  const MINIMAL := Value("{reserve 1, charge 0}")

  const ORCHESTRATOR := "orchestrator"

  /** The application's old bootstrap name and the new one: the `-app` suffix moves to the end. */
  function NamesOf(application: string): Names
    requires 4 <= |application|
  {
    Names(application + "-bootstrap", application[..|application| - 4] + "-bootstrap-app")
  }

  /** The old name ends an application's name in `-bootstrap`, the new one in `-bootstrap-app`; the rename
      always changes the name. */
  lemma NamesDiffer(stem: string)
    ensures NamesOf(stem + "-app") == Names(stem + "-app-bootstrap", stem + "-bootstrap-app")
    ensures NamesOf(stem + "-app").oldName != NamesOf(stem + "-app").newName
  {
    var app := stem + "-app";
    assert app[..|app| - 4] == stem && app + "-bootstrap" == stem + "-app-bootstrap";
    assert NamesOf(app).oldName[|stem| + 1] == 'a' && NamesOf(app).newName[|stem| + 1] == 'b';
  }

  predicate Absent(f: Foreground) {
    f.Missing? || f.Null?
  }

  function Rename(entries: seq<Entry>, i: nat, name: string): seq<Entry>
    requires i < |entries|
  {
    entries[i := entries[i].(name := Some(name))]
  }

  /** The positions of the entries called `name`. */
  function Named(entries: seq<Entry>, name: string): seq<nat> {
    if entries == [] then []
    else
      var n := |entries| - 1;
      Named(entries[..n], name) + (if entries[n].name == Some(name) then [n] else [])
  }

  lemma {:induction false} NamedMeans(entries: seq<Entry>, name: string)
    ensures forall k: nat :: k in Named(entries, name) <==> k < |entries| && entries[k].name == Some(name)
  {
    if entries != [] {
      var front := entries[..|entries| - 1];
      NamedMeans(front, name);
    }
  }

  /** `k` is the only entry called `name`. */
  predicate OnlyOne(entries: seq<Entry>, name: string, k: nat) {
    && k < |entries| && entries[k].name == Some(name)
    && forall j :: 0 <= j < |entries| && j != k ==> entries[j].name != Some(name)
  }

  lemma OneNamed(entries: seq<Entry>, name: string)
    ensures |Named(entries, name)| == 1 ==> OnlyOne(entries, name, Named(entries, name)[0])
    ensures forall k: nat :: OnlyOne(entries, name, k) ==> Named(entries, name) == [k]
  {
    var found := Named(entries, name);
    NamedMeans(entries, name);
    if |found| == 1 {
      assert found[0] in found;
      forall j: nat | j < |entries| && j != found[0] ensures entries[j].name != Some(name) {
        assert j !in found;
      }
    }
    forall k: nat | OnlyOne(entries, name, k) ensures found == [k] {
      NamedOnce(entries, name, k);
    }
  }

  lemma {:induction false} NamedNowhere(entries: seq<Entry>, name: string)
    requires forall j :: 0 <= j < |entries| ==> entries[j].name != Some(name)
    ensures Named(entries, name) == []
  {
    if entries != [] {
      NamedNowhere(entries[..|entries| - 1], name);
    }
  }

  lemma {:induction false} NamedOnce(entries: seq<Entry>, name: string, k: nat)
    requires OnlyOne(entries, name, k)
    ensures Named(entries, name) == [k]
  {
    var front := entries[..|entries| - 1];
    if k == |front| {
      NamedNowhere(front, name);
    } else {
      NamedOnce(front, name, k);
    }
  }

  /** Lines 937-967: refuse anything but the exact legacy name, then build the after-documents. */
  function Forward(
    names: Names, wantsForeground: bool, source: string, sourceDigest: string, digest: Laid -> string,
    before: Documents)
    : Option<(Documents, Intent)>
  {
    var c := before.controller.value;
    var selected := Named(c.applications, names.oldName);
    if |selected| != 1 || Named(c.applications, names.newName) != [] || before.stage.application != names.oldName
       || before.stage.configDigest != digest(before.controller)
       || ORCHESTRATOR !in before.pins.digests || selected[0] >= |c.applications| then None
    else
      var initialized := wantsForeground && Absent(c.foreground);
      var edited := Laid(
        c.(applications := Rename(c.applications, selected[0], names.newName),
           foreground := if initialized then MINIMAL else c.foreground), 0);
      Some((Documents(
        edited,
        before.stage.(application := names.newName, configDigest := digest(edited)),
        before.pins.(files := before.pins.files[ORCHESTRATOR := source],
                     digests := before.pins.digests[ORCHESTRATOR := sourceDigest])),
        Intent(names, initialized)))
  }

  /** Lines 985-1006: undo the permitted changes on the after-documents and require the before-documents. */
  predicate Passes(
    names: Names, wantsForeground: bool, digest: Laid -> string, intent: Intent, before: Documents, after: Documents)
  {
    var was, now := before.controller.value, after.controller.value;
    var renamed := Named(now.applications, names.newName);
    var initialized := wantsForeground && Absent(was.foreground);
    && |renamed| == 1 && renamed[0] < |now.applications|
    && intent == Intent(names, initialized)
    && (initialized ==> now.foreground == MINIMAL)
    && ORCHESTRATOR in before.pins.files && ORCHESTRATOR in before.pins.digests
    && now.(applications := Rename(now.applications, renamed[0], names.oldName),
            foreground := if initialized then was.foreground else now.foreground) == was
    && after.stage.(application := names.oldName, configDigest := digest(before.controller)) == before.stage
    && after.pins.(files := after.pins.files[ORCHESTRATOR := before.pins.files[ORCHESTRATOR]],
                   digests := after.pins.digests[ORCHESTRATOR := before.pins.digests[ORCHESTRATOR]]) == before.pins
  }

  /** The most an archive may change: the `k`-th entry's name, the foreground allowance where it was
      asked for and absent, the stage's application name and configuration digest, and the pin of the
      orchestrator. */
  predicate RepairAt(
    names: Names, wantsForeground: bool, digest: Laid -> string, before: Documents, after: Documents, k: nat)
  {
    var was, now := before.controller.value, after.controller.value;
    && k < |was.applications| && was.applications[k].name == Some(names.oldName)
    && (forall j :: 0 <= j < |was.applications| && j != k ==> was.applications[j].name != Some(names.newName))
    && now == was.(applications := Rename(was.applications, k, names.newName),
                   foreground := if wantsForeground && !was.foreground.Value? then MINIMAL else was.foreground)
    && before.stage.application == names.oldName && before.stage.configDigest == digest(before.controller)
    && after.stage == before.stage.(application := after.stage.application, configDigest := after.stage.configDigest)
    && after.pins.rest == before.pins.rest
    && after.pins.files - {ORCHESTRATOR} == before.pins.files - {ORCHESTRATOR}
    && after.pins.digests - {ORCHESTRATOR} == before.pins.digests - {ORCHESTRATOR}
  }

  /** The same, with the orchestrator pinned by path and digest before. */
  predicate OnlyTheRepair(
    names: Names, wantsForeground: bool, digest: Laid -> string, before: Documents, after: Documents, k: nat)
  {
    && RepairAt(names, wantsForeground, digest, before, after, k)
    && ORCHESTRATOR in before.pins.files && ORCHESTRATOR in before.pins.digests
  }

  /** The stage is prepared for an application of this name: the controller has one such entry, the stage
      names it and carries the digest of the controller's bytes. */
  ghost predicate PreparedFor(name: string, digest: Laid -> string, d: Documents) {
    && d.stage.application == name && d.stage.configDigest == digest(d.controller)
    && exists k: nat :: OnlyOne(d.controller.value.applications, name, k)
  }

  predicate PinsOrchestrator(pins: Pins, source: string, sourceDigest: string) {
    && ORCHESTRATOR in pins.files && pins.files[ORCHESTRATOR] == source
    && ORCHESTRATOR in pins.digests && pins.digests[ORCHESTRATOR] == sourceDigest
  }

  lemma RenameBack(entries: seq<Entry>, k: nat, a: string, b: string)
    requires k < |entries| && entries[k].name == Some(a)
    ensures Rename(Rename(entries, k, b), k, a) == entries
  {
  }

  lemma PinUndo(was: map<string, string>, now: map<string, string>)
    requires ORCHESTRATOR in was
    ensures now[ORCHESTRATOR := was[ORCHESTRATOR]] == was <==> now - {ORCHESTRATOR} == was - {ORCHESTRATOR}
  {
    if now - {ORCHESTRATOR} == was - {ORCHESTRATOR} {
      var undone := now[ORCHESTRATOR := was[ORCHESTRATOR]];
      forall k | k in undone ensures k in was && was[k] == undone[k] {
        if k != ORCHESTRATOR { assert k in now - {ORCHESTRATOR}; }
      }
      forall k | k in was ensures k in undone {
        if k != ORCHESTRATOR { assert k in was - {ORCHESTRATOR}; }
      }
    }
  }

  /** An archive passes the check exactly when it differs from the original by the repair and no more. */
  lemma PassesExactly(
    names: Names, wantsForeground: bool, digest: Laid -> string, intent: Intent, before: Documents, after: Documents)
    ensures Passes(names, wantsForeground, digest, intent, before, after) <==>
            && intent == Intent(names, wantsForeground && !before.controller.value.foreground.Value?)
            && exists k :: OnlyTheRepair(names, wantsForeground, digest, before, after, k)
  {
    var was, now := before.controller.value, after.controller.value;
    OneNamed(now.applications, names.newName);
    if ORCHESTRATOR in before.pins.files { PinUndo(before.pins.files, after.pins.files); }
    if ORCHESTRATOR in before.pins.digests { PinUndo(before.pins.digests, after.pins.digests); }
    if Passes(names, wantsForeground, digest, intent, before, after) {
      var k := Named(now.applications, names.newName)[0];
      RenameBack(now.applications, k, names.newName, names.oldName);
      assert OnlyTheRepair(names, wantsForeground, digest, before, after, k);
    }
    if k :| OnlyTheRepair(names, wantsForeground, digest, before, after, k) {
      assert OnlyOne(now.applications, names.newName, k);
      RenameBack(was.applications, k, names.oldName, names.newName);
    }
  }

  lemma RepinnedElsewhere(pins: map<string, string>, value: string)
    ensures pins[ORCHESTRATOR := value] - {ORCHESTRATOR} == pins - {ORCHESTRATOR}
  {
  }

  /** The forward edit is made exactly on a stage prepared for the old name, with no entry of the new name and
      the orchestrator's digest pinned. */
  lemma ForwardSucceedsExactly(
    names: Names, wantsForeground: bool, source: string, sourceDigest: string, digest: Laid -> string,
    before: Documents)
    ensures Forward(names, wantsForeground, source, sourceDigest, digest, before).Some? <==>
            && PreparedFor(names.oldName, digest, before) && ORCHESTRATOR in before.pins.digests
            && forall j :: 0 <= j < |before.controller.value.applications| ==>
                 before.controller.value.applications[j].name != Some(names.newName)
  {
    var was := before.controller.value.applications;
    OneNamed(was, names.oldName);
    NamedMeans(was, names.newName);
    if forall j :: 0 <= j < |was| ==> was[j].name != Some(names.newName) {
      NamedNowhere(was, names.newName);
    } else {
      var j: nat :| j < |was| && was[j].name == Some(names.newName);
      assert j in Named(was, names.newName);
    }
  }

  /** It differs from the original by the repair and nothing else. */
  lemma ForwardIsTheRepair(
    names: Names, wantsForeground: bool, source: string, sourceDigest: string, digest: Laid -> string,
    before: Documents)
    returns (k: nat)
    requires Forward(names, wantsForeground, source, sourceDigest, digest, before).Some?
    ensures OnlyOne(before.controller.value.applications, names.oldName, k)
    ensures RepairAt(names, wantsForeground, digest, before,
                     Forward(names, wantsForeground, source, sourceDigest, digest, before).value.0, k)
  {
    var was := before.controller.value;
    OneNamed(was.applications, names.oldName);
    NamedMeans(was.applications, names.newName);
    k := Named(was.applications, names.oldName)[0];
    forall j: nat | j < |was.applications| ensures was.applications[j].name != Some(names.newName) {
      assert j !in Named(was.applications, names.newName);
    }
    RepinnedElsewhere(before.pins.files, source);
    RepinnedElsewhere(before.pins.digests, sourceDigest);
  }

  /** And what it makes is a stage prepared for the new name, with the orchestrator pinned to the given source. */
  lemma ForwardPrepares(
    names: Names, wantsForeground: bool, source: string, sourceDigest: string, digest: Laid -> string,
    before: Documents)
    requires Forward(names, wantsForeground, source, sourceDigest, digest, before).Some?
    ensures var f := Forward(names, wantsForeground, source, sourceDigest, digest, before).value;
            && PreparedFor(names.newName, digest, f.0) && PinsOrchestrator(f.0.pins, source, sourceDigest)
            && f.1 == Intent(names, wantsForeground && !before.controller.value.foreground.Value?)
  {
    var f := Forward(names, wantsForeground, source, sourceDigest, digest, before).value;
    var k := ForwardIsTheRepair(names, wantsForeground, source, sourceDigest, digest, before);
    assert OnlyOne(f.0.controller.value.applications, names.newName, k);
  }

  /** The forward edit passes its own check exactly when the attachment pinned the orchestrator's path;
      the digest pin alone is what the forward edit verifies. */
  lemma ForwardPassesExactly(
    names: Names, wantsForeground: bool, source: string, sourceDigest: string, digest: Laid -> string,
    before: Documents)
    requires Forward(names, wantsForeground, source, sourceDigest, digest, before).Some?
    ensures var f := Forward(names, wantsForeground, source, sourceDigest, digest, before).value;
            Passes(names, wantsForeground, digest, f.1, before, f.0) <==> ORCHESTRATOR in before.pins.files
  {
    var f := Forward(names, wantsForeground, source, sourceDigest, digest, before).value;
    PassesExactly(names, wantsForeground, digest, f.1, before, f.0);
    if ORCHESTRATOR in before.pins.files {
      var k := ForwardIsTheRepair(names, wantsForeground, source, sourceDigest, digest, before);
      assert OnlyTheRepair(names, wantsForeground, digest, before, f.0, k);
    }
  }

  /** A forward edit leaves no application under the old name. */
  lemma ForwardLeavesNoOldName(
    stem: string, wantsForeground: bool, source: string, sourceDigest: string, digest: Laid -> string,
    before: Documents)
    requires Forward(NamesOf(stem + "-app"), wantsForeground, source, sourceDigest, digest, before).Some?
    ensures var names := NamesOf(stem + "-app");
            var after := Forward(names, wantsForeground, source, sourceDigest, digest, before).value.0;
            Named(after.controller.value.applications, names.oldName) == []
  {
    var names := NamesOf(stem + "-app");
    var was := before.controller.value.applications;
    var after := Forward(names, wantsForeground, source, sourceDigest, digest, before).value.0;
    var now := after.controller.value.applications;
    NamesDiffer(stem);
    OneNamed(was, names.oldName);
    NamedNowhere(now, names.oldName);
  }

  /** An attachment of one application that pins the orchestrator's digest and lists no files: the
      forward edit succeeds on it and its own check then refuses. */
  lemma UnlistedOrchestratorFails(names: Names, digest: Laid -> string)
    requires names.oldName != names.newName
    ensures var controller := Laid(Controller([Entry(Some(names.oldName), "")], Missing, ""), 0);
            var before := Documents(controller, Stage(names.oldName, digest(controller), ""),
                                    Pins(map[], map[ORCHESTRATOR := ""], ""));
            var f := Forward(names, false, "", "", digest, before);
            f.Some? && !Passes(names, false, digest, f.value.1, before, f.value.0)
  {
    var controller := Laid(Controller([Entry(Some(names.oldName), "")], Missing, ""), 0);
    var before := Documents(controller, Stage(names.oldName, digest(controller), ""),
                            Pins(map[], map[ORCHESTRATOR := ""], ""));
    NamedOnce(controller.value.applications, names.oldName, 0);
    NamedNowhere(controller.value.applications, names.newName);
    ForwardPassesExactly(names, false, "", "", digest, before);
  }
}

/**
 * The payer successor repair (scripts/application-payer-successor.py).
 *
 * The directory tree is the state: `files` maps names to contents, and a file whose exclusive
 * creation was interrupted is `Torn`, which no reader accepts.  `doom` says after how many disk
 * steps the process dies, so every postcondition below holds at every crash point.  A refusal is an
 * exception the script raises.  One process runs at a time (the script holds an exclusive lock).
 */
module PayerRepair {
  import opened Common
  import opened CrashDisk

  datatype Label = Render | Register

  datatype Target = Route | Contract | Attachment

  datatype Name =
    | OutDir | Input | OperatorPins | ExpectedCustody | PreviousOrchestrator | PreviousRenderer | MiniReceipt | Plan
    | Before(target: Target) | After(target: Target)
    | Marker(command: Label) | Stdout(command: Label) | Stderr(command: Label) | Exit(command: Label)
    | RouteRequest | Live(target: Target) | Next(target: Target) | Complete

  /** The retained request and what it determines.  `adopted` are the contract and attachment it will
      publish; the successor route depends on the registration response. */
  datatype Job = Job(
    request: Bytes,
    generic: bool,
    upgradesMini: bool,
    origin: map<Target, Bytes>,
    adopted: Target -> Bytes,
    successor: Bytes -> Bytes,
    routeRequest: Bytes)

  /** What one attempt finds outside the files: the checks it makes and the native programs. */
  datatype Attempt = Attempt(
    request: Bytes,
    settled: bool,
    adoptable: bool,
    pinsHold: bool,
    stopped: bool,
    custodyMatches: bool,
    responseMatches: bool,
    argv: Label -> Bytes,
    stdout: Label -> Bytes,
    exit: Label -> Option<Bytes>)

  const SUCCESS: Bytes := [0]

  datatype Disk = Disk(files: map<Name, Content>, started: multiset<Label>, exits: map<Label, Bytes>)

  predicate Has(d: Disk, n: Name, data: Bytes) {
    n in d.files && d.files[n] == Whole(data)
  }

  predicate Intact(d: Disk, n: Name) {
    n in d.files && d.files[n].Whole?
  }

  predicate Planned(d: Disk) {
    Intact(d, Plan)
  }

  /** The targets a request publishes: always the route, and for a generic attachment the other two. */
  predicate Chosen(job: Job, t: Target) {
    t == Route || job.generic
  }

  /** The live file holds the archived successor. */
  predicate Published(d: Disk, t: Target) {
    Intact(d, After(t)) && Live(t) in d.files && d.files[Live(t)] == d.files[After(t)]
  }

  predicate AtOrigin(job: Job, d: Disk, t: Target) {
    if t in job.origin then Has(d, Live(t), job.origin[t]) else Live(t) !in d.files
  }

  // ------------------------------------------------------------------ what every crash point keeps

  /** Nothing of the repair exists before its directory does. */
  predicate FreshInv(job: Job, d: Disk) {
    OutDir !in d.files ==>
      d.started == multiset{} && (forall n :: n in d.files ==> n.Live?) && (forall t :: AtOrigin(job, d, t))
  }

  /** The command was started at most once, after its marker and after the plan; its exit file, if
      any, records the one invocation's own exit. */
  predicate NativeOk(d: Disk, l: Label) {
    && d.started[l] <= 1
    && (d.started[l] > 0 ==> Marker(l) in d.files && Planned(d))
    && (Stdout(l) in d.files || Stderr(l) in d.files ==> Marker(l) in d.files)
    && (Exit(l) in d.files ==> d.started[l] == 1 && l in d.exits)
    && (Intact(d, Exit(l)) ==> Has(d, Exit(l), d.exits[l]) && Intact(d, Stdout(l)))
    && (l in d.exits ==> d.started[l] == 1)
  }

  predicate NativeInv(d: Disk) {
    forall l :: NativeOk(d, l)
  }

  /** The archives of one target hold what they claim to hold. */
  predicate ArchiveOk(job: Job, d: Disk, t: Target) {
    && (Intact(d, Before(t)) ==> t in job.origin && Has(d, Before(t), job.origin[t]))
    && (t != Route && Intact(d, After(t)) ==> Has(d, After(t), job.adopted(t)))
  }

  predicate ArchiveInv(job: Job, d: Disk) {
    && (forall t :: ArchiveOk(job, d, t))
    && (After(Route) in d.files ==> Has(d, Exit(Register), SUCCESS) && Has(d, Exit(Render), SUCCESS))
    && (Intact(d, After(Route)) ==>
          Intact(d, Stdout(Register)) && Has(d, After(Route), job.successor(d.files[Stdout(Register)].data)))
    && (Intact(d, RouteRequest) ==> Has(d, RouteRequest, job.routeRequest))
    && (Marker(Register) in d.files ==> MaySend(job, d, Register))
  }

  /** Registration waits for the retained request and a successful rendering. */
  predicate MaySend(job: Job, d: Disk, l: Label) {
    && Planned(d)
    && (l == Register ==> Has(d, RouteRequest, job.routeRequest) && Has(d, Exit(Render), SUCCESS))
  }

  /** What a request retains beside the archives is there. */
  predicate Evident(job: Job, d: Disk) {
    && Intact(d, OperatorPins) && Intact(d, ExpectedCustody)
    && (job.generic ==> Retired(d) && (job.upgradesMini ==> Intact(d, MiniReceipt)))
  }

  predicate Retired(d: Disk) {
    Intact(d, PreviousOrchestrator) && Intact(d, PreviousRenderer)
  }

  /** The plan is written last: where it is intact, everything prepared before it is. */
  predicate PlanInv(job: Job, d: Disk) {
    && (Planned(d) ==>
          && Has(d, Input, job.request) && Evident(job, d)
          && (forall t :: Chosen(job, t) ==> Intact(d, Before(t)))
          && (forall t :: Chosen(job, t) && t != Route ==> Intact(d, After(t))))
    && (forall n ::
          n in d.files && (n.Marker? || n.Next? || n == Complete || n == After(Route) || n == RouteRequest) ==>
          Planned(d))
  }

  predicate Moves(n: Name) {
    n.Live? || n.Next? || n.Stdout? || n.Stderr?
  }

  lemma PreparedStays(job: Job, d: Disk, d': Disk)
    requires PlanInv(job, d) && Planned(d)
    requires forall n :: !Moves(n) && Intact(d, n) ==> Intact(d', n) && d'.files[n] == d.files[n]
    ensures PlanInv(job, d')
  {
  }

  /** A live file holds exactly its before or its after bytes, a staged one its after bytes. */
  predicate LiveOk(job: Job, d: Disk, t: Target) {
    && (AtOrigin(job, d, t) || (Chosen(job, t) && Published(d, t)))
    && (Intact(d, Next(t)) ==> Intact(d, After(t)) && d.files[Next(t)] == d.files[After(t)])
  }

  /** The published files are a prefix of route, contract, attachment; completion means all of them. */
  predicate LiveInv(job: Job, d: Disk) {
    && (forall t :: LiveOk(job, d, t))
    && (!AtOrigin(job, d, Contract) ==> Published(d, Route))
    && (!AtOrigin(job, d, Attachment) ==> Published(d, Route) && Published(d, Contract))
    && (Complete in d.files ==> forall t :: Chosen(job, t) ==> Published(d, t))
  }

  predicate Inv(job: Job, d: Disk) {
    FreshInv(job, d) && NativeInv(d) && ArchiveInv(job, d) && PlanInv(job, d) && LiveInv(job, d)
  }

  /** When writing `n` with `data` is in order. */
  predicate MayWrite(job: Job, d: Disk, n: Name, data: Bytes) {
    && OutDir in d.files && n !in d.files
    && match n
       case Before(t) => t in job.origin && data == job.origin[t]
       case After(Route) =>
         && Planned(d) && Has(d, Exit(Register), SUCCESS) && Has(d, Exit(Render), SUCCESS)
         && Intact(d, Stdout(Register)) && data == job.successor(d.files[Stdout(Register)].data)
       case After(t) => data == job.adopted(t)
       case Plan =>
         && Has(d, Input, job.request) && Evident(job, d)
         && (forall t :: Chosen(job, t) ==> Intact(d, Before(t)))
         && (forall t :: Chosen(job, t) && t != Route ==> Intact(d, After(t)))
       case Marker(l) => MaySend(job, d, l)
       case Exit(l) => l in d.exits && data == d.exits[l] && Intact(d, Stdout(l))
       case RouteRequest => Planned(d) && data == job.routeRequest
       case Next(t) => Planned(d) && Has(d, After(t), data)
       case Complete => Planned(d) && forall t :: Chosen(job, t) ==> Published(d, t)
       case Input => true
       case OperatorPins => true
       case ExpectedCustody => true
       case PreviousOrchestrator => true
       case PreviousRenderer => true
       case MiniReceipt => true
       case _ => false
  }

  function With(d: Disk, n: Name, c: Content): Disk {
    d.(files := d.files[n := c])
  }

  lemma WriteKeepsNative(job: Job, d: Disk, n: Name, data: Bytes, c: Content)
    requires NativeInv(d) && MayWrite(job, d, n, data) && (c == Torn || c == Whole(data))
    ensures NativeInv(With(d, n, c))
  {
    forall l ensures NativeOk(With(d, n, c), l) {
      assert NativeOk(d, l);
    }
  }

  lemma WriteKeepsArchive(job: Job, d: Disk, n: Name, data: Bytes, c: Content)
    requires ArchiveInv(job, d) && MayWrite(job, d, n, data) && (c == Torn || c == Whole(data))
    ensures ArchiveInv(job, With(d, n, c))
  {
    forall t ensures ArchiveOk(job, With(d, n, c), t) {
      assert ArchiveOk(job, d, t);
    }
  }

  lemma WriteKeepsPlan(job: Job, d: Disk, n: Name, data: Bytes, c: Content)
    requires PlanInv(job, d) && MayWrite(job, d, n, data) && (c == Torn || c == Whole(data))
    ensures PlanInv(job, With(d, n, c))
  {
    var d' := With(d, n, c);
    if Planned(d) { PreparedStays(job, d, d'); }
  }

  lemma WriteKeepsLive(job: Job, d: Disk, n: Name, data: Bytes, c: Content)
    requires LiveInv(job, d) && MayWrite(job, d, n, data) && (c == Torn || c == Whole(data))
    ensures LiveInv(job, With(d, n, c))
  {
    var d' := With(d, n, c);
    forall t
      ensures LiveOk(job, d', t)
      ensures (AtOrigin(job, d', t) <==> AtOrigin(job, d, t)) && (Published(d, t) ==> Published(d', t))
    {
      assert LiveOk(job, d, t);
    }
  }

  /** An orderly write keeps the invariant whether it completes or is torn. */
  lemma WriteKeeps(job: Job, d: Disk, n: Name, data: Bytes, c: Content)
    requires Inv(job, d) && MayWrite(job, d, n, data) && (c == Torn || c == Whole(data))
    ensures Inv(job, With(d, n, c))
  {
    WriteKeepsNative(job, d, n, data, c);
    WriteKeepsArchive(job, d, n, data, c);
    WriteKeepsPlan(job, d, n, data, c);
    WriteKeepsLive(job, d, n, data, c);
  }

  // ------------------------------------------------------------------ publication

  function Replaced(d: Disk, t: Target, data: Bytes): Disk {
    d.(files := (d.files - {Next(t)})[Live(t) := Whole(data)])
  }

  /** Everything a publication of `t` may leave behind, by how it ended. */
  predicate PublishEffect(d: Disk, d': Disk, t: Target, before: Bytes, after: Bytes, o: Outcome) {
    if Has(d, Live(t), after) then
      o == Done && d' == d
    else if !Has(d, Live(t), before) || (Next(t) in d.files && !Has(d, Next(t), after)) then
      o == Refused && d' == d
    else if o == Done then
      d' == Replaced(d, t, after)
    else
      o == Crashed &&
        (d' == d || (Next(t) !in d.files && (d' == With(d, Next(t), Torn) || d' == With(d, Next(t), Whole(after)))))
  }

  /** The order in which the targets may be published. */
  predicate TurnOf(job: Job, d: Disk, t: Target) {
    && Chosen(job, t)
    && (t != Route ==> Published(d, Route))
    && (t == Attachment ==> Published(d, Contract))
  }

  lemma ReplaceKeepsNative(d: Disk, t: Target, data: Bytes)
    requires NativeInv(d)
    ensures NativeInv(Replaced(d, t, data))
  {
    forall l ensures NativeOk(Replaced(d, t, data), l) {
      assert NativeOk(d, l);
    }
  }

  lemma ReplaceKeepsArchive(job: Job, d: Disk, t: Target, data: Bytes)
    requires ArchiveInv(job, d)
    ensures ArchiveInv(job, Replaced(d, t, data))
  {
    forall u ensures ArchiveOk(job, Replaced(d, t, data), u) {
      assert ArchiveOk(job, d, u);
    }
  }

  lemma ReplaceKeepsPlan(job: Job, d: Disk, t: Target, data: Bytes)
    requires PlanInv(job, d)
    ensures PlanInv(job, Replaced(d, t, data))
  {
    var d' := Replaced(d, t, data);
    assert forall n: Name :: !n.Live? && !n.Next? ==> (n in d'.files <==> n in d.files);
    assert forall n: Name :: !n.Live? && !n.Next? && n in d.files ==> d'.files[n] == d.files[n];
    if Planned(d) { PreparedStays(job, d, d'); }
  }

  lemma ReplaceKeepsLive(job: Job, d: Disk, t: Target, data: Bytes)
    requires LiveInv(job, d) && TurnOf(job, d, t) && Has(d, After(t), data)
    ensures LiveInv(job, Replaced(d, t, data)) && Published(Replaced(d, t, data), t)
  {
    var d' := Replaced(d, t, data);
    forall u ensures LiveOk(job, d', u) && (u != t ==> (AtOrigin(job, d', u) <==> AtOrigin(job, d, u)))
      ensures Published(d, u) ==> Published(d', u)
    {
      assert LiveOk(job, d, u);
    }
  }

  lemma ReplaceKeeps(job: Job, d: Disk, t: Target, data: Bytes)
    requires Inv(job, d) && Planned(d) && TurnOf(job, d, t) && Has(d, After(t), data)
    ensures Inv(job, Replaced(d, t, data)) && Published(Replaced(d, t, data), t)
  {
    ReplaceKeepsNative(d, t, data);
    ReplaceKeepsArchive(job, d, t, data);
    ReplaceKeepsPlan(job, d, t, data);
    ReplaceKeepsLive(job, d, t, data);
    assert OutDir in d.files;
  }

  lemma StageKeeps(job: Job, d: Disk, t: Target, data: Bytes, c: Content)
    requires Inv(job, d) && Planned(d) && Has(d, After(t), data) && Next(t) !in d.files
    requires c == Torn || c == Whole(data)
    ensures Inv(job, With(d, Next(t), c))
  {
    assert OutDir in d.files;
    WriteKeeps(job, d, Next(t), data, c);
  }

  /** However a publication in turn ends, the invariant survives; a completed one has published. */
  lemma PublishKeeps(job: Job, d: Disk, d': Disk, t: Target, before: Bytes, after: Bytes, o: Outcome)
    requires Inv(job, d) && Planned(d) && TurnOf(job, d, t) && Has(d, After(t), after)
    requires PublishEffect(d, d', t, before, after, o)
    ensures Inv(job, d')
    ensures o.Done? ==> Published(d', t)
  {
    if d' == d {
    } else if o.Done? {
      ReplaceKeeps(job, d, t, after);
    } else if d' == With(d, Next(t), Torn) {
      StageKeeps(job, d, t, after, Torn);
    } else {
      StageKeeps(job, d, t, after, Whole(after));
    }
  }

  lemma PublishLeavesOthers(d: Disk, d': Disk, t: Target, before: Bytes, after: Bytes, o: Outcome, u: Target)
    requires PublishEffect(d, d', t, before, after, o) && u != t
    ensures Published(d, u) ==> Published(d', u)
  {
  }

  /** With the invariant and no torn temporary, a publication that is not interrupted succeeds. */
  lemma PublishSucceeds(job: Job, d: Disk, d': Disk, t: Target, before: Bytes, after: Bytes, o: Outcome)
    requires LiveInv(job, d) && t in job.origin && before == job.origin[t] && Has(d, After(t), after)
    requires PublishEffect(d, d', t, before, after, o) && !o.Crashed?
    requires Next(t) in d.files ==> d.files[Next(t)].Whole?
    ensures o.Done?
  {
    assert LiveOk(job, d, t);
  }

  predicate SameSlot(d: Disk, d': Disk, n: Name) {
    (n in d'.files <==> n in d.files) && (n in d.files ==> d'.files[n] == d.files[n])
  }

  predicate AllWhole(d: Disk) {
    forall n :: n in d.files ==> d.files[n].Whole?
  }

  /** Nothing but live and staged files and the completion mark has changed. */
  ghost predicate Settling(d: Disk, d': Disk) {
    && d'.started == d.started && d'.exits == d.exits
    && forall n: Name :: !n.Live? && !n.Next? && n != Complete ==> SameSlot(d, d', n)
  }

  lemma SettlingTrans(d: Disk, d': Disk, d'': Disk)
    requires Settling(d, d') && Settling(d', d'')
    ensures Settling(d, d'')
  {
    forall n: Name | !n.Live? && !n.Next? && n != Complete ensures SameSlot(d, d'', n) {
      assert SameSlot(d, d', n) && SameSlot(d', d'', n);
    }
  }

  /** What one publication in turn leaves behind. */
  ghost predicate TurnTaken(job: Job, d: Disk, d': Disk, t: Target, o: Outcome) {
    && Inv(job, d') && Settling(d, d')
    && (o.Done? ==> Published(d', t))
    && (forall u :: u != t && Published(d, u) ==> Published(d', u))
    && (AllWhole(d) && !o.Crashed? ==> o.Done? && AllWhole(d'))
  }

  lemma PublishSettles(d: Disk, d': Disk, t: Target, before: Bytes, after: Bytes, o: Outcome)
    requires PublishEffect(d, d', t, before, after, o)
    ensures Settling(d, d')
    ensures AllWhole(d) && o.Done? ==> AllWhole(d')
  {
  }

  lemma TurnFacts(job: Job, d: Disk, d': Disk, t: Target, before: Bytes, after: Bytes, o: Outcome)
    requires Inv(job, d) && Planned(d) && TurnOf(job, d, t) && Has(d, After(t), after)
    requires t in job.origin && before == job.origin[t] && PublishEffect(d, d', t, before, after, o)
    ensures TurnTaken(job, d, d', t, o)
  {
    PublishKeeps(job, d, d', t, before, after, o);
    PublishSettles(d, d', t, before, after, o);
    forall u | u != t && Published(d, u) ensures Published(d', u) {
      PublishLeavesOthers(d, d', t, before, after, o, u);
    }
    if AllWhole(d) && !o.Crashed? {
      PublishSucceeds(job, d, d', t, before, after, o);
    }
  }

  lemma NextTurn(job: Job, d: Disk, d': Disk, t: Target)
    requires Inv(job, d) && Planned(d) && Settling(d, d') && t != Route && Chosen(job, t)
    ensures Planned(d') && Intact(d', After(t))
  {
    assert SameSlot(d, d', Plan) && SameSlot(d, d', After(t));
  }

  // ------------------------------------------------------------------ native commands

  function Opened(d: Disk, l: Label): Disk {
    With(With(d, Stdout(l), Torn), Stderr(l), Torn)
  }

  function Started(d: Disk, l: Label): Disk {
    Opened(d, l).(started := d.started + multiset{l})
  }

  function Finished(d: Disk, l: Label, output: Bytes): Disk {
    With(With(Started(d, l), Stdout(l), Whole(output)), Stderr(l), Whole([]))
  }

  /** Everything one native invocation may leave behind, by how it ended. */
  predicate InvokeEffect(d: Disk, d': Disk, l: Label, a: Attempt, o: Outcome) {
    match o
    case Crashed => d' == d || d' == With(d, Stdout(l), Torn) || d' == Opened(d, l) || d' == Started(d, l)
    case Refused => a.exit(l).None? && d' == Finished(d, l, a.stdout(l))
    case Done =>
      && a.exit(l).Some?
      && d' == Finished(d, l, a.stdout(l)).(exits := d.exits[l := a.exit(l).value])
  }

  /** `d'` differs from `d` only by what an invocation of `l` touches. */
  ghost predicate OnlyInvoked(d: Disk, d': Disk, l: Label) {
    && (forall n :: n != Stdout(l) && n != Stderr(l) ==> SameSlot(d, d', n))
    && (forall k :: k != l ==> d'.started[k] == d.started[k] && (k in d'.exits <==> k in d.exits))
    && (forall k :: k != l && k in d.exits ==> d'.exits[k] == d.exits[k])
    && d'.started[l] <= 1
    && (l in d'.exits ==> d'.started[l] == 1)
  }

  lemma InvokeTouchesLittle(d: Disk, d': Disk, l: Label, a: Attempt, o: Outcome)
    requires NativeInv(d) && d.started[l] == 0 && InvokeEffect(d, d', l, a, o)
    ensures OnlyInvoked(d, d', l)
  {
    assert NativeOk(d, l);
    if o.Crashed? {
      CrashedTouchesLittle(d, d', l);
    } else {
      FinishedTouchesLittle(d, l, a.stdout(l));
    }
  }

  lemma CrashedTouchesLittle(d: Disk, d': Disk, l: Label)
    requires d.started[l] == 0 && l !in d.exits
    requires d' == d || d' == With(d, Stdout(l), Torn) || d' == Opened(d, l) || d' == Started(d, l)
    ensures OnlyInvoked(d, d', l)
  {
    assert d'.exits == d.exits && (d'.started == d.started || d'.started == d.started + multiset{l});
  }

  lemma FinishedTouchesLittle(d: Disk, l: Label, output: Bytes)
    ensures var e := Finished(d, l, output);
            && e.started == d.started + multiset{l} && e.exits == d.exits
            && forall n :: n != Stdout(l) && n != Stderr(l) ==> SameSlot(d, e, n)
  {
  }

  lemma InvokeKeepsNative(d: Disk, d': Disk, l: Label)
    requires NativeInv(d) && Planned(d) && Marker(l) in d.files && d.started[l] == 0 && OnlyInvoked(d, d', l)
    ensures NativeInv(d')
  {
    assert NativeOk(d, l) && SameSlot(d, d', Plan);
    forall k ensures NativeOk(d', k) {
      assert NativeOk(d, k) && SameSlot(d, d', Marker(k)) && SameSlot(d, d', Exit(k));
      assert k != l ==> SameSlot(d, d', Stdout(k)) && SameSlot(d, d', Stderr(k));
    }
  }

  lemma InvokeKeepsArchive(job: Job, d: Disk, d': Disk, l: Label)
    requires ArchiveInv(job, d) && Exit(l) !in d.files && OnlyInvoked(d, d', l)
    ensures ArchiveInv(job, d')
  {
    forall t ensures ArchiveOk(job, d', t) {
      assert ArchiveOk(job, d, t) && SameSlot(d, d', Before(t)) && SameSlot(d, d', After(t));
    }
    assert SameSlot(d, d', After(Route));
    assert SameSlot(d, d', RouteRequest) && SameSlot(d, d', Exit(Register)) && SameSlot(d, d', Exit(Render));
    assert SameSlot(d, d', Marker(Register)) && SameSlot(d, d', Plan);
    assert l != Register ==> SameSlot(d, d', Stdout(Register));
  }

  lemma InvokeKeepsPlan(job: Job, d: Disk, d': Disk, l: Label)
    requires PlanInv(job, d) && OnlyInvoked(d, d', l)
    ensures PlanInv(job, d')
  {
    forall n: Name | n != Stdout(l) && n != Stderr(l)
      ensures (n in d'.files <==> n in d.files) && (n in d.files ==> d'.files[n] == d.files[n])
    {
      assert SameSlot(d, d', n);
    }
    if Planned(d) { PreparedStays(job, d, d'); }
  }

  lemma InvokeKeepsLive(job: Job, d: Disk, d': Disk, l: Label)
    requires LiveInv(job, d) && OnlyInvoked(d, d', l)
    ensures LiveInv(job, d')
  {
    assert SameSlot(d, d', Complete);
    forall t
      ensures LiveOk(job, d', t) && (AtOrigin(job, d', t) <==> AtOrigin(job, d, t)) &&
              (Published(d', t) <==> Published(d, t))
    {
      assert LiveOk(job, d, t);
      assert SameSlot(d, d', Live(t)) && SameSlot(d, d', After(t)) && SameSlot(d, d', Next(t));
    }
  }

  /** However a first invocation ends, the invariant survives. */
  lemma InvokeKeeps(job: Job, d: Disk, d': Disk, l: Label, a: Attempt, o: Outcome)
    requires Inv(job, d) && Planned(d) && Marker(l) in d.files && d.started[l] == 0
    requires InvokeEffect(d, d', l, a, o)
    ensures Inv(job, d') && OnlyInvoked(d, d', l)
  {
    assert NativeOk(d, l);
    InvokeTouchesLittle(d, d', l, a, o);
    InvokeKeepsNative(d, d', l);
    InvokeKeepsArchive(job, d, d', l);
    InvokeKeepsPlan(job, d, d', l);
    InvokeKeepsLive(job, d, d', l);
    assert OutDir in d.files;
  }

  /** `d'` differs from `d` only by what running the command `l` touches. */
  ghost predicate OnlyRan(d: Disk, d': Disk, l: Label) {
    && (forall n :: n != Marker(l) && n != Stdout(l) && n != Stderr(l) && n != Exit(l) ==> SameSlot(d, d', n))
    && (forall k :: k != l ==> d'.started[k] == d.started[k])
  }

  lemma WriteOnlyRan(d: Disk, d': Disk, l: Label, n: Name, c: Content)
    requires OnlyRan(d, d', l) && (n == Marker(l) || n == Exit(l))
    ensures OnlyRan(d, With(d', n, c), l)
  {
    forall m | m != Marker(l) && m != Stdout(l) && m != Stderr(l) && m != Exit(l)
      ensures SameSlot(d, With(d', n, c), m)
    {
      assert SameSlot(d, d', m);
    }
  }

  lemma InvokeOnlyRan(d: Disk, d': Disk, d'': Disk, l: Label)
    requires OnlyRan(d, d', l) && OnlyInvoked(d', d'', l)
    ensures OnlyRan(d, d'', l)
  {
    forall m | m != Marker(l) && m != Stdout(l) && m != Stderr(l) && m != Exit(l) ensures SameSlot(d, d'', m) {
      assert SameSlot(d, d', m) && SameSlot(d', d'', m);
    }
  }

  /** The disk after a first, completed run of the command. */
  function Ran(d: Disk, l: Label, a: Attempt, code: Bytes): Disk {
    With(Finished(With(d, Marker(l), Whole(a.argv(l))), l, a.stdout(l)).(exits := d.exits[l := code]), Exit(l),
         Whole(code))
  }

  lemma RanFacts(d: Disk, l: Label, a: Attempt, code: Bytes)
    requires d.started[l] == 0
    ensures var d' := Ran(d, l, a, code);
            && d'.started[l] == 1 && l in d'.exits && d'.exits[l] == code && Has(d', Exit(l), code)
            && Has(d', Stdout(l), a.stdout(l)) && Intact(d', Marker(l)) && Intact(d', Stderr(l))
  {
  }

  function Marked(d: Disk, l: Label, a: Attempt): Disk {
    With(d, Marker(l), Whole(a.argv(l)))
  }

  function Returned(d: Disk, l: Label, a: Attempt, code: Bytes): Disk {
    Finished(Marked(d, l, a), l, a.stdout(l)).(exits := d.exits[l := code])
  }

  /** Everything the first sending of a command may leave behind, by how it ended. */
  predicate SendEffect(d: Disk, d': Disk, l: Label, a: Attempt, o: Outcome) {
    match o
    case Crashed =>
      || d' == d
      || d' == With(d, Marker(l), Torn)
      || InvokeEffect(Marked(d, l, a), d', l, a, Crashed)
      || (a.exit(l).Some? &&
          (d' == Returned(d, l, a, a.exit(l).value) || d' == With(Returned(d, l, a, a.exit(l).value), Exit(l), Torn)))
    case Refused => InvokeEffect(Marked(d, l, a), d', l, a, Refused)
    case Done => a.exit(l).Some? && d' == Ran(d, l, a, a.exit(l).value)
  }

  lemma MarkKeeps(job: Job, d: Disk, l: Label, a: Attempt, c: Content)
    requires Inv(job, d) && MaySend(job, d, l) && Marker(l) !in d.files && (c == Torn || c == Whole(a.argv(l)))
    ensures Inv(job, With(d, Marker(l), c)) && OnlyRan(d, With(d, Marker(l), c), l)
  {
    assert OutDir in d.files;
    WriteKeeps(job, d, Marker(l), a.argv(l), c);
    WriteOnlyRan(d, d, l, Marker(l), c);
  }

  lemma MarkedInvokeKeeps(job: Job, d: Disk, d': Disk, l: Label, a: Attempt, o: Outcome)
    requires Inv(job, d) && MaySend(job, d, l) && Marker(l) !in d.files
    requires InvokeEffect(Marked(d, l, a), d', l, a, o)
    ensures Inv(job, d') && OnlyRan(d, d', l)
  {
    assert NativeOk(d, l);
    MarkKeeps(job, d, l, a, Whole(a.argv(l)));
    InvokeKeeps(job, Marked(d, l, a), d', l, a, o);
    InvokeOnlyRan(d, Marked(d, l, a), d', l);
  }

  lemma ReturnedKeeps(job: Job, d: Disk, l: Label, a: Attempt, code: Bytes)
    requires Inv(job, d) && MaySend(job, d, l) && Marker(l) !in d.files && a.exit(l) == Some(code)
    ensures var r := Returned(d, l, a, code);
            Inv(job, r) && OnlyRan(d, r, l) && MayWrite(job, r, Exit(l), code)
  {
    assert NativeOk(d, l) && OutDir in d.files;
    ReturnedIsDone(d, l, a, code);
    MarkedInvokeKeeps(job, d, Returned(d, l, a, code), l, a, Done);
  }

  lemma ReturnedIsDone(d: Disk, l: Label, a: Attempt, code: Bytes)
    requires a.exit(l) == Some(code)
    ensures var r := Returned(d, l, a, code);
            && InvokeEffect(Marked(d, l, a), r, l, a, Done)
            && l in r.exits && r.exits[l] == code && Intact(r, Stdout(l))
            && (OutDir in d.files ==> OutDir in r.files) && (Exit(l) in r.files <==> Exit(l) in d.files)
  {
  }

  lemma ExitKeeps(job: Job, d: Disk, l: Label, a: Attempt, code: Bytes, c: Content)
    requires Inv(job, d) && MaySend(job, d, l) && Marker(l) !in d.files && a.exit(l) == Some(code)
    requires c == Torn || c == Whole(code)
    ensures var d' := With(Returned(d, l, a, code), Exit(l), c); Inv(job, d') && OnlyRan(d, d', l)
  {
    var r := Returned(d, l, a, code);
    ReturnedKeeps(job, d, l, a, code);
    WriteKeeps(job, r, Exit(l), code, c);
    WriteOnlyRan(d, r, l, Exit(l), c);
  }

  /** However the first sending of a command ends, the invariant survives. */
  lemma SendKeeps(job: Job, d: Disk, d': Disk, l: Label, a: Attempt, o: Outcome)
    requires Inv(job, d) && MaySend(job, d, l) && Marker(l) !in d.files && SendEffect(d, d', l, a, o)
    ensures Inv(job, d') && OnlyRan(d, d', l)
  {
    match o
    case Refused => MarkedInvokeKeeps(job, d, d', l, a, Refused);
    case Done => ExitKeeps(job, d, l, a, a.exit(l).value, Whole(a.exit(l).value));
    case Crashed =>
      if d' == d {
      } else if d' == With(d, Marker(l), Torn) {
        MarkKeeps(job, d, l, a, Torn);
      } else if InvokeEffect(Marked(d, l, a), d', l, a, Crashed) {
        MarkedInvokeKeeps(job, d, d', l, a, Crashed);
      } else if d' == Returned(d, l, a, a.exit(l).value) {
        MarkedInvokeKeeps(job, d, d', l, a, Done);
      } else {
        ExitKeeps(job, d, l, a, a.exit(l).value, Torn);
      }
  }

  /** What a labelled command leaves behind: it returns only on a recorded success of its single
      invocation; a marker found retained means nothing was started or written at all. */
  ghost predicate CommandEffect(d: Disk, d': Disk, l: Label, a: Attempt, o: Outcome) {
    && OnlyRan(d, d', l)
    && (o.Done? ==>
          && d'.started[l] == 1 && l in d'.exits && d'.exits[l] == SUCCESS
          && Has(d', Exit(l), SUCCESS) && Intact(d', Stdout(l)))
    && (if Marker(l) in d.files then
          d' == d && (o.Done? <==> Has(d, Marker(l), a.argv(l)) && Has(d, Exit(l), SUCCESS))
        else
          && (o.Done? ==> d' == Ran(d, l, a, SUCCESS))
          && (o.Refused? ==> a.exit(l) != Some(SUCCESS)))
  }

  // ------------------------------------------------------------------ the process

  /** The command has either recorded success or was never sent and will succeed. */
  predicate Ready(d: Disk, l: Label, a: Attempt) {
    if Marker(l) in d.files then Has(d, Marker(l), a.argv(l)) && Has(d, Exit(l), SUCCESS)
    else a.exit(l) == Some(SUCCESS)
  }

  /** Planned, nothing torn, no command interrupted or failed, and every check of the attempt passes. */
  predicate Resumable(job: Job, d: Disk, a: Attempt) {
    && Planned(d) && AllWhole(d) && Ready(d, Render, a) && Ready(d, Register, a)
    && a.request == job.request && a.pinsHold && a.stopped && a.custodyMatches && a.responseMatches
  }

  lemma RanStaysWhole(d: Disk, l: Label, a: Attempt)
    requires AllWhole(d)
    ensures AllWhole(Ran(d, l, a, SUCCESS))
  {
  }

  ghost predicate OnlyAt(d: Disk, d': Disk, n: Name) {
    d'.started == d.started && d'.exits == d.exits && forall m :: m != n ==> SameSlot(d, d', m)
  }

  /** The response the successor route is built from: retained, or produced by this attempt. */
  function Response(d: Disk, a: Attempt): Bytes {
    if Intact(d, Stdout(Register)) then d.files[Stdout(Register)].data else a.stdout(Register)
  }

  lemma RetainLeaves(d: Disk, d': Disk)
    requires OnlyAt(d, d', RouteRequest) && Planned(d)
    ensures Planned(d') && SameSlot(d, d', Exit(Render))
    ensures SameSlot(d, d', Stdout(Register)) && SameSlot(d, d', Marker(Register)) && SameSlot(d, d', Exit(Register))
  {
    assert SameSlot(d, d', Plan);
  }

  lemma RetainLeaves2(d: Disk, d': Disk)
    requires OnlyAt(d, d', After(Route)) && Planned(d)
    ensures Planned(d') && SameSlot(d, d', Stdout(Register))
  {
    assert SameSlot(d, d', Plan);
  }

  /** The retained files are whole, the registration is ready, and its response is `response`. */
  predicate OnTrack(d: Disk, a: Attempt, response: Bytes) {
    AllWhole(d) && Ready(d, Register, a) && Response(d, a) == response
  }

  lemma CommandLeaves(d: Disk, d': Disk, l: Label, other: Label)
    requires OnlyRan(d, d', l) && Planned(d) && other != l
    ensures Planned(d')
    ensures SameSlot(d, d', Marker(other)) && SameSlot(d, d', Stdout(other)) && SameSlot(d, d', Exit(other))
  {
    assert SameSlot(d, d', Plan);
  }

  lemma RequestOnTrack(d: Disk, d': Disk, a: Attempt, response: Bytes)
    requires OnlyAt(d, d', RouteRequest) && OnTrack(d, a, response) && AllWhole(d')
    ensures OnTrack(d', a, response)
  {
    assert SameSlot(d, d', Marker(Register)) && SameSlot(d, d', Exit(Register)) && SameSlot(d, d', Stdout(Register));
  }

  lemma RequestIsRetained(job: Job, d: Disk)
    requires ArchiveInv(job, d) && AllWhole(d)
    ensures RouteRequest in d.files ==> d.files[RouteRequest] == Whole(job.routeRequest)
  {
  }

  lemma ReadySucceeds(d: Disk, d': Disk, l: Label, a: Attempt, o: Outcome)
    requires CommandEffect(d, d', l, a, o) && Ready(d, l, a) && !o.Crashed?
    ensures o.Done? && (d' == d || (Marker(l) !in d.files && d' == Ran(d, l, a, SUCCESS)))
  {
  }

  lemma RenderOnTrack(d: Disk, d': Disk, a: Attempt, o: Outcome, response: Bytes)
    requires CommandEffect(d, d', Render, a, o) && Planned(d) && Ready(d, Render, a) && OnTrack(d, a, response) &&
             !o.Crashed?
    ensures o.Done? && OnTrack(d', a, response)
  {
    CommandLeaves(d, d', Render, Register);
    ReadySucceeds(d, d', Render, a, o);
    if d' != d { RanStaysWhole(d, Render, a); }
  }

  lemma RegisterOnTrack(d: Disk, d': Disk, a: Attempt, o: Outcome, response: Bytes)
    requires CommandEffect(d, d', Register, a, o) && NativeInv(d) && OnTrack(d, a, response) && !o.Crashed?
    ensures o.Done? && AllWhole(d') && Has(d', Stdout(Register), response)
  {
    assert NativeOk(d, Register);
    ReadySucceeds(d, d', Register, a, o);
    if d' != d {
      RanStaysWhole(d, Register, a);
      RanFacts(d, Register, a, SUCCESS);
    }
  }

  /** What the live files hold once the repair has converged, given the registration response. */
  function Successor(job: Job, response: Bytes, t: Target): Bytes {
    if t == Route then job.successor(response) else job.adopted(t)
  }

  lemma MakeDirKeeps(job: Job, d: Disk)
    requires Inv(job, d) && OutDir !in d.files
    ensures Inv(job, With(d, OutDir, Whole([])))
  {
    var d' := With(d, OutDir, Whole([]));
    forall l ensures NativeOk(d', l) { assert NativeOk(d, l); }
    forall t ensures ArchiveOk(job, d', t) { assert ArchiveOk(job, d, t); }
    forall t ensures LiveOk(job, d', t) && AtOrigin(job, d', t) { assert LiveOk(job, d, t) && AtOrigin(job, d, t); }
  }

  lemma ArchiveLeaves(job: Job, d: Disk, d': Disk, t: Target)
    requires d' == d || OnlyAt(d, d', Before(t))
    requires OutDir in d.files && Has(d, Input, job.request) && (forall u :: AtOrigin(job, d, u))
    ensures OutDir in d'.files && Has(d', Input, job.request) && (forall u :: AtOrigin(job, d', u))
  {
    assert SameSlot(d, d', OutDir) && SameSlot(d, d', Input);
    forall u ensures AtOrigin(job, d', u) {
      assert SameSlot(d, d', Live(u)) && AtOrigin(job, d, u);
    }
  }

  /** The directory, the retained request and the archived route exist. */
  predicate Preparing(job: Job, d: Disk) {
    OutDir in d.files && Has(d, Input, job.request) && Intact(d, Before(Route))
  }

  /** The directory and the retained request exist, and every live file is the original. */
  ghost predicate Archiving(job: Job, d: Disk) {
    OutDir in d.files && Has(d, Input, job.request) && forall t :: AtOrigin(job, d, t)
  }

  /** A file of the preparation other than the plan. */
  predicate Preparatory(job: Job, n: Name, data: Bytes) {
    || n in {OperatorPins, ExpectedCustody, PreviousOrchestrator, PreviousRenderer, MiniReceipt}
    || (n.After? && n.target != Route && data == job.adopted(n.target))
  }

  /** The order in which a first attempt makes its files. */
  function Step(n: Name): nat {
    match n
    case OutDir => 0
    case Input => 1
    case Before(Route) => 2
    case Before(Attachment) => 3
    case Before(Contract) => 4
    case OperatorPins => 5
    case ExpectedCustody => 6
    case PreviousOrchestrator => 7
    case PreviousRenderer => 8
    case MiniReceipt => 9
    case After(Attachment) => 10
    case After(Contract) => 11
    case Plan => 12
    case _ => 13
  }

  /** Nothing is torn, and a first attempt has got no further than this. */
  predicate Tidy(d: Disk, k: nat) {
    forall n :: n in d.files ==> d.files[n].Whole? && (n.Live? || Step(n) < k)
  }

  lemma TidyWrite(d: Disk, n: Name, data: Bytes, k: nat)
    requires Tidy(d, k) && k <= Step(n) && !n.Live?
    ensures n !in d.files && Tidy(With(d, n, Whole(data)), Step(n) + 1)
  {
  }

  lemma TidyLater(d: Disk, k: nat, m: nat)
    requires Tidy(d, k) && k <= m
    ensures Tidy(d, m)
  {
  }

  /** Files are only added, and only ones a first attempt makes, none after step `k`. */
  ghost predicate Adds(d: Disk, d': Disk, k: nat) {
    && d'.started == d.started && d'.exits == d.exits
    && (forall n :: n in d.files ==> SameSlot(d, d', n))
    && (forall n :: n in d'.files && n !in d.files ==> Step(n) <= k)
  }

  lemma AddsTrans(d: Disk, d': Disk, d'': Disk, k: nat, m: nat)
    requires Adds(d, d', k) && Adds(d', d'', m) && k <= m
    ensures Adds(d, d'', m)
  {
    forall n | n in d.files ensures SameSlot(d, d'', n) {
      assert SameSlot(d, d', n) && SameSlot(d', d'', n);
    }
  }

  lemma AddsNothing(d: Disk, k: nat)
    ensures Adds(d, d, k)
  {
  }

  lemma AddsOne(d: Disk, d': Disk, n: Name, k: nat)
    requires d'.started == d.started && d'.exits == d.exits && Step(n) <= k
    requires d'.files == d.files || (n !in d.files && n in d'.files && d'.files == d.files[n := d'.files[n]])
    ensures Adds(d, d', k)
  {
  }

  lemma AddsLater(d: Disk, d': Disk, k: nat, m: nat)
    requires Adds(d, d', k) && k <= m
    ensures Adds(d, d', m)
  {
  }

  /** No live file, no staged one and no completion mark differs. */
  ghost predicate Unpublished(d: Disk, d': Disk) {
    forall n: Name :: n.Live? || n.Next? || n == Complete ==> SameSlot(d, d', n)
  }

  lemma PreparingStays(job: Job, d: Disk, d': Disk, k: nat)
    requires Preparing(job, d) && Adds(d, d', k)
    ensures Preparing(job, d')
  {
    assert SameSlot(d, d', OutDir) && SameSlot(d, d', Input) && SameSlot(d, d', Before(Route));
  }

  lemma AddsKeepsIntact(d: Disk, d': Disk, k: nat)
    requires Adds(d, d', k)
    ensures forall n :: Intact(d, n) ==> Intact(d', n)
  {
    forall n | Intact(d, n) ensures Intact(d', n) { assert SameSlot(d, d', n); }
  }

  lemma ArchivesStay(d: Disk, d': Disk, k: nat)
    requires Adds(d, d', k)
    ensures forall t :: Intact(d, Before(t)) ==> Intact(d', Before(t))
  {
    forall t | Intact(d, Before(t)) ensures Intact(d', Before(t)) { assert SameSlot(d, d', Before(t)); }
  }

  lemma AddsUnpublished(d: Disk, d': Disk)
    requires Adds(d, d', 12)
    ensures Unpublished(d, d')
  {
    forall n: Name | n.Live? || n.Next? || n == Complete ensures SameSlot(d, d', n) {
      assert Step(n) == 13;
    }
  }

  lemma UnpublishedTrans(d: Disk, d': Disk, d'': Disk)
    requires Unpublished(d, d') && Unpublished(d', d'')
    ensures Unpublished(d, d'')
  {
    forall n: Name | n.Live? || n.Next? || n == Complete ensures SameSlot(d, d'', n) {
      assert SameSlot(d, d', n) && SameSlot(d', d'', n);
    }
  }

  lemma OnlyAtUnpublished(d: Disk, d': Disk)
    requires OnlyAt(d, d', After(Route))
    ensures Unpublished(d, d')
  {
  }

  lemma OnlyRanUnpublished(d: Disk, d': Disk, l: Label)
    requires OnlyRan(d, d', l)
    ensures Unpublished(d, d')
  {
  }

  /** The checks of a first attempt's preparation pass. */
  predicate CanPrepare(job: Job, a: Attempt) {
    && a.settled && Route in job.origin
    && (job.generic ==> a.adoptable && Contract in job.origin && Attachment in job.origin)
  }

  /** The checks an attempt makes from this disk before and between the native commands. */
  predicate Passing(job: Job, d: Disk, a: Attempt) {
    MayStart(job, d, a) && a.custodyMatches && a.responseMatches
  }

  /** Those before the first command. */
  predicate MayStart(job: Job, d: Disk, a: Attempt) {
    a.request == job.request && a.pinsHold && a.stopped && (OutDir !in d.files ==> CanPrepare(job, a))
  }

  /** Every check of a whole first attempt passes and both commands succeed. */
  predicate Startable(job: Job, a: Attempt) {
    && CanPrepare(job, a) && a.request == job.request
    && a.pinsHold && a.stopped && a.custodyMatches && a.responseMatches
    && a.exit(Render) == Some(SUCCESS) && a.exit(Register) == Some(SUCCESS)
  }

  /** A freshly prepared repair can be run. */
  lemma PreparedIsResumable(job: Job, d: Disk, a: Attempt)
    requires Tidy(d, 13) && Planned(d) && Startable(job, a)
    ensures Resumable(job, d, a) && Response(d, a) == a.stdout(Register)
  {
    assert Marker(Render) !in d.files && Marker(Register) !in d.files && Stdout(Register) !in d.files;
  }

  /** A published file holds the successor bytes, a function of the retained inputs alone. */
  lemma PublishedIsSuccessor(job: Job, d: Disk, t: Target)
    requires Inv(job, d) && Published(d, t)
    ensures t == Route ==> Intact(d, Stdout(Register))
    ensures Has(d, Live(t), Successor(job, if t == Route then d.files[Stdout(Register)].data else [], t))
  {
    assert ArchiveOk(job, d, t);
  }

  /** What holds of the live files at every crash point: each chosen one has exactly its before or its
      successor bytes, the successors are a prefix of route, contract, attachment, and the completion
      mark means all of them; the others are untouched. */
  lemma EveryCrashPoint(job: Job, d: Disk)
    requires Inv(job, d)
    ensures forall t :: AtOrigin(job, d, t) || (Chosen(job, t) && Published(d, t))
    ensures !AtOrigin(job, d, Contract) ==> Published(d, Route)
    ensures !AtOrigin(job, d, Attachment) ==> Published(d, Route) && Published(d, Contract)
    ensures Complete in d.files ==> forall t :: Chosen(job, t) ==> Published(d, t)
    ensures forall l :: d.started[l] <= 1 && (d.started[l] == 1 ==> Planned(d))
    ensures forall l :: Has(d, Exit(l), SUCCESS) ==> d.started[l] == 1 && l in d.exits && d.exits[l] == SUCCESS
    ensures d.started[Register] == 1 ==> Has(d, RouteRequest, job.routeRequest) && Has(d, Exit(Render), SUCCESS)
  {
    assert NativeOk(d, Register);
    forall t ensures AtOrigin(job, d, t) || (Chosen(job, t) && Published(d, t)) {
      assert LiveOk(job, d, t);
    }
    forall l ensures d.started[l] <= 1 && (d.started[l] == 1 ==> Planned(d))
      ensures Has(d, Exit(l), SUCCESS) ==> d.started[l] == 1 && l in d.exits && d.exits[l] == SUCCESS
    {
      assert NativeOk(d, l);
    }
  }

  /** Convergence: whatever crashes came before, two completed repairs that registered with the same
      response hold the same live files. */
  lemma CompletedRepairsAgree(job: Job, d: Disk, e: Disk, t: Target)
    requires Inv(job, d) && Inv(job, e) && Complete in d.files && Complete in e.files && Chosen(job, t)
    requires Intact(d, Stdout(Register)) && SameSlot(d, e, Stdout(Register))
    ensures Live(t) in d.files && SameSlot(d, e, Live(t))
    ensures Has(d, Live(t), Successor(job, d.files[Stdout(Register)].data, t))
  {
    EveryCrashPoint(job, d);
    EveryCrashPoint(job, e);
    PublishedIsSuccessor(job, d, t);
    PublishedIsSuccessor(job, e, t);
  }

  /** The disk before the repair: only the live files. */
  function Untouched(job: Job): Disk {
    var live := set t | t in job.origin :: Live(t);
    Disk(map n | n in live :: Whole(job.origin[n.target]), multiset{}, map[])
  }

  lemma UntouchedIsFine(job: Job)
    ensures Inv(job, Untouched(job))
  {
    var d := Untouched(job);
    assert forall n: Name :: n in d.files ==> n.Live?;
    assert forall t :: AtOrigin(job, d, t);
    assert NativeInv(d) && PlanInv(job, d) && ArchiveInv(job, d);
  }

  class Repair {
    const job: Job
    var files: map<Name, Content>
    ghost var started: multiset<Label>
    ghost var exits: map<Label, Bytes>
    /** Disk steps left before the process dies; `None` if it does not. */
    var doom: Option<nat>

    constructor (job: Job)
      ensures this.job == job && State() == Untouched(job)
    {
      this.job := job;
      files := Untouched(job).files;
      started, exits, doom := multiset{}, map[], None;
    }

    ghost function State(): Disk
      reads this
    {
      Disk(files, started, exits)
    }

    method Tick() returns (o: Outcome)
      modifies this`doom
      ensures o.Done? || o.Crashed?
      ensures old(doom).None? ==> doom.None? && o.Done?
    {
      if doom.None? { return Done; }
      if doom.value == 0 { return Crashed; }
      doom := Some(doom.value - 1);
      o := Done;
    }

    /** Exclusive creation, then the bytes: a crash in between leaves a torn file. */
    method Create(n: Name, data: Bytes) returns (o: Outcome)
      modifies this`files, this`doom
      ensures o.Refused? <==> n in old(files)
      ensures o.Refused? ==> files == old(files)
      ensures o.Done? ==> files == old(files)[n := Whole(data)]
      ensures o.Crashed? ==> files == old(files) || files == old(files)[n := Torn]
      ensures old(doom).None? ==> doom.None? && !o.Crashed?
    {
      if n in files { return Refused; }
      :- Tick();
      files := files[n := Torn];
      :- Tick();
      files := files[n := Whole(data)];
      o := Done;
    }

    /** `write`, under the invariant. */
    method WriteNew(n: Name, data: Bytes) returns (o: Outcome)
      requires Inv(job, State())
      requires n !in files ==> MayWrite(job, State(), n, data)
      modifies this`files, this`doom
      ensures Inv(job, State())
      ensures o.Refused? <==> n in old(files)
      ensures o.Refused? ==> files == old(files)
      ensures o.Done? ==> files == old(files)[n := Whole(data)]
      ensures o.Crashed? ==> files == old(files) || files == old(files)[n := Torn]
      ensures old(doom).None? ==> doom.None? && !o.Crashed?
    {
      ghost var d := State();
      o := Create(n, data);
      if !o.Refused? && files != d.files {
        WriteKeeps(job, d, n, data, files[n]);
      }
    }

    /** `publish`: compare, stage, replace.  Bytes that are neither before nor after are never replaced. */
    method Publish(t: Target, before: Bytes, after: Bytes) returns (o: Outcome)
      modifies this`files, this`doom
      ensures PublishEffect(old(State()), State(), t, before, after, o)
      ensures old(doom).None? ==> doom.None? && !o.Crashed?
    {
      if Live(t) !in files { return Refused; }
      var current := files[Live(t)];
      if current == Whole(after) { return Done; }
      if current != Whole(before) { return Refused; }
      if Next(t) in files {
        if files[Next(t)] != Whole(after) { return Refused; }
      } else {
        :- Create(Next(t), after);
      }
      :- Tick();
      files := (files - {Next(t)})[Live(t) := Whole(after)];
      o := Done;
    }

    /** One native invocation: open the outputs, start, and collect the exit unless it times out. */
    method Invoke(l: Label, a: Attempt) returns (o: Outcome)
      requires Stdout(l) !in files && Stderr(l) !in files
      modifies this
      ensures InvokeEffect(old(State()), State(), l, a, o)
      ensures old(doom).None? ==> doom.None? && !o.Crashed?
    {
      ghost var d := State();
      :- Tick();
      files := files[Stdout(l) := Torn];
      :- Tick();
      files := files[Stderr(l) := Torn];
      assert State() == Opened(d, l);
      :- Tick();
      started := started + multiset{l};
      assert State() == Started(d, l);
      :- Tick();
      files := files[Stdout(l) := Whole(a.stdout(l))];
      files := files[Stderr(l) := Whole([])];
      assert State() == Finished(d, l, a.stdout(l));
      if a.exit(l).None? { return Refused; }
      exits := exits[l := a.exit(l).value];
      o := Done;
    }

    /** The first sending of a command: marker, invocation, exit. */
    method Send(l: Label, a: Attempt) returns (o: Outcome)
      requires Marker(l) !in files && Stdout(l) !in files && Stderr(l) !in files && Exit(l) !in files
      modifies this
      ensures SendEffect(old(State()), State(), l, a, o)
      ensures old(doom).None? ==> doom.None? && !o.Crashed?
    {
      o := Create(Marker(l), a.argv(l));
      if o.IsFailure() { return; }
      :- Invoke(l, a);
      o := Create(Exit(l), a.exit(l).value);
    }

    /** `command`: a retained marker means the command is never sent again. */
    method Command(l: Label, a: Attempt) returns (o: Outcome)
      requires Inv(job, State()) && MaySend(job, State(), l)
      modifies this
      ensures Inv(job, State())
      ensures CommandEffect(old(State()), State(), l, a, o)
      ensures old(doom).None? ==> doom.None? && !o.Crashed?
    {
      ghost var d0 := State();
      assert NativeOk(d0, l);
      if Marker(l) in files {
        if files[Marker(l)] != Whole(a.argv(l)) { return Refused; }
        if Exit(l) !in files { return Refused; }
      } else {
        o := Send(l, a);
        SendKeeps(job, d0, State(), l, a, o);
        if !o.Done? { return; }
        RanFacts(d0, l, a, a.exit(l).value);
      }
      if files[Exit(l)] != Whole(SUCCESS) { return Refused; }
      o := Done;
    }

    /** One publication in its turn, read from the archives. */
    method PublishTurn(t: Target) returns (o: Outcome)
      requires Inv(job, State()) && Planned(State()) && TurnOf(job, State(), t) && Intact(State(), After(t))
      modifies this
      ensures TurnTaken(job, old(State()), State(), t, o)
      ensures old(doom).None? ==> doom.None? && !o.Crashed?
    {
      ghost var d := State();
      assert ArchiveOk(job, d, t);
      var before, after := files[Before(t)].data, files[After(t)].data;
      o := Publish(t, before, after);
      TurnFacts(job, d, State(), t, before, after, o);
    }

    /** Publish route, then contract and attachment. */
    method PublishAll() returns (o: Outcome)
      requires Inv(job, State()) && Planned(State()) && Intact(State(), After(Route))
      modifies this
      ensures Inv(job, State()) && Settling(old(State()), State())
      ensures o.Done? ==> forall t :: Chosen(job, t) ==> Published(State(), t)
      ensures old(doom).None? ==> doom.None? && !o.Crashed?
      ensures old(doom).None? && old(AllWhole(State())) ==> o.Done? && AllWhole(State())
    {
      ghost var d := State();
      :- PublishTurn(Route);
      if job.generic {
        ghost var d1 := State();
        NextTurn(job, d, d1, Contract);
        o := PublishTurn(Contract);
        ghost var d2 := State();
        SettlingTrans(d, d1, d2);
        if !o.Done? { return; }
        NextTurn(job, d, d2, Attachment);
        o := PublishTurn(Attachment);
        SettlingTrans(d, d2, State());
        if !o.Done? { return; }
      }
      o := Done;
    }

    /** `if not path.exists(): write(path, data)`, then require the retained bytes to be `data`. */
    method Retain(n: Name, data: Bytes) returns (o: Outcome)
      requires Inv(job, State())
      requires n !in files ==> MayWrite(job, State(), n, data)
      modifies this`files, this`doom
      ensures Inv(job, State()) && OnlyAt(old(State()), State(), n)
      ensures o.Done? ==> Has(State(), n, data)
      ensures old(doom).None? ==> doom.None? && !o.Crashed?
      ensures old(doom).None? && old(AllWhole(State())) ==> AllWhole(State())
      ensures old(doom).None? && (n in old(files) ==> old(files)[n] == Whole(data)) ==> o.Done?
    {
      if n !in files {
        :- WriteNew(n, data);
      }
      if files[n] != Whole(data) { return Refused; }
      o := Done;
    }

    /** The status check and the render command. */
    method RenderCustody(a: Attempt, ghost response: Bytes) returns (o: Outcome)
      requires Inv(job, State()) && Planned(State())
      modifies this
      ensures Inv(job, State()) && Planned(State())
      ensures o.Done? ==> Has(State(), Exit(Render), SUCCESS) && a.stopped && a.custodyMatches
      ensures OnlyRan(old(State()), State(), Render) && (!a.stopped ==> State() == old(State()))
      ensures old(doom).None? ==> doom.None? && !o.Crashed?
      ensures old(doom).None? && old(Ready(State(), Render, a) && OnTrack(State(), a, response)) && a.stopped &&
              a.custodyMatches ==>
              o.Done? && OnTrack(State(), a, response)
    {
      if !a.stopped { return Refused; }
      ghost var d := State();
      o := Command(Render, a);
      CommandLeaves(d, State(), Render, Register);
      if Ready(d, Render, a) && OnTrack(d, a, response) && !o.Crashed? {
        RenderOnTrack(d, State(), a, o, response);
      }
      if !o.Done? { return; }
      if !a.custodyMatches { return Refused; }
    }

    /** Retain the registration request. */
    method RetainRequest(a: Attempt, ghost response: Bytes) returns (o: Outcome)
      requires Inv(job, State()) && Planned(State())
      modifies this
      ensures Inv(job, State()) && Planned(State()) && SameSlot(old(State()), State(), Exit(Render))
      ensures OnlyAt(old(State()), State(), RouteRequest)
      ensures o.Done? ==> Has(State(), RouteRequest, job.routeRequest)
      ensures old(doom).None? ==> doom.None? && !o.Crashed?
      ensures old(doom).None? && old(OnTrack(State(), a, response)) ==> o.Done? && OnTrack(State(), a, response)
    {
      ghost var d := State();
      assert OutDir in files;
      if AllWhole(d) { RequestIsRetained(job, d); }
      o := Retain(RouteRequest, job.routeRequest);
      RetainLeaves(d, State());
      if AllWhole(State()) && OnTrack(d, a, response) { RequestOnTrack(d, State(), a, response); }
    }

    /** Register, and retain the successor route built from the response. */
    method RegisterRoute(a: Attempt, ghost response: Bytes) returns (o: Outcome)
      requires Inv(job, State()) && MaySend(job, State(), Register)
      modifies this
      ensures Inv(job, State()) && Planned(State())
      ensures o.Done? ==> Intact(State(), After(Route)) && a.responseMatches
      ensures Unpublished(old(State()), State())
      ensures old(doom).None? ==> doom.None? && !o.Crashed?
      ensures old(doom).None? && old(OnTrack(State(), a, response)) && a.responseMatches ==>
              o.Done? && AllWhole(State()) && Has(State(), Stdout(Register), response)
    {
      ghost var d := State();
      o := Command(Register, a);
      ghost var d1 := State();
      CommandLeaves(d, d1, Register, Render);
      OnlyRanUnpublished(d, d1, Register);
      if OnTrack(d, a, response) && !o.Crashed? {
        RegisterOnTrack(d, d1, a, o, response);
      }
      if !o.Done? { return; }
      if !a.responseMatches { return Refused; }
      o := RetainRoute();
      UnpublishedTrans(d, d1, State());
    }

    /** Retain the successor route built from the response. */
    method RetainRoute() returns (o: Outcome)
      requires Inv(job, State()) && Planned(State()) && Intact(State(), Stdout(Register))
      requires Has(State(), Exit(Render), SUCCESS) && Has(State(), Exit(Register), SUCCESS)
      modifies this`files, this`doom
      ensures Inv(job, State()) && Planned(State()) && Unpublished(old(State()), State())
      ensures SameSlot(old(State()), State(), Stdout(Register)) && (o.Done? ==> Intact(State(), After(Route)))
      ensures old(doom).None? ==> doom.None? && !o.Crashed?
      ensures old(doom).None? && old(AllWhole(State())) ==> o.Done? && AllWhole(State())
    {
      ghost var d := State();
      assert OutDir in files;
      o := Retain(After(Route), job.successor(files[Stdout(Register)].data));
      RetainLeaves2(d, State());
      OnlyAtUnpublished(d, State());
    }

    /** The end of `run`: publish, record completion. */
    method Finish() returns (o: Outcome)
      requires Inv(job, State()) && Planned(State()) && Intact(State(), After(Route))
      modifies this
      ensures Inv(job, State())
      ensures o.Done? ==> Complete in files && forall t :: Chosen(job, t) ==> Published(State(), t)
      ensures o.Done? ==> SameSlot(old(State()), State(), Stdout(Register))
      ensures old(doom).None? && old(AllWhole(State())) ==> o.Done?
    {
      ghost var d := State();
      :- PublishAll();
      assert SameSlot(d, State(), Stdout(Register)) && SameSlot(d, State(), Plan) && SameSlot(d, State(), OutDir);
      assert OutDir in d.files;
      ghost var e := State();
      o := MarkComplete();
      assert o.Done? ==> SameSlot(e, State(), Stdout(Register));
    }

    method MarkComplete() returns (o: Outcome)
      requires Inv(job, State()) && Planned(State()) && OutDir in files
      requires forall t :: Chosen(job, t) ==> Published(State(), t)
      modifies this`files, this`doom
      ensures Inv(job, State())
      ensures o.Done? ==> Complete in files && forall n :: n != Complete ==> SameSlot(old(State()), State(), n)
      ensures o.Done? ==> forall t :: Chosen(job, t) ==> Published(State(), t)
      ensures old(doom).None? ==> o.Done?
    {
      if Complete !in files {
        :- WriteNew(Complete, []);
      }
      o := Done;
    }

    /** `run`: inspect, publish, record completion.  An application that is not stopped is left entirely alone;
        a failed check keeps what comes after it from happening. */
    method Run(a: Attempt) returns (o: Outcome)
      requires Inv(job, State()) && Planned(State())
      modifies this
      ensures Inv(job, State())
      ensures o.Done? ==> a.stopped && a.custodyMatches && a.responseMatches
      ensures !a.stopped ==> State() == old(State())
      ensures !a.custodyMatches ==> started[Register] == old(started)[Register]
      ensures !(a.stopped && a.custodyMatches && a.responseMatches) ==> Unpublished(old(State()), State())
      ensures o.Done? ==> Complete in files && forall t :: Chosen(job, t) ==> Published(State(), t)
      ensures old(doom).None? && old(Resumable(job, State(), a)) ==>
              o.Done? && Has(State(), Stdout(Register), old(Response(State(), a)))
    {
      ghost var response := Response(State(), a);
      o := Inspect(a, response);
      if o.IsFailure() { return; }
      o := Finish();
    }

    /** `run` up to the retained successor route. */
    method Inspect(a: Attempt, ghost response: Bytes) returns (o: Outcome)
      requires Inv(job, State()) && Planned(State())
      modifies this
      ensures Inv(job, State()) && Planned(State()) && Unpublished(old(State()), State())
      ensures o.Done? ==> Intact(State(), After(Route)) && a.stopped && a.custodyMatches && a.responseMatches
      ensures !a.stopped ==> State() == old(State())
      ensures !a.custodyMatches ==> started[Register] == old(started)[Register]
      ensures old(doom).None? ==> doom.None? && !o.Crashed?
      ensures old(doom).None? && old(Resumable(job, State(), a)) && response == old(Response(State(), a)) ==>
              o.Done? && AllWhole(State()) && Has(State(), Stdout(Register), response)
    {
      ghost var d := State();
      o := RenderCustody(a, response);
      ghost var d1 := State();
      OnlyRanUnpublished(d, d1, Render);
      if o.IsFailure() { return; }
      o := RetainRequest(a, response);
      ghost var d2 := State();
      assert Unpublished(d1, d2);
      UnpublishedTrans(d, d1, d2);
      if o.IsFailure() { return; }
      o := RegisterRoute(a, response);
      UnpublishedTrans(d, d2, State());
    }

    /** One file of the preparation. */
    method PrepareFile(n: Name, data: Bytes) returns (o: Outcome)
      requires Inv(job, State()) && Preparing(job, State()) && Preparatory(job, n, data)
      modifies this`files, this`doom
      ensures Inv(job, State()) && Preparing(job, State()) && Adds(old(State()), State(), Step(n))
      ensures o.Done? ==> Has(State(), n, data)
      ensures old(doom).None? && old(Tidy(State(), Step(n))) ==> o.Done? && doom.None? && Tidy(State(), Step(n) + 1)
    {
      ghost var d := State();
      if Tidy(d, Step(n)) { TidyWrite(d, n, data, Step(n)); }
      o := WriteNew(n, data);
      AddsOne(d, State(), n, Step(n));
      PreparingStays(job, d, State(), Step(n));
    }

    /** The sources a generic request retires. */
    method PrepareSources() returns (o: Outcome)
      requires Inv(job, State()) && Preparing(job, State())
      modifies this`files, this`doom
      ensures Inv(job, State()) && Preparing(job, State()) && Adds(old(State()), State(), 8)
      ensures o.Done? ==> Retired(State())
      ensures old(doom).None? && old(Tidy(State(), 7)) ==> o.Done? && doom.None? && Tidy(State(), 9)
    {
      ghost var d := State();
      o := PrepareFile(PreviousOrchestrator, []);
      ghost var d1 := State();
      AddsLater(d, d1, 7, 8);
      if o.IsFailure() { return; }
      assert Intact(d1, PreviousOrchestrator);
      o := PrepareFile(PreviousRenderer, []);
      AddsTrans(d, d1, State(), 7, 8);
      assert SameSlot(d1, State(), PreviousOrchestrator);
    }

    /** With the receipt of a Mini upgrade. */
    method PrepareRetired() returns (o: Outcome)
      requires Inv(job, State()) && Preparing(job, State())
      modifies this`files, this`doom
      ensures Inv(job, State()) && Preparing(job, State()) && Adds(old(State()), State(), 9)
      ensures o.Done? ==> Retired(State())
      ensures o.Done? && job.upgradesMini ==> Intact(State(), MiniReceipt)
      ensures old(doom).None? && old(Tidy(State(), 7)) ==> o.Done? && doom.None? && Tidy(State(), 10)
    {
      ghost var d := State();
      o := PrepareSources();
      ghost var d1 := State();
      AddsLater(d, d1, 8, 9);
      if o.IsFailure() { return; }
      o := PrepareReceipt();
      AddsTrans(d, d1, State(), 8, 9);
      AddsKeepsIntact(d1, State(), 9);
    }

    method PrepareReceipt() returns (o: Outcome)
      requires Inv(job, State()) && Preparing(job, State())
      modifies this`files, this`doom
      ensures Inv(job, State()) && Preparing(job, State()) && Adds(old(State()), State(), 9)
      ensures o.Done? && job.upgradesMini ==> Intact(State(), MiniReceipt)
      ensures old(doom).None? && old(Tidy(State(), 9)) ==> o.Done? && doom.None? && Tidy(State(), 10)
    {
      if job.upgradesMini {
        o := PrepareFile(MiniReceipt, []);
      } else {
        if Tidy(State(), 9) { TidyLater(State(), 9, 10); }
        AddsNothing(State(), 9);
        o := Done;
      }
    }

    /** The contract and attachment a generic request adopts. */
    method PrepareAdoption(a: Attempt) returns (o: Outcome)
      requires Inv(job, State()) && Preparing(job, State()) && Intact(State(), Before(Contract))
      modifies this`files, this`doom
      ensures Inv(job, State()) && Preparing(job, State()) && Adds(old(State()), State(), 11)
      ensures o.Done? ==>
                a.adoptable && forall t :: t != Route ==> Intact(State(), Before(t)) && Intact(State(), After(t))
      ensures o.Done? ==> Retired(State())
      ensures o.Done? && job.upgradesMini ==> Intact(State(), MiniReceipt)
      ensures old(doom).None? && old(Tidy(State(), 7) && Intact(State(), Before(Attachment))) && a.adoptable ==>
              o.Done? && doom.None? && Tidy(State(), 12)
    {
      if !(Before(Attachment) in files && files[Before(Attachment)].Whole?) || !a.adoptable { return Refused; }
      ghost var d := State();
      o := PrepareRetired();
      ghost var d1 := State();
      AddsLater(d, d1, 9, 11);
      if o.IsFailure() { return; }
      o := PrepareAfter();
      AddsTrans(d, d1, State(), 9, 11);
      AddsKeepsIntact(d1, State(), 11);
    }

    method PrepareAfter() returns (o: Outcome)
      requires Inv(job, State()) && Preparing(job, State())
      modifies this`files, this`doom
      ensures Inv(job, State()) && Preparing(job, State()) && Adds(old(State()), State(), 11)
      ensures o.Done? ==> Intact(State(), After(Attachment)) && Intact(State(), After(Contract))
      ensures old(doom).None? && old(Tidy(State(), 10)) ==> o.Done? && doom.None? && Tidy(State(), 12)
    {
      ghost var d := State();
      o := PrepareFile(After(Attachment), job.adopted(Attachment));
      ghost var d1 := State();
      AddsLater(d, d1, 10, 11);
      if o.IsFailure() { return; }
      o := PrepareFile(After(Contract), job.adopted(Contract));
      AddsTrans(d, d1, State(), 10, 11);
    }

    /** `prepare`: the plan is written last. */
    method Prepare(a: Attempt) returns (o: Outcome)
      requires Inv(job, State()) && OutDir in files && Has(State(), Input, job.request)
      requires job.generic ==> Intact(State(), Before(Contract))
      modifies this`files, this`doom
      ensures Inv(job, State()) && (o.Done? ==> Planned(State()) && CanPrepare(job, a))
      ensures Adds(old(State()), State(), if CanPrepare(job, a) then 12 else 11)
      ensures old(doom).None? && CanPrepare(job, a) && old(Tidy(State(), 5) && Intact(State(), Before(Route)))
              && (job.generic ==> old(Intact(State(), Before(Attachment)))) ==>
              o.Done? && doom.None? && Tidy(State(), 13)
    {
      if !(Before(Route) in files && files[Before(Route)].Whole?) || !a.settled { return Refused; }
      ghost var d := State();
      o := PrepareEvidence(a);
      ghost var d1 := State();
      AddsLater(d, d1, 11, 12);
      if o.IsFailure() { return; }
      assert ArchiveOk(job, d1, Route) && ArchiveOk(job, d1, Contract) && ArchiveOk(job, d1, Attachment);
      o := WritePlan();
      AddsTrans(d, d1, State(), 11, 12);
    }

    /** Everything of the preparation but the plan. */
    method PrepareEvidence(a: Attempt) returns (o: Outcome)
      requires Inv(job, State()) && Preparing(job, State()) && (job.generic ==> Intact(State(), Before(Contract)))
      modifies this`files, this`doom
      ensures Inv(job, State()) && Preparing(job, State()) && Adds(old(State()), State(), 11)
      ensures o.Done? && job.generic ==>
              a.adoptable && forall t :: t != Route ==> Intact(State(), Before(t)) && Intact(State(), After(t))
      ensures o.Done? ==> Evident(job, State())
      ensures old(doom).None? && old(Tidy(State(), 5))
              && (job.generic ==> a.adoptable && old(Intact(State(), Before(Attachment)))) ==>
              o.Done? && doom.None? && Tidy(State(), 12)
    {
      ghost var d := State();
      o := PrepareOperator();
      ghost var d1 := State();
      AddsLater(d, d1, 6, 11);
      if o.IsFailure() { return; }
      if job.generic {
        assert SameSlot(d, d1, Before(Contract));
        if Before(Attachment) in d.files { assert SameSlot(d, d1, Before(Attachment)); }
        o := PrepareAdoption(a);
        AddsTrans(d, d1, State(), 6, 11);
        AddsKeepsIntact(d1, State(), 11);
      } else if Tidy(State(), 7) {
        TidyLater(State(), 7, 12);
      }
    }

    method PrepareOperator() returns (o: Outcome)
      requires Inv(job, State()) && Preparing(job, State())
      modifies this`files, this`doom
      ensures Inv(job, State()) && Preparing(job, State()) && Adds(old(State()), State(), 6)
      ensures o.Done? ==> Intact(State(), OperatorPins) && Intact(State(), ExpectedCustody)
      ensures old(doom).None? && old(Tidy(State(), 5)) ==> o.Done? && doom.None? && Tidy(State(), 7)
    {
      ghost var d := State();
      o := PrepareFile(OperatorPins, []);
      ghost var d1 := State();
      AddsLater(d, d1, 5, 6);
      if o.IsFailure() { return; }
      o := PrepareFile(ExpectedCustody, []);
      AddsTrans(d, d1, State(), 5, 6);
      AddsKeepsIntact(d1, State(), 6);
    }

    method WritePlan() returns (o: Outcome)
      requires Inv(job, State()) && Preparing(job, State()) && Evident(job, State())
      requires job.generic ==> forall t :: t != Route ==> Intact(State(), Before(t)) && Intact(State(), After(t))
      modifies this`files, this`doom
      ensures Inv(job, State()) && (o.Done? ==> Planned(State())) && Adds(old(State()), State(), 12)
      ensures old(doom).None? && old(Tidy(State(), 12)) ==> o.Done? && doom.None? && Tidy(State(), 13)
    {
      ghost var d := State();
      if Tidy(d, 12) { TidyWrite(d, Plan, [], 12); }
      o := WriteNew(Plan, []);
    }

    /** The archives of the live files as they stand before anything is published. */
    method ArchiveBefore(t: Target) returns (o: Outcome)
      requires Inv(job, State()) && OutDir in files && AtOrigin(job, State(), t)
      modifies this`files, this`doom
      ensures Inv(job, State())
      ensures o.Done? ==> Live(t) in files && Intact(State(), Before(t)) && OnlyAt(old(State()), State(), Before(t))
      ensures Adds(old(State()), State(), Step(Before(t)))
      ensures o.Refused? ==> files == old(files)
      ensures old(doom).None? && t in job.origin && old(Tidy(State(), Step(Before(t)))) ==>
              o.Done? && doom.None? && Tidy(State(), Step(Before(t)) + 1)
    {
      if Live(t) !in files { return Refused; }
      ghost var d := State();
      if Tidy(d, Step(Before(t))) { TidyWrite(d, Before(t), files[Live(t)].data, Step(Before(t))); }
      o := WriteNew(Before(t), files[Live(t)].data);
      AddsOne(d, State(), Before(t), Step(Before(t)));
    }

    /** The first steps: the directory and the retained request. */
    method MakeDir(a: Attempt) returns (o: Outcome)
      requires Inv(job, State()) && OutDir !in files && a.request == job.request
      modifies this`files, this`doom
      ensures Inv(job, State()) && Adds(old(State()), State(), 1)
      ensures o.Done? ==> Archiving(job, State())
      ensures old(doom).None? ==> o.Done? && doom.None? && Tidy(State(), 2)
    {
      ghost var d := State();
      :- Tick();
      files := files[OutDir := Whole([])];
      MakeDirKeeps(job, d);
      ghost var e := State();
      MadeDirIsTidy(job, d);
      TidyWrite(e, Input, a.request, 1);
      :- WriteNew(Input, a.request);
      forall t ensures AtOrigin(job, State(), t) {
        assert AtOrigin(job, d, t);
      }
      o := Done;
    }

    /** One archive, where there is a live file. */
    method ArchiveIfLive(t: Target) returns (o: Outcome)
      requires Inv(job, State()) && Archiving(job, State())
      modifies this`files, this`doom
      ensures Inv(job, State()) && Adds(old(State()), State(), Step(Before(t)))
      ensures o.Done? ==> Archiving(job, State())
      ensures o.Done? && t in job.origin ==> Intact(State(), Before(t))
      ensures old(doom).None? && old(Tidy(State(), Step(Before(t)))) ==>
              o.Done? && doom.None? && Tidy(State(), Step(Before(t)) + 1)
    {
      ghost var d := State();
      assert AtOrigin(job, d, t);
      if Live(t) in files {
        o := ArchiveBefore(t);
        if o.IsFailure() { return; }
        ArchiveLeaves(job, d, State(), t);
      } else if Tidy(d, Step(Before(t))) {
        TidyLater(d, Step(Before(t)), Step(Before(t)) + 1);
      }
      o := Done;
    }

    /** Whatever is live of the route and the attachment. */
    method ArchiveLive() returns (o: Outcome)
      requires Inv(job, State()) && Archiving(job, State())
      modifies this`files, this`doom
      ensures Inv(job, State()) && Adds(old(State()), State(), 3)
      ensures o.Done? ==> Archiving(job, State())
      ensures o.Done? ==> forall t :: t != Contract && t in job.origin ==> Intact(State(), Before(t))
      ensures old(doom).None? && old(Tidy(State(), 2)) ==> o.Done? && doom.None? && Tidy(State(), 4)
    {
      ghost var d := State();
      o := ArchiveIfLive(Route);
      ghost var d1 := State();
      AddsLater(d, d1, 2, 3);
      if o.IsFailure() { return; }
      o := ArchiveIfLive(Attachment);
      AddsTrans(d, d1, State(), 2, 3);
      ArchivesStay(d1, State(), 3);
    }

    /** A generic request's contract. */
    method ArchiveContract() returns (o: Outcome)
      requires Inv(job, State()) && Archiving(job, State())
      modifies this`files, this`doom
      ensures Inv(job, State()) && Adds(old(State()), State(), 4)
      ensures o.Done? ==> Archiving(job, State()) && (job.generic ==> Intact(State(), Before(Contract)))
      ensures old(doom).None? && old(Tidy(State(), 4)) && (job.generic ==> Contract in job.origin) ==>
              o.Done? && doom.None? && Tidy(State(), 5)
    {
      ghost var d := State();
      AddsNothing(d, 4);
      o := Done;
      if job.generic {
        assert AtOrigin(job, d, Contract);
        o := ArchiveBefore(Contract);
        if o.IsFailure() { return; }
        ArchiveLeaves(job, d, State(), Contract);
      } else if Tidy(d, 4) {
        TidyLater(d, 4, 5);
      }
    }

    /** The archives. */
    method ArchiveAll() returns (o: Outcome)
      requires Inv(job, State()) && Archiving(job, State())
      modifies this`files, this`doom
      ensures Inv(job, State()) && Adds(old(State()), State(), 4)
      ensures o.Done? ==> Archiving(job, State()) && (job.generic ==> Intact(State(), Before(Contract)))
      ensures o.Done? ==> forall t :: t != Contract && t in job.origin ==> Intact(State(), Before(t))
      ensures old(doom).None? && old(Tidy(State(), 2)) && (job.generic ==> Contract in job.origin) ==>
              o.Done? && doom.None? && Tidy(State(), 5)
    {
      ghost var d := State();
      o := ArchiveLive();
      ghost var d1 := State();
      AddsLater(d, d1, 3, 4);
      if o.IsFailure() { return; }
      o := ArchiveContract();
      AddsTrans(d, d1, State(), 3, 4);
      ArchivesStay(d1, State(), 4);
    }

    /** The first attempt: make the directory, retain the request, archive the live files, prepare.  With
        passing checks and no disturbance it ends with a plan. */
    method First(a: Attempt) returns (o: Outcome)
      requires Inv(job, State()) && OutDir !in files && a.request == job.request
      modifies this`files, this`doom
      ensures Inv(job, State()) && (o.Done? ==> Planned(State()) && CanPrepare(job, a))
      ensures Adds(old(State()), State(), if CanPrepare(job, a) then 12 else 11)
      ensures old(doom).None? && CanPrepare(job, a) ==> o.Done? && doom.None? && Tidy(State(), 13)
    {
      ghost var d, last := State(), if CanPrepare(job, a) then 12 else 11;
      o := MakeDir(a);
      ghost var d1 := State();
      AddsLater(d, d1, 1, last);
      if o.IsFailure() { return; }
      o := ArchiveAll();
      ghost var d2 := State();
      AddsTrans(d, d1, d2, 1, 4);
      AddsLater(d, d2, 4, last);
      if o.IsFailure() { return; }
      o := Prepare(a);
      AddsTrans(d, d2, State(), 4, last);
    }

    /** `__init__`: a retained directory is resumed only for the identical request and a complete plan. */
    method Begin(a: Attempt) returns (o: Outcome)
      requires Inv(job, State()) && (OutDir !in files ==> a.request == job.request)
      modifies this`files, this`doom
      ensures Inv(job, State())
      ensures o.Done? ==> Planned(State()) && a.request == job.request && a.pinsHold
      ensures o.Done? && OutDir !in old(files) ==> CanPrepare(job, a)
      ensures Adds(old(State()), State(), if CanPrepare(job, a) then 12 else 11)
      ensures OutDir in old(files) ==>
              && files == old(files) && doom == old(doom)
              && (o.Done? <==> Has(State(), Input, a.request) && Planned(State()) && a.pinsHold)
      ensures old(doom).None? && OutDir !in old(files) && Startable(job, a) ==>
              o.Done? && doom.None? && Resumable(job, State(), a) && Response(State(), a) == a.stdout(Register)
    {
      ghost var last := if CanPrepare(job, a) then 12 else 11;
      AddsNothing(State(), last);
      if OutDir !in files {
        o := First(a);
        if o.IsFailure() { return; }
        if Tidy(State(), 13) && Startable(job, a) {
          PreparedIsResumable(job, State(), a);
          PlannedHasInput(job, State());
        }
      }
      if Input !in files || files[Input] != Whole(a.request) { return Refused; }
      if Plan !in files || !files[Plan].Whole? { return Refused; }
      if !a.pinsHold { return Refused; }
      o := Done;
    }

    /** One attempt, from start to completion, refusal or crash.  It completes only with every check passing;
        with a failed one no live file changes, with one before the commands none is started, and a first
        attempt that may not prepare leaves no plan. */
    method Try(a: Attempt, doom: Option<nat>) returns (o: Outcome)
      requires Inv(job, State()) && (OutDir !in files ==> a.request == job.request)
      modifies this
      ensures Inv(job, State())
      ensures o.Done? ==> Complete in files && forall t :: Chosen(job, t) ==> Published(State(), t)
      ensures o.Done? ==> old(Passing(job, State(), a))
      ensures !old(Passing(job, State(), a)) ==> Unpublished(old(State()), State())
      ensures !old(MayStart(job, State(), a)) ==> started == old(started)
      ensures !a.custodyMatches ==> started[Register] == old(started)[Register]
      ensures OutDir !in old(files) && !CanPrepare(job, a) ==> !Planned(State())
      ensures doom.None? && old(Resumable(job, State(), a)) ==>
              o.Done? && Has(State(), Stdout(Register), old(Response(State(), a)))
      ensures doom.None? && OutDir !in old(files) && Startable(job, a) ==>
              o.Done? && Has(State(), Stdout(Register), a.stdout(Register))
    {
      this.doom := doom;
      ghost var d := State();
      assert OutDir !in files ==> !Planned(State()) && Plan !in files;
      o := Begin(a);
      ghost var d1 := State();
      BegunUnpublished(job, d, d1, a);
      if o.IsFailure() { return; }
      o := Run(a);
      if !(a.stopped && a.custodyMatches && a.responseMatches) { UnpublishedTrans(d, d1, State()); }
    }

    /** Any number of attempts, each dying wherever it may.  An attempt with another request is refused
        once the directory exists; while it does not, such an attempt begins another repair of the
        untouched disk, so this one's attempts are those before it. */
    method Lifetime(attempts: seq<(Attempt, Option<nat>)>) returns (n: nat)
      requires State() == Untouched(job)
      modifies this
      ensures Inv(job, State())
      ensures forall l :: started[l] <= 1 && (started[l] > 0 ==> Planned(State()))
      ensures n <= |attempts| && (n < |attempts| ==> State() == Untouched(job) && attempts[n].0.request != job.request)
    {
      UntouchedIsFine(job);
      n := 0;
      while n < |attempts| && (OutDir in files || attempts[n].0.request == job.request)
        invariant n <= |attempts| && Inv(job, State())
      {
        var o := Try(attempts[n].0, attempts[n].1);
        n := n + 1;
      }
      if n < |attempts| { FreshIsUntouched(job, State()); }
      forall l ensures started[l] <= 1 && (started[l] > 0 ==> Planned(State())) {
        assert NativeOk(State(), l);
      }
    }
  }

  lemma BegunUnpublished(job: Job, d: Disk, d': Disk, a: Attempt)
    requires Adds(d, d', if CanPrepare(job, a) then 12 else 11)
    ensures Unpublished(d, d') && (Plan !in d.files && !CanPrepare(job, a) ==> Plan !in d'.files)
  {
    AddsLater(d, d', if CanPrepare(job, a) then 12 else 11, 12);
    AddsUnpublished(d, d');
  }

  lemma MadeDirIsTidy(job: Job, d: Disk)
    requires Inv(job, d) && OutDir !in d.files
    ensures Tidy(With(d, OutDir, Whole([])), 1)
  {
    forall n | n in d.files ensures d.files[n].Whole? {
      assert AtOrigin(job, d, n.target);
    }
  }

  lemma PlannedHasInput(job: Job, d: Disk)
    requires Inv(job, d) && Planned(d)
    ensures Has(d, Input, job.request)
  {
  }

  /** Without its directory the repair has left no trace. */
  lemma FreshIsUntouched(job: Job, d: Disk)
    requires Inv(job, d) && OutDir !in d.files
    ensures d == Untouched(job)
  {
    var u := Untouched(job);
    forall n ensures (n in d.files <==> n in u.files) && (n in u.files ==> d.files[n] == u.files[n]) {
      if n.Live? { assert AtOrigin(job, d, n.target) && n == Live(n.target); }
    }
    assert d.files == u.files;
    forall l ensures l !in d.exits {
      assert NativeOk(d, l);
    }
    assert d.exits == map[];
  }
}

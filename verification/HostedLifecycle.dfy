/**
 * The hosted conversation channel (native/hosted-conversation.rs).
 *
 * `Lower` turns a requested operation into primitives, `Replay` executes primitives on a
 * channel state, `Derive` composes the two.  A run is any list of requests from the default
 * state, a refused request leaving the state unchanged.  The accepted requests form a history
 * of `Event`s.  The main theorems say that the seven mutable fields are a function of the
 * history (`StateOf`), and that the histories which occur are exactly those satisfying the
 * declarative rule `Legal`.
 */
module HostedLifecycle {
  import opened Common

  datatype Operation = Operation(phase: nat, command: nat, id: Bytes, binding: Bytes, preimage: Bytes)

  datatype Receipt = Receipt(id: Bytes, bytes: Bytes)

  datatype State = State(
    status: nat,
    ended: bool,
    binding: Bytes,
    pending: Option<Operation>,
    emitted: Option<Operation>,
    receipt: Option<Receipt>,
    spent: seq<Bytes>)

  datatype Context = Context(
    current: bool, retained: bool, budget: bool, acknowledged: bool, ended: bool, response: Bytes)

  datatype Rule = Rule(name: string, code: nat, initial: nat, pending: nat, settled: nat, isolated: bool)

  datatype Primitive =
    | End
    | Claim(expected: nat, pending: nat, operation: Operation)
    | Emit(emission: Operation)
    | Settle(expected: nat, settled: nat, operation: Operation, receipt: Bytes)

  datatype Refusal =
    | Unknown | CurrentAuthority | ExactPreimage | Budget | ChannelState | BindingIsolation
    | NoReplay | UncertainCompletion | OriginalIntent | GuardFailed

  const LIVE := 1

  const RULES := [
    Rule("open", 0, 0, 2, 1, false),
    Rule("send", 1, 1, 2, 1, true),
    Rule("receive", 2, 1, 2, 1, true),
    Rule("rendezvous", 3, 1, 2, 1, true),
    Rule("close", 4, 1, 2, 2, true)]

  const DEFAULT := State(0, false, [], None, None, None, [])

  /** The first rule with the given code. */
  function FindRule(rules: seq<Rule>, code: nat): Option<Rule> {
    if rules == [] then None
    else if rules[0].code == code then Some(rules[0])
    else FindRule(rules[1..], code)
  }

  function Lower(s: State, ctx: Context, op: Operation): Result<seq<Primitive>, Refusal> {
    match FindRule(RULES, op.command)
    case None => Err(Unknown)
    case Some(rule) =>
      if op.phase == 0 then
        if !ctx.current then Err(CurrentAuthority)
        else if !ctx.retained then Err(ExactPreimage)
        else if !ctx.budget then Err(Budget)
        else if s.status != rule.initial || s.ended || s.pending.Some? then Err(ChannelState)
        else if rule.isolated && s.binding != op.binding then Err(BindingIsolation)
        else if op.id in s.spent then Err(NoReplay)
        else Ok([Claim(rule.initial, rule.pending, op), Emit(op)])
      else if op.phase == 1 then
        if !ctx.acknowledged then Err(UncertainCompletion)
        else if s.status != rule.pending || s.pending != Some(op.(phase := 0)) then Err(OriginalIntent)
        else Ok([Settle(rule.pending, rule.settled, op, ctx.response)])
      else if op.phase == 2 then
        if !ctx.ended then Err(ChannelState) else Ok([End])
      else Err(Unknown)
  }

  /** The effect of one primitive. */
  function Execute(s: State, p: Primitive): Result<State, Refusal> {
    match p
    case End => Ok(s.(status := 2, ended := true, emitted := None))
    case Claim(expected, pending, op) =>
      if s.status != expected || s.ended || s.pending.Some? || op.id in s.spent then Err(GuardFailed)
      else Ok(s.(status := pending, binding := op.binding, pending := Some(op), emitted := None,
                 spent := [op.id] + s.spent))
    case Emit(op) =>
      if s.pending != Some(op) then Err(GuardFailed) else Ok(s.(emitted := Some(op)))
    case Settle(expected, settled, op, receipt) =>
      if s.status != expected || s.pending != Some(op.(phase := 0)) then Err(GuardFailed)
      else Ok(s.(status := if s.ended then 2 else settled, pending := None,
                 receipt := Some(Receipt(op.id, receipt))))
  }

  /** What replaying a list means: the first refusal wins, later primitives see earlier effects. */
  function Replayed(s: State, ps: seq<Primitive>): Result<State, Refusal>
    decreases |ps|
  {
    if ps == [] then Ok(s)
    else match Execute(s, ps[0])
      case Err(e) => Err(e)
      case Ok(s') => Replayed(s', ps[1..])
  }

  /** The loop of the source: one local state, updated field by field. */
  method Replay(start: State, primitives: seq<Primitive>) returns (r: Result<State, Refusal>)
    ensures r == Replayed(start, primitives)
  {
    var s := start;
    for i := 0 to |primitives|
      invariant Replayed(start, primitives) == Replayed(s, primitives[i..])
    {
      var p := primitives[i];
      assert primitives[i..][1..] == primitives[i + 1..];
      match p
      case End =>
        s := s.(status := 2);
        s := s.(ended := true);
        s := s.(emitted := None);
      case Claim(expected, pending, op) =>
        if s.status != expected || s.ended || s.pending.Some? || op.id in s.spent { return Err(GuardFailed); }
        s := s.(status := pending);
        s := s.(binding := op.binding);
        s := s.(pending := Some(op));
        s := s.(emitted := None);
        s := s.(spent := [op.id] + s.spent);
      case Emit(op) =>
        if s.pending != Some(op) { return Err(GuardFailed); }
        s := s.(emitted := Some(op));
      case Settle(expected, settled, op, receipt) =>
        var original := op.(phase := 0);
        if s.status != expected || s.pending != Some(original) { return Err(GuardFailed); }
        s := s.(status := if s.ended then 2 else settled);
        s := s.(pending := None);
        s := s.(receipt := Some(Receipt(op.id, receipt)));
    }
    r := Ok(s);
  }

  function Derive(s: State, ctx: Context, op: Operation): Result<State, Refusal> {
    match Lower(s, ctx, op)
    case Err(e) => Err(e)
    case Ok(ps) => Replayed(s, ps)
  }

  predicate SocketLive(s: State) {
    s.status == LIVE && !s.ended && s.pending.None?
  }

  // ------------------------------------------------------------------ any state, any primitives

  lemma {:induction false} ReplayConcat(s: State, ps: seq<Primitive>, qs: seq<Primitive>)
    ensures Replayed(s, ps + qs) ==
            match Replayed(s, ps) case Err(e) => Err(e) case Ok(s') => Replayed(s', qs)
    decreases |ps|
  {
    if ps == [] {
      assert ps + qs == qs;
    } else {
      assert (ps + qs)[1..] == ps[1..] + qs;
      match Execute(s, ps[0])
      case Err(_) =>
      case Ok(s') => ReplayConcat(s', ps[1..], qs);
    }
  }

  /** Whatever the state, `Derive` refuses exactly when `Lower` does, and with the same reason. */
  lemma DeriveRefusesExactlyAsLower(s: State, ctx: Context, op: Operation)
    ensures Lower(s, ctx, op).Err? ==> Derive(s, ctx, op) == Err(Lower(s, ctx, op).error)
    ensures Lower(s, ctx, op).Ok? ==> Replayed(s, Lower(s, ctx, op).value).Ok?
    ensures Derive(s, ctx, op).Err? <==> Lower(s, ctx, op).Err?
  {
    match Lower(s, ctx, op)
    case Err(_) =>
    case Ok(ps) =>
      if op.phase == 0 {
        assert Replayed(s, ps) == Replayed(Execute(s, ps[0]).value, ps[1..]);
        var s' := Execute(s, ps[0]).value;
        assert ps[1..] == [Emit(op)] && Execute(s', Emit(op)).Ok?;
        assert Replayed(s', [Emit(op)]) == Replayed(Execute(s', Emit(op)).value, []);
      } else {
        assert |ps| == 1 && Execute(s, ps[0]).Ok?;
        assert Replayed(s, ps) == Replayed(Execute(s, ps[0]).value, []);
      }
  }

  /** Even a forged primitive list cannot spend an id twice, forget a spent id or reopen a channel. */
  lemma {:induction false} ReplayNeverRespends(s: State, ps: seq<Primitive>)
    requires Distinct(s.spent)
    requires Replayed(s, ps).Ok?
    ensures var s' := Replayed(s, ps).value;
            && Distinct(s'.spent)
            && |s.spent| <= |s'.spent| && s'.spent[|s'.spent| - |s.spent|..] == s.spent
            && (s.ended ==> s'.ended && s'.spent == s.spent)
    decreases |ps|
  {
    if ps != [] {
      ReplayNeverRespends(Execute(s, ps[0]).value, ps[1..]);
    }
  }

  /** Whatever is pending or emitted is the operation spent last. */
  predicate Tracks(s: State) {
    && (s.pending.Some? ==> s.spent != [] && s.spent[0] == s.pending.value.id)
    && (s.emitted.Some? ==> s.spent != [] && s.spent[0] == s.emitted.value.id)
  }

  /** Nor can it pass off an earlier operation as the latest, or displace one that is pending: until that is
      settled, nothing is claimed. */
  lemma {:induction false} ReplayKeepsTrack(s: State, ps: seq<Primitive>)
    requires Tracks(s) && Replayed(s, ps).Ok?
    ensures Tracks(Replayed(s, ps).value)
    ensures s.pending.Some? && (forall p :: p in ps ==> !p.Settle?) ==>
            Replayed(s, ps).value.pending == s.pending && Replayed(s, ps).value.spent == s.spent
    decreases |ps|
  {
    if ps != [] {
      assert forall p :: p in ps[1..] ==> p in ps;
      assert ps[0] in ps;
      ReplayKeepsTrack(Execute(s, ps[0]).value, ps[1..]);
    }
  }

  // ------------------------------------------------------------------ histories

  /** One accepted request: an operation begun (claimed and emitted), its acknowledgement, or the end. */
  datatype Event = Begin(op: Operation) | Settled(op: Operation, bytes: Bytes) | Ended

  /** What a history amounts to: the operations begun, the receipts recorded (both in order), the end. */
  datatype Ledger = Ledger(begun: seq<Operation>, receipts: seq<Receipt>, ended: bool)

  const EMPTY := Ledger([], [], false)

  function Enter(l: Ledger, e: Event): Ledger {
    match e
    case Begin(op) => l.(begun := l.begun + [op])
    case Settled(op, bytes) => l.(receipts := l.receipts + [Receipt(op.id, bytes)])
    case Ended => l.(ended := true)
  }

  function LedgerOf(es: seq<Event>): Ledger {
    if es == [] then EMPTY else Enter(LedgerOf(es[..|es| - 1]), Last(es))
  }

  function Ids(ops: seq<Operation>): (ids: seq<Bytes>)
    ensures |ids| == |ops| && forall i :: 0 <= i < |ops| ==> ids[i] == ops[i].id
  {
    seq(|ops|, i requires 0 <= i < |ops| => ops[i].id)
  }

  function Reversed<T>(s: seq<T>): (r: seq<T>)
    ensures |r| == |s| && forall i :: 0 <= i < |s| ==> r[i] == s[|s| - 1 - i]
  {
    seq(|s|, i requires 0 <= i < |s| => s[|s| - 1 - i])
  }

  /** The whole state of a channel, read off its ledger without executing anything. */
  function StateOf(l: Ledger): State {
    State(
      if l.ended then 2
      else if l.begun == [] then 0
      else if |l.receipts| < |l.begun| || Last(l.begun).command == 4 then 2
      else LIVE,
      l.ended,
      if l.begun == [] then [] else l.begun[0].binding,
      if |l.receipts| < |l.begun| then Some(Last(l.begun)) else None,
      if l.ended || l.begun == [] then None else Some(Last(l.begun)),
      if l.receipts == [] then None else Some(Last(l.receipts)),
      Reversed(Ids(l.begun)))
  }

  /** May `e` be entered after `l`? */
  predicate Permitted(l: Ledger, e: Event) {
    match e
    case Begin(op) =>
      && op.phase == 0 && op.command < 5
      && !l.ended
      && |l.receipts| == |l.begun|
      && (op.command == 0 <==> l.begun == [])
      && (l.begun != [] ==> Last(l.begun).command != 4 && op.binding == l.begun[0].binding)
      && op.id !in Ids(l.begun)
    case Settled(op, _) =>
      && op.phase == 1
      && |l.begun| == |l.receipts| + 1
      && op.(phase := 0) == Last(l.begun)
    case Ended => true
  }

  predicate Legal(es: seq<Event>) {
    es == [] || (Legal(es[..|es| - 1]) && Permitted(LedgerOf(es[..|es| - 1]), Last(es)))
  }

  /** The event a request asks for, if its authority, budget and acknowledgement are in order. */
  function Requested(ctx: Context, op: Operation): Option<Event> {
    if 5 <= op.command then None
    else if op.phase == 0 && ctx.current && ctx.retained && ctx.budget then Some(Begin(op))
    else if op.phase == 1 && ctx.acknowledged then Some(Settled(op, ctx.response))
    else if op.phase == 2 && ctx.ended then Some(Ended)
    else None
  }

  /** The primitives one event stands for. */
  function Primitives(e: Event): seq<Primitive> {
    match e
    case Begin(op) => [Claim(if op.command == 0 then 0 else 1, 2, op), Emit(op)]
    case Settled(op, bytes) => [Settle(2, if op.command == 4 then 2 else 1, op, bytes)]
    case Ended => [End]
  }

  function AllPrimitives(es: seq<Event>): seq<Primitive> {
    if es == [] then [] else AllPrimitives(es[..|es| - 1]) + Primitives(Last(es))
  }

  datatype Request = Request(ctx: Context, op: Operation)

  function Step(s: State, r: Request): State {
    match Derive(s, r.ctx, r.op) case Ok(s') => s' case Err(_) => s
  }

  /** A run from the default state; a refused request is skipped. */
  function Run(rs: seq<Request>): State {
    if rs == [] then DEFAULT else Step(Run(rs[..|rs| - 1]), Last(rs))
  }

  /** What is demanded of a request after a history, in the order in which it is checked, each with the reason
      of its refusal. */
  function Demands(l: Ledger, ctx: Context, op: Operation): seq<(bool, Refusal)> {
    if 5 <= op.command || 3 <= op.phase then [(false, Unknown)]
    else if op.phase == 0 then
      [(ctx.current, CurrentAuthority), (ctx.retained, ExactPreimage), (ctx.budget, Budget),
       (!l.ended && |l.receipts| == |l.begun| && (op.command == 0 <==> l.begun == [])
        && (l.begun != [] ==> Last(l.begun).command != 4), ChannelState),
       (l.begun != [] ==> op.binding == l.begun[0].binding, BindingIsolation),
       (op.id !in Ids(l.begun), NoReplay)]
    else if op.phase == 1 then
      [(ctx.acknowledged, UncertainCompletion),
       (|l.begun| == |l.receipts| + 1 && op.(phase := 0) == Last(l.begun), OriginalIntent)]
    else [(ctx.ended, ChannelState)]
  }

  /** The reason of the first demand that is not met. */
  function FirstUnmet(demands: seq<(bool, Refusal)>): Option<Refusal> {
    if demands == [] then None
    else if !demands[0].0 then Some(demands[0].1)
    else FirstUnmet(demands[1..])
  }

  /** The event an accepted request contributes to the history. */
  function Contribution(s: State, r: Request): seq<Event> {
    if Derive(s, r.ctx, r.op).Ok? && Requested(r.ctx, r.op).Some? then [Requested(r.ctx, r.op).value] else []
  }

  function History(rs: seq<Request>): seq<Event> {
    if rs == [] then [] else History(rs[..|rs| - 1]) + Contribution(Run(rs[..|rs| - 1]), Last(rs))
  }

  lemma RuleTable(code: nat)
    ensures FindRule(RULES, code) == if code < 5 then Some(RULES[code]) else None
  {
    assert RULES[1..] == [RULES[1], RULES[2], RULES[3], RULES[4]];
    assert RULES[1..][1..] == [RULES[2], RULES[3], RULES[4]];
    assert RULES[1..][1..][1..] == [RULES[3], RULES[4]];
    assert RULES[1..][1..][1..][1..] == [RULES[4]];
    assert FindRule(RULES[1..][1..][1..][1..][1..], code) == None;
    assert FindRule(RULES[1..][1..][1..][1..], code) == if code == 4 then Some(RULES[4]) else None;
    assert FindRule(RULES[1..][1..][1..], code) ==
           if code == 3 then Some(RULES[3]) else FindRule(RULES[1..][1..][1..][1..], code);
    assert FindRule(RULES[1..][1..], code) ==
           if code == 2 then Some(RULES[2]) else FindRule(RULES[1..][1..][1..], code);
  }

  // ------------------------------------------------------------------ one request

  /** What every legal ledger satisfies: beginnings and receipts alternate with at most one
      outstanding, the n-th receipt names the n-th operation, ids are distinct, `open` comes first
      and only first, all bindings agree, and nothing follows a close. */
  ghost predicate Ordered(l: Ledger) {
    && |l.receipts| <= |l.begun| <= |l.receipts| + 1
    && (forall i :: 0 <= i < |l.receipts| ==> l.receipts[i].id == l.begun[i].id)
    && Distinct(Ids(l.begun))
    && (forall i :: 0 <= i < |l.begun| ==>
          && l.begun[i].phase == 0 && l.begun[i].command < 5
          && (l.begun[i].command == 0 <==> i == 0)
          && l.begun[i].binding == l.begun[0].binding
          && (l.begun[i].command == 4 ==> i == |l.begun| - 1))
  }

  lemma EnterKeepsOrder(l: Ledger, e: Event)
    requires Ordered(l) && Permitted(l, e)
    ensures Ordered(Enter(l, e))
  {
    if e.Begin? {
      assert Ids(l.begun + [e.op]) == Ids(l.begun) + [e.op.id];
    }
  }

  lemma SpentAreTheBegun(l: Ledger, id: Bytes)
    ensures id in StateOf(l).spent <==> id in Ids(l.begun)
  {
    var ids := Ids(l.begun);
    if id in ids {
      var i :| 0 <= i < |ids| && ids[i] == id;
      assert Reversed(ids)[|ids| - 1 - i] == id;
    }
  }

  /** `Lower` admits a request exactly when the declarative rule permits its event. */
  lemma LowerMeetsRule(l: Ledger, ctx: Context, op: Operation)
    requires Ordered(l)
    ensures Lower(StateOf(l), ctx, op).Ok? <==>
            Requested(ctx, op).Some? && Permitted(l, Requested(ctx, op).value)
    ensures Lower(StateOf(l), ctx, op).Ok? ==>
            Lower(StateOf(l), ctx, op) == Ok(Primitives(Requested(ctx, op).value))
  {
    RuleTable(op.command);
    SpentAreTheBegun(l, op.id);
  }

  lemma {:induction false} FirstUnmetAt(demands: seq<(bool, Refusal)>, k: nat)
    requires k <= |demands| && forall i :: 0 <= i < k ==> demands[i].0
    ensures k < |demands| && !demands[k].0 ==> FirstUnmet(demands) == Some(demands[k].1)
    ensures k == |demands| ==> FirstUnmet(demands) == None
    decreases k
  {
    if k > 0 {
      FirstUnmetAt(demands[1..], k - 1);
    }
  }

  /** A refusal names the first demand that is not met, and nothing else is refused. */
  lemma LowerRefusesByDemand(l: Ledger, ctx: Context, op: Operation)
    requires Ordered(l)
    ensures var r := Lower(StateOf(l), ctx, op);
            FirstUnmet(Demands(l, ctx, op)) == if r.Ok? then None else Some(r.error)
  {
    RuleTable(op.command);
    var ds := Demands(l, ctx, op);
    if op.command < 5 && op.phase == 0 {
      BeginRefusesByDemand(l, ctx, op);
    } else {
      FirstUnmetAt(ds, 0);
      if ds[0].0 {
        FirstUnmetAt(ds, 1);
        if op.phase == 1 && ds[1].0 { FirstUnmetAt(ds, 2); }
      }
    }
  }

  lemma BeginRefusesByDemand(l: Ledger, ctx: Context, op: Operation)
    requires Ordered(l) && op.command < 5 && op.phase == 0
    ensures var r := Lower(StateOf(l), ctx, op);
            FirstUnmet(Demands(l, ctx, op)) == if r.Ok? then None else Some(r.error)
  {
    RuleTable(op.command);
    SpentAreTheBegun(l, op.id);
    var ds := Demands(l, ctx, op);
    FirstUnmetAt(ds, 0);
    if ds[0].0 { FirstUnmetAt(ds, 1); }
    if ds[0].0 && ds[1].0 { FirstUnmetAt(ds, 2); }
    if ds[0].0 && ds[1].0 && ds[2].0 {
      FirstUnmetAt(ds, 3);
      if ds[3].0 { FirstUnmetAt(ds, 4); }
      if ds[3].0 && ds[4].0 { FirstUnmetAt(ds, 5); }
      if ds[3].0 && ds[4].0 && ds[5].0 { FirstUnmetAt(ds, 6); }
    }
  }

  lemma ReplayOne(s: State, p: Primitive)
    ensures Replayed(s, [p]) == Execute(s, p)
  {
    match Execute(s, p)
    case Err(_) =>
    case Ok(s') => assert Replayed(s, [p]) == Replayed(s', []);
  }

  lemma BeginMovesState(l: Ledger, op: Operation)
    requires Permitted(l, Begin(op))
    ensures Replayed(StateOf(l), Primitives(Begin(op))) == Ok(StateOf(Enter(l, Begin(op))))
  {
    var s, ps := StateOf(l), Primitives(Begin(op));
    SpentAreTheBegun(l, op.id);
    ReplayConcat(s, [ps[0]], [ps[1]]);
    ReplayOne(s, ps[0]);
    ReplayOne(Execute(s, ps[0]).value, ps[1]);
    assert ps == [ps[0]] + [ps[1]];
    assert Reversed(Ids(l.begun + [op])) == [op.id] + Reversed(Ids(l.begun));
  }

  /** Replaying a permitted event's primitives moves the state along the ledger. */
  lemma EventMovesState(l: Ledger, e: Event)
    requires Permitted(l, e)
    ensures Replayed(StateOf(l), Primitives(e)) == Ok(StateOf(Enter(l, e)))
  {
    match e
    case Begin(op) => BeginMovesState(l, op);
    case Settled(_, _) => ReplayOne(StateOf(l), Primitives(e)[0]);
    case Ended => ReplayOne(StateOf(l), End);
  }

  /** One request against the state of any legal ledger: accepted exactly when the declarative rule
      permits its event, and then the new state is the state of the extended ledger. */
  lemma RequestMeetsRule(l: Ledger, ctx: Context, op: Operation)
    requires Ordered(l)
    ensures Derive(StateOf(l), ctx, op).Ok? <==>
            Requested(ctx, op).Some? && Permitted(l, Requested(ctx, op).value)
    ensures Derive(StateOf(l), ctx, op).Ok? ==>
            Derive(StateOf(l), ctx, op) == Ok(StateOf(Enter(l, Requested(ctx, op).value)))
  {
    LowerMeetsRule(l, ctx, op);
    DeriveRefusesExactlyAsLower(StateOf(l), ctx, op);
    if Lower(StateOf(l), ctx, op).Ok? {
      EventMovesState(l, Requested(ctx, op).value);
    }
  }

  // ------------------------------------------------------------------ whole runs

  lemma EventStep(es: seq<Event>, e: Event)
    ensures LedgerOf(es + [e]) == Enter(LedgerOf(es), e)
    ensures Legal(es + [e]) <==> Legal(es) && Permitted(LedgerOf(es), e)
    ensures AllPrimitives(es + [e]) == AllPrimitives(es) + Primitives(e)
  {
    assert (es + [e])[..|es|] == es && Last(es + [e]) == e;
  }

  lemma {:induction false} LegalIsOrdered(es: seq<Event>)
    requires Legal(es)
    ensures Ordered(LedgerOf(es))
  {
    if es != [] {
      LegalIsOrdered(es[..|es| - 1]);
      EnterKeepsOrder(LedgerOf(es[..|es| - 1]), Last(es));
    }
  }

  /** After every run a request is refused for the first thing it lacks, by the history, and otherwise accepted. */
  lemma RefusalIsTheFirstUnmetDemand(rs: seq<Request>, r: Request)
    ensures var d := Derive(Run(rs), r.ctx, r.op);
            FirstUnmet(Demands(LedgerOf(History(rs)), r.ctx, r.op)) == if d.Ok? then None else Some(d.error)
  {
    RunIsItsHistory(rs);
    LegalIsOrdered(History(rs));
    LowerRefusesByDemand(LedgerOf(History(rs)), r.ctx, r.op);
    DeriveRefusesExactlyAsLower(Run(rs), r.ctx, r.op);
  }

  /** In every run the state is the state of the history, the history is legal, and replaying all its
      primitives as one list from the default state gives the same state. */
  lemma {:induction false} RunIsItsHistory(rs: seq<Request>)
    ensures Legal(History(rs))
    ensures Run(rs) == StateOf(LedgerOf(History(rs)))
    ensures Replayed(DEFAULT, AllPrimitives(History(rs))) == Ok(Run(rs))
  {
    if rs == [] {
      assert Reversed(Ids([])) == [];
    } else {
      var front, r := rs[..|rs| - 1], Last(rs);
      var es := History(front);
      RunIsItsHistory(front);
      LegalIsOrdered(es);
      RequestMeetsRule(LedgerOf(es), r.ctx, r.op);
      if Derive(Run(front), r.ctx, r.op).Ok? {
        var e := Requested(r.ctx, r.op).value;
        EventStep(es, e);
        ReplayConcat(DEFAULT, AllPrimitives(es), Primitives(e));
        EventMovesState(LedgerOf(es), e);
        assert History(rs) == es + [e];
      } else {
        assert History(rs) == es;
      }
    }
  }

  /** The history after one more request. */
  lemma HistoryStep(rs: seq<Request>, r: Request)
    ensures Ordered(LedgerOf(History(rs)))
    ensures var l, e := LedgerOf(History(rs)), Requested(r.ctx, r.op);
            if e.Some? && Permitted(l, e.value)
            then History(rs + [r]) == History(rs) + [e.value] && LedgerOf(History(rs + [r])) == Enter(l, e.value)
            else History(rs + [r]) == History(rs)
  {
    var l := LedgerOf(History(rs));
    RunIsItsHistory(rs);
    LegalIsOrdered(History(rs));
    RequestMeetsRule(l, r.ctx, r.op);
    assert (rs + [r])[..|rs|] == rs && Last(rs + [r]) == r;
    if Contribution(Run(rs), r) == [] {
      assert History(rs + [r]) == History(rs) + [];
    } else {
      EventStep(History(rs), Requested(r.ctx, r.op).value);
    }
  }

  /** A script that makes the channel produce a wanted history. */
  function Script(es: seq<Event>): seq<Request> {
    if es == [] then [] else Script(es[..|es| - 1]) + [RequestFor(Last(es))]
  }

  function RequestFor(e: Event): Request {
    match e
    case Begin(op) => Request(Context(true, true, true, false, false, []), op)
    case Settled(op, bytes) => Request(Context(false, false, false, true, false, bytes), op)
    case Ended => Request(Context(false, false, false, false, true, []), Operation(2, 0, [], [], []))
  }

  lemma ScriptStep(rs: seq<Request>, e: Event)
    requires Permitted(LedgerOf(History(rs)), e)
    ensures History(rs + [RequestFor(e)]) == History(rs) + [e]
  {
    HistoryStep(rs, RequestFor(e));
  }

  lemma {:induction false} ScriptProduces(es: seq<Event>)
    requires Legal(es)
    ensures History(Script(es)) == es
  {
    if es == [] {
      assert Script(es) == [];
    } else {
      var front := es[..|es| - 1];
      ScriptProduces(front);
      ScriptStep(Script(front), Last(es));
      calc {
        History(Script(es));
        History(Script(front) + [RequestFor(Last(es))]);
        History(Script(front)) + [Last(es)];
        front + [Last(es)];
        es;
      }
    }
  }

  /** The channel produces exactly the legal histories: none outside the rule, every one inside it. */
  lemma HistoriesAreExactlyTheLegalOnes(es: seq<Event>)
    ensures (exists rs :: History(rs) == es) <==> Legal(es)
  {
    if Legal(es) {
      ScriptProduces(es);
    }
    forall rs | History(rs) == es ensures Legal(es) {
      RunIsItsHistory(rs);
    }
  }

  // ------------------------------------------------------------------ consequences

  /** The operations claimed, emitted and settled by a primitive list. */
  function Claimed(ps: seq<Primitive>): seq<Operation> {
    if ps == [] then []
    else Claimed(ps[..|ps| - 1]) + (if Last(ps).Claim? then [Last(ps).operation] else [])
  }

  function Emissions(ps: seq<Primitive>): seq<Operation> {
    if ps == [] then []
    else Emissions(ps[..|ps| - 1]) + (if Last(ps).Emit? then [Last(ps).emission] else [])
  }

  function Settlements(ps: seq<Primitive>): seq<Receipt> {
    if ps == [] then []
    else Settlements(ps[..|ps| - 1])
         + (if Last(ps).Settle? then [Receipt(Last(ps).operation.id, Last(ps).receipt)] else [])
  }

  lemma PrimitiveStep(ps: seq<Primitive>, p: Primitive)
    ensures Claimed(ps + [p]) == Claimed(ps) + (if p.Claim? then [p.operation] else [])
    ensures Emissions(ps + [p]) == Emissions(ps) + (if p.Emit? then [p.emission] else [])
    ensures Settlements(ps + [p]) == Settlements(ps) + (if p.Settle? then [Receipt(p.operation.id, p.receipt)] else [])
  {
    assert (ps + [p])[..|ps|] == ps && Last(ps + [p]) == p;
  }

  lemma EventPrimitives(ps: seq<Primitive>, e: Event)
    ensures Claimed(ps + Primitives(e)) == Claimed(ps) + (if e.Begin? then [e.op] else [])
    ensures Emissions(ps + Primitives(e)) == Emissions(ps) + (if e.Begin? then [e.op] else [])
    ensures Settlements(ps + Primitives(e)) ==
            Settlements(ps) + (if e.Settled? then [Receipt(e.op.id, e.bytes)] else [])
    ensures End in ps + Primitives(e) <==> End in ps || e.Ended?
  {
    var qs := Primitives(e);
    PrimitiveStep(ps, qs[0]);
    if e.Begin? {
      PrimitiveStep(ps + [qs[0]], qs[1]);
      assert ps + [qs[0]] + [qs[1]] == ps + qs;
    } else {
      assert ps + [qs[0]] == ps + qs;
    }
  }

  lemma {:induction false} PrimitivesOfHistory(es: seq<Event>)
    ensures Claimed(AllPrimitives(es)) == LedgerOf(es).begun
    ensures Emissions(AllPrimitives(es)) == LedgerOf(es).begun
    ensures Settlements(AllPrimitives(es)) == LedgerOf(es).receipts
    ensures End in AllPrimitives(es) <==> LedgerOf(es).ended
  {
    if es != [] {
      var front := es[..|es| - 1];
      PrimitivesOfHistory(front);
      EventPrimitives(AllPrimitives(front), Last(es));
    }
  }

  /** Conservation over every run, in terms of the primitives executed: no id is emitted twice, the
      spent list is the claimed ids in reverse, claims exceed settlements by exactly the pending
      operation, and the n-th settlement settles the n-th claim. */
  lemma RunConservesOperations(rs: seq<Request>)
    ensures var s, ps := Run(rs), AllPrimitives(History(rs));
            && Replayed(DEFAULT, ps) == Ok(s)
            && Emissions(ps) == Claimed(ps)
            && Distinct(Ids(Emissions(ps)))
            && s.spent == Reversed(Ids(Claimed(ps)))
            && |Claimed(ps)| - |Settlements(ps)| == (if s.pending.Some? then 1 else 0)
            && (s.pending.Some? ==> s.pending.value == Last(Claimed(ps)))
            && (forall i :: 0 <= i < |Settlements(ps)| ==> Settlements(ps)[i].id == Claimed(ps)[i].id)
            && s.receipt == (if Settlements(ps) == [] then None else Some(Last(Settlements(ps))))
  {
    RunIsItsHistory(rs);
    LegalIsOrdered(History(rs));
    PrimitivesOfHistory(History(rs));
  }

  /** In every run the first claim is `open`, `open` is never claimed again and all claims carry the
      binding the state records; the socket is live exactly in status 1; and status 2 covers the end,
      an outstanding operation and a settled close, nothing else. */
  lemma RunOpensOnceOnOneBinding(rs: seq<Request>)
    ensures var s, claimed := Run(rs), Claimed(AllPrimitives(History(rs)));
            && (forall i :: 0 <= i < |claimed| ==>
                  (claimed[i].command == 0 <==> i == 0) && claimed[i].binding == s.binding)
            && (SocketLive(s) <==> s.status == 1)
            && (s.status == 0 <==> claimed == [] && !s.ended)
            && (s.status == 2 <==> s.ended || s.pending.Some? || (claimed != [] && Last(claimed).command == 4))
            && s.status <= 2
  {
    RunIsItsHistory(rs);
    LegalIsOrdered(History(rs));
    PrimitivesOfHistory(History(rs));
  }

  /** A ledger on which nothing can begin any more. */
  predicate Closed(l: Ledger) {
    l.ended || (l.begun != [] && Last(l.begun).command == 4 && |l.receipts| == |l.begun|)
  }

  /** `l'` continues the closed ledger `l`: no new operation, at most the outstanding one settled. */
  ghost predicate OnlySettles(l: Ledger, l': Ledger) {
    && Closed(l') && Ordered(l')
    && l'.begun == l.begun
    && l.receipts <= l'.receipts
  }

  lemma ClosedStep(l: Ledger, l': Ledger, e: Event)
    requires OnlySettles(l, l') && Permitted(l', e)
    ensures OnlySettles(l, Enter(l', e))
  {
    EnterKeepsOrder(l', e);
  }

  lemma {:induction false} ClosedStaysClosed(rs: seq<Request>, more: seq<Request>)
    requires Closed(LedgerOf(History(rs)))
    ensures OnlySettles(LedgerOf(History(rs)), LedgerOf(History(rs + more)))
    decreases |more|
  {
    if more == [] {
      assert rs + more == rs;
      RunIsItsHistory(rs);
      LegalIsOrdered(History(rs));
    } else {
      var front, r := more[..|more| - 1], Last(more);
      assert rs + more == rs + front + [r];
      ClosedStaysClosed(rs, front);
      HistoryStep(rs + front, r);
      var l, e := LedgerOf(History(rs + front)), Requested(r.ctx, r.op);
      if e.Some? && Permitted(l, e.value) {
        ClosedStep(LedgerOf(History(rs)), l, e.value);
      }
    }
  }

  /** Once the channel has ended, or a close has settled, every continuation of the run stays in
      status 2, claims and emits nothing more, and settles at most the operation then outstanding,
      at most once. */
  lemma NothingBeginsAfterTheEnd(rs: seq<Request>, more: seq<Request>)
    requires Closed(LedgerOf(History(rs)))
    ensures var ps, ps' := AllPrimitives(History(rs)), AllPrimitives(History(rs + more));
            && Claimed(ps') == Claimed(ps) && Emissions(ps') == Emissions(ps)
            && Settlements(ps) <= Settlements(ps')
            && (Settlements(ps') != Settlements(ps) ==>
                  && |Settlements(ps')| == |Settlements(ps)| + 1
                  && Run(rs).pending.Some? && Last(Settlements(ps')).id == Run(rs).pending.value.id)
            && Run(rs + more).status == 2
  {
    RunIsItsHistory(rs);
    RunIsItsHistory(rs + more);
    LegalIsOrdered(History(rs));
    ClosedStaysClosed(rs, more);
    PrimitivesOfHistory(History(rs));
    PrimitivesOfHistory(History(rs + more));
  }

  /** An operation outstanding at the end can still be acknowledged, into status 2. */
  lemma OutstandingSettlesAfterTheEnd(rs: seq<Request>, ctx: Context, op: Operation)
    requires Run(rs).ended && Run(rs).pending == Some(op.(phase := 0))
    requires ctx.acknowledged && op.phase == 1
    ensures Derive(Run(rs), ctx, op).Ok?
    ensures var s := Derive(Run(rs), ctx, op).value;
            s.status == 2 && s.ended && s.pending.None? && s.receipt == Some(Receipt(op.id, ctx.response))
  {
    RunIsItsHistory(rs);
    LegalIsOrdered(History(rs));
    RequestMeetsRule(LedgerOf(History(rs)), ctx, op);
  }
}

/**
 * The law printer (scripts/gen-joblaw.py, `sh_slot`, `sh_val`, `shell`, `shell_law`) and a reader of what
 * it prints.  Slots, values, offsets and programs are the strings of the law's JSON.
 */
module LawPrinter {
  import opened Common

  datatype Pred =
    | All(ps: seq<Pred>)
    | Any(ps: seq<Pred>)
    | Not(p: Pred)
    | Eq(slot: string, value: string)
    | Le(slot: string, value: string)
    | MemberOf(slot: string, values: seq<string>)
    | Monotone(slot: string)
    | WriteOnce(slot: string)
    | EqSlots(left: string, right: string)
    | LeSlots(left: string, right: string)
    | LeSlotsOff(left: string, right: string, offset: string)
    | Ran(program: string)

  // ------------------------------------------------------------------ the printer

  /** `x.split("/")`. */
  function Split(x: string): (parts: seq<string>)
    ensures parts != []
  {
    if x == [] then [[]]
    else
      var rest := Split(x[1..]);
      if x[0] == '/' then [[]] + rest else [[x[0]] + rest[0]] + rest[1..]
  }

  predicate IsField(p: seq<string>) {
    |p| == 4 && p[0] == "resource" && p[1] == "field"
  }

  predicate IsPair(p: seq<string>) {
    |p| == 5 && p[0] == "resource" && p[1] == "pair" && p[4] == "delta"
  }

  predicate IsRequest(x: string) {
    x == "request/subject" || x == "request/verb" || x == "request/cost"
  }

  function RequestWord(x: string): string
    requires IsRequest(x)
  {
    if x == "request/subject" then "subject" else if x == "request/verb" then "verb" else "cost"
  }

  function ShSlot(x: string): string {
    var p := Split(x);
    if IsField(p) then (if p[3] == "after" then "field " + p[2] else "field " + p[2] + " " + p[3])
    else if IsPair(p) then "pair " + p[2] + "," + p[3] + " delta"
    else if IsRequest(x) then RequestWord(x)
    else "slot \"" + x + "\""
  }

  predicate Digit(c: char) {
    '0' <= c <= '9'
  }

  predicate Digits(v: string) {
    v != [] && forall i :: 0 <= i < |v| ==> Digit(v[i])
  }

  function Number(v: string): nat
    requires forall i :: 0 <= i < |v| ==> Digit(v[i])
  {
    if v == [] then 0
    else
      assert Digit(v[|v| - 1]);
      10 * Number(v[..|v| - 1]) + (Last(v) as int - '0' as int)
  }

  predicate Upper(c: char) {
    'A' <= c <= 'Z' || c == '_' || Digit(c)
  }

  /** The pattern `\{([A-Z_0-9]+)\}`, matched against the whole value. */
  predicate Placeholder(v: string) {
    |v| >= 3 && v[0] == '{' && Last(v) == '}' && forall i :: 1 <= i < |v| - 1 ==> Upper(v[i])
  }

  function VerbWord(n: nat): string
    requires 1 <= n <= 5
  {
    if n == 1 then "read"
    else if n == 2 then "write"
    else if n == 3 then "delegate"
    else if n == 4 then "install"
    else "revoke"
  }

  function ShVal(slot: string, v: string): string {
    if slot == "request/verb" && !Placeholder(v) && Digits(v) && 1 <= Number(v) <= 5 then VerbWord(Number(v)) else v
  }

  function ShVals(slot: string, vs: seq<string>): string {
    if vs == [] then []
    else if |vs| == 1 then ShVal(slot, vs[0])
    else ShVal(slot, vs[0]) + "," + ShVals(slot, vs[1..])
  }

  function Shell(p: Pred): string {
    match p
    case All(ps) => if ps == [] then "open" else "all [ " + ShellJoined(ps, ", ") + " ]"
    case Any(ps) => if ps == [] then "sealed" else "any [ " + ShellJoined(ps, ", ") + " ]"
    case Not(q) => "not (" + Shell(q) + ")"
    case Eq(slot, v) => ShSlot(slot) + " == " + ShVal(slot, v)
    case Le(slot, v) => ShSlot(slot) + " <= " + ShVal(slot, v)
    case MemberOf(slot, vs) => ShSlot(slot) + " in {" + ShVals(slot, vs) + "}"
    case Monotone(slot) => ShSlot(slot) + " monotone"
    case WriteOnce(slot) => ShSlot(slot) + " writeOnce"
    case EqSlots(l, r) => ShSlot(l) + " == " + ShSlot(r)
    case LeSlots(l, r) => ShSlot(l) + " <= " + ShSlot(r)
    case LeSlotsOff(l, r, offset) => ShSlot(l) + " <= " + ShSlot(r) + " + " + offset
    case Ran(program) => "ran " + program
  }

  function ShellJoined(ps: seq<Pred>, separator: string): string {
    if ps == [] then []
    else if |ps| == 1 then Shell(ps[0])
    else Shell(ps[0]) + separator + ShellJoined(ps[1..], separator)
  }

  const HEAD :=
    "-- generated by scripts/gen-joblaw.py from law.job.json: the job law in the shell grammar,\n"
    + "-- each clause as the Host renders it in a refusal. Bind the {UPPER} placeholders, then\n"
    + "-- `law NAME J \"$(grep -v '^--' law.job.shell)\"`.\n"

  function ShellLaw(clauses: seq<Pred>): string {
    HEAD + ShellJoined(clauses, ";\n") + "\n"
  }

  // ------------------------------------------------------------------ well-formed laws

  predicate WordChar(c: char) {
    'a' <= c <= 'z' || Upper(c) || c == '-' || c == '.' || c == ':'
  }

  predicate Word(w: string) {
    w != [] && forall i :: 0 <= i < |w| ==> WordChar(w[i])
  }

  /** Words that follow a slot without being part of it. */
  predicate Reserved(w: string) {
    w == "in" || w == "monotone" || w == "writeOnce"
  }

  predicate GoodSlot(x: string) {
    var p := Split(x);
    if IsField(p) then Word(p[2]) && Word(p[3]) && !Reserved(p[3])
    else if IsPair(p) then Word(p[2]) && Word(p[3])
    else IsRequest(x) || forall i :: 0 <= i < |x| ==> x[i] != '"'
  }

  /** A decimal without leading zeros. */
  predicate Natural(v: string) {
    Digits(v) && (|v| > 1 ==> v[0] != '0')
  }

  predicate Canonical(v: string) {
    Natural(v) || (v != [] && v[0] == '-' && Natural(v[1..]))
  }

  predicate GoodValue(v: string) {
    Canonical(v) || Placeholder(v)
  }

  predicate GoodValues(vs: seq<string>) {
    forall i :: 0 <= i < |vs| ==> GoodValue(vs[i])
  }

  predicate Good(p: Pred) {
    match p
    case All(ps) => GoodAll(ps)
    case Any(ps) => GoodAll(ps)
    case Not(q) => Good(q)
    case Eq(slot, v) => GoodSlot(slot) && GoodValue(v)
    case Le(slot, v) => GoodSlot(slot) && GoodValue(v)
    case MemberOf(slot, vs) => GoodSlot(slot) && GoodValues(vs)
    case Monotone(slot) => GoodSlot(slot)
    case WriteOnce(slot) => GoodSlot(slot)
    case EqSlots(l, r) => GoodSlot(l) && GoodSlot(r)
    case LeSlots(l, r) => GoodSlot(l) && GoodSlot(r)
    case LeSlotsOff(l, r, offset) => GoodSlot(l) && GoodSlot(r) && GoodValue(offset)
    case Ran(program) => GoodValue(program)
  }

  predicate GoodAll(ps: seq<Pred>) {
    forall p :: p in ps ==> Good(p)
  }

  // ------------------------------------------------------------------ the reader

  /** What is left after a fixed text. */
  function Eat(s: string, w: string): (r: Option<string>)
    ensures r.Some? ==> |r.value| == |s| - |w|
  {
    if |w| <= |s| && s[..|w|] == w then Some(s[|w|..]) else None
  }

  /** The length of the longest run of word characters. */
  function WordLen(s: string): (n: nat)
    ensures n <= |s|
  {
    if s == [] || !WordChar(s[0]) then 0 else 1 + WordLen(s[1..])
  }

  function ReadWord(s: string): (r: Option<(string, string)>)
    ensures r.Some? ==> |r.value.1| < |s|
  {
    var n := WordLen(s);
    if n == 0 then None else Some((s[..n], s[n..]))
  }

  function QuoteAt(s: string): (n: nat)
    ensures n <= |s|
  {
    if s == [] || s[0] == '"' then 0 else 1 + QuoteAt(s[1..])
  }

  /** The view after a field's name, if one is written. */
  function ReadView(s: string): (r: Option<(string, string)>)
    ensures r.Some? ==> |r.value.1| < |s|
  {
    if s == [] || s[0] != ' ' then None
    else
      var w := ReadWord(s[1..]);
      if w.None? || Reserved(w.value.0) then None else w
  }

  function ReadField(s: string): (r: Option<(string, string)>)
    ensures r.Some? ==> |r.value.1| < |s|
  {
    var name := ReadWord(s);
    if name.None? then None
    else
      var view := ReadView(name.value.1);
      if view.None? then Some(("resource/field/" + name.value.0 + "/after", name.value.1))
      else Some(("resource/field/" + name.value.0 + "/" + view.value.0, view.value.1))
  }

  function ReadPair(s: string): (r: Option<(string, string)>)
    ensures r.Some? ==> |r.value.1| < |s|
  {
    var a := ReadWord(s);
    if a.None? || Eat(a.value.1, ",").None? then None
    else
      var b := ReadWord(Eat(a.value.1, ",").value);
      if b.None? || Eat(b.value.1, " delta").None? then None
      else Some(("resource/pair/" + a.value.0 + "/" + b.value.0 + "/delta", Eat(b.value.1, " delta").value))
  }

  function ReadQuoted(s: string): (r: Option<(string, string)>)
    ensures r.Some? ==> |r.value.1| < |s|
  {
    var n := QuoteAt(s);
    if n == |s| then None else Some((s[..n], s[n + 1..]))
  }

  function Named(x: string, rest: Option<string>): Option<(string, string)> {
    if rest.None? then None else Some((x, rest.value))
  }

  function ReadSlot(s: string): (r: Option<(string, string)>)
    ensures r.Some? ==> |r.value.1| < |s|
  {
    if |s| < 2 then None
    else if s[0] == 'f' then (if Eat(s, "field ").None? then None else ReadField(Eat(s, "field ").value))
    else if s[0] == 'p' then (if Eat(s, "pair ").None? then None else ReadPair(Eat(s, "pair ").value))
    else if s[0] == 'v' then Named("request/verb", Eat(s, "verb"))
    else if s[0] == 'c' then Named("request/cost", Eat(s, "cost"))
    else if s[0] == 's' && s[1] == 'u' then Named("request/subject", Eat(s, "subject"))
    else if s[0] == 's' && s[1] == 'l' then
      (if Eat(s, "slot \"").None? then None else ReadQuoted(Eat(s, "slot \"").value))
    else None
  }

  function ReadText(s: string): (r: Option<(string, string)>)
    ensures r.Some? ==> |r.value.1| < |s|
  {
    if s == [] then None
    else if s[0] != '{' then ReadWord(s)
    else
      var w := ReadWord(s[1..]);
      if w.None? || Eat(w.value.1, "}").None? then None else Some(("{" + w.value.0 + "}", Eat(w.value.1, "}").value))
  }

  function UnVal(slot: string, text: string): string {
    if slot != "request/verb" then text
    else if text == "read" then "1"
    else if text == "write" then "2"
    else if text == "delegate" then "3"
    else if text == "install" then "4"
    else if text == "revoke" then "5"
    else text
  }

  function ReadValue(slot: string, s: string): (r: Option<(string, string)>)
    ensures r.Some? ==> |r.value.1| < |s|
  {
    var t := ReadText(s);
    if t.None? then None else Some((UnVal(slot, t.value.0), t.value.1))
  }

  /** One value or more, up to the closing brace. */
  function ReadValues(slot: string, s: string): (r: Option<(seq<string>, string)>)
    ensures r.Some? ==> |r.value.1| < |s|
    decreases |s|
  {
    var v := ReadValue(slot, s);
    if v.None? then None
    else if Eat(v.value.1, "}").Some? then Some(([v.value.0], Eat(v.value.1, "}").value))
    else if Eat(v.value.1, ",").None? then None
    else
      var more := ReadValues(slot, Eat(v.value.1, ",").value);
      if more.None? then None else Some(([v.value.0] + more.value.0, more.value.1))
  }

  function ReadMembers(slot: string, s: string): (r: Option<(seq<string>, string)>)
    ensures r.Some? ==> |r.value.1| < |s|
  {
    if Eat(s, "}").Some? then Some(([], Eat(s, "}").value)) else ReadValues(slot, s)
  }

  predicate SlotStarts(s: string) {
    s != [] && (s[0] == 'f' || s[0] == 'p' || s[0] == 'v' || s[0] == 'c' || s[0] == 's')
  }

  /** The right side of `==`. */
  function ReadEq(slot: string, s: string): (r: Option<(Pred, string)>)
    ensures r.Some? ==> |r.value.1| < |s|
  {
    if SlotStarts(s) then
      var x := ReadSlot(s);
      if x.None? then None else Some((EqSlots(slot, x.value.0), x.value.1))
    else
      var v := ReadValue(slot, s);
      if v.None? then None else Some((Eq(slot, v.value.0), v.value.1))
  }

  /** The right side of `<=`, in its three forms. */
  function ReadLe(slot: string, s: string): (r: Option<(Pred, string)>)
    ensures r.Some? ==> |r.value.1| < |s|
  {
    if SlotStarts(s) then
      var x := ReadSlot(s);
      if x.None? then None
      else if Eat(x.value.1, " + ").None? then Some((LeSlots(slot, x.value.0), x.value.1))
      else
        var offset := ReadText(Eat(x.value.1, " + ").value);
        if offset.None? then None else Some((LeSlotsOff(slot, x.value.0, offset.value.0), offset.value.1))
    else
      var v := ReadValue(slot, s);
      if v.None? then None else Some((Le(slot, v.value.0), v.value.1))
  }

  /** What follows the slot an atom starts with. */
  function ReadTail(slot: string, s: string): (r: Option<(Pred, string)>)
    ensures r.Some? ==> |r.value.1| < |s|
  {
    if |s| < 2 || s[0] != ' ' then None
    else if s[1] == '=' then (if Eat(s, " == ").None? then None else ReadEq(slot, Eat(s, " == ").value))
    else if s[1] == '<' then (if Eat(s, " <= ").None? then None else ReadLe(slot, Eat(s, " <= ").value))
    else if s[1] == 'i' then
      (if Eat(s, " in {").None? then None
       else
         var vs := ReadMembers(slot, Eat(s, " in {").value);
         if vs.None? then None else Some((MemberOf(slot, vs.value.0), vs.value.1)))
    else if s[1] == 'm' then
      (if Eat(s, " monotone").None? then None else Some((Monotone(slot), Eat(s, " monotone").value)))
    else if Eat(s, " writeOnce").None? then None
    else Some((WriteOnce(slot), Eat(s, " writeOnce").value))
  }

  function ReadAtom(s: string): (r: Option<(Pred, string)>)
    ensures r.Some? ==> |r.value.1| < |s|
  {
    var x := ReadSlot(s);
    if x.None? then None else ReadTail(x.value.0, x.value.1)
  }

  function ReadRan(s: string): (r: Option<(Pred, string)>)
    ensures r.Some? ==> |r.value.1| < |s|
  {
    if Eat(s, "ran ").None? then None
    else
      var v := ReadText(Eat(s, "ran ").value);
      if v.None? then None else Some((Ran(v.value.0), v.value.1))
  }

  function ReadPred(s: string): (r: Option<(Pred, string)>)
    ensures r.Some? ==> |r.value.1| < |s|
    decreases |s|, 0
  {
    if |s| < 2 then None
    else if s[0] == 'o' then (if Eat(s, "open").None? then None else Some((All([]), Eat(s, "open").value)))
    else if s[0] == 's' && s[1] == 'e' then
      (if Eat(s, "sealed").None? then None else Some((Any([]), Eat(s, "sealed").value)))
    else if s[0] == 'a' && s[1] == 'l' then
      (if Eat(s, "all [ ").None? then None
       else
         var ps := ReadList(Eat(s, "all [ ").value);
         if ps.None? then None else Some((All(ps.value.0), ps.value.1)))
    else if s[0] == 'a' then
      (if Eat(s, "any [ ").None? then None
       else
         var ps := ReadList(Eat(s, "any [ ").value);
         if ps.None? then None else Some((Any(ps.value.0), ps.value.1)))
    else if s[0] == 'n' then
      (if Eat(s, "not (").None? then None
       else
         var p := ReadPred(Eat(s, "not (").value);
         if p.None? || Eat(p.value.1, ")").None? then None else Some((Not(p.value.0), Eat(p.value.1, ")").value)))
    else if s[0] == 'r' then ReadRan(s)
    else ReadAtom(s)
  }

  /** One predicate or more, up to the closing bracket. */
  function ReadList(s: string): (r: Option<(seq<Pred>, string)>)
    ensures r.Some? ==> |r.value.1| < |s|
    decreases |s|, 1
  {
    var p := ReadPred(s);
    if p.None? then None
    else if Eat(p.value.1, " ]").Some? then Some(([p.value.0], Eat(p.value.1, " ]").value))
    else if Eat(p.value.1, ", ").None? then None
    else
      var more := ReadList(Eat(p.value.1, ", ").value);
      if more.None? then None else Some(([p.value.0] + more.value.0, more.value.1))
  }

  function ReadClauses(s: string): Option<seq<Pred>>
    decreases |s|
  {
    var p := ReadPred(s);
    if p.None? then None
    else if p.value.1 == "\n" then Some([p.value.0])
    else if Eat(p.value.1, ";\n").None? then None
    else
      var more := ReadClauses(Eat(p.value.1, ";\n").value);
      if more.None? then None else Some([p.value.0] + more.value)
  }

  function ReadLaw(s: string): Option<seq<Pred>> {
    var body := Eat(s, HEAD);
    if body.None? then None else if body.value == "\n" then Some([]) else ReadClauses(body.value)
  }

  // ------------------------------------------------------------------ reading back: words and slots

  /** Where a word ends. */
  predicate Breaks(rest: string) {
    rest == [] || !WordChar(rest[0])
  }

  /** Where a slot ends: at no word, and not before a view. */
  predicate SlotEnds(rest: string) {
    Breaks(rest) && ReadView(rest).None?
  }

  lemma EatReads(w: string, rest: string)
    ensures Eat(w + rest, w) == Some(rest)
  {
    assert (w + rest)[..|w|] == w && (w + rest)[|w|..] == rest;
  }

  lemma {:induction false} WordLenReads(w: string, rest: string)
    requires Breaks(rest) && forall i :: 0 <= i < |w| ==> WordChar(w[i])
    ensures WordLen(w + rest) == |w|
  {
    if w == [] {
      assert w + rest == rest;
    } else {
      WordLenReads(w[1..], rest);
      assert (w + rest)[1..] == w[1..] + rest;
    }
  }

  lemma WordReads(w: string, rest: string)
    requires Word(w) && Breaks(rest)
    ensures ReadWord(w + rest) == Some((w, rest))
  {
    WordLenReads(w, rest);
    assert (w + rest)[..|w|] == w && (w + rest)[|w|..] == rest;
  }

  lemma {:induction false} QuoteReads(x: string, rest: string)
    requires forall i :: 0 <= i < |x| ==> x[i] != '"'
    ensures QuoteAt(x + ("\"" + rest)) == |x|
  {
    var s := x + ("\"" + rest);
    if x == [] {
      assert s == "\"" + rest;
    } else {
      QuoteReads(x[1..], rest);
      assert s[1..] == x[1..] + ("\"" + rest);
    }
  }

  function Join(parts: seq<string>): string
    requires parts != []
  {
    if |parts| == 1 then parts[0] else parts[0] + "/" + Join(parts[1..])
  }

  lemma {:induction false} JoinSplit(x: string)
    ensures Join(Split(x)) == x
  {
    if x != [] {
      var rest := Split(x[1..]);
      JoinSplit(x[1..]);
      if x[0] == '/' {
        assert ([[]] + rest)[1..] == rest;
        assert x == [] + "/" + Join(rest);
      } else {
        var parts := [[x[0]] + rest[0]] + rest[1..];
        assert parts[1..] == rest[1..];
        assert x == [x[0]] + x[1..];
      }
    }
  }

  lemma FieldName(x: string)
    requires IsField(Split(x))
    ensures x == "resource/field/" + Split(x)[2] + "/" + Split(x)[3]
  {
    var p := Split(x);
    JoinSplit(x);
    assert p[1..][1..] == p[2..] && p[2..][1..] == p[3..];
    assert Join(p[3..]) == p[3];
    assert Join(p[2..]) == p[2] + "/" + p[3];
    assert Join(p[1..]) == "field" + "/" + Join(p[2..]);
    assert "resource" + "/" + ("field" + "/" + (p[2] + "/" + p[3])) == "resource/field/" + p[2] + "/" + p[3];
  }

  lemma PairName(x: string)
    requires IsPair(Split(x))
    ensures x == "resource/pair/" + Split(x)[2] + "/" + Split(x)[3] + "/delta"
  {
    var p := Split(x);
    JoinSplit(x);
    assert p[1..][1..] == p[2..] && p[2..][1..] == p[3..] && p[3..][1..] == p[4..];
    assert Join(p[4..]) == "delta";
    assert Join(p[3..]) == p[3] + "/" + "delta";
    assert Join(p[2..]) == p[2] + "/" + Join(p[3..]);
    assert Join(p[1..]) == "pair" + "/" + Join(p[2..]);
    assert "resource" + "/" + ("pair" + "/" + (p[2] + "/" + (p[3] + "/" + "delta"))) ==
           "resource/pair/" + p[2] + "/" + p[3] + "/delta";
  }

  lemma ViewReads(view: string, rest: string)
    requires Word(view) && !Reserved(view) && Breaks(rest)
    ensures ReadView(" " + (view + rest)) == Some((view, rest))
  {
    WordReads(view, rest);
    assert (" " + (view + rest))[1..] == view + rest;
  }

  lemma FieldReads(name: string, view: string, rest: string)
    requires Word(name) && Word(view) && !Reserved(view) && SlotEnds(rest)
    ensures ReadField(if view == "after" then name + rest else name + (" " + (view + rest)))
         == Some(("resource/field/" + name + "/" + view, rest))
  {
    if view == "after" {
      WordReads(name, rest);
      assert "resource/field/" + name + "/after" == "resource/field/" + name + "/" + "after";
    } else {
      WordReads(name, " " + (view + rest));
      ViewReads(view, rest);
    }
  }

  lemma FieldForm(t: string)
    ensures ReadSlot("field " + t) == ReadField(t)
  {
    EatReads("field ", t);
  }

  lemma PairForm(t: string)
    ensures ReadSlot("pair " + t) == ReadPair(t)
  {
    EatReads("pair ", t);
  }

  lemma QuotedForm(t: string)
    ensures ReadSlot("slot \"" + t) == ReadQuoted(t)
  {
    EatReads("slot \"", t);
  }

  lemma FieldText(name: string, view: string, rest: string)
    ensures "field " + name + rest == "field " + (name + rest)
    ensures "field " + name + " " + view + rest == "field " + (name + (" " + (view + rest)))
  {
  }

  lemma FieldSlotReads(x: string, rest: string)
    requires IsField(Split(x)) && GoodSlot(x) && SlotEnds(rest)
    ensures ReadSlot(ShSlot(x) + rest) == Some((x, rest)) && ShSlot(x)[..2] == "fi"
  {
    var p := Split(x);
    var tail := if p[3] == "after" then p[2] + rest else p[2] + (" " + (p[3] + rest));
    FieldText(p[2], p[3], rest);
    FieldForm(tail);
    FieldReads(p[2], p[3], rest);
    FieldName(x);
  }

  lemma PairReads(a: string, b: string, rest: string)
    requires Word(a) && Word(b)
    ensures ReadPair(a + ("," + (b + (" delta" + rest)))) == Some(("resource/pair/" + a + "/" + b + "/delta", rest))
  {
    WordReads(a, "," + (b + (" delta" + rest)));
    EatReads(",", b + (" delta" + rest));
    WordReads(b, " delta" + rest);
    EatReads(" delta", rest);
  }

  lemma PairText(a: string, b: string, rest: string)
    ensures "pair " + a + "," + b + " delta" + rest == "pair " + (a + ("," + (b + (" delta" + rest))))
  {
  }

  lemma PairSlotReads(x: string, rest: string)
    requires IsPair(Split(x)) && GoodSlot(x)
    ensures ReadSlot(ShSlot(x) + rest) == Some((x, rest)) && ShSlot(x)[..2] == "pa"
  {
    var p := Split(x);
    var tail := p[2] + ("," + (p[3] + (" delta" + rest)));
    PairText(p[2], p[3], rest);
    PairForm(tail);
    PairReads(p[2], p[3], rest);
    PairName(x);
  }

  lemma QuotedReads(x: string, rest: string)
    requires forall i :: 0 <= i < |x| ==> x[i] != '"'
    ensures ReadQuoted(x + ("\"" + rest)) == Some((x, rest))
  {
    var tail := x + ("\"" + rest);
    QuoteReads(x, rest);
    assert tail[..|x|] == x && tail[|x| + 1..] == rest;
  }

  lemma QuotedSlotReads(x: string, rest: string)
    requires forall i :: 0 <= i < |x| ==> x[i] != '"'
    ensures ReadSlot("slot \"" + x + "\"" + rest) == Some((x, rest))
  {
    var tail := x + ("\"" + rest);
    assert "slot \"" + x + "\"" + rest == "slot \"" + tail;
    QuotedForm(tail);
    QuotedReads(x, rest);
  }

  lemma RequestSlotReads(x: string, rest: string)
    requires IsRequest(x)
    ensures ReadSlot(RequestWord(x) + rest) == Some((x, rest))
  {
    EatReads(RequestWord(x), rest);
  }

  /** The first letters of a slot, which no value and no other predicate starts with. */
  predicate SlotLetters(s: string) {
    |s| >= 2 && SlotStarts(s) && !(s[0] == 's' && s[1] == 'e')
  }

  lemma SlotReads(x: string, rest: string)
    requires GoodSlot(x) && SlotEnds(rest)
    ensures ReadSlot(ShSlot(x) + rest) == Some((x, rest)) && SlotLetters(ShSlot(x) + rest)
  {
    var p := Split(x);
    if IsField(p) {
      FieldSlotReads(x, rest);
    } else if IsPair(p) {
      PairSlotReads(x, rest);
    } else if IsRequest(x) {
      RequestSlotReads(x, rest);
    } else {
      QuotedSlotReads(x, rest);
    }
  }

  // ------------------------------------------------------------------ reading back: values

  lemma {:induction false} LongIsLarge(v: string)
    requires Digits(v) && v[0] != '0'
    ensures Number(v) >= 1 && (|v| > 1 ==> Number(v) >= 10)
  {
    if |v| > 1 {
      LongIsLarge(v[..|v| - 1]);
    }
  }

  /** A small number has one spelling. */
  lemma VerbDigit(v: string)
    requires Natural(v) && 1 <= Number(v) <= 5
    ensures |v| == 1 && v[0] as int == '0' as int + Number(v)
  {
    if |v| > 1 { LongIsLarge(v); }
    assert v[..0] == [] && Number([]) == 0;
  }

  lemma PlaceholderReads(v: string, rest: string)
    requires Placeholder(v)
    ensures ReadText(v + rest) == Some((v, rest))
  {
    var w := v[1..|v| - 1];
    assert v == "{" + w + "}";
    assert (v + rest)[1..] == w + ("}" + rest);
    WordReads(w, "}" + rest);
    EatReads("}", rest);
  }

  lemma CanonicalIsWord(v: string)
    requires Canonical(v)
    ensures Word(v) && (Digit(v[0]) || v[0] == '-')
  {
    forall i | 0 <= i < |v| ensures WordChar(v[i]) {
      if v[0] == '-' && i > 0 { assert v[1..][i - 1] == v[i]; }
    }
  }

  lemma TextReads(v: string, rest: string)
    requires GoodValue(v) && Breaks(rest)
    ensures ReadText(v + rest) == Some((v, rest)) && v != [] && !SlotStarts(v + rest)
  {
    if Placeholder(v) {
      PlaceholderReads(v, rest);
    } else {
      CanonicalIsWord(v);
      WordReads(v, rest);
    }
  }

  lemma VerbReads(n: nat, rest: string)
    requires 1 <= n <= 5 && Breaks(rest)
    ensures ReadText(VerbWord(n) + rest) == Some((VerbWord(n), rest)) && !SlotStarts(VerbWord(n) + rest)
  {
    WordReads(VerbWord(n), rest);
  }

  lemma NotAVerb(v: string)
    requires GoodValue(v)
    ensures UnVal("request/verb", v) == v
  {
    if !Placeholder(v) { CanonicalIsWord(v); }
  }

  lemma ValueReads(slot: string, v: string, rest: string)
    requires GoodValue(v) && Breaks(rest)
    ensures ReadValue(slot, ShVal(slot, v) + rest) == Some((v, rest)) && !SlotStarts(ShVal(slot, v) + rest)
  {
    if slot == "request/verb" && !Placeholder(v) && Digits(v) && 1 <= Number(v) <= 5 {
      assert Natural(v);
      VerbDigit(v);
      VerbReads(Number(v), rest);
      assert v == [v[0]];
    } else {
      TextReads(v, rest);
      NotAVerb(v);
    }
  }

  lemma OtherStart(s: string, w: string)
    requires s != [] && w != [] && s[0] != w[0]
    ensures Eat(s, w).None?
  {
    if |w| <= |s| { assert s[..|w|][0] == s[0]; }
  }

  lemma Associates(a: string, b: string, c: string)
    ensures a + b + c == a + (b + c)
  {
  }

  lemma Reassociates(a: string, b: string, c: string, d: string)
    ensures a + b + c + d == a + (b + (c + d))
  {
  }

  lemma ValsSplit(slot: string, vs: seq<string>, rest: string)
    requires |vs| > 1
    ensures ShVals(slot, vs) + rest == ShVal(slot, vs[0]) + ("," + (ShVals(slot, vs[1..]) + rest))
  {
    Reassociates(ShVal(slot, vs[0]), ",", ShVals(slot, vs[1..]), rest);
  }

  /** One value of a list: the closing brace ends the list, a comma continues it. */
  lemma LastValue(slot: string, s: string, v: string, rest: string)
    requires ReadValue(slot, s) == Some((v, "}" + rest))
    ensures ReadValues(slot, s) == Some(([v], rest))
  {
    EatReads("}", rest);
  }

  lemma MoreValues(slot: string, s: string, v: string, tail: string, vs: seq<string>, rest: string)
    requires ReadValue(slot, s) == Some((v, "," + tail)) && ReadValues(slot, tail) == Some((vs, rest))
    ensures ReadValues(slot, s) == Some(([v] + vs, rest))
  {
    OtherStart("," + tail, "}");
    EatReads(",", tail);
  }

  lemma {:induction false} ValuesRead(slot: string, vs: seq<string>, rest: string)
    requires GoodValues(vs) && vs != []
    ensures ReadValues(slot, ShVals(slot, vs) + ("}" + rest)) == Some((vs, rest))
  {
    if |vs| == 1 {
      ValueReads(slot, vs[0], "}" + rest);
      LastValue(slot, ShVals(slot, vs) + ("}" + rest), vs[0], rest);
      assert vs == [vs[0]];
    } else {
      var tail := ShVals(slot, vs[1..]) + ("}" + rest);
      ValsSplit(slot, vs, "}" + rest);
      ValueReads(slot, vs[0], "," + tail);
      ValuesRead(slot, vs[1..], rest);
      MoreValues(slot, ShVals(slot, vs) + ("}" + rest), vs[0], tail, vs[1..], rest);
      assert vs == [vs[0]] + vs[1..];
    }
  }

  lemma ValueStart(slot: string, v: string)
    requires GoodValue(v)
    ensures ShVal(slot, v) != [] && ShVal(slot, v)[0] != '}'
  {
    if !Placeholder(v) { CanonicalIsWord(v); }
  }

  lemma ValuesStart(slot: string, vs: seq<string>)
    requires GoodValues(vs) && vs != []
    ensures ShVals(slot, vs) != [] && ShVals(slot, vs)[0] != '}'
  {
    ValueStart(slot, vs[0]);
  }

  lemma MembersRead(slot: string, vs: seq<string>, rest: string)
    requires GoodValues(vs)
    ensures ReadMembers(slot, ShVals(slot, vs) + ("}" + rest)) == Some((vs, rest))
  {
    var s := ShVals(slot, vs) + ("}" + rest);
    if vs == [] {
      assert s == "}" + rest;
      EatReads("}", rest);
    } else {
      ValuesStart(slot, vs);
      OtherStart(s, "}");
      ValuesRead(slot, vs, rest);
    }
  }

  // ------------------------------------------------------------------ reading back: predicates

  /** What may follow a predicate. */
  predicate Follows(rest: string) {
    || rest == [] || rest[0] == ',' || rest[0] == ')' || rest[0] == ';' || rest[0] == '\n'
    || (|rest| >= 2 && rest[0] == ' ' && rest[1] == ']')
  }

  lemma FollowEndsSlot(rest: string)
    requires Follows(rest)
    ensures SlotEnds(rest) && Breaks(rest) && Eat(rest, " + ").None?
  {
    if rest != [] && rest[0] == ' ' {
      assert WordLen(rest[1..]) == 0;
      if |rest| >= 3 { assert rest[..3][1] == ']'; }
    }
  }

  /** An operator after a slot is not a view. */
  lemma OperatorEndsSlot(tail: string)
    requires |tail| >= 2 && tail[0] == ' ' && !WordChar(tail[1])
    ensures SlotEnds(tail)
  {
    assert WordLen(tail[1..]) == 0;
  }

  lemma ReservedEndsSlot(w: string, rest: string)
    requires Reserved(w) && Breaks(rest)
    ensures SlotEnds(" " + w + rest)
  {
    assert " " + w + rest == " " + (w + rest);
    assert (" " + (w + rest))[1..] == w + rest;
    WordReads(w, rest);
  }

  lemma SlotLettersReadAtom(s: string)
    requires SlotLetters(s)
    ensures ReadPred(s) == ReadAtom(s)
  {
  }

  /** A slot and a tail that reads are a predicate that reads. */
  lemma AtomReads(x: string, tail: string, p: Pred, rest: string)
    requires GoodSlot(x) && SlotEnds(tail) && ReadTail(x, tail) == Some((p, rest))
    ensures ReadPred(ShSlot(x) + tail) == Some((p, rest))
  {
    var s := ShSlot(x) + tail;
    SlotReads(x, tail);
    SlotLettersReadAtom(s);
    assert ReadAtom(s) == ReadTail(x, tail);
  }

  lemma EqReads(x: string, v: string, rest: string)
    requires GoodSlot(x) && GoodValue(v) && Follows(rest)
    ensures ReadPred(Shell(Eq(x, v)) + rest) == Some((Eq(x, v), rest))
  {
    var tail := " == " + (ShVal(x, v) + rest);
    FollowEndsSlot(rest);
    ValueReads(x, v, rest);
    EatReads(" == ", ShVal(x, v) + rest);
    OperatorEndsSlot(tail);
    AtomReads(x, tail, Eq(x, v), rest);
    Reassociates(ShSlot(x), " == ", ShVal(x, v), rest);
  }

  lemma LeReads(x: string, v: string, rest: string)
    requires GoodSlot(x) && GoodValue(v) && Follows(rest)
    ensures ReadPred(Shell(Le(x, v)) + rest) == Some((Le(x, v), rest))
  {
    var tail := " <= " + (ShVal(x, v) + rest);
    FollowEndsSlot(rest);
    ValueReads(x, v, rest);
    EatReads(" <= ", ShVal(x, v) + rest);
    OperatorEndsSlot(tail);
    AtomReads(x, tail, Le(x, v), rest);
    Reassociates(ShSlot(x), " <= ", ShVal(x, v), rest);
  }

  lemma EqSlotsTail(x: string, y: string, rest: string)
    requires GoodSlot(y) && Follows(rest)
    ensures var tail := " == " + (ShSlot(y) + rest);
            SlotEnds(tail) && ReadTail(x, tail) == Some((EqSlots(x, y), rest))
  {
    FollowEndsSlot(rest);
    SlotReads(y, rest);
    EatReads(" == ", ShSlot(y) + rest);
    OperatorEndsSlot(" == " + (ShSlot(y) + rest));
  }

  lemma EqSlotsReads(x: string, y: string, rest: string)
    requires GoodSlot(x) && GoodSlot(y) && Follows(rest)
    ensures ReadPred(Shell(EqSlots(x, y)) + rest) == Some((EqSlots(x, y), rest))
  {
    EqSlotsTail(x, y, rest);
    AtomReads(x, " == " + (ShSlot(y) + rest), EqSlots(x, y), rest);
    Reassociates(ShSlot(x), " == ", ShSlot(y), rest);
  }

  lemma LeSlotsTail(x: string, y: string, rest: string)
    requires GoodSlot(y) && Follows(rest)
    ensures var tail := " <= " + (ShSlot(y) + rest);
            SlotEnds(tail) && ReadTail(x, tail) == Some((LeSlots(x, y), rest))
  {
    FollowEndsSlot(rest);
    SlotReads(y, rest);
    EatReads(" <= ", ShSlot(y) + rest);
    OperatorEndsSlot(" <= " + (ShSlot(y) + rest));
  }

  lemma LeSlotsReads(x: string, y: string, rest: string)
    requires GoodSlot(x) && GoodSlot(y) && Follows(rest)
    ensures ReadPred(Shell(LeSlots(x, y)) + rest) == Some((LeSlots(x, y), rest))
  {
    LeSlotsTail(x, y, rest);
    AtomReads(x, " <= " + (ShSlot(y) + rest), LeSlots(x, y), rest);
    Reassociates(ShSlot(x), " <= ", ShSlot(y), rest);
  }

  lemma OffsetReads(x: string, y: string, v: string, rest: string)
    requires GoodSlot(y) && GoodValue(v) && Follows(rest)
    ensures ReadLe(x, ShSlot(y) + (" + " + (v + rest))) == Some((LeSlotsOff(x, y, v), rest))
  {
    var offset := " + " + (v + rest);
    FollowEndsSlot(rest);
    TextReads(v, rest);
    EatReads(" + ", v + rest);
    OperatorEndsSlot(offset);
    SlotReads(y, offset);
  }

  lemma LeSlotsOffTail(x: string, y: string, v: string, rest: string)
    requires GoodSlot(y) && GoodValue(v) && Follows(rest)
    ensures var tail := " <= " + (ShSlot(y) + (" + " + (v + rest)));
            SlotEnds(tail) && ReadTail(x, tail) == Some((LeSlotsOff(x, y, v), rest))
  {
    var right := ShSlot(y) + (" + " + (v + rest));
    OffsetReads(x, y, v, rest);
    EatReads(" <= ", right);
    OperatorEndsSlot(" <= " + right);
  }

  lemma LeSlotsOffReads(x: string, y: string, v: string, rest: string)
    requires GoodSlot(x) && GoodSlot(y) && GoodValue(v) && Follows(rest)
    ensures ReadPred(Shell(LeSlotsOff(x, y, v)) + rest) == Some((LeSlotsOff(x, y, v), rest))
  {
    var offset := " + " + (v + rest);
    var tail := " <= " + (ShSlot(y) + offset);
    LeSlotsOffTail(x, y, v, rest);
    AtomReads(x, tail, LeSlotsOff(x, y, v), rest);
    assert Shell(LeSlotsOff(x, y, v)) + rest == ShSlot(x) + tail by {
      Reassociates(ShSlot(x) + " <= " + ShSlot(y), " + ", v, rest);
      Reassociates(ShSlot(x), " <= ", ShSlot(y), offset);
    }
  }

  lemma MemberTail(x: string, vs: seq<string>, rest: string)
    requires GoodValues(vs)
    ensures var tail := " in {" + (ShVals(x, vs) + ("}" + rest));
            SlotEnds(tail) && ReadTail(x, tail) == Some((MemberOf(x, vs), rest))
  {
    var members := ShVals(x, vs) + ("}" + rest);
    MembersRead(x, vs, rest);
    EatReads(" in {", members);
    assert " " + "in" + (" {" + members) == " in {" + members;
    ReservedEndsSlot("in", " {" + members);
  }

  lemma MemberOfReads(x: string, vs: seq<string>, rest: string)
    requires GoodSlot(x) && GoodValues(vs)
    ensures ReadPred(Shell(MemberOf(x, vs)) + rest) == Some((MemberOf(x, vs), rest))
  {
    var tail := " in {" + (ShVals(x, vs) + ("}" + rest));
    MemberTail(x, vs, rest);
    AtomReads(x, tail, MemberOf(x, vs), rest);
    assert Shell(MemberOf(x, vs)) + rest == ShSlot(x) + tail by {
      Reassociates(ShSlot(x), " in {", ShVals(x, vs), "}" + rest);
      Associates(ShSlot(x) + " in {" + ShVals(x, vs), "}", rest);
    }
  }

  lemma MonotoneReads(x: string, rest: string)
    requires GoodSlot(x) && Follows(rest)
    ensures ReadPred(Shell(Monotone(x)) + rest) == Some((Monotone(x), rest))
  {
    var tail := " monotone" + rest;
    FollowEndsSlot(rest);
    EatReads(" monotone", rest);
    assert " " + "monotone" == " monotone";
    ReservedEndsSlot("monotone", rest);
    AtomReads(x, tail, Monotone(x), rest);
    Associates(ShSlot(x), " monotone", rest);
  }

  lemma WriteOnceReads(x: string, rest: string)
    requires GoodSlot(x) && Follows(rest)
    ensures ReadPred(Shell(WriteOnce(x)) + rest) == Some((WriteOnce(x), rest))
  {
    var tail := " writeOnce" + rest;
    FollowEndsSlot(rest);
    EatReads(" writeOnce", rest);
    assert " " + "writeOnce" == " writeOnce";
    ReservedEndsSlot("writeOnce", rest);
    AtomReads(x, tail, WriteOnce(x), rest);
    Associates(ShSlot(x), " writeOnce", rest);
  }

  lemma RanReads(v: string, rest: string)
    requires GoodValue(v) && Follows(rest)
    ensures ReadPred(Shell(Ran(v)) + rest) == Some((Ran(v), rest))
  {
    FollowEndsSlot(rest);
    TextReads(v, rest);
    EatReads("ran ", v + rest);
    assert "ran " + v + rest == "ran " + (v + rest);
  }

  lemma EmptyReads(rest: string)
    ensures ReadPred(Shell(All([])) + rest) == Some((All([]), rest))
    ensures ReadPred(Shell(Any([])) + rest) == Some((Any([]), rest))
  {
    EatReads("open", rest);
    EatReads("sealed", rest);
  }

  /** One predicate of a list: the closing bracket ends the list, a comma continues it. */
  lemma LastPred(s: string, p: Pred, rest: string)
    requires ReadPred(s) == Some((p, " ]" + rest))
    ensures ReadList(s) == Some(([p], rest))
  {
    EatReads(" ]", rest);
  }

  lemma MorePreds(s: string, p: Pred, tail: string, ps: seq<Pred>, rest: string)
    requires ReadPred(s) == Some((p, ", " + tail)) && ReadList(tail) == Some((ps, rest))
    ensures ReadList(s) == Some(([p] + ps, rest))
  {
    OtherStart(", " + tail, " ]");
    EatReads(", ", tail);
  }

  lemma JoinedSplit(ps: seq<Pred>, separator: string, rest: string)
    requires |ps| > 1
    ensures ShellJoined(ps, separator) + rest == Shell(ps[0]) + (separator + (ShellJoined(ps[1..], separator) + rest))
  {
    Reassociates(Shell(ps[0]), separator, ShellJoined(ps[1..], separator), rest);
  }

  lemma GoodParts(ps: seq<Pred>)
    requires ps != [] && GoodAll(ps)
    ensures Good(ps[0]) && GoodAll(ps[1..])
  {
    assert ps[0] in ps;
    forall p | p in ps[1..] ensures Good(p) {
      assert p in ps;
    }
  }

  lemma {:induction false} ListEnds(p: Pred, rest: string)
    requires Good(p)
    ensures ReadList(Shell(p) + (" ]" + rest)) == Some(([p], rest))
    decreases p, 1
  {
    PredReads(p, " ]" + rest);
    LastPred(Shell(p) + (" ]" + rest), p, rest);
  }

  lemma {:induction false} ListContinues(p: Pred, tail: string, ps: seq<Pred>, rest: string)
    requires Good(p) && ReadList(tail) == Some((ps, rest))
    ensures ReadList(Shell(p) + (", " + tail)) == Some(([p] + ps, rest))
    decreases p, 1
  {
    PredReads(p, ", " + tail);
    MorePreds(Shell(p) + (", " + tail), p, tail, ps, rest);
  }

  lemma {:induction false} ListReads(ps: seq<Pred>, rest: string)
    requires ps != [] && GoodAll(ps)
    ensures ReadList(ShellJoined(ps, ", ") + (" ]" + rest)) == Some((ps, rest))
    decreases ps, 0
  {
    GoodParts(ps);
    if |ps| == 1 {
      ListEnds(ps[0], rest);
      assert ps == [ps[0]];
    } else {
      var joined := ShellJoined(ps[1..], ", ");
      ListReads(ps[1..], rest);
      ListContinues(ps[0], joined + (" ]" + rest), ps[1..], rest);
      var s := ShellJoined(ps, ", ") + (" ]" + rest);
      assert s == Shell(ps[0]) + (", " + (joined + (" ]" + rest))) by { JoinedSplit(ps, ", ", " ]" + rest); }
      assert ps == [ps[0]] + ps[1..];
    }
  }

  lemma {:induction false} BracketReads(p: Pred, rest: string)
    requires (p.All? || p.Any?) && p.ps != [] && GoodAll(p.ps)
    requires ReadList(ShellJoined(p.ps, ", ") + (" ]" + rest)) == Some((p.ps, rest))
    ensures ReadPred(Shell(p) + rest) == Some((p, rest))
  {
    var inner := ShellJoined(p.ps, ", ") + (" ]" + rest);
    var open := if p.All? then "all [ " else "any [ ";
    Reassociates(open, ShellJoined(p.ps, ", "), " ]", rest);
    EatReads(open, inner);
  }

  lemma {:induction false} NotReads(p: Pred, rest: string)
    requires ReadPred(Shell(p) + (")" + rest)) == Some((p, ")" + rest))
    ensures ReadPred(Shell(Not(p)) + rest) == Some((Not(p), rest))
  {
    Reassociates("not (", Shell(p), ")", rest);
    EatReads("not (", Shell(p) + (")" + rest));
    EatReads(")", rest);
  }

  /** Every well-formed predicate is read back from its printed form, whatever may follow it. */
  lemma {:induction false} PredReads(p: Pred, rest: string)
    requires Good(p) && Follows(rest)
    ensures ReadPred(Shell(p) + rest) == Some((p, rest))
    decreases p, 0
  {
    match p
    case All(ps) =>
      if ps == [] { EmptyReads(rest); } else { ListReads(ps, rest); BracketReads(p, rest); }
    case Any(ps) =>
      if ps == [] { EmptyReads(rest); } else { ListReads(ps, rest); BracketReads(p, rest); }
    case Not(q) =>
      PredReads(q, ")" + rest);
      NotReads(q, rest);
    case Eq(slot, v) => EqReads(slot, v, rest);
    case Le(slot, v) => LeReads(slot, v, rest);
    case MemberOf(slot, vs) => MemberOfReads(slot, vs, rest);
    case Monotone(slot) => MonotoneReads(slot, rest);
    case WriteOnce(slot) => WriteOnceReads(slot, rest);
    case EqSlots(l, r) => EqSlotsReads(l, r, rest);
    case LeSlots(l, r) => LeSlotsReads(l, r, rest);
    case LeSlotsOff(l, r, offset) => LeSlotsOffReads(l, r, offset, rest);
    case Ran(program) => RanReads(program, rest);
  }

  lemma MoreClauses(s: string, p: Pred, tail: string, ps: seq<Pred>)
    requires ReadPred(s) == Some((p, ";\n" + tail)) && ReadClauses(tail) == Some(ps)
    ensures ReadClauses(s) == Some([p] + ps)
  {
    EatReads(";\n", tail);
    assert (";\n" + tail)[0] == ';';
  }

  lemma LastClause(s: string, p: Pred)
    requires ReadPred(s) == Some((p, "\n"))
    ensures ReadClauses(s) == Some([p])
  {
  }

  lemma ClausesEnd(p: Pred)
    requires Good(p)
    ensures ReadClauses(Shell(p) + "\n") == Some([p])
  {
    PredReads(p, "\n");
    LastClause(Shell(p) + "\n", p);
  }

  lemma ClausesContinue(p: Pred, tail: string, ps: seq<Pred>)
    requires Good(p) && ReadClauses(tail) == Some(ps)
    ensures ReadClauses(Shell(p) + (";\n" + tail)) == Some([p] + ps)
  {
    PredReads(p, ";\n" + tail);
    MoreClauses(Shell(p) + (";\n" + tail), p, tail, ps);
  }

  lemma {:induction false} ClausesRead(ps: seq<Pred>)
    requires ps != [] && GoodAll(ps)
    ensures ReadClauses(ShellJoined(ps, ";\n") + "\n") == Some(ps)
  {
    GoodParts(ps);
    if |ps| == 1 {
      ClausesEnd(ps[0]);
      assert ps == [ps[0]];
    } else {
      var joined := ShellJoined(ps[1..], ";\n");
      ClausesRead(ps[1..]);
      ClausesContinue(ps[0], joined + "\n", ps[1..]);
      var s := ShellJoined(ps, ";\n") + "\n";
      assert s == Shell(ps[0]) + (";\n" + (joined + "\n")) by { JoinedSplit(ps, ";\n", "\n"); }
      assert ps == [ps[0]] + ps[1..];
    }
  }

  lemma ClausesAreNotBlank(ps: seq<Pred>)
    requires ps != [] && GoodAll(ps)
    ensures ShellJoined(ps, ";\n") + "\n" != "\n"
  {
    ClausesRead(ps);
  }

  /** The clause list is read back from the printed law. */
  lemma LawReads(clauses: seq<Pred>)
    requires GoodAll(clauses)
    ensures ReadLaw(ShellLaw(clauses)) == Some(clauses)
  {
    var body := ShellJoined(clauses, ";\n") + "\n";
    assert ShellLaw(clauses) == HEAD + body;
    EatReads(HEAD, body);
    if clauses == [] {
      assert body == "\n";
    } else {
      ClausesAreNotBlank(clauses);
      ClausesRead(clauses);
    }
  }

  /** No two well-formed laws, and no two well-formed predicates, print alike. */
  lemma PrinterIsUnambiguous(p: Pred, q: Pred, a: seq<Pred>, b: seq<Pred>)
    requires Good(p) && Good(q) && GoodAll(a) && GoodAll(b)
    ensures Shell(p) == Shell(q) ==> p == q
    ensures ShellLaw(a) == ShellLaw(b) ==> a == b
  {
    PredReads(p, []);
    PredReads(q, []);
    assert Shell(p) + [] == Shell(p) && Shell(q) + [] == Shell(q);
    LawReads(a);
    LawReads(b);
  }
}

/** The values the printer treats specially, said without its own predicates. */
module LawValues {
  import opened Common
  import opened Alphabet
  import opened LawPrinter

  function PlaceholderAlphabet(): string {
    Range('A', 26) + "_" + Range('0', 10)
  }

  /** A name in braces. */
  lemma PlaceholderExactly(v: string)
    ensures Placeholder(v) <==>
            exists w: string :: w != "" && (forall c :: c in w ==> c in PlaceholderAlphabet()) && v == "{" + w + "}"
  {
    if Placeholder(v) {
      var w := v[1..|v| - 1];
      forall c | c in w ensures c in PlaceholderAlphabet() { UpperExactly(c); }
      assert v == "{" + w + "}";
    }
    if w: string :| w != "" && (forall c :: c in w ==> c in PlaceholderAlphabet()) && v == "{" + w + "}" {
      forall i | 1 <= i < |v| - 1 ensures Upper(v[i]) {
        assert v[i] == w[i - 1];
        UpperExactly(v[i]);
      }
    }
  }

  lemma UpperExactly(c: char)
    ensures Upper(c) <==> c in PlaceholderAlphabet()
  {
    InRange(c, 'A', 26);
    InRange(c, '0', 10);
  }

  function Decimal(n: nat): string {
    (if n < 10 then "" else Decimal(n / 10)) + [('0' as int + n % 10) as char]
  }

  lemma {:induction false} DecimalReads(n: nat)
    ensures Digits(Decimal(n)) && Number(Decimal(n)) == n
  {
    var d := Decimal(n);
    assert Digit(Last(d));
    if n >= 10 {
      DecimalReads(n / 10);
      assert d[..|d| - 1] == Decimal(n / 10);
    } else {
      assert d[..|d| - 1] == [] && Number([]) == 0;
    }
  }

  /** A verb is printed by its name exactly if it is one of the five. */
  lemma VerbsAreNamed(n: nat)
    ensures ShVal("request/verb", Decimal(n)) == if 1 <= n <= 5 then VerbWord(n) else Decimal(n)
  {
    DecimalReads(n);
    assert Decimal(n)[0] != '{';
  }
}

/**
 * The hosted descriptor validator (native/hosted-conversation.rs, `valid` and `parse`) and the
 * any-schema form that scripts/hosted-conversation.py emits for the Lean reader.
 *
 * Strings are byte strings (one `char` per UTF-8 byte), since the source measures and scans bytes.
 * `Natural` stands for the JSON numbers readable as u64; every other number is `Unreadable`.
 */
module HostedSchema {
  import opened Alphabet
  import opened Common

  datatype Json =
    | Null
    | Bool(b: bool)
    | Natural(n: nat)
    | Unreadable
    | Text(s: string)
    | Array(items: seq<Json>)
    | Object(fields: map<string, Json>)

  datatype Schema =
    | TextOf(least: nat, most: nat, choices: seq<string>)
    | NaturalOf(low: nat, high: nat)
    | IdentifierOf(limit: nat)
    | HexOf(limit: nat)
    | ArrayOf(limit: nat, item: Schema)
    | OneOf(options: seq<Schema>)
    | ObjectOf(shape: map<string, Schema>)
    | UnknownKind

  predicate IdentifierByte(c: char) {
    '0' <= c <= '9' || 'a' <= c <= 'z' || 'A' <= c <= 'Z' || c == '-' || c == '_'
  }

  predicate HexByte(c: char) {
    '0' <= c <= '9' || 'a' <= c <= 'f'
  }

  predicate ValidText(least: nat, most: nat, choices: seq<string>, s: string) {
    least <= |s| <= most && (choices == [] || s in choices)
  }

  predicate ValidIdentifier(limit: nat, s: string) {
    s != "" && |s| <= limit && forall i :: 0 <= i < |s| ==> IdentifierByte(s[i])
  }

  predicate ValidHex(limit: nat, s: string) {
    |s| % 2 == 0 && |s| <= 2 * limit && forall i :: 0 <= i < |s| ==> HexByte(s[i])
  }

  const HEX_DIGITS := "0123456789abcdef"

  function IdentifierAlphabet(): string {
    Range('0', 10) + Range('a', 26) + Range('A', 26) + "-_"
  }

  /** The two lowercase digits of each byte. */
  function HexOfBytes(b: Bytes): string {
    if b == [] then "" else [HEX_DIGITS[b[0] as int / 16], HEX_DIGITS[b[0] as int % 16]] + HexOfBytes(b[1..])
  }

  function DigitOf(c: char): nat
    requires HexByte(c)
  {
    if c <= '9' then (c as int) - ('0' as int) else (c as int) - ('a' as int) + 10
  }

  lemma DigitReads(c: char)
    requires HexByte(c)
    ensures DigitOf(c) < 16 && HEX_DIGITS[DigitOf(c)] == c
  {
  }

  lemma {:induction false} HexIsValid(b: Bytes, limit: nat)
    requires |b| <= limit
    ensures |HexOfBytes(b)| == 2 * |b| && ValidHex(limit, HexOfBytes(b))
    decreases |b|
  {
    if b != [] {
      HexIsValid(b[1..], limit - 1);
      var head := [HEX_DIGITS[b[0] as int / 16], HEX_DIGITS[b[0] as int % 16]];
      assert HexByte(head[0]) && HexByte(head[1]);
      assert HexOfBytes(b) == head + HexOfBytes(b[1..]);
    }
  }

  lemma {:induction false} ValidHexIsHex(limit: nat, s: string) returns (b: Bytes)
    requires ValidHex(limit, s)
    ensures |b| <= limit && HexOfBytes(b) == s
    decreases |s|
  {
    if s == "" {
      b := [];
    } else {
      var rest := ValidHexIsHex(limit - 1, s[2..]);
      var x := TwoDigits(s[0], s[1]);
      b := [x] + rest;
      assert b[1..] == rest && s == [s[0], s[1]] + s[2..];
    }
  }

  lemma TwoDigits(c: char, d: char) returns (x: Byte)
    requires HexByte(c) && HexByte(d)
    ensures HEX_DIGITS[x as int / 16] == c && HEX_DIGITS[x as int % 16] == d
  {
    DigitReads(c);
    DigitReads(d);
    x := (16 * DigitOf(c) + DigitOf(d)) as Byte;
    assert x as int / 16 == DigitOf(c) && x as int % 16 == DigitOf(d);
  }

  /** A hexadecimal field holds exactly the lowercase encodings of at most `limit` bytes. */
  lemma ValidHexExactly(limit: nat, s: string)
    ensures ValidHex(limit, s) <==> exists b: Bytes :: |b| <= limit && HexOfBytes(b) == s
  {
    if ValidHex(limit, s) { var b := ValidHexIsHex(limit, s); }
    if b: Bytes :| |b| <= limit && HexOfBytes(b) == s { HexIsValid(b, limit); }
  }

  /** An identifier is a non-empty word of at most `limit` letters, digits, hyphens and underscores. */
  lemma ValidIdentifierExactly(limit: nat, s: string)
    ensures ValidIdentifier(limit, s) <==> 0 < |s| <= limit && forall c :: c in s ==> c in IdentifierAlphabet()
  {
    forall c: char ensures IdentifierByte(c) <==> c in IdentifierAlphabet() {
      InRange(c, '0', 10);
      InRange(c, 'a', 26);
      InRange(c, 'A', 26);
    }
    assert forall i :: 0 <= i < |s| ==> s[i] in s;
  }

  /** The source's fuelled recursion: it gives up with `false` when the fuel is gone. */
  predicate Valid(fuel: nat, schema: Schema, value: Json)
    decreases fuel
  {
    fuel > 0 &&
    match schema
    case TextOf(least, most, choices) => value.Text? && ValidText(least, most, choices, value.s)
    case NaturalOf(low, high) => value.Natural? && low <= value.n <= high
    case IdentifierOf(limit) => value.Text? && ValidIdentifier(limit, value.s)
    case HexOf(limit) => value.Text? && ValidHex(limit, value.s)
    case ArrayOf(limit, item) =>
      value.Array? && |value.items| <= limit &&
      forall i :: 0 <= i < |value.items| ==> Valid(fuel - 1, item, value.items[i])
    case OneOf(options) => exists i :: 0 <= i < |options| && Valid(fuel - 1, options[i], value)
    case ObjectOf(shape) =>
      value.Object? && |value.fields| == |shape| &&
      forall k :: k in shape ==> k in value.fields && Valid(fuel - 1, shape[k], value.fields[k])
    case UnknownKind => false
  }

  /** What a schema means, with no fuel: an object is accepted on exactly its keys. */
  predicate Accepts(schema: Schema, value: Json)
    decreases schema
  {
    match schema
    case TextOf(least, most, choices) => value.Text? && ValidText(least, most, choices, value.s)
    case NaturalOf(low, high) => value.Natural? && low <= value.n <= high
    case IdentifierOf(limit) => value.Text? && ValidIdentifier(limit, value.s)
    case HexOf(limit) => value.Text? && ValidHex(limit, value.s)
    case ArrayOf(limit, item) =>
      value.Array? && |value.items| <= limit &&
      forall i :: 0 <= i < |value.items| ==> Accepts(item, value.items[i])
    case OneOf(options) => exists i :: 0 <= i < |options| && Accepts(options[i], value)
    case ObjectOf(shape) =>
      value.Object? && value.fields.Keys == shape.Keys &&
      forall k :: k in shape ==> Accepts(shape[k], value.fields[k])
    case UnknownKind => false
  }

  /** Nested no deeper than `depth` levels, counting the schema itself. */
  predicate Within(schema: Schema, depth: nat)
    decreases depth
  {
    depth > 0 &&
    match schema
    case ArrayOf(_, item) => Within(item, depth - 1)
    case OneOf(options) => forall i :: 0 <= i < |options| ==> Within(options[i], depth - 1)
    case ObjectOf(shape) => forall k :: k in shape ==> Within(shape[k], depth - 1)
    case _ => true
  }

  lemma SubsetOfSameSize<T>(a: set<T>, b: set<T>)
    requires a <= b && |a| == |b|
    ensures a == b
  {
    assert b == a + (b - a);
  }

  /** Fuel never adds acceptances beyond the meaning. */
  lemma {:induction false} ValidIsSound(fuel: nat, schema: Schema, value: Json)
    requires Valid(fuel, schema, value)
    ensures Accepts(schema, value)
    decreases fuel
  {
    match schema
    case ArrayOf(_, item) =>
      forall i | 0 <= i < |value.items| ensures Accepts(item, value.items[i]) {
        ValidIsSound(fuel - 1, item, value.items[i]);
      }
    case OneOf(options) =>
      var i :| 0 <= i < |options| && Valid(fuel - 1, options[i], value);
      ValidIsSound(fuel - 1, options[i], value);
    case ObjectOf(shape) =>
      SubsetOfSameSize(shape.Keys, value.fields.Keys);
      forall k | k in shape ensures Accepts(shape[k], value.fields[k]) {
        ValidIsSound(fuel - 1, shape[k], value.fields[k]);
      }
    case _ =>
  }

  /** Once the fuel reaches the depth of the schema nothing the schema means is refused. */
  lemma {:induction false} ValidIsComplete(fuel: nat, schema: Schema, value: Json)
    requires Within(schema, fuel) && Accepts(schema, value)
    ensures Valid(fuel, schema, value)
    decreases fuel
  {
    match schema
    case ArrayOf(_, item) =>
      forall i | 0 <= i < |value.items| ensures Valid(fuel - 1, item, value.items[i]) {
        ValidIsComplete(fuel - 1, item, value.items[i]);
      }
    case OneOf(options) =>
      var i :| 0 <= i < |options| && Accepts(options[i], value);
      ValidIsComplete(fuel - 1, options[i], value);
    case ObjectOf(shape) =>
      assert |value.fields.Keys| == |shape.Keys|;
      forall k | k in shape ensures Valid(fuel - 1, shape[k], value.fields[k]) {
        ValidIsComplete(fuel - 1, shape[k], value.fields[k]);
      }
    case _ =>
  }

  lemma FuelIsEnough(fuel: nat, schema: Schema, value: Json)
    requires Within(schema, fuel)
    ensures Valid(fuel, schema, value) <==> Accepts(schema, value)
  {
    if Valid(fuel, schema, value) { ValidIsSound(fuel, schema, value); }
    if Accepts(schema, value) { ValidIsComplete(fuel, schema, value); }
  }

  lemma {:induction false} MoreFuelKeepsAcceptance(fuel: nat, more: nat, schema: Schema, value: Json)
    requires fuel <= more && Valid(fuel, schema, value)
    ensures Valid(more, schema, value)
    decreases fuel
  {
    match schema
    case ArrayOf(_, item) =>
      forall i | 0 <= i < |value.items| ensures Valid(more - 1, item, value.items[i]) {
        MoreFuelKeepsAcceptance(fuel - 1, more - 1, item, value.items[i]);
      }
    case OneOf(options) =>
      var i :| 0 <= i < |options| && Valid(fuel - 1, options[i], value);
      MoreFuelKeepsAcceptance(fuel - 1, more - 1, options[i], value);
    case ObjectOf(shape) =>
      forall k | k in shape ensures Valid(more - 1, shape[k], value.fields[k]) {
        MoreFuelKeepsAcceptance(fuel - 1, more - 1, shape[k], value.fields[k]);
      }
    case _ =>
  }

  lemma {:induction false} DeeperIsStillWithin(schema: Schema, depth: nat, more: nat)
    requires depth <= more && Within(schema, depth)
    ensures Within(schema, more)
    decreases depth
  {
    match schema
    case ArrayOf(_, item) => DeeperIsStillWithin(item, depth - 1, more - 1);
    case OneOf(options) =>
      forall i | 0 <= i < |options| ensures Within(options[i], more - 1) {
        DeeperIsStillWithin(options[i], depth - 1, more - 1);
      }
    case ObjectOf(shape) =>
      forall k | k in shape ensures Within(shape[k], more - 1) {
        DeeperIsStillWithin(shape[k], depth - 1, more - 1);
      }
    case _ =>
  }

  /** Every schema has a finite depth, so some fuel is enough for it (and all larger fuel is). */
  lemma {:induction false} SomeFuelIsEnough(schema: Schema) returns (depth: nat)
    ensures forall fuel, value :: depth <= fuel ==> (Valid(fuel, schema, value) <==> Accepts(schema, value))
  {
    depth := DepthOf(schema);
    forall fuel: nat, value | depth <= fuel ensures Valid(fuel, schema, value) <==> Accepts(schema, value) {
      DeeperIsStillWithin(schema, depth, fuel);
      FuelIsEnough(fuel, schema, value);
    }
  }

  lemma {:induction false} DepthOf(schema: Schema) returns (depth: nat)
    ensures Within(schema, depth)
    decreases schema, 0
  {
    match schema
    case ArrayOf(_, item) =>
      depth := DepthOf(item);
      depth := depth + 1;
    case OneOf(options) =>
      depth := 0;
      for n := 0 to |options|
        invariant forall i :: 0 <= i < n ==> Within(options[i], depth)
      {
        var d := DepthOf(options[n]);
        var deeper := if d < depth then depth else d;
        forall i | 0 <= i <= n ensures Within(options[i], deeper) {
          DeeperIsStillWithin(options[i], if i < n then depth else d, deeper);
        }
        depth := deeper;
      }
      depth := depth + 1;
    case ObjectOf(shape) =>
      depth := DepthOfFields(schema, shape.Keys);
      depth := depth + 1;
    case _ => depth := 1;
  }

  lemma {:induction false} DepthOfFields(schema: Schema, keys: set<string>) returns (depth: nat)
    requires schema.ObjectOf? && keys <= schema.shape.Keys
    ensures forall k :: k in keys ==> Within(schema.shape[k], depth)
    decreases schema, 0, |keys|
  {
    if keys == {} { return 0; }
    var k :| k in keys;
    var d := DepthOf(schema.shape[k]);
    var rest := DepthOfFields(schema, keys - {k});
    depth := if d < rest then rest else d;
    forall j | j in keys ensures Within(schema.shape[j], depth) {
      DeeperIsStillWithin(schema.shape[j], if j == k then d else rest, depth);
    }
  }

  // ------------------------------------------------------------------ dispatch against any-of

  datatype Vocabulary = Vocabulary(base: map<string, Schema>, operations: map<string, map<string, Schema>>)

  datatype Refusal = BodyTooLong | JsonRefused | OpAbsent | OpRefused | ShapeRefused

  const MAX_BODY := 65536

  const FUEL := 16

  function OpTag(op: string): Schema {
    TextOf(1, 32, [op])
  }

  /** The row the generator emits for one operation: later entries win, so operation fields override. */
  function EmittedSchema(v: Vocabulary, op: string): Schema
    requires op in v.operations
  {
    ObjectOf(v.base + map["op" := OpTag(op)] + v.operations[op])
  }

  /** `descriptorSafe`: some emitted schema validates the value. */
  predicate AnySchema(v: Vocabulary, value: Json) {
    exists op :: op in v.operations && Valid(FUEL, EmittedSchema(v, op), value)
  }

  /** The schema `parse` assembles for one operation: here the base and the tag override. */
  function DispatchSchema(v: Vocabulary, op: string): Schema
    requires op in v.operations
  {
    ObjectOf((v.operations[op] + v.base)["op" := OpTag(op)])
  }

  predicate Taggable(op: string) {
    1 <= |op| <= 32
  }

  /** No operation field is called `op`, and none of an operation that a tag can name is called like a
      base field. */
  predicate DisjointFields(v: Vocabulary) {
    forall op :: op in v.operations ==>
      "op" !in v.operations[op] && (Taggable(op) ==> v.operations[op].Keys !! v.base.Keys)
  }

  /** The text of the `op` member, if it has one. */
  function OpOf(value: Json): Option<string> {
    if value.Object? && "op" in value.fields && value.fields["op"].Text?
    then Some(value.fields["op"].s) else None
  }

  /** What `parse` decides. */
  function ParseOutcome(v: Vocabulary, length: nat, parsed: Option<Json>): Result<Json, Refusal> {
    if MAX_BODY < length then Err(BodyTooLong)
    else match parsed
      case None => Err(JsonRefused)
      case Some(value) =>
        match OpOf(value)
        case None => Err(OpAbsent)
        case Some(op) =>
          if op !in v.operations then Err(OpRefused)
          else if Valid(FUEL, DispatchSchema(v, op), value) then Ok(value) else Err(ShapeRefused)
  }

  /** `parse`: pick the operation, extend its fields in place with the base and the tag, validate. */
  method Parse(v: Vocabulary, length: nat, parsed: Option<Json>) returns (r: Result<Json, Refusal>)
    ensures r == ParseOutcome(v, length, parsed)
    ensures DisjointFields(v) && length <= MAX_BODY && parsed.Some? ==> (r.Ok? <==> AnySchema(v, parsed.value))
  {
    DispatchIsAnySchema(v, length, parsed);
    if length > MAX_BODY { return Err(BodyTooLong); }
    if parsed.None? { return Err(JsonRefused); }
    var value := parsed.value;
    if !value.Object? || "op" !in value.fields || !value.fields["op"].Text? { return Err(OpAbsent); }
    var op := value.fields["op"].s;
    if op !in v.operations { return Err(OpRefused); }
    var fields := v.operations[op];
    fields := fields + v.base;
    fields := fields["op" := OpTag(op)];
    if !Valid(FUEL, ObjectOf(fields), value) { return Err(ShapeRefused); }
    r := Ok(value);
  }

  /** A value validated by an emitted schema carries that schema's operation name. */
  lemma AcceptedNamesItsSchema(v: Vocabulary, op: string, value: Json)
    requires op in v.operations && "op" !in v.operations[op]
    requires Valid(FUEL, EmittedSchema(v, op), value)
    ensures OpOf(value) == Some(op) && Taggable(op)
  {
    var shape := EmittedSchema(v, op).shape;
    assert "op" in shape && shape["op"] == OpTag(op);
    assert Valid(FUEL - 1, OpTag(op), value.fields["op"]);
  }

  lemma DispatchedIsTaggable(v: Vocabulary, op: string, value: Json)
    requires op in v.operations && Valid(FUEL, DispatchSchema(v, op), value)
    ensures Taggable(op)
  {
    var shape := DispatchSchema(v, op).shape;
    assert "op" in shape && shape["op"] == OpTag(op);
    assert Valid(FUEL - 1, OpTag(op), value.fields["op"]);
  }

  lemma SameShape(v: Vocabulary, op: string)
    requires DisjointFields(v) && op in v.operations && Taggable(op)
    ensures DispatchSchema(v, op) == EmittedSchema(v, op)
  {
    assert DispatchSchema(v, op).shape == EmittedSchema(v, op).shape;
  }

  /** On disjoint fields, dispatching on `op` accepts exactly what trying every emitted schema accepts. */
  lemma DispatchIsAnySchema(v: Vocabulary, length: nat, parsed: Option<Json>)
    ensures DisjointFields(v) && length <= MAX_BODY && parsed.Some? ==>
            (ParseOutcome(v, length, parsed).Ok? <==> AnySchema(v, parsed.value))
  {
    if DisjointFields(v) && length <= MAX_BODY && parsed.Some? {
      var value := parsed.value;
      if AnySchema(v, value) {
        var op :| op in v.operations && Valid(FUEL, EmittedSchema(v, op), value);
        AcceptedNamesItsSchema(v, op, value);
        SameShape(v, op);
      }
      if ParseOutcome(v, length, parsed).Ok? {
        DispatchedIsTaggable(v, OpOf(value).value, value);
        SameShape(v, OpOf(value).value);
      }
    }
  }

  // ------------------------------------------------------------------ when the readers agree

  predicate NoOpFields(v: Vocabulary) {
    forall op :: op in v.operations ==> "op" !in v.operations[op]
  }

  /** A tagged value is the business of one operation, for either reader. */
  lemma TagDecides(v: Vocabulary, op: string, value: Json)
    requires NoOpFields(v) && op in v.operations && OpOf(value) == Some(op)
    ensures AnySchema(v, value) <==> Valid(FUEL, EmittedSchema(v, op), value)
    ensures ParseOutcome(v, 0, Some(value)).Ok? <==> Valid(FUEL, DispatchSchema(v, op), value)
  {
    if AnySchema(v, value) {
      var other :| other in v.operations && Valid(FUEL, EmittedSchema(v, other), value);
      AcceptedNamesItsSchema(v, other, value);
    }
  }

  /** An object with exactly the shape's keys is valid field by field. */
  lemma ObjectValid(fuel: nat, shape: map<string, Schema>, fields: map<string, Json>)
    requires fuel > 0 && shape.Keys == fields.Keys
    ensures Valid(fuel, ObjectOf(shape), Object(fields)) <==>
            forall k :: k in shape ==> Valid(fuel - 1, shape[k], fields[k])
  {
    assert |shape| == |shape.Keys| && |fields| == |fields.Keys|;
  }

  lemma TagValid(fuel: nat, op: string)
    requires fuel > 0 && Taggable(op)
    ensures Valid(fuel, OpTag(op), Text(op))
  {
  }

  /** The value has exactly an operation's keys, the right tag, and valid fields wherever the operation
      and the base do not both define the field. */
  predicate ValidOffOverlap(fuel: nat, v: Vocabulary, op: string, value: Json)
    requires op in v.operations && fuel > 0
  {
    && OpOf(value) == Some(op) && Taggable(op)
    && value.fields.Keys == v.base.Keys + {"op"} + v.operations[op].Keys
    && (forall k :: k in v.base && k != "op" && k !in v.operations[op] ==> Valid(fuel - 1, v.base[k], value.fields[k]))
    && (forall k :: k in v.operations[op] && k !in v.base ==> Valid(fuel - 1, v.operations[op][k], value.fields[k]))
  }

  /** The fields both define are valid as the operation defines them, or as the base does. */
  predicate ValidByOperation(fuel: nat, v: Vocabulary, op: string, value: Json)
    requires op in v.operations && fuel > 0 && ValidOffOverlap(fuel, v, op, value)
  {
    forall k :: k in v.operations[op] && k in v.base ==> Valid(fuel - 1, v.operations[op][k], value.fields[k])
  }

  predicate ValidByBase(fuel: nat, v: Vocabulary, op: string, value: Json)
    requires op in v.operations && fuel > 0 && ValidOffOverlap(fuel, v, op, value)
  {
    forall k :: k in v.operations[op] && k in v.base ==> Valid(fuel - 1, v.base[k], value.fields[k])
  }

  lemma EmittedDecides(fuel: nat, v: Vocabulary, op: string, value: Json)
    requires fuel > 1 && op in v.operations && "op" !in v.operations[op] && ValidOffOverlap(fuel, v, op, value)
    ensures Valid(fuel, EmittedSchema(v, op), value) <==> ValidByOperation(fuel, v, op, value)
  {
    var shape := EmittedSchema(v, op).shape;
    assert shape.Keys == value.fields.Keys;
    ObjectValid(fuel, shape, value.fields);
    TagValid(fuel - 1, op);
    assert forall k :: k in v.operations[op] ==> k in shape && shape[k] == v.operations[op][k];
  }

  lemma DispatchDecides(fuel: nat, v: Vocabulary, op: string, value: Json)
    requires fuel > 1 && op in v.operations && "op" !in v.operations[op] && ValidOffOverlap(fuel, v, op, value)
    ensures Valid(fuel, DispatchSchema(v, op), value) <==> ValidByBase(fuel, v, op, value)
  {
    var shape := DispatchSchema(v, op).shape;
    assert shape.Keys == value.fields.Keys;
    ObjectValid(fuel, shape, value.fields);
    TagValid(fuel - 1, op);
    assert forall k :: k in v.base && k != "op" ==> k in shape && shape[k] == v.base[k];
  }

  /** Where an operation redefines base fields, the dispatching reader goes by the base's definitions and
      the any-of reader by the operation's, in any vocabulary: a value the two definitions read
      differently is accepted by one and refused by the other, either way round. */
  lemma OverlapSeparatesTheReaders(v: Vocabulary, op: string, value: Json)
    requires NoOpFields(v) && op in v.operations && ValidOffOverlap(FUEL, v, op, value)
    ensures ParseOutcome(v, 0, Some(value)).Ok? <==> ValidByBase(FUEL, v, op, value)
    ensures AnySchema(v, value) <==> ValidByOperation(FUEL, v, op, value)
  {
    TagDecides(v, op, value);
    EmittedDecides(FUEL, v, op, value);
    DispatchDecides(FUEL, v, op, value);
  }

  /** The names a vocabulary uses, without the schemas behind them. */
  datatype Names = Names(base: set<string>, operations: map<string, set<string>>)

  function NamesOf(v: Vocabulary): Names {
    Names(v.base.Keys, map op | op in v.operations :: v.operations[op].Keys)
  }

  predicate Disjoint(names: Names) {
    forall op :: op in names.operations ==>
      "op" !in names.operations[op] && (Taggable(op) ==> names.operations[op] !! names.base)
  }

  ghost predicate Agree(v: Vocabulary) {
    forall value :: ParseOutcome(v, 0, Some(value)).Ok? <==> AnySchema(v, value)
  }

  function Filled(keys: set<string>, odd: Option<string>): map<string, Schema> {
    map k | k in keys :: if odd == Some(k) then NaturalOf(2, 2) else NaturalOf(1, 1)
  }

  /** Every field reads 1, but for one base field that reads 2. */
  function Assignment(names: Names, odd: Option<string>): Vocabulary {
    Vocabulary(Filled(names.base, odd), map op | op in names.operations :: Filled(names.operations[op], None))
  }

  lemma AssignmentNames(names: Names, odd: Option<string>)
    ensures NamesOf(Assignment(names, odd)) == names
  {
    var v := Assignment(names, odd);
    assert v.base.Keys == names.base;
    forall op | op in names.operations ensures v.operations[op].Keys == names.operations[op] {
    }
    assert NamesOf(v).operations == names.operations;
  }

  function Sample(names: Names, op: string, tag: Json): Json
    requires op in names.operations
  {
    var keys := names.base + {"op"} + names.operations[op];
    Object(map k | k in keys :: if k == "op" then tag else Natural(1))
  }

  lemma OnesAreValid(fuel: nat, shape: map<string, Schema>, fields: map<string, Json>)
    requires fuel > 1 && shape.Keys == fields.Keys
    requires forall k :: k in shape ==> shape[k] == NaturalOf(1, 1) && fields[k] == Natural(1)
    ensures Valid(fuel, ObjectOf(shape), Object(fields))
  {
    forall k | k in shape ensures Valid(fuel - 1, shape[k], fields[k]) {
    }
    ObjectValid(fuel, shape, fields);
  }

  lemma RedefinedOpIsEmitted(fuel: nat, names: Names, op: string)
    requires fuel > 1 && op in names.operations && "op" in names.operations[op]
    ensures Valid(fuel, EmittedSchema(Assignment(names, None), op), Sample(names, op, Natural(1)))
  {
    var v, value := Assignment(names, None), Sample(names, op, Natural(1));
    var shape := EmittedSchema(v, op).shape;
    AssignmentNames(names, None);
    assert v.operations[op].Keys == names.operations[op];
    assert shape.Keys == value.fields.Keys;
    OnesAreValid(fuel, shape, value.fields);
  }

  lemma UntaggedDisagrees(v: Vocabulary, op: string, value: Json)
    requires op in v.operations && OpOf(value).None? && Valid(FUEL, EmittedSchema(v, op), value)
    ensures !Agree(v)
  {
    assert AnySchema(v, value);
    assert ParseOutcome(v, 0, Some(value)) == Err(OpAbsent);
  }

  /** A redefined `op`: the any-of reader accepts a value that names no operation. */
  lemma RedefinedOpDisagrees(names: Names, op: string)
    requires op in names.operations && "op" in names.operations[op]
    ensures !Agree(Assignment(names, None))
  {
    RedefinedOpIsEmitted(FUEL, names, op);
    UntaggedDisagrees(Assignment(names, None), op, Sample(names, op, Natural(1)));
  }

  lemma SampleIsValidOffOverlap(fuel: nat, names: Names, op: string, k: string)
    requires fuel > 1 && op in names.operations && Taggable(op) && "op" !in names.operations[op]
    requires k in names.operations[op] && k in names.base
    ensures var v, value := Assignment(names, Some(k)), Sample(names, op, Text(op));
            && ValidOffOverlap(fuel, v, op, value)
            && !ValidByBase(fuel, v, op, value) && ValidByOperation(fuel, v, op, value)
  {
    var v, value := Assignment(names, Some(k)), Sample(names, op, Text(op));
    AssignmentNames(names, Some(k));
    assert v.operations[op].Keys == names.operations[op];
    assert value.fields.Keys == v.base.Keys + {"op"} + v.operations[op].Keys;
    assert k in v.base && k in v.operations[op] && !Valid(fuel - 1, v.base[k], value.fields[k]);
  }

  lemma RedefinedFieldDisagrees(names: Names, op: string, k: string)
    requires forall o :: o in names.operations ==> "op" !in names.operations[o]
    requires op in names.operations && Taggable(op) && k in names.operations[op] && k in names.base
    ensures !Agree(Assignment(names, Some(k)))
  {
    var v, value := Assignment(names, Some(k)), Sample(names, op, Text(op));
    AssignmentNames(names, Some(k));
    assert NoOpFields(v) by {
      assert forall o :: o in v.operations ==> v.operations[o].Keys == NamesOf(v).operations[o];
    }
    SampleIsValidOffOverlap(FUEL, names, op, k);
    OverlapSeparatesTheReaders(v, op, value);
    assert AnySchema(v, value) && !ParseOutcome(v, 0, Some(value)).Ok?;
  }

  lemma DisjointAgrees(names: Names, v: Vocabulary)
    requires Disjoint(names) && NamesOf(v) == names
    ensures Agree(v)
  {
    assert forall op :: op in v.operations ==> v.operations[op].Keys == NamesOf(v).operations[op];
    assert DisjointFields(v);
    forall value ensures ParseOutcome(v, 0, Some(value)).Ok? <==> AnySchema(v, value) {
      DispatchIsAnySchema(v, 0, Some(value));
    }
  }

  /** The two readers agree on every value, whatever the schemas, if and only if no operation field is
      called `op` and no field of an operation with a name of 1 to 32 bytes is called like a base field.
      (A tag can carry no other name, so both readers refuse everything of the other operations.) */
  lemma ReadersAgreeExactly(names: Names)
    ensures (forall v :: NamesOf(v) == names ==> Agree(v)) <==> Disjoint(names)
  {
    if Disjoint(names) {
      forall v | NamesOf(v) == names ensures Agree(v) {
        DisjointAgrees(names, v);
      }
    } else if op :| op in names.operations && "op" in names.operations[op] {
      AssignmentNames(names, None);
      RedefinedOpDisagrees(names, op);
    } else {
      var op :| op in names.operations && Taggable(op) && !(names.operations[op] !! names.base);
      var k :| k in names.operations[op] && k in names.base;
      AssignmentNames(names, Some(k));
      RedefinedFieldDisagrees(names, op, k);
    }
  }

  // ------------------------------------------------------------------ the shipped vocabulary

  const DEADLINE := NaturalOf(1, 30000)
  const MAX_BYTES := NaturalOf(1, 65536)
  const MAX_FRAMES := NaturalOf(1, 64)

  const CONDITION := OneOf([
    ObjectOf(map["msg" := TextOf(3, 3, ["any"])]),
    ObjectOf(map["id" := TextOf(0, 256, []), "msg" := TextOf(1, 64, [])]),
    ObjectOf(map["events" := ArrayOf(16, TextOf(1, 128, []))])])

  const HEADER := ObjectOf(map["name" := TextOf(1, 128, []), "value" := TextOf(0, 8192, [])])

  const HTTP := ObjectOf(map[
    "bodyHex" := HexOf(65536),
    "headers" := ArrayOf(128, HEADER),
    "method" := TextOf(1, 16, ["GET", "HEAD", "POST", "PUT", "PATCH", "DELETE"]),
    "path" := TextOf(0, 8192, []),
    "query" := TextOf(0, 8192, [])])

  const OPEN: map<string, Schema> := map[
    "deadlineMs" := DEADLINE, "maxBytes" := MAX_BYTES, "maxFrames" := MAX_FRAMES,
    "protocol" := TextOf(1, 32, ["ddp-v1", "json-v1", "socket.io-eio3", "socket.io-eio4"])]

  const RECEIVE: map<string, Schema> := map[
    "condition" := CONDITION, "deadlineMs" := DEADLINE, "maxBytes" := MAX_BYTES, "maxFrames" := MAX_FRAMES]

  const RENDEZVOUS: map<string, Schema> := map[
    "deadlineMs" := DEADLINE, "http" := HTTP, "maxBytes" := MAX_BYTES, "maxFrames" := MAX_FRAMES,
    "text" := TextOf(1, 32768, [])]

  const SEND: map<string, Schema> := map["text" := TextOf(1, 32768, [])]

  const VOCABULARY := Vocabulary(
    map["channel" := IdentifierOf(64), "version" := NaturalOf(1, 1)],
    map["close" := map[], "open" := OPEN, "receive" := RECEIVE, "rendezvous" := RENDEZVOUS, "send" := SEND])

  lemma ConditionDepth()
    ensures Within(CONDITION, 4)
  {
    forall i | 0 <= i < |CONDITION.options| ensures Within(CONDITION.options[i], 3) {
      if i == 2 { assert Within(ArrayOf(16, TextOf(1, 128, [])), 2); }
    }
  }

  lemma HttpDepth()
    ensures Within(HTTP, 4)
  {
    assert Within(HEADER, 2);
    assert Within(ArrayOf(128, HEADER), 3);
  }

  predicate AllWithin(shape: map<string, Schema>, depth: nat) {
    forall k :: k in shape ==> Within(shape[k], depth)
  }

  lemma ReceiveDepth(depth: nat)
    requires 4 <= depth
    ensures AllWithin(RECEIVE, depth)
  {
    ConditionDepth();
    DeeperIsStillWithin(CONDITION, 4, depth);
  }

  lemma RendezvousDepth(depth: nat)
    requires 4 <= depth
    ensures AllWithin(RENDEZVOUS, depth)
  {
    HttpDepth();
    DeeperIsStillWithin(HTTP, 4, depth);
  }

  lemma ShippedDepth(op: string, depth: nat)
    requires op in VOCABULARY.operations && 5 <= depth
    ensures Within(EmittedSchema(VOCABULARY, op), depth)
  {
    FieldsDepth(op, depth - 1);
    BaseDepth(depth - 1);
    EmittedDepth(VOCABULARY, op, depth);
  }

  lemma BaseDepth(depth: nat)
    requires 1 <= depth
    ensures AllWithin(VOCABULARY.base, depth)
  {
  }

  lemma EmittedDepth(v: Vocabulary, op: string, depth: nat)
    requires op in v.operations && 2 <= depth && AllWithin(v.base, depth - 1) && AllWithin(v.operations[op], depth - 1)
    ensures Within(EmittedSchema(v, op), depth)
  {
  }

  lemma FieldsDepth(op: string, depth: nat)
    requires op in VOCABULARY.operations && 4 <= depth
    ensures AllWithin(VOCABULARY.operations[op], depth)
  {
    ReceiveDepth(depth);
    RendezvousDepth(depth);
    assert AllWithin(OPEN, depth) && AllWithin(SEND, depth);
  }

  /** No operation field is called `op`, `channel` or `version`. */
  predicate OwnNames(fields: map<string, Schema>) {
    "op" !in fields && "channel" !in fields && "version" !in fields
  }

  lemma ReceiveNames()
    ensures OwnNames(RECEIVE)
  {
    assert RECEIVE.Keys == {"condition", "deadlineMs", "maxBytes", "maxFrames"};
    assert "condition"[1] == 'o' && "channel"[1] == 'h' && "condition"[0] == 'c';
    assert "op"[0] == 'o' && "version"[0] == 'v' && "deadlineMs"[0] == 'd' && "maxBytes"[0] == 'm' &&
           "maxFrames"[0] == 'm';
  }

  lemma OpenNames()
    ensures OwnNames(OPEN)
  {
    assert OPEN.Keys == {"deadlineMs", "maxBytes", "maxFrames", "protocol"};
    assert "deadlineMs"[0] == 'd' && "maxBytes"[0] == 'm' && "maxFrames"[0] == 'm' && "protocol"[0] == 'p';
    assert "op"[0] == 'o' && "channel"[0] == 'c' && "version"[0] == 'v';
  }

  lemma RendezvousNames()
    ensures OwnNames(RENDEZVOUS)
  {
    assert RENDEZVOUS.Keys == {"deadlineMs", "http", "maxBytes", "maxFrames", "text"};
    assert "deadlineMs"[0] == 'd' && "http"[0] == 'h' && "maxBytes"[0] == 'm' && "maxFrames"[0] == 'm' &&
           "text"[0] == 't';
    assert "op"[0] == 'o' && "channel"[0] == 'c' && "version"[0] == 'v';
  }

  lemma SendNames()
    ensures OwnNames(SEND) && OwnNames(map[])
  {
  }

  /** Every shape of the vocabulary is one of these. */
  lemma ShippedShapes(op: string)
    requires op in VOCABULARY.operations
    ensures VOCABULARY.operations[op] in {map[], OPEN, RECEIVE, RENDEZVOUS, SEND}
  {
  }

  lemma ShippedBase()
    ensures VOCABULARY.base.Keys == {"channel", "version"}
  {
  }

  lemma ShippedFieldsAreDisjoint()
    ensures DisjointFields(VOCABULARY)
  {
    ShippedBase();
    forall op | op in VOCABULARY.operations ensures OwnNames(VOCABULARY.operations[op]) {
      ShippedShapes(op);
      ReceiveNames();
      OpenNames();
      RendezvousNames();
      SendNames();
    }
  }

  /** For the shipped vocabulary the fuel of 16 is never felt: `parse` accepts a value exactly when
      some emitted schema means it. */
  lemma ShippedParserMeansAnySchema(length: nat, value: Json)
    requires length <= MAX_BODY
    ensures ParseOutcome(VOCABULARY, length, Some(value)).Ok? <==>
            exists op :: op in VOCABULARY.operations && Accepts(EmittedSchema(VOCABULARY, op), value)
  {
    ShippedFieldsAreDisjoint();
    DispatchIsAnySchema(VOCABULARY, length, Some(value));
    forall op | op in VOCABULARY.operations ensures Within(EmittedSchema(VOCABULARY, op), FUEL) {
      ShippedDepth(op, FUEL);
    }
    AnySchemaIsMeaning(VOCABULARY, value);
  }

  lemma AnySchemaIsMeaning(v: Vocabulary, value: Json)
    requires forall op :: op in v.operations ==> Within(EmittedSchema(v, op), FUEL)
    ensures AnySchema(v, value) <==> exists op :: op in v.operations && Accepts(EmittedSchema(v, op), value)
  {
    forall op | op in v.operations
      ensures Valid(FUEL, EmittedSchema(v, op), value) <==> Accepts(EmittedSchema(v, op), value)
    {
      FuelIsEnough(FUEL, EmittedSchema(v, op), value);
    }
  }
}

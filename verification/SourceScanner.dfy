/**
 * The offset-preserving source scanner (scripts/host-operations.py, `masked`): blank comments and literals
 * with spaces.
 */
module SourceScanner {
  import opened Common

  datatype Language = Lean | Rust

  datatype Refusal = UnclosedConstruct

  // ------------------------------------------------------------------ the constructs

  predicate Pair(s: string, i: nat, a: char, b: char) {
    i + 1 < |s| && s[i] == a && s[i + 1] == b
  }

  predicate LineOpens(s: string, i: nat, language: Language) {
    if language == Lean then Pair(s, i, '-', '-') else Pair(s, i, '/', '/')
  }

  predicate BlockOpens(s: string, i: nat, language: Language) {
    if language == Lean then Pair(s, i, '/', '-') else Pair(s, i, '/', '*')
  }

  predicate BlockCloses(s: string, i: nat, language: Language) {
    if language == Lean then Pair(s, i, '-', '/') else Pair(s, i, '*', '/')
  }

  /** The first newline at or after `i`, or the end. */
  function LineEnd(s: string, i: nat): (e: nat)
    requires i <= |s|
    ensures i <= e <= |s| && (e < |s| ==> s[e] == '\n') && (forall k :: i <= k < e ==> s[k] != '\n')
    decreases |s| - i
  {
    if i == |s| || s[i] == '\n' then i else LineEnd(s, i + 1)
  }

  /** The end of a block comment whose `depth` openers are still open at `i`. */
  function BlockEnd(s: string, i: nat, depth: nat, language: Language): (e: Option<nat>)
    requires i <= |s|
    ensures e.Some? ==> i <= e.value <= |s|
    decreases |s| - i
  {
    if depth == 0 then Some(i)
    else if i == |s| then None
    else if BlockOpens(s, i, language) then BlockEnd(s, i + 2, depth + 1, language)
    else if BlockCloses(s, i, language) then BlockEnd(s, i + 2, depth - 1, language)
    else BlockEnd(s, i + 1, depth, language)
  }

  /** The end of a string whose contents start at `i`; a backslash skips what follows it. */
  function StringEnd(s: string, i: nat): (e: Option<nat>)
    ensures e.Some? ==> i < e.value <= |s|
    decreases |s| + 1 - i
  {
    if i >= |s| then None
    else if s[i] == '"' then Some(i + 1)
    else if s[i] == '\\' then (if i + 2 > |s| then None else StringEnd(s, i + 2))
    else StringEnd(s, i + 1)
  }

  function HashEnd(s: string, i: nat): (e: nat)
    requires i <= |s|
    ensures i <= e <= |s| && (forall k :: i <= k < e ==> s[k] == '#') && (e < |s| ==> s[e] != '#')
    decreases |s| - i
  {
    if i == |s| || s[i] != '#' then i else HashEnd(s, i + 1)
  }

  /** The pattern `(?:br|r)(#*)"` at `i`: where its contents start, and the number of hashes. */
  function RawOpens(s: string, i: nat): (r: Option<(nat, nat)>)
    requires i < |s|
    ensures r.Some? ==> i + 2 <= r.value.0 <= |s| && s[r.value.0 - 1] == '"'
  {
    var j := if Pair(s, i, 'b', 'r') then i + 2 else if s[i] == 'r' then i + 1 else i;
    if j == i then None
    else
      var h := HashEnd(s, j);
      if h < |s| && s[h] == '"' then Some((h + 1, h - j)) else None
  }

  /** A quote followed by that many hashes. */
  predicate RawCloses(s: string, i: nat, hashes: nat) {
    i + hashes < |s| && s[i] == '"' && forall k :: i < k <= i + hashes ==> s[k] == '#'
  }

  /** The end of the first raw closing at or after `i`. */
  function RawEnd(s: string, i: nat, hashes: nat): (e: Option<nat>)
    requires i <= |s|
    ensures e.Some? ==> i + 1 + hashes <= e.value <= |s| && RawCloses(s, e.value - 1 - hashes, hashes)
    ensures forall k :: i <= k < (if e.Some? then e.value - 1 - hashes else |s|) ==> !RawCloses(s, k, hashes)
    decreases |s| - i
  {
    if i == |s| then None
    else if RawCloses(s, i, hashes) then Some(i + 1 + hashes)
    else RawEnd(s, i + 1, hashes)
  }

  predicate Hex(c: char) {
    '0' <= c <= '9' || 'a' <= c <= 'f' || 'A' <= c <= 'F'
  }

  function HexEnd(s: string, i: nat): (e: nat)
    requires i <= |s|
    ensures i <= e <= |s| && (forall k :: i <= k < e ==> Hex(s[k])) && (e < |s| ==> !Hex(s[e]))
    decreases |s| - i
  {
    if i == |s| || !Hex(s[i]) then i else HexEnd(s, i + 1)
  }

  /** A character literal without an escape. */
  predicate PlainChar(s: string, i: nat) {
    i + 2 < |s| && s[i] == '\'' && s[i + 1] != '\'' && s[i + 1] != '\\' && s[i + 1] != '\n' && s[i + 2] == '\''
  }

  predicate HexChar(s: string, i: nat) {
    && i + 5 < |s| && s[i] == '\'' && s[i + 1] == '\\' && s[i + 2] == 'x'
    && Hex(s[i + 3]) && Hex(s[i + 4]) && s[i + 5] == '\''
  }

  predicate UnicodeChar(s: string, i: nat) {
    && i + 4 < |s| && s[i] == '\'' && s[i + 1] == '\\' && s[i + 2] == 'u' && s[i + 3] == '{'
    && var j := HexEnd(s, i + 4);
       j > i + 4 && Pair(s, j, '}', '\'')
  }

  predicate EscapedChar(s: string, i: nat) {
    i + 3 < |s| && s[i] == '\'' && s[i + 1] == '\\' && s[i + 2] != '\n' && s[i + 3] == '\''
  }

  function CharEnd(s: string, i: nat): (e: Option<nat>)
    ensures e.Some? ==> i + 3 <= e.value <= |s|
  {
    if PlainChar(s, i) then Some(i + 3)
    else if HexChar(s, i) then Some(i + 6)
    else if UnicodeChar(s, i) then Some(HexEnd(s, i + 4) + 2)
    else if EscapedChar(s, i) then Some(i + 4)
    else None
  }

  /** What starts at an offset: a construct to blank up to `end`, one that never closes, or one plain
      character. */
  datatype Token = Plain | Blanked(end: nat) | Unclosed

  function Closing(end: Option<nat>): Token {
    if end.Some? then Blanked(end.value) else Unclosed
  }

  function RustToken(s: string, i: nat): Option<Token>
    requires i < |s|
  {
    var raw := RawOpens(s, i);
    if raw.Some? then Some(Closing(RawEnd(s, raw.value.0, raw.value.1)))
    else if CharEnd(s, i).Some? then Some(Closing(CharEnd(s, i)))
    else None
  }

  function TokenAt(s: string, i: nat, language: Language): (t: Token)
    requires i < |s|
    ensures t.Blanked? ==> i + 2 <= t.end <= |s|
  {
    if LineOpens(s, i, language) then Blanked(LineEnd(s, i))
    else if BlockOpens(s, i, language) then Closing(BlockEnd(s, i + 2, 1, language))
    else if language == Rust && RustToken(s, i).Some? then RustToken(s, i).value
    else if s[i] == '"' then Closing(StringEnd(s, i + 1))
    else Plain
  }

  // ------------------------------------------------------------------ what the ends mean

  /** A character of a string is escaped by a backslash before it that is not escaped itself. */
  predicate Escaped(s: string, start: nat, p: nat)
    requires p <= |s|
  {
    p > start && s[p - 1] == '\\' && !Escaped(s, start, p - 1)
  }

  ghost predicate NoQuoteBefore(s: string, start: nat, p: nat)
    requires p <= |s|
  {
    forall k :: start <= k < p && s[k] == '"' ==> Escaped(s, start, k)
  }

  lemma {:induction false} StringEndFrom(s: string, start: nat, i: nat)
    requires start <= i <= |s| && !Escaped(s, start, i) && NoQuoteBefore(s, start, i)
    ensures var e := StringEnd(s, i);
            if e.None? then NoQuoteBefore(s, start, |s|)
            else s[e.value - 1] == '"' && !Escaped(s, start, e.value - 1) && NoQuoteBefore(s, start, e.value - 1)
    decreases |s| - i
  {
    if i < |s| && s[i] != '"' {
      if s[i] != '\\' {
        StringEndFrom(s, start, i + 1);
      } else if i + 2 <= |s| {
        StringEndFrom(s, start, i + 2);
      }
    }
  }

  /** A string ends with its first quote that is not escaped. */
  lemma StringEndsAtItsQuote(s: string, start: nat)
    requires start <= |s|
    ensures var e := StringEnd(s, start);
            if e.None? then NoQuoteBefore(s, start, |s|)
            else s[e.value - 1] == '"' && !Escaped(s, start, e.value - 1) && NoQuoteBefore(s, start, e.value - 1)
  {
    StringEndFrom(s, start, start);
  }

  /** A block comment: an opener, its inside, and a closer. */
  ghost predicate Comment(s: string, i: nat, e: nat, language: Language)
    decreases |s| + e - i, 0
  {
    && i + 4 <= e <= |s|
    && BlockOpens(s, i, language) && BlockCloses(s, e - 2, language) && Inside(s, i + 2, e - 2, language)
  }

  /** Characters that start neither an opener nor a closer, and comments. */
  ghost predicate Inside(s: string, i: nat, j: nat, language: Language)
    requires i <= j <= |s|
    decreases |s| + j - i, 1
  {
    || i == j
    || (!BlockOpens(s, i, language) && !BlockCloses(s, i, language) && Inside(s, i + 1, j, language))
    || exists k :: i < k <= j && Comment(s, i, k, language) && Inside(s, k, j, language)
  }

  lemma {:induction false} InsideIsSkipped(s: string, i: nat, j: nat, depth: nat, language: Language)
    requires i <= j <= |s| && Inside(s, i, j, language) && depth > 0
    ensures BlockEnd(s, i, depth, language) == BlockEnd(s, j, depth, language)
    decreases j - i
  {
    if i < j {
      if !BlockOpens(s, i, language) && !BlockCloses(s, i, language) && Inside(s, i + 1, j, language) {
        InsideIsSkipped(s, i + 1, j, depth, language);
      } else {
        var k :| i < k <= j && Comment(s, i, k, language) && Inside(s, k, j, language);
        InsideIsSkipped(s, i + 2, k - 2, depth + 1, language);
        assert BlockEnd(s, k - 2, depth + 1, language) == BlockEnd(s, k, depth, language) by {
          CloserIsNoOpener(s, k - 2, language);
        }
        InsideIsSkipped(s, k, j, depth, language);
      }
    }
  }

  lemma CloserIsNoOpener(s: string, i: nat, language: Language)
    requires BlockCloses(s, i, language)
    ensures !BlockOpens(s, i, language)
  {
  }

  /** Where the innermost open comment ends. */
  lemma {:induction false} InnermostEnd(s: string, i: nat, depth: nat, language: Language) returns (j: nat)
    requires i <= |s| && depth > 0 && BlockEnd(s, i, depth, language).Some?
    ensures i <= j && j + 2 <= |s| && Inside(s, i, j, language) && BlockCloses(s, j, language)
    ensures BlockEnd(s, j + 2, depth - 1, language) == BlockEnd(s, i, depth, language)
    decreases |s| - i
  {
    if BlockOpens(s, i, language) {
      var inner := InnermostEnd(s, i + 2, depth + 1, language);
      assert Comment(s, i, inner + 2, language);
      j := InnermostEnd(s, inner + 2, depth, language);
    } else if BlockCloses(s, i, language) {
      j := i;
    } else {
      j := InnermostEnd(s, i + 1, depth, language);
    }
  }

  /** A block comment is blanked exactly up to the end of the properly nested comment that starts there,
      and is unclosed exactly when there is none. */
  lemma BlockEndsItsComment(s: string, i: nat, e: nat, language: Language)
    requires BlockOpens(s, i, language)
    ensures BlockEnd(s, i + 2, 1, language) == Some(e) <==> Comment(s, i, e, language)
  {
    if BlockEnd(s, i + 2, 1, language) == Some(e) {
      var j := InnermostEnd(s, i + 2, 1, language);
      assert e == j + 2;
    }
    if Comment(s, i, e, language) {
      InsideIsSkipped(s, i + 2, e - 2, 1, language);
      CloserIsNoOpener(s, e - 2, language);
      assert BlockEnd(s, e - 2, 1, language) == BlockEnd(s, e, 0, language);
    }
  }

  // ------------------------------------------------------------------ masking

  /** Which characters from `i` on are blanked, going from construct to construct. */
  function Cover(s: string, i: nat, language: Language): (c: Option<seq<bool>>)
    requires i <= |s|
    ensures c.Some? ==> |c.value| == |s| - i
    decreases |s| - i
  {
    if i == |s| then Some([])
    else
      match TokenAt(s, i, language)
      case Unclosed => None
      case Plain => Join([false], Cover(s, i + 1, language))
      case Blanked(end) => Join(seq(end - i, _ => true), Cover(s, end, language))
  }

  function Join(a: seq<bool>, b: Option<seq<bool>>): Option<seq<bool>> {
    if b.None? then None else Some(a + b.value)
  }

  function Shown(c: char, blanked: bool): char {
    if blanked && c != '\n' then ' ' else c
  }

  function Applied(s: string, cover: seq<bool>): (m: string)
    requires |cover| == |s|
    ensures |m| == |s|
  {
    seq(|s|, k requires 0 <= k < |s| => Shown(s[k], cover[k]))
  }

  function Masking(s: string, language: Language): Result<string, Refusal> {
    var cover := Cover(s, 0, language);
    if cover.None? then Err(UnclosedConstruct) else Ok(Applied(s, cover.value))
  }

  /** A character left as it is starts no construct. */
  lemma {:induction false} UncoveredIsPlain(s: string, i: nat, language: Language, k: nat)
    requires i <= k < |s| && Cover(s, i, language).Some? && !Cover(s, i, language).value[k - i]
    ensures TokenAt(s, k, language) == Plain
    decreases |s| - i
  {
    var c := Cover(s, i, language).value;
    match TokenAt(s, i, language)
    case Plain =>
      if k > i {
        assert c[1..] == Cover(s, i + 1, language).value;
        UncoveredIsPlain(s, i + 1, language, k);
      }
    case Blanked(end) =>
      assert c[end - i..] == Cover(s, end, language).value;
      UncoveredIsPlain(s, end, language, k);
  }

  /** A blanked character has a blanked neighbour, because every construct has at least two characters. */
  lemma {:induction false} CoveredHasNeighbour(s: string, i: nat, language: Language, k: nat)
    requires i <= k < |s| && Cover(s, i, language).Some? && Cover(s, i, language).value[k - i]
    ensures var c := Cover(s, i, language).value;
            (k > i && c[k - i - 1]) || (k + 1 < |s| && c[k - i + 1])
    decreases |s| - i
  {
    var c := Cover(s, i, language).value;
    match TokenAt(s, i, language)
    case Plain =>
      var rest := Cover(s, i + 1, language).value;
      assert c == [false] + rest;
      CoveredHasNeighbour(s, i + 1, language, k);
    case Blanked(end) =>
      var rest := Cover(s, end, language).value;
      assert c == seq(end - i, _ => true) + rest;
      if k >= end { CoveredHasNeighbour(s, end, language, k); }
  }

  /** Offsets and newlines are kept, and every other character is kept or becomes a space. */
  lemma MaskingKeepsOffsets(s: string, language: Language, m: string)
    requires Masking(s, language) == Ok(m)
    ensures |m| == |s|
    ensures forall k :: 0 <= k < |s| ==> (m[k] == '\n' <==> s[k] == '\n') && (m[k] == s[k] || m[k] == ' ')
  {
  }

  ghost predicate NothingStarts(s: string, language: Language) {
    forall k :: 0 <= k < |s| ==> TokenAt(s, k, language) == Plain
  }

  /** A character of the masked text that is not a space is the source's, and starts nothing there. */
  lemma VisibleStartsNothing(s: string, language: Language, m: string, k: nat)
    requires Masking(s, language) == Ok(m) && k < |m| && m[k] != ' ' && m[k] != '\n'
    ensures s[k] == m[k] && TokenAt(s, k, language) == Plain && !Cover(s, 0, language).value[k]
  {
    UncoveredIsPlain(s, 0, language, k);
  }

  /** A character between two that were left alone was left alone, so it is the source's. */
  lemma BetweenVisible(s: string, language: Language, m: string, k: nat)
    requires Masking(s, language) == Ok(m) && 0 < k && k + 1 < |m|
    requires m[k - 1] != ' ' && m[k - 1] != '\n' && m[k + 1] != ' ' && m[k + 1] != '\n'
    ensures s[k] == m[k]
  {
    VisibleStartsNothing(s, language, m, k - 1);
    VisibleStartsNothing(s, language, m, k + 1);
    if Cover(s, 0, language).value[k] { CoveredHasNeighbour(s, 0, language, k); }
  }

  /** No comment opener and no double quote is left. */
  lemma NothingIsLeft(s: string, language: Language, m: string, k: nat)
    requires Masking(s, language) == Ok(m) && k < |m|
    ensures m[k] != '"' && !LineOpens(m, k, language) && !BlockOpens(m, k, language)
  {
    if m[k] == '"' || LineOpens(m, k, language) || BlockOpens(m, k, language) {
      VisibleStartsNothing(s, language, m, k);
      if m[k] != '"' { VisibleStartsNothing(s, language, m, k + 1); }
    }
  }

  lemma {:induction false} HexRunIsVisible(s: string, language: Language, m: string, i: nat)
    requires Masking(s, language) == Ok(m) && i <= |m| && HexEnd(m, i) < |m| && m[HexEnd(m, i)] == '}'
    ensures |s| == |m| && HexEnd(s, i) == HexEnd(m, i) && s[HexEnd(m, i)] == '}'
    decreases |m| - i
  {
    VisibleStartsNothing(s, language, m, i);
    if Hex(m[i]) { HexRunIsVisible(s, language, m, i + 1); }
  }

  lemma PlainCharWasThere(s: string, m: string, k: nat)
    requires Masking(s, Rust) == Ok(m) && PlainChar(m, k)
    ensures PlainChar(s, k)
  {
    VisibleStartsNothing(s, Rust, m, k);
    VisibleStartsNothing(s, Rust, m, k + 2);
    BetweenVisible(s, Rust, m, k + 1);
  }

  lemma HexCharWasThere(s: string, m: string, k: nat)
    requires Masking(s, Rust) == Ok(m) && HexChar(m, k)
    ensures HexChar(s, k)
  {
    forall j | k <= j < k + 6 ensures s[j] == m[j] {
      VisibleStartsNothing(s, Rust, m, j);
    }
  }

  lemma UnicodeCharWasThere(s: string, m: string, k: nat)
    requires Masking(s, Rust) == Ok(m) && UnicodeChar(m, k)
    ensures UnicodeChar(s, k)
  {
    forall j | k <= j < k + 4 ensures s[j] == m[j] {
      VisibleStartsNothing(s, Rust, m, j);
    }
    HexRunIsVisible(s, Rust, m, k + 4);
    VisibleStartsNothing(s, Rust, m, HexEnd(m, k + 4) + 1);
  }

  lemma EscapedCharWasThere(s: string, m: string, k: nat)
    requires Masking(s, Rust) == Ok(m) && EscapedChar(m, k)
    ensures EscapedChar(s, k)
  {
    VisibleStartsNothing(s, Rust, m, k);
    VisibleStartsNothing(s, Rust, m, k + 1);
    VisibleStartsNothing(s, Rust, m, k + 3);
    BetweenVisible(s, Rust, m, k + 2);
  }

  /** A character literal in the masked text would have been one in the source. */
  lemma CharWasThere(s: string, m: string, k: nat)
    requires Masking(s, Rust) == Ok(m) && CharEnd(m, k).Some?
    ensures CharEnd(s, k).Some?
  {
    if PlainChar(m, k) { PlainCharWasThere(s, m, k); }
    else if HexChar(m, k) { HexCharWasThere(s, m, k); }
    else if UnicodeChar(m, k) { UnicodeCharWasThere(s, m, k); }
    else { EscapedCharWasThere(s, m, k); }
  }

  lemma NoCharIsLeft(s: string, m: string, k: nat)
    requires Masking(s, Rust) == Ok(m) && k < |m|
    ensures CharEnd(m, k).None?
  {
    if CharEnd(m, k).Some? {
      CharWasThere(s, m, k);
      VisibleStartsNothing(s, Rust, m, k);
      assert false;
    }
  }

  lemma MaskedStartsNothing(s: string, language: Language, m: string)
    requires Masking(s, language) == Ok(m)
    ensures NothingStarts(m, language)
  {
    forall k | 0 <= k < |m| ensures TokenAt(m, k, language) == Plain {
      NothingIsLeft(s, language, m, k);
      if language == Rust {
        NoCharIsLeft(s, m, k);
        if RawOpens(m, k).Some? { NothingIsLeft(s, language, m, RawOpens(m, k).value.0 - 1); }
      }
    }
  }

  lemma {:induction false} NothingToCover(s: string, i: nat, language: Language)
    requires i <= |s| && NothingStarts(s, language)
    ensures Cover(s, i, language) == Some(seq(|s| - i, _ => false))
    decreases |s| - i
  {
    if i == |s| {
      assert seq(|s| - i, _ => false) == [];
    } else {
      NothingToCover(s, i + 1, language);
      assert [false] + seq(|s| - (i + 1), _ => false) == seq(|s| - i, _ => false);
    }
  }

  /** Masking a masked text changes nothing, in both languages. */
  lemma MaskingIsIdempotent(s: string, language: Language, m: string)
    requires Masking(s, language) == Ok(m)
    ensures Masking(m, language) == Ok(m)
  {
    MaskedStartsNothing(s, language, m);
    NothingToCover(m, 0, language);
    assert Applied(m, seq(|m|, _ => false)) == m;
  }

  // ------------------------------------------------------------------ the scanner itself

  method Blank(result: array<char>, start: nat, end: nat)
    requires start <= end <= result.Length
    modifies result
    ensures forall k :: 0 <= k < result.Length ==> result[k] == Shown(old(result[k]), start <= k < end)
  {
    for j := start to end
      invariant forall k :: 0 <= k < result.Length ==> result[k] == Shown(old(result[k]), start <= k < j)
    {
      if result[j] != '\n' { result[j] := ' '; }
    }
  }

  /** The nesting loop of a block comment. */
  method SkipBlock(s: string, start: nat, language: Language) returns (e: Option<nat>)
    requires start <= |s|
    ensures e == BlockEnd(s, start, 1, language)
  {
    var i, depth := start, 1;
    while i < |s| && depth != 0
      invariant i <= |s| && BlockEnd(s, i, depth, language) == BlockEnd(s, start, 1, language)
      decreases |s| - i
    {
      if BlockOpens(s, i, language) { depth, i := depth + 1, i + 2; }
      else if BlockCloses(s, i, language) { depth, i := depth - 1, i + 2; }
      else { i := i + 1; }
    }
    e := if depth == 0 then Some(i) else None;
  }

  method SkipString(s: string, start: nat) returns (e: Option<nat>)
    ensures e == StringEnd(s, start)
  {
    var i := start;
    while i < |s| && s[i] != '"'
      invariant StringEnd(s, i) == StringEnd(s, start)
      decreases |s| + 1 - i
    {
      i := i + (if s[i] == '\\' then 2 else 1);
    }
    e := if i < |s| then Some(i + 1) else None;
  }

  /** What starts at an offset, with the scanning loops. */
  method Scan(s: string, i: nat, language: Language) returns (t: Token)
    requires i < |s|
    ensures t == TokenAt(s, i, language)
  {
    if LineOpens(s, i, language) { return Blanked(LineEnd(s, i)); }
    if BlockOpens(s, i, language) {
      var e := SkipBlock(s, i + 2, language);
      return Closing(e);
    }
    if language == Rust && (s[i] == 'r' || s[i] == 'b' || s[i] == '\'') {
      var raw := RawOpens(s, i);
      if raw.Some? { return Closing(RawEnd(s, raw.value.0, raw.value.1)); }
      var c := CharEnd(s, i);
      if c.Some? { return Closing(c); }
    }
    if s[i] == '"' {
      var e := SkipString(s, i + 1);
      return Closing(e);
    }
    t := Plain;
  }

  /** The first characters shown as `done` says, the others as in the source. */
  predicate ShowsSoFar(s: string, text: string, done: seq<bool>) {
    && |text| == |s| && |done| <= |s|
    && forall k :: 0 <= k < |s| ==> text[k] == Shown(s[k], k < |done| && done[k])
  }

  lemma BlankAdvances(s: string, before: string, after: string, done: seq<bool>, end: nat)
    requires ShowsSoFar(s, before, done) && |done| <= end <= |s| && |after| == |s|
    requires forall k :: 0 <= k < |s| ==> after[k] == Shown(before[k], |done| <= k < end)
    ensures ShowsSoFar(s, after, done + seq(end - |done|, _ => true))
  {
  }

  lemma PlainAdvances(s: string, text: string, done: seq<bool>)
    requires ShowsSoFar(s, text, done) && |done| < |s|
    ensures ShowsSoFar(s, text, done + [false])
  {
  }

  /** The scan has reached `i`, with this much of the cover known. */
  ghost predicate Reached(s: string, language: Language, i: nat, done: seq<bool>) {
    |done| == i <= |s| && Cover(s, 0, language) == Join(done, Cover(s, i, language))
  }

  lemma ReachedNext(s: string, language: Language, i: nat, done: seq<bool>)
    requires Reached(s, language, i, done) && i < |s| && !TokenAt(s, i, language).Unclosed?
    ensures var t := TokenAt(s, i, language);
            if t.Plain? then Reached(s, language, i + 1, done + [false])
            else Reached(s, language, t.end, done + seq(t.end - i, _ => true))
  {
    CoverAdvances(s, i, language, done);
  }

  lemma ReachedEnd(s: string, language: Language, text: string, done: seq<bool>)
    requires Reached(s, language, |s|, done) && ShowsSoFar(s, text, done)
    ensures Masking(s, language) == Ok(text)
  {
    AllShown(s, text, done);
    assert done + [] == done;
  }

  method BlankTo(result: array<char>, s: string, ghost done: seq<bool>, start: nat, end: nat)
    requires ShowsSoFar(s, result[..], done) && |done| == start <= end <= |s|
    modifies result
    ensures ShowsSoFar(s, result[..], done + seq(end - start, _ => true))
  {
    ghost var before := result[..];
    Blank(result, start, end);
    BlankAdvances(s, before, result[..], done, end);
  }

  /** One construct or one plain character. */
  method Advance(result: array<char>, s: string, language: Language, i: nat, ghost done: seq<bool>)
    returns (next: Option<nat>, ghost after: seq<bool>)
    requires i < |s| && Reached(s, language, i, done) && ShowsSoFar(s, result[..], done)
    modifies result
    ensures next.None? ==> Masking(s, language) == Err(UnclosedConstruct)
    ensures next.Some? ==> i < next.value && Reached(s, language, next.value, after) && ShowsSoFar(s, result[..], after)
  {
    var t := Scan(s, i, language);
    after := done;
    match t
    case Unclosed =>
      next := None;
    case Plain =>
      ReachedNext(s, language, i, done);
      PlainAdvances(s, result[..], done);
      after := done + [false];
      next := Some(i + 1);
    case Blanked(end) =>
      ReachedNext(s, language, i, done);
      BlankTo(result, s, done, i, end);
      after := done + seq(end - i, _ => true);
      next := Some(end);
  }

  method Masked(s: string, language: Language) returns (r: Result<string, Refusal>)
    ensures r == Masking(s, language)
  {
    var result := new char[|s|](k requires 0 <= k < |s| => s[k]);
    var i := 0;
    ghost var done: seq<bool> := [];
    JoinNothing(Cover(s, i, language));
    while i < |s|
      invariant Reached(s, language, i, done) && ShowsSoFar(s, result[..], done)
      decreases |s| - i
    {
      var next;
      next, done := Advance(result, s, language, i, done);
      if next.None? { return Err(UnclosedConstruct); }
      i := next.value;
    }
    ReachedEnd(s, language, result[..], done);
    r := Ok(result[..]);
  }

  lemma AllShown(s: string, text: string, done: seq<bool>)
    requires ShowsSoFar(s, text, done) && |done| == |s|
    ensures text == Applied(s, done)
  {
  }

  lemma CoverAdvances(s: string, i: nat, language: Language, done: seq<bool>)
    requires i < |s| && !TokenAt(s, i, language).Unclosed?
    ensures var t := TokenAt(s, i, language);
            Join(done, Cover(s, i, language)) ==
              if t.Plain? then Join(done + [false], Cover(s, i + 1, language))
              else Join(done + seq(t.end - i, _ => true), Cover(s, t.end, language))
  {
    match TokenAt(s, i, language)
    case Plain => JoinAssociates(done, [false], Cover(s, i + 1, language));
    case Blanked(end) => JoinAssociates(done, seq(end - i, _ => true), Cover(s, end, language));
  }

  lemma JoinNothing(c: Option<seq<bool>>)
    ensures Join([], c) == c
  {
    if c.Some? { assert [] + c.value == c.value; }
  }

  lemma JoinAssociates(a: seq<bool>, b: seq<bool>, c: Option<seq<bool>>)
    ensures Join(a, Join(b, c)) == Join(a + b, c)
  {
    if c.Some? { assert a + (b + c.value) == a + b + c.value; }
  }
}

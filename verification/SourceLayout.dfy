/**
 * What the source scanner blanks (scripts/host-operations.py, `masked`): the constructs of a text as spans,
 * stated without the scanner, and masking as the blanking of exactly those.
 */
module SourceLayout {
  import opened Common
  import opened SourceScanner

  predicate StartsWith(s: string, i: nat, mark: string) {
    i + |mark| <= |s| && s[i..i + |mark|] == mark
  }

  function LineMark(language: Language): string {
    if language == Lean then "--" else "//"
  }

  function OpenMark(language: Language): string {
    if language == Lean then "/-" else "/*"
  }

  function CloseMark(language: Language): string {
    if language == Lean then "-/" else "*/"
  }

  function RawMark(hashes: nat): string {
    "\"" + seq(hashes, _ => '#')
  }

  predicate HexDigits(t: string) {
    forall c :: c in t ==> c in "0123456789abcdefABCDEF"
  }

  // ------------------------------------------------------------------ the constructs

  /** From its mark up to the first newline or the end of the text. */
  ghost predicate LineComment(s: string, i: nat, e: nat, language: Language) {
    && StartsWith(s, i, LineMark(language)) && i <= e <= |s|
    && (forall k :: i <= k < e ==> s[k] != '\n') && (e < |s| ==> s[e] == '\n')
  }

  /** From a quote to the first later quote that is not escaped. */
  ghost predicate Quoted(s: string, i: nat, e: nat) {
    && i + 2 <= e <= |s| && s[i] == '"' && s[e - 1] == '"'
    && !Escaped(s, i + 1, e - 1) && NoQuoteBefore(s, i + 1, e - 1)
  }

  /** `r` or `br`, some hashes, and a quote, which is at `q`. */
  ghost predicate RawHead(s: string, i: nat, q: nat, hashes: nat) {
    && i + hashes < q < |s| && s[q] == '"' && (forall k :: q - hashes <= k < q ==> s[k] == '#')
    && ((q - hashes == i + 1 && StartsWith(s, i, "r")) || (q - hashes == i + 2 && StartsWith(s, i, "br")))
  }

  /** Up to the first later quote that as many hashes follow. */
  ghost predicate RawBody(s: string, q: nat, hashes: nat, e: nat) {
    && q + 2 + hashes <= e <= |s| && StartsWith(s, e - 1 - hashes, RawMark(hashes))
    && (forall k :: q < k < e - 1 - hashes ==> !StartsWith(s, k, RawMark(hashes)))
  }

  ghost predicate RawString(s: string, i: nat, e: nat) {
    exists q: nat, hashes: nat :: RawHead(s, i, q, hashes) && RawBody(s, q, hashes, e)
  }

  /** One character, or a backslash escape: two hexadecimal digits, a braced run of them, or one character. */
  predicate CharBody(b: string) {
    || (|b| == 1 && b[0] != '\'' && b[0] != '\\' && b[0] != '\n')
    || (|b| == 2 && b[0] == '\\' && b[1] != '\n')
    || (|b| == 4 && b[..2] == "\\x" && HexDigits(b[2..]))
    || (|b| >= 5 && b[..3] == "\\u{" && b[|b| - 1] == '}' && HexDigits(b[3..|b| - 1]))
  }

  ghost predicate CharLiteral(s: string, i: nat, e: nat) {
    i + 2 < e <= |s| && s[i] == '\'' && s[e - 1] == '\'' && CharBody(s[i + 1..e - 1])
  }

  /** A comment or a literal. */
  ghost predicate Construct(s: string, i: nat, e: nat, language: Language) {
    || LineComment(s, i, e, language)
    || (StartsWith(s, i, OpenMark(language)) && Comment(s, i, e, language))
    || (language == Rust && (RawString(s, i, e) || CharLiteral(s, i, e)))
    || Quoted(s, i, e)
  }

  /** A comment or a literal begins here, whether or not it ends. */
  ghost predicate Begins(s: string, i: nat, language: Language) {
    || StartsWith(s, i, LineMark(language)) || StartsWith(s, i, OpenMark(language)) || StartsWith(s, i, "\"")
    || (language == Rust
        && ((exists q: nat, hashes: nat :: RawHead(s, i, q, hashes)) || exists e: nat :: CharLiteral(s, i, e)))
  }

  // ------------------------------------------------------------------ each end is its construct's

  lemma Prefix2(s: string, i: nat, mark: string)
    requires |mark| == 2
    ensures StartsWith(s, i, mark) <==> Pair(s, i, mark[0], mark[1])
  {
    if Pair(s, i, mark[0], mark[1]) { assert s[i..i + 2] == mark; }
    if StartsWith(s, i, mark) { assert s[i] == s[i..i + 2][0] && s[i + 1] == s[i..i + 2][1]; }
  }

  lemma Prefix1(s: string, i: nat, mark: string)
    requires |mark| == 1
    ensures StartsWith(s, i, mark) <==> i < |s| && s[i] == mark[0]
  {
    if i < |s| && s[i] == mark[0] { assert s[i..i + 1] == mark; }
    if StartsWith(s, i, mark) { assert s[i] == s[i..i + 1][0]; }
  }

  lemma MarksMean(s: string, i: nat, language: Language)
    ensures StartsWith(s, i, LineMark(language)) <==> LineOpens(s, i, language)
    ensures StartsWith(s, i, OpenMark(language)) <==> BlockOpens(s, i, language)
    ensures StartsWith(s, i, CloseMark(language)) <==> BlockCloses(s, i, language)
    ensures StartsWith(s, i, "\"") <==> i < |s| && s[i] == '"'
  {
    Prefix2(s, i, LineMark(language));
    Prefix2(s, i, OpenMark(language));
    Prefix2(s, i, CloseMark(language));
    Prefix1(s, i, "\"");
  }

  lemma LineMeans(s: string, i: nat, e: nat, language: Language)
    requires LineOpens(s, i, language)
    ensures LineEnd(s, i) == e <==> LineComment(s, i, e, language)
  {
    MarksMean(s, i, language);
  }

  lemma QuotedMeans(s: string, i: nat, e: nat)
    requires i < |s| && s[i] == '"'
    ensures StringEnd(s, i + 1) == Some(e) <==> Quoted(s, i, e)
  {
    StringEndsAtItsQuote(s, i + 1);
  }

  lemma RawHeadMeans(s: string, i: nat, q: nat, hashes: nat)
    requires i < |s|
    ensures RawOpens(s, i) == Some((q + 1, hashes)) <==> RawHead(s, i, q, hashes)
  {
    Prefix2(s, i, "br");
    Prefix1(s, i, "r");
    var j := if Pair(s, i, 'b', 'r') then i + 2 else if s[i] == 'r' then i + 1 else i;
    if RawHead(s, i, q, hashes) {
      assert HashEnd(s, j) == q;
    }
  }

  lemma RawMeans(s: string, i: nat, e: nat)
    requires i < |s|
    ensures RawString(s, i, e) <==>
            RawOpens(s, i).Some? && RawEnd(s, RawOpens(s, i).value.0, RawOpens(s, i).value.1) == Some(e)
  {
    var raw := RawOpens(s, i);
    if raw.Some? && RawEnd(s, raw.value.0, raw.value.1) == Some(e) {
      RawIsString(s, i, raw.value.0 - 1, raw.value.1, e);
    }
    if RawString(s, i, e) { StringIsRaw(s, i, e); }
  }

  lemma RawIsString(s: string, i: nat, q: nat, hashes: nat, e: nat)
    requires i < |s| && RawOpens(s, i) == Some((q + 1, hashes)) && RawEnd(s, q + 1, hashes) == Some(e)
    ensures RawString(s, i, e)
  {
    RawHeadMeans(s, i, q, hashes);
    RawBodyMeans(s, q, hashes, e);
  }

  lemma StringIsRaw(s: string, i: nat, e: nat)
    requires i < |s| && RawString(s, i, e)
    ensures RawOpens(s, i).Some? && RawEnd(s, RawOpens(s, i).value.0, RawOpens(s, i).value.1) == Some(e)
  {
    var q: nat, hashes: nat :| RawHead(s, i, q, hashes) && RawBody(s, q, hashes, e);
    RawHeadMeans(s, i, q, hashes);
    RawBodyMeans(s, q, hashes, e);
  }

  lemma RawBodyMeans(s: string, q: nat, hashes: nat, e: nat)
    requires q < |s|
    ensures RawBody(s, q, hashes, e) <==> RawEnd(s, q + 1, hashes) == Some(e)
  {
    if RawBody(s, q, hashes, e) {
      forall k: nat | q < k < e - hashes ensures RawCloses(s, k, hashes) <==> k == e - 1 - hashes {
        RawMarkMeans(s, k, hashes);
      }
      RawEndIs(s, q + 1, hashes, e);
    }
    if RawEnd(s, q + 1, hashes) == Some(e) {
      forall k: nat | q < k < e - hashes ensures StartsWith(s, k, RawMark(hashes)) <==> k == e - 1 - hashes {
        RawMarkMeans(s, k, hashes);
      }
    }
  }

  lemma RawMarkMeans(s: string, i: nat, hashes: nat)
    ensures StartsWith(s, i, RawMark(hashes)) <==> RawCloses(s, i, hashes)
  {
    var mark := RawMark(hashes);
    if RawCloses(s, i, hashes) { assert s[i..i + |mark|] == mark; }
    if StartsWith(s, i, mark) {
      assert forall k :: 0 <= k < |mark| ==> s[i + k] == mark[k];
      forall k | i < k <= i + hashes ensures s[k] == '#' { assert s[i + (k - i)] == mark[k - i]; }
    }
  }

  lemma HexMeans(c: char)
    ensures Hex(c) <==> c in "0123456789abcdefABCDEF"
  {
    if Hex(c) {
      var k := if c <= '9' then c as int - '0' as int else if c <= 'F' then 16 + (c as int - 'A' as int)
               else 10 + (c as int - 'a' as int);
      assert "0123456789abcdefABCDEF"[k] == c;
    }
  }

  lemma HexDigitsMean(s: string, i: nat, e: nat)
    requires i <= e <= |s|
    ensures HexDigits(s[i..e]) <==> forall k :: i <= k < e ==> Hex(s[k])
  {
    var t := s[i..e];
    if HexDigits(t) {
      forall k | i <= k < e ensures Hex(s[k]) {
        assert t[k - i] in t;
        HexMeans(s[k]);
      }
    }
    if forall k :: i <= k < e ==> Hex(s[k]) {
      forall c | c in t ensures c in "0123456789abcdefABCDEF" { HexMeans(c); }
    }
  }

  lemma RawEndIs(s: string, i: nat, hashes: nat, e: nat)
    requires i + 1 + hashes <= e <= |s| && RawCloses(s, e - 1 - hashes, hashes)
    requires forall k :: i <= k < e - 1 - hashes ==> !RawCloses(s, k, hashes)
    ensures RawEnd(s, i, hashes) == Some(e)
  {
  }

  lemma CharMeans(s: string, i: nat, e: nat)
    ensures CharEnd(s, i) == Some(e) <==> CharLiteral(s, i, e)
  {
    if CharEnd(s, i) == Some(e) { CharEndIsLiteral(s, i, e); }
    if CharLiteral(s, i, e) { LiteralHasCharEnd(s, i, e); }
  }

  lemma CharEndIsLiteral(s: string, i: nat, e: nat)
    requires CharEnd(s, i) == Some(e)
    ensures CharLiteral(s, i, e)
  {
    var b := s[i + 1..e - 1];
    assert forall k :: 0 <= k < |b| ==> b[k] == s[i + 1 + k];
    if !PlainChar(s, i) && HexChar(s, i) {
      assert b[..2] == "\\x";
      HexDigitsMean(s, i + 3, e - 1);
      assert b[2..] == s[i + 3..e - 1];
    } else if !PlainChar(s, i) && UnicodeChar(s, i) {
      assert b[..3] == "\\u{";
      HexDigitsMean(s, i + 4, e - 2);
      assert b[3..|b| - 1] == s[i + 4..e - 2];
    }
  }

  lemma LiteralHasCharEnd(s: string, i: nat, e: nat)
    requires CharLiteral(s, i, e)
    ensures CharEnd(s, i) == Some(e)
  {
    var b := s[i + 1..e - 1];
    assert forall k :: 0 <= k < |b| ==> b[k] == s[i + 1 + k];
    if |b| == 4 && b[..2] == "\\x" && HexDigits(b[2..]) {
      assert b[..2][0] == b[0] && b[..2][1] == b[1];
      HexDigitsMean(s, i + 3, e - 1);
      assert b[2..] == s[i + 3..e - 1];
    } else if |b| > 2 {
      assert b[..3][0] == b[0] && b[..3][1] == b[1] && b[..3][2] == b[2];
      HexDigitsMean(s, i + 4, e - 2);
      assert b[3..|b| - 1] == s[i + 4..e - 2];
      assert HexEnd(s, i + 4) == e - 2;
    }
  }

  /** What the scanner finds at an offset: a construct exactly to its end, one that begins and never ends, or
      nothing. */
  lemma TokenMeans(s: string, i: nat, language: Language, e: nat)
    requires i < |s|
    ensures TokenAt(s, i, language) == Blanked(e) <==> Construct(s, i, e, language)
    ensures TokenAt(s, i, language) == Plain <==> !Begins(s, i, language)
  {
    MarksMean(s, i, language);
    if LineOpens(s, i, language) {
      LineMeans(s, i, e, language);
    } else if BlockOpens(s, i, language) {
      BlockEndsItsComment(s, i, e, language);
    } else if s[i] == '"' {
      QuotedMeans(s, i, e);
    }
    RustMeans(s, i, e);
  }

  lemma RustMeans(s: string, i: nat, e: nat)
    requires i < |s|
    ensures RustToken(s, i) == Some(Blanked(e)) <==> RawString(s, i, e) || CharLiteral(s, i, e)
    ensures RustToken(s, i).Some? <==>
            (exists q: nat, hashes: nat :: RawHead(s, i, q, hashes)) || exists x: nat :: CharLiteral(s, i, x)
    ensures RustToken(s, i).Some? ==> s[i] == 'r' || s[i] == 'b' || s[i] == '\''
  {
    RawMeans(s, i, e);
    CharMeans(s, i, e);
    if RawOpens(s, i).Some? { RawHeadMeans(s, i, RawOpens(s, i).value.0 - 1, RawOpens(s, i).value.1); }
    if q: nat, hashes: nat :| RawHead(s, i, q, hashes) { RawHeadMeans(s, i, q, hashes); }
    if CharEnd(s, i).Some? { CharMeans(s, i, CharEnd(s, i).value); }
    if x: nat :| CharLiteral(s, i, x) { CharMeans(s, i, x); }
  }

  // ------------------------------------------------------------------ the layout of a text

  datatype Span = Span(start: nat, end: nat)

  ghost predicate Within(spans: seq<Span>, p: nat) {
    exists k :: 0 <= k < |spans| && spans[k].start <= p < spans[k].end
  }

  /** The constructs of the text from an offset on: each is one, in order and apart, and nothing begins
      outside them. */
  ghost predicate Layout(s: string, from: nat, spans: seq<Span>, language: Language) {
    && (forall k :: 0 <= k < |spans| ==>
          from <= spans[k].start < |s| && Construct(s, spans[k].start, spans[k].end, language))
    && (forall j, k :: 0 <= j < k < |spans| ==> spans[j].end <= spans[k].start)
    && (forall p: nat :: from <= p < |s| && !Within(spans, p) ==> !Begins(s, p, language))
  }

  lemma ConstructHasLength(s: string, i: nat, e: nat, language: Language)
    requires i < |s| && Construct(s, i, e, language)
    ensures i + 2 <= e <= |s|
  {
    TokenMeans(s, i, language, e);
  }

  lemma NothingHere(s: string, i: nat, spans: seq<Span>, language: Language)
    requires i < |s| && Layout(s, i, spans, language) && TokenAt(s, i, language) == Plain
    ensures Layout(s, i + 1, spans, language) && !Within(spans, i)
  {
    forall k | 0 <= k < |spans| ensures i < spans[k].start {
      TokenMeans(s, spans[k].start, language, spans[k].end);
    }
  }

  /** Where a construct begins, the layout has it first. */
  lemma FirstIsHere(s: string, i: nat, spans: seq<Span>, language: Language)
    requires i < |s| && Layout(s, i, spans, language) && TokenAt(s, i, language) != Plain
    ensures spans != [] && spans[0].start == i && TokenAt(s, i, language) == Blanked(spans[0].end)
  {
    TokenMeans(s, i, language, 0);
    assert Within(spans, i);
    var k :| 0 <= k < |spans| && spans[k].start <= i < spans[k].end;
    if k > 0 {
      ConstructHasLength(s, spans[0].start, spans[0].end, language);
    }
    TokenMeans(s, i, language, spans[0].end);
  }

  lemma RestIsLaidOut(s: string, i: nat, spans: seq<Span>, language: Language)
    requires spans != [] && Layout(s, i, spans, language)
    ensures Layout(s, spans[0].end, spans[1..], language)
    ensures forall p: nat :: p >= spans[0].end ==> (Within(spans, p) <==> Within(spans[1..], p))
    ensures forall p: nat :: spans[0].start <= p < spans[0].end ==> Within(spans, p)
  {
    var rest := spans[1..];
    forall p: nat | p >= spans[0].end ensures Within(spans, p) <==> Within(rest, p) {
      if Within(spans, p) {
        var k :| 0 <= k < |spans| && spans[k].start <= p < spans[k].end;
        assert rest[k - 1] == spans[k];
      }
    }
    ConstructHasLength(s, spans[0].start, spans[0].end, language);
  }

  lemma CoverPlain(s: string, i: nat, language: Language, p: nat)
    requires i < |s| && TokenAt(s, i, language) == Plain && Cover(s, i + 1, language).Some?
    ensures Cover(s, i, language).Some?
    ensures i <= p < |s| ==>
              Cover(s, i, language).value[p - i] == (p != i && Cover(s, i + 1, language).value[p - i - 1])
  {
  }

  lemma CoverBlanked(s: string, i: nat, e: nat, language: Language, p: nat)
    requires i < |s| && TokenAt(s, i, language) == Blanked(e) && Cover(s, e, language).Some?
    ensures Cover(s, i, language).Some?
    ensures i <= p < |s| ==> Cover(s, i, language).value[p - i] == (p < e || Cover(s, e, language).value[p - e])
  {
  }

  /** The cover from `i` on tells whether `p` is within the spans. */
  ghost predicate CoveredAs(s: string, i: nat, spans: seq<Span>, language: Language, p: nat)
    requires i <= |s|
  {
    && Cover(s, i, language).Some?
    && (i <= p < |s| ==> (Cover(s, i, language).value[p - i] <==> Within(spans, p)))
  }

  /** A text with a layout is covered exactly within it. */
  lemma {:induction false} CoverIsLayout(s: string, i: nat, spans: seq<Span>, language: Language, p: nat)
    requires i <= |s| && Layout(s, i, spans, language)
    ensures CoveredAs(s, i, spans, language, p)
    decreases |s| - i
  {
    if i < |s| {
      if TokenAt(s, i, language) == Plain {
        NothingHere(s, i, spans, language);
        CoverIsLayout(s, i + 1, spans, language, p);
        CoverPlain(s, i, language, p);
      } else {
        FirstIsHere(s, i, spans, language);
        RestIsLaidOut(s, i, spans, language);
        CoverIsLayout(s, spans[0].end, spans[1..], language, p);
        BlankedAs(s, i, spans, language, p);
      }
    }
  }

  lemma BlankedAs(s: string, i: nat, spans: seq<Span>, language: Language, p: nat)
    requires i < |s| && spans != [] && spans[0].start == i && TokenAt(s, i, language) == Blanked(spans[0].end)
    requires CoveredAs(s, spans[0].end, spans[1..], language, p)
    requires p >= spans[0].end ==> (Within(spans, p) <==> Within(spans[1..], p))
    ensures CoveredAs(s, i, spans, language, p)
  {
    CoverBlanked(s, i, spans[0].end, language, p);
  }

  lemma WithinMore(x: Span, rest: seq<Span>, p: nat)
    ensures x.start <= p < x.end || Within(rest, p) ==> Within([x] + rest, p)
  {
    var spans := [x] + rest;
    assert spans[0] == x;
    if Within(rest, p) {
      var k :| 0 <= k < |rest| && rest[k].start <= p < rest[k].end;
      assert spans[k + 1] == rest[k];
    }
  }

  lemma PlainLayout(s: string, i: nat, rest: seq<Span>, language: Language)
    requires i < |s| && TokenAt(s, i, language) == Plain && Layout(s, i + 1, rest, language)
    ensures Layout(s, i, rest, language)
  {
    TokenMeans(s, i, language, 0);
  }

  lemma BlankedLayout(s: string, i: nat, e: nat, rest: seq<Span>, language: Language)
    requires i < |s| && TokenAt(s, i, language) == Blanked(e) && Layout(s, e, rest, language)
    ensures Layout(s, i, [Span(i, e)] + rest, language)
  {
    var spans := [Span(i, e)] + rest;
    TokenMeans(s, i, language, e);
    forall p: nat | i <= p < |s| && !Within(spans, p) ensures !Begins(s, p, language) {
      WithinMore(Span(i, e), rest, p);
    }
  }

  lemma {:induction false} CoveredHasLayout(s: string, i: nat, language: Language) returns (spans: seq<Span>)
    requires i <= |s| && Cover(s, i, language).Some?
    ensures Layout(s, i, spans, language)
    decreases |s| - i
  {
    if i == |s| {
      spans := [];
    } else {
      match TokenAt(s, i, language)
      case Plain =>
        spans := CoveredHasLayout(s, i + 1, language);
        PlainLayout(s, i, spans, language);
      case Blanked(end) =>
        var rest := CoveredHasLayout(s, end, language);
        spans := [Span(i, end)] + rest;
        BlankedLayout(s, i, end, rest, language);
    }
  }

  /** A text has at most one layout. */
  lemma {:induction false} LayoutIsUnique(s: string, i: nat, a: seq<Span>, b: seq<Span>, language: Language)
    requires i <= |s| && Layout(s, i, a, language) && Layout(s, i, b, language)
    ensures a == b
    decreases |s| - i
  {
    if i == |s| {
      assert a == [] && b == [];
    } else if TokenAt(s, i, language) == Plain {
      NothingHere(s, i, a, language);
      NothingHere(s, i, b, language);
      LayoutIsUnique(s, i + 1, a, b, language);
    } else {
      FirstIsHere(s, i, a, language);
      FirstIsHere(s, i, b, language);
      RestIsLaidOut(s, i, a, language);
      RestIsLaidOut(s, i, b, language);
      LayoutIsUnique(s, a[0].end, a[1..], b[1..], language);
      assert a == [a[0]] + a[1..] && b == [b[0]] + b[1..];
    }
  }

  /** Masking blanks the comments and literals of the text, whole, and nothing else. */
  lemma MaskingBlanksItsLayout(s: string, language: Language, spans: seq<Span>)
    requires Layout(s, 0, spans, language)
    ensures var r := Masking(s, language);
            && r.Ok? && |r.value| == |s|
            && forall p: nat :: p < |s| ==> r.value[p] == if Within(spans, p) && s[p] != '\n' then ' ' else s[p]
  {
    CoverIsLayout(s, 0, spans, language, 0);
    forall p: nat | p < |s| ensures Cover(s, 0, language).value[p] <==> Within(spans, p) {
      CoverIsLayout(s, 0, spans, language, p);
    }
  }

  /** It refuses exactly the texts that have no layout: one of their comments or literals never ends. */
  lemma MaskingRefusesExactly(s: string, language: Language)
    ensures Masking(s, language).Ok? <==> exists spans :: Layout(s, 0, spans, language)
  {
    if Masking(s, language).Ok? {
      var spans := CoveredHasLayout(s, 0, language);
    }
    if spans :| Layout(s, 0, spans, language) {
      CoverIsLayout(s, 0, spans, language, 0);
    }
  }
}

/** The lexer (src/compiler/lexer.ts). It replaces every line break and bracket
    by a marker padded with spaces, splits the text on runs of blanks and
    classifies each fragment. `Lex` follows those three steps literally; `Scan`
    is an independent one-pass reading of the same language, and
    `LexMatchesScan` proves the two agree. */
module Lexer {
  import opened Results
  import opened Types
  import opened Numbers
  import Seqs

  /** The separators of the split: space, tab, form feed and vertical tab. */
  predicate IsBlank(c: char) {
    c == ' ' || c == '\t' || c == '\U{000C}' || c == '\U{000B}'
  }

  /** Characters that are replaced by a marker before the split. */
  predicate IsStructural(c: char) {
    c == '\n' || c == '\r' || c == '[' || c == ']' || c == '{' || c == '}'
  }

  /** Characters that may appear inside a word or number fragment. */
  predicate IsPlain(c: char) {
    !IsBlank(c) && !IsStructural(c)
  }

  predicate AllBlank(s: string) {
    forall i :: 0 <= i < |s| ==> IsBlank(s[i])
  }

  predicate AllPlain(s: string) {
    forall i :: 0 <= i < |s| ==> IsPlain(s[i])
  }

  predicate NoStructural(s: string) {
    forall i :: 0 <= i < |s| ==> !IsStructural(s[i])
  }

  predicate NoBlank(s: string) {
    forall i :: 0 <= i < |s| ==> !IsBlank(s[i])
  }

  function MarkerOf(c: char): string
    requires IsStructural(c)
  {
    if c == '\n' || c == '\r' then "*nl*"
    else if c == '[' then "*ob*"
    else if c == ']' then "*cb*"
    else if c == '{' then "*ocb*"
    else "*ccb*"
  }

  predicate IsMarker(s: string) {
    s == "*nl*" || s == "*ob*" || s == "*cb*" || s == "*ocb*" || s == "*ccb*"
  }

  /** The token a structural character stands for. */
  function StructuralToken(c: char): (t: Token)
    requires IsStructural(c)
    ensures IsStructuralKind(t.kind) && t.value == None
    ensures t.kind == Newline <==> (c == '\n' || c == '\r')
    ensures t.kind == Ob <==> c == '['
    ensures t.kind == Cb <==> c == ']'
    ensures t.kind == Ocb <==> c == '{'
    ensures t.kind == Ccb <==> c == '}'
  {
    if c == '\n' || c == '\r' then Token(Newline, None)
    else if c == '[' then Token(Ob, None)
    else if c == ']' then Token(Cb, None)
    else if c == '{' then Token(Ocb, None)
    else Token(Ccb, None)
  }

  // ---------------------------------------------------------------------------
  // The three steps of the source

  function Expand(c: char): (r: string)
    ensures NoStructural(r)
    ensures !IsStructural(c) ==> r == [c]
  {
    if IsStructural(c) then " " + MarkerOf(c) + " " else [c]
  }

  /** Step 1: every structural character becomes its marker with a space on
      each side. No structural character survives, and text without one is
      left as it is. */
  function Substitute(code: string): (r: string)
    ensures NoStructural(r)
    ensures NoStructural(code) ==> r == code
    decreases |code|
  {
    if |code| == 0 then "" else Expand(code[0]) + Substitute(code[1..])
  }

  /** Drops the leading blanks of `s`. */
  function SkipBlanks(s: string): (r: string)
    ensures |r| <= |s| && r == s[|s| - |r|..]
    ensures |r| > 0 ==> !IsBlank(r[0])
    ensures forall i :: 0 <= i < |s| - |r| ==> IsBlank(s[i])
    decreases |s|
  {
    if |s| > 0 && IsBlank(s[0]) then SkipBlanks(s[1..]) else s
  }

  /** Step 2: the fields of `s` between maximal runs of blanks, where `field`
      is the part of the current field already read. As with the host
      language's split, a leading or trailing blank run yields an empty field. */
  function SplitFrom(s: string, field: string): (r: seq<string>)
    ensures |r| > 0
    ensures NoBlank(field) ==> forall k :: 0 <= k < |r| ==> NoBlank(r[k])
    ensures NoBlank(s) ==> r == [field + s]
    decreases |s|
  {
    if |s| == 0 then assert field + s == field; [field]
    else if IsBlank(s[0]) then [field] + SplitFrom(SkipBlanks(s[1..]), "")
    else assert field + [s[0]] + s[1..] == field + s; SplitFrom(s[1..], field + [s[0]])
  }

  /** Step 2: the text cut at every run of blanks. No field holds a blank, and
      text without a blank is one field. */
  function Split(s: string): (r: seq<string>)
    ensures |r| > 0 && forall k :: 0 <= k < |r| ==> NoBlank(r[k])
    ensures NoBlank(s) ==> r == [s]
  {
    assert "" + s == s;
    SplitFrom(s, "")
  }

  /** Step 3, for one fragment: a digit string is a number, a marker is its
      structural token, the empty fragment is dropped, anything else is a word. */
  function Classify(frag: string): (r: Option<Token>)
    ensures r == None <==> frag == ""
    ensures r.Some? ==> (r.value.kind == Number <==> IsNumeric(frag))
    ensures r.Some? && IsMarker(frag) ==> IsStructuralKind(r.value.kind) && r.value.value == None
    ensures frag == "*nl*" <==> r == Some(Token(Newline, None))
    ensures frag == "*ob*" <==> r == Some(Token(Ob, None))
    ensures frag == "*cb*" <==> r == Some(Token(Cb, None))
    ensures frag == "*ocb*" <==> r == Some(Token(Ocb, None))
    ensures frag == "*ccb*" <==> r == Some(Token(Ccb, None))
    ensures r.Some? && !IsNumeric(frag) && !IsMarker(frag) ==> r.value == Token(Word, Some(frag))
    ensures r.Some? && IsNumeric(frag) ==> r.value == Token(Number, Some(frag))
  {
    assert IsMarker(frag) ==> frag[0] == '*' && !IsNumeric(frag);
    if IsNumeric(frag) then Some(Token(Number, Some(frag)))
    else if frag == "*nl*" then Some(Token(Newline, None))
    else if frag == "*ob*" then Some(Token(Ob, None))
    else if frag == "*cb*" then Some(Token(Cb, None))
    else if frag == "*ocb*" then Some(Token(Ocb, None))
    else if frag == "*ccb*" then Some(Token(Ccb, None))
    else if |frag| > 0 then Some(Token(Word, Some(frag)))
    else None
  }

  /** The tokens of one fragment: none for the empty fragment, one otherwise. */
  function Flush(frag: string): (ts: seq<Token>)
    ensures |ts| == (if frag == "" then 0 else 1)
  {
    match Classify(frag)
    case Some(t) => [t]
    case None => []
  }

  function ClassifyAll(frags: seq<string>): (r: seq<Token>)
    ensures |r| <= |frags|
    ensures (forall k :: 0 <= k < |frags| ==> frags[k] != "") ==> |r| == |frags|
    decreases |frags|
  {
    if |frags| == 0 then [] else Flush(frags[0]) + ClassifyAll(frags[1..])
  }

  /** The token list the source builds before its emptiness check; it is the
      one-pass reading of the same text. */
  function Tokens(code: string): (r: seq<Token>)
    ensures r == Scan(code, "")
  {
    LexMatchesScan(code, "");
    ClassifyAll(Split(Substitute(code)))
  }

  /** The lexer: the token list, or `NoTokens` when it would be empty. */
  function Lex(code: string): (r: Result<seq<Token>, Error>)
    ensures r.Err? <==> AllBlank(code)
    ensures r.Err? ==> r.error == NoTokens
    ensures r.Ok? ==> forall t <- r.value :: CleanToken(t)
  {
    ScanEmpty(code, "");
    ScanClean(code, "");
    var tokens := Tokens(code);
    if |tokens| < 1 then Err(NoTokens) else Ok(tokens)
  }

  // ---------------------------------------------------------------------------
  // The one-pass reference reading

  /** Reads `s` once, left to right; `field` is the fragment read so far. A blank
      ends the fragment, a structural character ends it and emits its token. */
  function Scan(s: string, field: string): seq<Token>
    decreases |s|
  {
    if |s| == 0 then Flush(field)
    else if IsBlank(s[0]) then Flush(field) + Scan(s[1..], "")
    else if IsStructural(s[0]) then Flush(field) + [StructuralToken(s[0])] + Scan(s[1..], "")
    else Scan(s[1..], field + [s[0]])
  }

  lemma {:induction false} ClassifyAllAppend(a: seq<string>, b: seq<string>)
    ensures ClassifyAll(a + b) == ClassifyAll(a) + ClassifyAll(b)
    decreases |a|
  {
    if |a| == 0 {
      assert a + b == b;
    } else {
      assert (a + b)[1..] == a[1..] + b;
      ClassifyAllAppend(a[1..], b);
    }
  }

  /** Reading blank-free text only extends the current field. */
  lemma {:induction false} SplitFromBlankFree(w: string, y: string, field: string)
    requires NoBlank(w)
    ensures SplitFrom(w + y, field) == SplitFrom(y, field + w)
    decreases |w|
  {
    if |w| == 0 {
      assert w + y == y;
      assert field + w == field;
    } else {
      assert (w + y)[0] == w[0];
      assert (w + y)[1..] == w[1..] + y;
      SplitFromBlankFree(w[1..], y, field + [w[0]]);
      assert field + [w[0]] + w[1..] == field + w;
    }
  }

  /** Leading blanks only add an empty first field, which classification drops. */
  lemma SkipBlanksInvisible(y: string)
    ensures ClassifyAll(SplitFrom(SkipBlanks(y), "")) == ClassifyAll(SplitFrom(y, ""))
  {
    if |y| > 0 && IsBlank(y[0]) {
      assert SkipBlanks(y) == SkipBlanks(y[1..]);
      var rest := SplitFrom(SkipBlanks(y[1..]), "");
      assert SplitFrom(y, "") == [""] + rest;
      assert ([""] + rest)[1..] == rest;
    }
  }

  lemma MarkerClassifies(c: char)
    requires IsStructural(c)
    ensures Flush(MarkerOf(c)) == [StructuralToken(c)]
  {
  }

  /** The literal replace-split-classify pipeline equals the one-pass reading. */
  lemma {:induction false} LexMatchesScan(s: string, field: string)
    requires NoBlank(field)
    ensures ClassifyAll(SplitFrom(Substitute(s), field)) == Scan(s, field)
    decreases |s|
  {
    if |s| == 0 {
      assert Substitute(s) == "";
    } else {
      var c := s[0];
      var y := Substitute(s[1..]);
      assert Substitute(s) == Expand(c) + y;
      if IsBlank(c) {
        LexMatchesScan(s[1..], "");
        SplitAtBlank(c, y, field);
      } else if IsStructural(c) {
        LexMatchesScan(s[1..], "");
        SplitAtStructural(c, y, field);
      } else {
        assert Expand(c) + y == [c] + y;
        assert ([c] + y)[1..] == y;
        LexMatchesScan(s[1..], field + [c]);
      }
    }
  }

  lemma SplitAtBlank(c: char, y: string, field: string)
    requires IsBlank(c)
    ensures ClassifyAll(SplitFrom(Expand(c) + y, field)) == Flush(field) + ClassifyAll(SplitFrom(y, ""))
  {
    assert Expand(c) + y == [c] + y;
    assert ([c] + y)[1..] == y;
    assert SplitFrom(Expand(c) + y, field) == [field] + SplitFrom(SkipBlanks(y), "");
    ClassifyAllAppend([field], SplitFrom(SkipBlanks(y), ""));
    SkipBlanksInvisible(y);
  }

  lemma SplitAtStructural(c: char, y: string, field: string)
    requires IsStructural(c)
    ensures ClassifyAll(SplitFrom(Expand(c) + y, field))
         == Flush(field) + [StructuralToken(c)] + ClassifyAll(SplitFrom(y, ""))
  {
    var m := MarkerOf(c);
    assert Expand(c) + y == [' '] + (m + ([' '] + y));
    SplitAtMarker(m, y, field);
    MarkerClassifies(c);
  }

  /** A marker padded with spaces is one field of its own. */
  lemma SplitAtMarker(m: string, y: string, field: string)
    requires |m| > 0 && m[0] == '*' && NoBlank(m)
    ensures ClassifyAll(SplitFrom([' '] + (m + ([' '] + y)), field))
         == Flush(field) + Flush(m) + ClassifyAll(SplitFrom(y, ""))
  {
    var rest := SplitFrom(SkipBlanks(y), "");
    MarkerFields(m, y, field);
    ClassifyAllAppend([field], [m] + rest);
    ClassifyAllAppend([m], rest);
    ClassifyOne(field);
    ClassifyOne(m);
    SkipBlanksInvisible(y);
    Seqs.Regroup3(Flush(field), Flush(m), ClassifyAll(rest));
  }

  lemma ClassifyOne(frag: string)
    ensures ClassifyAll([frag]) == Flush(frag)
  {
    assert [frag][1..] == [];
    assert Flush(frag) + [] == Flush(frag);
  }

  /** The fields around a padded marker: what was read, the marker, then the
      fields after the blanks that follow it. */
  lemma MarkerFields(m: string, y: string, field: string)
    requires |m| > 0 && m[0] == '*' && NoBlank(m)
    ensures SplitFrom([' '] + (m + ([' '] + y)), field) == [field] + ([m] + SplitFrom(SkipBlanks(y), ""))
  {
    var tail := m + ([' '] + y);
    assert tail[0] == '*';
    FieldAfterBlank(tail, field);
    SplitFromBlankFree(m, [' '] + y, "");
    assert "" + m == m;
    assert ([' '] + y)[1..] == y;
  }

  lemma FieldAfterBlank(tail: string, field: string)
    requires |tail| > 0 && !IsBlank(tail[0])
    ensures SplitFrom([' '] + tail, field) == [field] + SplitFrom(tail, "")
  {
    assert ([' '] + tail)[1..] == tail;
    assert SkipBlanks(tail) == tail;
  }

  // ---------------------------------------------------------------------------
  // Properties of the one-pass reading

  /** A structural character yields its token at its place, whatever surrounds it. */
  lemma {:induction false} ScanAtStructural(a: string, c: char, b: string, field: string)
    requires IsStructural(c)
    ensures Scan(a + [c] + b, field) == Scan(a, field) + [StructuralToken(c)] + Scan(b, "")
    decreases |a|
  {
    var s := a + [c] + b;
    if |a| == 0 {
      assert s == [c] + b;
      assert s[1..] == b;
    } else {
      assert s[0] == a[0];
      assert s[1..] == a[1..] + [c] + b;
      if IsBlank(a[0]) {
        ScanAtStructural(a[1..], c, b, "");
      } else if IsStructural(a[0]) {
        ScanAtStructural(a[1..], c, b, "");
      } else {
        ScanAtStructural(a[1..], c, b, field + [a[0]]);
      }
    }
  }

  /** A blank separates the tokens before it from those after it and yields none. */
  lemma {:induction false} ScanAtBlank(a: string, c: char, b: string, field: string)
    requires IsBlank(c)
    ensures Scan(a + [c] + b, field) == Scan(a, field) + Scan(b, "")
    decreases |a|
  {
    var s := a + [c] + b;
    if |a| == 0 {
      assert s == [c] + b;
      assert s[1..] == b;
    } else {
      assert s[0] == a[0];
      assert s[1..] == a[1..] + [c] + b;
      if IsBlank(a[0]) {
        ScanAtBlank(a[1..], c, b, "");
      } else if IsStructural(a[0]) {
        ScanAtBlank(a[1..], c, b, "");
      } else {
        ScanAtBlank(a[1..], c, b, field + [a[0]]);
      }
    }
  }

  /** A run of plain characters is one fragment. */
  lemma {:induction false} ScanFragment(w: string, field: string)
    requires AllPlain(w)
    ensures Scan(w, field) == Flush(field + w)
    decreases |w|
  {
    if |w| == 0 {
      assert field + w == field;
    } else {
      ScanFragment(w[1..], field + [w[0]]);
      assert field + [w[0]] + w[1..] == field + w;
    }
  }

  /** Nothing is emitted exactly when nothing is pending and the text is all blanks. */
  lemma {:induction false} ScanEmpty(s: string, field: string)
    ensures Scan(s, field) == [] <==> field == "" && AllBlank(s)
    decreases |s|
  {
    if |s| > 0 {
      if IsBlank(s[0]) {
        ScanEmpty(s[1..], "");
        if field == "" && AllBlank(s[1..]) {
          assert AllBlank(s);
        }
      } else if IsStructural(s[0]) {
      } else {
        ScanEmpty(s[1..], field + [s[0]]);
        assert (field + [s[0]]) != "";
      }
    }
  }

  /** A token as the lexer emits it: well formed, and a word or number holds
      neither blanks nor structural characters. */
  predicate CleanToken(t: Token) {
    WellFormedToken(t) && (t.value.Some? ==> AllPlain(t.value.value))
  }

  lemma FlushClean(field: string)
    requires AllPlain(field)
    ensures forall t <- Flush(field) :: CleanToken(t)
  {
  }

  lemma {:induction false} ScanClean(s: string, field: string)
    requires AllPlain(field)
    ensures forall t <- Scan(s, field) :: CleanToken(t)
    decreases |s|
  {
    if |s| == 0 {
      FlushClean(field);
    } else if IsBlank(s[0]) || IsStructural(s[0]) {
      FlushClean(field);
      ScanClean(s[1..], "");
    } else {
      assert AllPlain(field + [s[0]]);
      ScanClean(s[1..], field + [s[0]]);
    }
  }

  function CountLineBreaks(s: string): nat
    decreases |s|
  {
    if |s| == 0 then 0 else (if s[0] == '\n' || s[0] == '\r' then 1 else 0) + CountLineBreaks(s[1..])
  }

  function CountNewlines(ts: seq<Token>): nat
    decreases |ts|
  {
    if |ts| == 0 then 0 else (if ts[0].kind == Newline then 1 else 0) + CountNewlines(ts[1..])
  }

  lemma {:induction false} CountNewlinesAppend(a: seq<Token>, b: seq<Token>)
    ensures CountNewlines(a + b) == CountNewlines(a) + CountNewlines(b)
    decreases |a|
  {
    if |a| == 0 {
      assert a + b == b;
    } else {
      assert (a + b)[1..] == a[1..] + b;
      CountNewlinesAppend(a[1..], b);
    }
  }

  /** Without a literal '*' (so no fragment can spell a marker), the newline
      tokens are exactly the line-break characters: "\r\n" gives two. */
  lemma {:induction false} ScanCountsLineBreaks(s: string, field: string)
    requires '*' !in s && '*' !in field
    ensures CountNewlines(Scan(s, field)) == CountLineBreaks(s)
    decreases |s|
  {
    assert CountNewlines(Flush(field)) == 0;
    if |s| > 0 {
      assert '*' !in s[1..];
      if IsBlank(s[0]) {
        ScanCountsLineBreaks(s[1..], "");
        CountNewlinesAppend(Flush(field), Scan(s[1..], ""));
      } else if IsStructural(s[0]) {
        ScanCountsLineBreaks(s[1..], "");
        CountNewlinesAppend(Flush(field), [StructuralToken(s[0])]);
        CountNewlinesAppend(Flush(field) + [StructuralToken(s[0])], Scan(s[1..], ""));
      } else {
        assert '*' !in field + [s[0]];
        ScanCountsLineBreaks(s[1..], field + [s[0]]);
      }
    }
  }

  // ---------------------------------------------------------------------------
  // The same properties of the lexer itself

  lemma TokensAtStructural(a: string, c: char, b: string)
    requires IsStructural(c)
    ensures Tokens(a + [c] + b) == Tokens(a) + [StructuralToken(c)] + Tokens(b)
  {
    ScanAtStructural(a, c, b, "");
  }

  lemma TokensAtBlank(a: string, c: char, b: string)
    requires IsBlank(c)
    ensures Tokens(a + [c] + b) == Tokens(a) + Tokens(b)
  {
    ScanAtBlank(a, c, b, "");
  }

  /** A non-empty run of plain characters is a single number or word token
      carrying the run verbatim (or, for a marker spelling, its structural token). */
  lemma TokensOfFragment(w: string)
    requires |w| > 0 && AllPlain(w)
    ensures Tokens(w) == [Classify(w).value]
    ensures IsNumeric(w) ==> Tokens(w) == [Token(Number, Some(w))]
    ensures !IsNumeric(w) && !IsMarker(w) ==> Tokens(w) == [Token(Word, Some(w))]
  {
    ScanFragment(w, "");
    assert "" + w == w;
  }

  lemma TokensCountLineBreaks(code: string)
    requires '*' !in code
    ensures CountNewlines(Tokens(code)) == CountLineBreaks(code)
  {
    ScanCountsLineBreaks(code, "");
  }

  /** `[x y]` with digit strings x and y gives ob, number, number, cb: the
      brackets need no surrounding spaces. */
  lemma BracketedPairTokens(x: string, y: string)
    requires IsNumeric(x) && IsNumeric(y)
    ensures Lex(['['] + x + [' '] + y + [']'])
         == Ok([Token(Ob, None), Token(Number, Some(x)), Token(Number, Some(y)), Token(Cb, None)])
  {
    BracketedPairList(x, y);
    LexOfTokens(['['] + x + [' '] + y + [']']);
  }

  lemma BracketedPairList(x: string, y: string)
    requires IsNumeric(x) && IsNumeric(y)
    ensures Tokens(['['] + x + [' '] + y + [']'])
         == [Token(Ob, None), Token(Number, Some(x)), Token(Number, Some(y)), Token(Cb, None)]
  {
    var inner := x + [' '] + y;
    assert ['['] + x + [' '] + y + [']'] == ['['] + inner + [']'];
    BracketTokens(inner);
    PairTokens(x, y);
    Seqs.Four(Token(Ob, None), Token(Number, Some(x)), Token(Number, Some(y)), Token(Cb, None));
  }

  /** When there are tokens, the lexer returns them. */
  lemma LexOfTokens(code: string)
    requires |Tokens(code)| > 0
    ensures Lex(code) == Ok(Tokens(code))
  {
  }

  /** Brackets around a text add their two tokens around its tokens. */
  lemma BracketTokens(inner: string)
    ensures Tokens(['['] + inner + [']']) == [Token(Ob, None)] + Tokens(inner) + [Token(Cb, None)]
  {
    var empty: string := [];
    assert Tokens(empty) == [];
    Seqs.Around('[', inner, ']');
    TokensAtStructural(empty, '[', inner + [']']);
    TokensAtStructural(inner, ']', empty);
    Seqs.Around(Token(Ob, None), Tokens(inner), Token(Cb, None));
  }

  /** Braces need no surrounding spaces either: they add their two tokens
      around the tokens of what they enclose. */
  lemma BraceTokens(inner: string)
    ensures Tokens(['{'] + inner + ['}']) == [Token(Ocb, None)] + Tokens(inner) + [Token(Ccb, None)]
  {
    var empty: string := [];
    assert Tokens(empty) == [];
    Seqs.Around('{', inner, '}');
    TokensAtStructural(empty, '{', inner + ['}']);
    TokensAtStructural(inner, '}', empty);
    Seqs.Around(Token(Ocb, None), Tokens(inner), Token(Ccb, None));
  }

  lemma PairTokens(x: string, y: string)
    requires IsNumeric(x) && IsNumeric(y)
    ensures Tokens(x + [' '] + y) == [Token(Number, Some(x)), Token(Number, Some(y))]
  {
    NumericIsPlain(x);
    NumericIsPlain(y);
    TokensAtBlank(x, ' ', y);
    TokensOfFragment(x);
    TokensOfFragment(y);
  }

  /** Digits are plain characters. */
  lemma NumericIsPlain(x: string)
    requires IsNumeric(x)
    ensures |x| > 0 && AllPlain(x)
  {
    forall i | 0 <= i < |x| ensures IsPlain(x[i]) { assert IsDigit(x[i]); }
  }

  lemma BracketedPair(code: string)
    requires code == "[10 20]"
    ensures Lex(code) == Ok([Token(Ob, None), Token(Number, Some("10")), Token(Number, Some("20")), Token(Cb, None)])
  {
    assert IsNumeric("10") && IsNumeric("20");
    assert code == ['['] + "10" + [' '] + "20" + [']'];
    BracketedPairTokens("10", "20");
  }

  /** A carriage return followed by a line feed gives two newline tokens. */
  lemma CarriageReturnLineFeed(code: string)
    requires code == "\r\n"
    ensures Lex(code) == Ok([Token(Newline, None), Token(Newline, None)])
  {
    var e: string := [];
    var nl := Token(Newline, None);
    assert Tokens(e) == [];
    Seqs.Two('\r', '\n');
    TokensAtStructural(e, '\n', e);
    TokensAtStructural(e, '\r', ['\n']);
    Seqs.Two(nl, nl);
    LexOfTokens(code);
  }
}

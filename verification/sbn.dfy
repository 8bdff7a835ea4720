/** The compiler (src/sbn.ts): source text to SVG text through the lexer, the
    parser, the transformer and the generator, the first failing stage's error
    being the result. */
module Sbn {
  import opened Results
  import opened Types
  import Lexer
  import Parser
  import Transformer
  import Generator
  import Numbers
  import Seqs

  /** Every stage but the last: tokens, the syntax tree, then the SVG tree.
      The first error wins, and only the lexer and the parser produce one. */
  function Translate(code: string): (r: Result<Element, Error>)
    ensures Lexer.Lex(code).Err? ==> r == Err(Lexer.Lex(code).error)
    ensures Lexer.Lex(code).Ok? && Parser.Parse(Lexer.Lex(code).value).Err? ==> r == Err(Parser.Parse(Lexer.Lex(code).value).error)
    ensures r.Err? <==> Lexer.Lex(code).Err? || Parser.Parse(Lexer.Lex(code).value).Err?
    ensures r.Ok? ==> r.value.tag == "svg" && r.value.attrs == Transformer.RootAttrs
  {
    match Lexer.Lex(code)
    case Err(e) => Err(e)
    case Ok(ts) =>
      match Parser.Parse(ts)
      case Err(e) => Err(e)
      case Ok(ast) => Transformer.ParsedProgramsTransform(ts); Transformer.Transform(ast)
  }

  /** Only the lexer and the parser can reject a program: whatever the parser
      accepts, the transformer turns into a tree the generator prints faithfully. */
  lemma FrontEndDecides(code: string)
    ensures Translate(code).Err? <==> Lexer.Lex(code).Err? || Parser.Parse(Lexer.Lex(code).value).Err?
    ensures Translate(code).Ok? ==> Generator.WellTagged(Translate(code).value)
  {
    if Lexer.Lex(code).Ok? && Parser.Parse(Lexer.Lex(code).value).Ok? {
      Transformer.ParsedProgramsTransform(Lexer.Lex(code).value);
      var root := Translate(code).value;
      assert Transformer.Childless(root.body);
      assert Generator.AllWellTagged(root.body) by {
        forall i | 0 <= i < |root.body| ensures Generator.WellTagged(root.body[i]) {
          assert root.body[i].body == [];
        }
      }
    }
  }

  /** `compile`: the four stages in order. */
  method Compile(code: string) returns (r: Result<string, Error>)
    ensures r.Err? <==> Lexer.Lex(code).Err? || Parser.Parse(Lexer.Lex(code).value).Err?
    ensures Lexer.AllBlank(code) ==> r == Err(NoTokens)
    ensures r.Err? ==> Translate(code) == Err(r.error)
    ensures r.Ok? ==> Translate(code).Ok? && r.value == Generator.Serialize(Translate(code).value, 0)
    ensures r.Ok? ==> |r.value| >= 7 && r.value[|r.value| - 7..] == "</svg>\n"
  {
    FrontEndDecides(code);
    match Translate(code)
    case Err(e) =>
      r := Err(e);
    case Ok(root) =>
      var text := Generator.Generate(root);
      SvgText(code, root, text);
      r := Ok(text);
  }

  /** The text of a translated program ends with the root's closing tag. */
  lemma SvgText(code: string, root: Element, text: string)
    requires Translate(code) == Ok(root) && text == Generator.Serialize(root, 0)
    ensures |text| >= 7 && text[|text| - 7..] == "</svg>\n"
  {
    TranslatedTag(code);
    ClosingSvg(root, text);
  }

  lemma TranslatedTag(code: string)
    requires Translate(code).Ok?
    ensures Translate(code).value.tag == "svg"
  {
  }

  lemma ClosingSvg(root: Element, text: string)
    requires root.tag == "svg" && text == Generator.Serialize(root, 0)
    ensures |text| >= 7 && text[|text| - 7..] == "</svg>\n"
  {
    Generator.EndsWithClose(root, 0);
    assert Generator.CloseTag("svg") == "</svg>\n";
  }

  // ---------------------------------------------------------------------------
  // Whole programs

  /** A command word followed by a number lexes to a word and a number token. */
  lemma WordThenNumber(w: string, x: string)
    requires |w| > 0 && Lexer.AllPlain(w) && w[0] != '*' && !Numbers.IsNumeric(w)
    requires Numbers.IsNumeric(x) && Lexer.AllPlain(x)
    ensures Lexer.Lex(w + [' '] + x) == Ok([Token(Word, Some(w)), Token(Number, Some(x))])
  {
    Lexer.TokensAtBlank(w, ' ', x);
    Lexer.TokensOfFragment(w);
    Lexer.TokensOfFragment(x);
    assert !Lexer.IsMarker(w);
    assert Lexer.Tokens(w + [' '] + x) == [Token(Word, Some(w)), Token(Number, Some(x))];
  }

  lemma LapizIsPlain(w: string)
    requires w == "Lapiz"
    ensures |w| > 0 && Lexer.AllPlain(w) && w[0] != '*' && !Numbers.IsNumeric(w)
  {
    assert !Numbers.IsDigit(w[0]);
  }

  /** `Lapiz x` parses to the one pen command. */
  lemma PenOnlyParses(x: string)
    ensures Parser.Parse([Token(Word, Some("Lapiz")), Token(Number, Some(x))])
         == Ok(Drawing([Call("Lapiz", [Leaf(Number, Some(x))])]))
  {
    var ts := [Token(Word, Some("Lapiz")), Token(Number, Some(x))];
    var call := Call("Lapiz", [Leaf(Number, Some(x))]);
    Parser.UncheckedCommand("Lapiz", 1, ts[1..], false);
    assert ts[1..][..1] == [ts[1]] && ts[1..][1..] == [];
    assert Parser.Leaves([ts[1]]) == [Leaf(Number, Some(x))];
    assert Parser.ParseWord(Some("Lapiz"), ts[1..], false) == Ok(Parser.Step([call], [], false));
    assert Parser.ParseLoop(ts, false, []) == Parser.ParseLoop([], false, [] + [call]);
    assert [] + [call] == [call];
  }

  /** Choosing a pen draws nothing: the root alone comes out. */
  lemma PenOnlyTransforms(x: string)
    ensures Transformer.Transform(Drawing([Call("Lapiz", [Leaf(Number, Some(x))])]))
         == Ok(Element("svg", Transformer.RootAttrs, []))
  {
    var call := Call("Lapiz", [Leaf(Number, Some(x))]);
    var st := Transformer.Initial.(pen := Str(x));
    assert Transformer.Apply(Transformer.Initial, call) == Ok(st);
    assert [call][1..] == [];
    assert Transformer.Run(Transformer.Initial, [call]) == Ok(st);
  }

  /** The root with no children prints on a single line. */
  lemma BareRootText(root: Element)
    requires root == Element("svg", Transformer.RootAttrs, [])
    ensures Generator.Serialize(root, 0) == Generator.OpenTag(root) + "</svg>\n"
  {
    assert Generator.Indent(0) == "";
    assert Generator.CloseTag("svg") == "</svg>\n";
    assert "" + Generator.OpenTag(root) == Generator.OpenTag(root);
  }

  /** A program that never draws, such as `Lapiz 50`, compiles to the bare
      root: its opening tag and its closing tag. */
  lemma PenOnlyProgram(w: string, x: string)
    requires w == "Lapiz" && Numbers.IsNumeric(x)
    ensures Translate(w + [' '] + x) == Ok(Element("svg", Transformer.RootAttrs, []))
    ensures Generator.Serialize(Translate(w + [' '] + x).value, 0)
            == Generator.OpenTag(Element("svg", Transformer.RootAttrs, [])) + "</svg>\n"
  {
    LapizIsPlain(w);
    assert Lexer.AllPlain(x) by {
      forall i | 0 <= i < |x| ensures Lexer.IsPlain(x[i]) { assert Numbers.IsDigit(x[i]); }
    }
    WordThenNumber(w, x);
    PenOnlyParses(x);
    PenOnlyTransforms(x);
    BareRootText(Element("svg", Transformer.RootAttrs, []));
  }

  /** A word that is not a command, such as `Foo 1`, fails in the parser. */
  lemma UnknownCommandProgram(w: string, x: string)
    requires w == "Foo" && Numbers.IsNumeric(x)
    ensures Translate(w + [' '] + x) == Err(UnknownCommand(Some(w)))
  {
    assert !Numbers.IsDigit(w[0]);
    assert Lexer.AllPlain(x) by {
      forall i | 0 <= i < |x| ensures Lexer.IsPlain(x[i]) { assert Numbers.IsDigit(x[i]); }
    }
    WordThenNumber(w, x);
    var ts := [Token(Word, Some(w)), Token(Number, Some(x))];
    assert Parser.ParseWord(Some(w), ts[1..], false) == Err(UnknownCommand(Some(w)));
  }

  // ---------------------------------------------------------------------------
  // Programs of command lines

  /** One source line: a command word and its numeric arguments. */
  datatype Command = Command(name: string, args: seq<string>)

  /** A fragment followed by the arguments, each after one space. */
  function Spaced(first: string, args: seq<string>): string
    decreases |args|
  {
    if |args| == 0 then first else first + [' '] + Spaced(args[0], args[1..])
  }

  /** Lines of commands, one per line. */
  function SourceText(cs: seq<Command>): string
    requires |cs| > 0
    decreases |cs|
  {
    var line := Spaced(cs[0].name, cs[0].args);
    if |cs| == 1 then line else line + ['\n'] + SourceText(cs[1..])
  }

  function NumberTokens(args: seq<string>): (ts: seq<Token>)
    ensures |ts| == |args|
    ensures forall i :: 0 <= i < |args| ==> ts[i] == Token(Number, Some(args[i]))
    decreases |args|
  {
    if |args| == 0 then [] else [Token(Number, Some(args[0]))] + NumberTokens(args[1..])
  }

  function CommandTokens(c: Command): seq<Token> {
    [Token(Word, Some(c.name))] + NumberTokens(c.args)
  }

  /** The tokens of SourceText(cs): each command's, a newline between two. */
  function TokensOf(cs: seq<Command>): seq<Token>
    requires |cs| > 0
    decreases |cs|
  {
    if |cs| == 1 then CommandTokens(cs[0])
    else CommandTokens(cs[0]) + [Token(Newline, None)] + TokensOf(cs[1..])
  }

  /** The calls a list of commands stands for, in order. */
  function Calls(cs: seq<Command>): (ns: seq<Node>)
    ensures |ns| == |cs|
  {
    seq(|cs|, i requires 0 <= i < |cs| => Call(cs[i].name, Parser.Leaves(NumberTokens(cs[i].args))))
  }

  /** A command the lexer reads as one word and then numbers. */
  predicate Lexable(c: Command) {
    |c.name| > 0 && Lexer.AllPlain(c.name) && c.name[0] != '*' && !Numbers.IsNumeric(c.name)
    && forall a <- c.args :: Numbers.IsNumeric(a)
  }

  /** A command the parser accepts; `Papel` only where no paper exists yet. */
  predicate Parsable(c: Command, paperAllowed: bool) {
    (c.name == "Lapiz" && |c.args| == 1) || (c.name == "Linea" && |c.args| == 4)
    || (paperAllowed && c.name == "Papel" && |c.args| == 1)
  }

  lemma {:induction false} SpacedTokens(first: string, args: seq<string>)
    requires forall a <- args :: Numbers.IsNumeric(a)
    ensures Lexer.Tokens(Spaced(first, args)) == Lexer.Tokens(first) + NumberTokens(args)
    decreases |args|
  {
    if |args| == 0 {
      assert NumberTokens(args) == [];
    } else {
      var rest := Spaced(args[0], args[1..]);
      assert Spaced(first, args) == first + [' '] + rest;
      Lexer.TokensAtBlank(first, ' ', rest);
      SpacedTokens(args[0], args[1..]);
      Lexer.NumericIsPlain(args[0]);
      Lexer.TokensOfFragment(args[0]);
    }
  }

  lemma {:induction false} SourceTokens(cs: seq<Command>)
    requires |cs| > 0 && forall c <- cs :: Lexable(c)
    ensures Lexer.Tokens(SourceText(cs)) == TokensOf(cs)
    decreases |cs|
  {
    var c := cs[0];
    assert Lexable(c);
    SpacedTokens(c.name, c.args);
    Lexer.TokensOfFragment(c.name);
    assert !Lexer.IsMarker(c.name);
    if |cs| > 1 {
      Lexer.TokensAtStructural(Spaced(c.name, c.args), '\n', SourceText(cs[1..]));
      SourceTokens(cs[1..]);
    }
  }

  /** Every line of plain commands lexes to its word and then its numbers,
      with one newline token between lines. */
  lemma LexCommands(cs: seq<Command>)
    requires |cs| > 0 && forall c <- cs :: Lexable(c)
    ensures Lexer.Lex(SourceText(cs)) == Ok(TokensOf(cs))
  {
    SourceTokens(cs);
  }

  lemma ParseCommandLine(name: string, n: nat, args: seq<Token>, more: seq<Token>, paper: bool, body: seq<Node>)
    requires (name == "Papel" && n == 1 && !paper) || (name == "Lapiz" && n == 1) || (name == "Linea" && n == 4)
    requires |args| == n && forall t <- args :: t.kind == Number
    ensures Parser.ParseLoop([Token(Word, Some(name))] + args + more, paper, body)
         == Parser.ParseLoop(more, paper || name == "Papel", body + [Call(name, Parser.Leaves(args))])
  {
    var ts := [Token(Word, Some(name))] + args + more;
    assert ts[1..] == args + more;
    assert (args + more)[..n] == args && (args + more)[n..] == more;
    Parser.UncheckedCommand(name, n, args + more, paper);
  }

  /** Lines of valid commands parse to their calls, in order. */
  lemma {:induction false} ParseCommands(cs: seq<Command>, paper: bool, body: seq<Node>)
    requires |cs| > 0 && forall i :: 0 <= i < |cs| ==> Parsable(cs[i], i == 0 && !paper)
    ensures Parser.ParseLoop(TokensOf(cs), paper, body) == Ok(body + Calls(cs))
    decreases |cs|
  {
    var c := cs[0];
    assert Parsable(c, !paper);
    var args := NumberTokens(c.args);
    var call := Call(c.name, Parser.Leaves(args));
    var after := paper || c.name == "Papel";
    assert Calls(cs) == [call] + Calls(cs[1..]);
    if |cs| == 1 {
      assert TokensOf(cs) == [Token(Word, Some(c.name))] + args + [];
      ParseCommandLine(c.name, |c.args|, args, [], paper, body);
      assert Calls(cs) == [call];
    } else {
      var more := [Token(Newline, None)] + TokensOf(cs[1..]);
      assert TokensOf(cs) == [Token(Word, Some(c.name))] + args + more;
      ParseCommandLine(c.name, |c.args|, args, more, paper, body);
      assert more[1..] == TokensOf(cs[1..]);
      assert Parser.ParseLoop(more, after, body + [call]) == Parser.ParseLoop(TokensOf(cs[1..]), after, body + [call]);
      forall i | 0 <= i < |cs[1..]| ensures Parsable(cs[1..][i], i == 0 && !after) {
        assert Parsable(cs[i + 1], false);
      }
      ParseCommands(cs[1..], after, body + [call]);
      Seqs.Regroup3(body, [call], Calls(cs[1..]));
    }
  }

  lemma ParseProgram(cs: seq<Command>)
    requires |cs| > 0 && forall i :: 0 <= i < |cs| ==> Parsable(cs[i], i == 0)
    ensures Parser.Parse(TokensOf(cs)) == Ok(Drawing(Calls(cs)))
  {
    ParseCommands(cs, false, []);
    assert [] + Calls(cs) == Calls(cs);
  }

  /** A program of valid command lines is a drawing of its calls, and never
      fails after parsing. */
  lemma CommandProgram(cs: seq<Command>)
    requires |cs| > 0 && forall c <- cs :: Lexable(c)
    requires forall i :: 0 <= i < |cs| ==> Parsable(cs[i], i == 0)
    ensures Translate(SourceText(cs)) == Transformer.Transform(Drawing(Calls(cs)))
    ensures Translate(SourceText(cs)).Ok?
  {
    LexCommands(cs);
    ParseProgram(cs);
    TranslateStages(SourceText(cs), TokensOf(cs), Drawing(Calls(cs)));
  }

  lemma TranslateStages(code: string, ts: seq<Token>, ast: Node)
    requires Lexer.Lex(code) == Ok(ts) && Parser.Parse(ts) == Ok(ast)
    ensures Translate(code) == Transformer.Transform(ast)
    ensures Translate(code).Ok?
  {
    Transformer.ParsedProgramsTransform(ts);
  }

  // ---------------------------------------------------------------------------
  // The demonstration drawing (src/main.ts): a white sheet and a black square

  const Demo: seq<Command> := [
    Command("Papel", ["0"]),
    Command("Lapiz", ["100"]),
    Command("Linea", ["10", "90", "90", "90"]),
    Command("Linea", ["90", "10", "90", "90"]),
    Command("Linea", ["10", "10", "90", "10"]),
    Command("Linea", ["10", "10", "10", "90"])]

  lemma DemoIsValid()
    ensures forall c <- Demo :: Lexable(c)
    ensures forall i :: 0 <= i < |Demo| ==> Parsable(Demo[i], i == 0)
  {
    CommandWord("Papel");
    CommandWord("Lapiz");
    CommandWord("Linea");
  }

  lemma CommandWord(w: string)
    requires w == "Papel" || w == "Lapiz" || w == "Linea"
    ensures |w| > 0 && Lexer.AllPlain(w) && w[0] != '*' && !Numbers.IsNumeric(w)
  {
    assert !Numbers.IsDigit(w[0]);
  }

  function NumberLeaf(x: string): Node {
    Leaf(Number, Some(x))
  }

  /** The call of a one-argument and of a four-argument command line. */
  lemma OneCall(c: Command, x: string)
    requires c.args == [x]
    ensures Call(c.name, Parser.Leaves(NumberTokens(c.args))) == Call(c.name, [NumberLeaf(x)])
  {
    var ls := Parser.Leaves(NumberTokens(c.args));
    assert |ls| == 1 && ls[0] == NumberLeaf(x);
    assert ls == [NumberLeaf(x)];
  }

  lemma FourCall(c: Command, x1: string, y1: string, x2: string, y2: string)
    requires c.args == [x1, y1, x2, y2]
    ensures Call(c.name, Parser.Leaves(NumberTokens(c.args)))
         == Call(c.name, [NumberLeaf(x1), NumberLeaf(y1), NumberLeaf(x2), NumberLeaf(y2)])
  {
    var ls := Parser.Leaves(NumberTokens(c.args));
    assert |ls| == 4;
    assert ls[0] == NumberLeaf(x1) && ls[1] == NumberLeaf(y1) && ls[2] == NumberLeaf(x2) && ls[3] == NumberLeaf(y2);
    assert ls == [NumberLeaf(x1), NumberLeaf(y1), NumberLeaf(x2), NumberLeaf(y2)];
  }

  lemma DemoCalls()
    ensures |Calls(Demo)| == 6
    ensures Calls(Demo)[0] == Call("Papel", [NumberLeaf("0")])
    ensures Calls(Demo)[1] == Call("Lapiz", [NumberLeaf("100")])
    ensures Calls(Demo)[2] == Call("Linea", [NumberLeaf("10"), NumberLeaf("90"), NumberLeaf("90"), NumberLeaf("90")])
    ensures Calls(Demo)[3] == Call("Linea", [NumberLeaf("90"), NumberLeaf("10"), NumberLeaf("90"), NumberLeaf("90")])
    ensures Calls(Demo)[4] == Call("Linea", [NumberLeaf("10"), NumberLeaf("10"), NumberLeaf("90"), NumberLeaf("10")])
    ensures Calls(Demo)[5] == Call("Linea", [NumberLeaf("10"), NumberLeaf("10"), NumberLeaf("10"), NumberLeaf("90")])
  {
    OneCall(Demo[0], "0");
    OneCall(Demo[1], "100");
    FourCall(Demo[2], "10", "90", "90", "90");
    FourCall(Demo[3], "90", "10", "90", "90");
    FourCall(Demo[4], "10", "10", "90", "10");
    FourCall(Demo[5], "10", "10", "10", "90");
  }

  lemma DemoNumbers()
    ensures Transformer.FlipY(Str("90")) == Num(10)
    ensures Transformer.FindParamValue(NumberLeaf("0"), map[]) == Str("0")
    ensures Transformer.FindParamValue(NumberLeaf("10"), map[]) == Str("10")
    ensures Transformer.FindParamValue(NumberLeaf("90"), map[]) == Str("90")
    ensures Transformer.FindParamValue(NumberLeaf("100"), map[]) == Str("100")
  {
    assert Numbers.DigitsValue("9") == 9;
    assert "90"[..1] == "9";
    assert Numbers.DigitsValue("90") == 90;
  }

  lemma RunStep(st: Transformer.State, ns: seq<Node>)
    requires |ns| > 0 && Transformer.Apply(st, ns[0]).Ok?
    ensures Transformer.Run(st, ns) == Transformer.Run(Transformer.Apply(st, ns[0]).value, ns[1..])
  {
  }

  lemma DemoPaper(rect: Element)
    requires rect == Transformer.Rect([NumberLeaf("0")], map[]).value
    ensures Transformer.Apply(Transformer.Initial, Call("Papel", [NumberLeaf("0")]))
         == Ok(Transformer.State(map[], Undef, [rect]))
  {
    var ps := [NumberLeaf("0")];
    assert Transformer.Build("Papel", ps, Undef, map[]) == Transformer.Rect(ps, map[]);
    Transformer.DrawStep(Transformer.Initial, "Papel", ps);
    assert [] + [rect] == [rect];
  }

  lemma DemoPen(drawn: seq<Element>)
    ensures Transformer.Apply(Transformer.State(map[], Undef, drawn), Call("Lapiz", [NumberLeaf("100")]))
         == Ok(Transformer.State(map[], Str("100"), drawn))
  {
    DemoNumbers();
  }

  lemma DemoLine(rect: Element, ps: seq<Node>, line: Element)
    requires |ps| == 4 && line == Transformer.Line(ps, Str("100"), map[]).value
    ensures Transformer.Apply(Transformer.State(map[], Str("100"), [rect]), Call("Linea", ps))
         == Ok(Transformer.State(map[], Str("100"), [rect, line]))
  {
    var st := Transformer.State(map[], Str("100"), [rect]);
    assert Transformer.Build("Linea", ps, st.pen, st.vars) == Transformer.Line(ps, st.pen, st.vars);
    Transformer.DrawStep(st, "Linea", ps);
    assert [rect] + [line] == [rect, line];
  }

  /** The sheet, the pen and the first line of the demonstration. */
  lemma DemoFirstSteps(ns: seq<Node>, rect: Element, line: Element)
    requires ns == Calls(Demo)
    requires rect == Transformer.Rect([NumberLeaf("0")], map[]).value
    requires line == Transformer.Line([NumberLeaf("10"), NumberLeaf("90"), NumberLeaf("90"), NumberLeaf("90")], Str("100"), map[]).value
    ensures Transformer.Run(Transformer.Initial, ns)
         == Transformer.Run(Transformer.State(map[], Str("100"), [rect, line]), ns[3..])
  {
    DemoCalls();
    var st1 := Transformer.State(map[], Undef, [rect]);
    var st2 := Transformer.State(map[], Str("100"), [rect]);
    DemoPaper(rect);
    DemoPen([rect]);
    DemoLine(rect, [NumberLeaf("10"), NumberLeaf("90"), NumberLeaf("90"), NumberLeaf("90")], line);
    RunStep(Transformer.Initial, ns);
    assert ns[1..][0] == ns[1] && ns[2..][0] == ns[2];
    RunStep(st1, ns[1..]);
    assert ns[1..][1..] == ns[2..] && ns[2..][1..] == ns[3..];
    RunStep(st2, ns[2..]);
  }

  /** Lines only: one "line" per call. */
  lemma {:induction false} LineTags(ns: seq<Node>)
    requires forall i :: 0 <= i < |ns| ==> ns[i].Call? && ns[i].name == "Linea"
    ensures |Transformer.DrawTags(ns)| == |ns|
    ensures forall i :: 0 <= i < |ns| ==> Transformer.DrawTags(ns)[i] == "line"
    decreases |ns|
  {
    if |ns| > 0 {
      LineTags(ns[1..]);
      assert Transformer.DrawnBy(ns[0]) == ["line"];
    }
  }

  lemma DemoTags()
    ensures var t := Transformer.DrawTags(Calls(Demo));
      |t| == 5 && t[0] == "rect" && forall i :: 1 <= i < 5 ==> t[i] == "line"
  {
    DemoCalls();
    var ns := Calls(Demo);
    var rest := ns[2..];
    forall i | 0 <= i < |rest| ensures rest[i].Call? && rest[i].name == "Linea" {
      assert rest[i] == ns[i + 2];
    }
    LineTags(rest);
    assert Transformer.DrawnBy(ns[0]) == ["rect"];
    assert Transformer.DrawnBy(ns[1]) == [];
    assert ns[1..][1..] == rest;
    assert Transformer.DrawTags(ns[1..]) == Transformer.DrawTags(rest);
    assert Transformer.DrawTags(ns) == ["rect"] + Transformer.DrawTags(rest);
  }

  /** The rectangle's and the first line's attributes. */
  lemma DemoElements(rect: Element, line: Element)
    requires rect == Transformer.Rect([NumberLeaf("0")], map[]).value
    requires line == Transformer.Line([NumberLeaf("10"), NumberLeaf("90"), NumberLeaf("90"), NumberLeaf("90")], Str("100"), map[]).value
    ensures |rect.attrs| == 5 && rect.attrs[4] == Attr("fill", Str(Transformer.Gray("100")))
    ensures line.attrs == [Attr("x1", Str("10")), Attr("y1", Num(10)), Attr("x2", Str("90")), Attr("y2", Num(10)),
                           Attr("stroke", Str(Transformer.Gray("0"))), Attr("stroke-linecap", Str("round"))]
  {
    DemoNumbers();
    Transformer.Greys();
  }

  /** Tags of five elements: the sheet, then lines. */
  lemma SheetThenLines(body: seq<Element>, t: seq<string>)
    requires Transformer.Tags(body) == t
    requires |t| == 5 && t[0] == "rect" && forall i :: 1 <= i < 5 ==> t[i] == "line"
    ensures |body| == 5 && body[0].tag == "rect" && forall i :: 1 <= i < 5 ==> body[i].tag == "line"
  {
    assert forall i :: 0 <= i < |body| ==> Transformer.Tags(body)[i] == body[i].tag;
  }

  /** The tree the demonstration's statements transform into. */
  lemma DemoTree(root: Element)
    requires Transformer.Transform(Drawing(Calls(Demo))) == Ok(root)
    ensures |root.body| == 5 && root.body[0].tag == "rect" && (forall i :: 1 <= i < 5 ==> root.body[i].tag == "line")
    ensures |root.body[0].attrs| == 5 && root.body[0].attrs[4] == Attr("fill", Str(Transformer.Gray("100")))
    ensures root.body[1].attrs == [Attr("x1", Str("10")), Attr("y1", Num(10)), Attr("x2", Str("90")), Attr("y2", Num(10)),
                                   Attr("stroke", Str(Transformer.Gray("0"))), Attr("stroke-linecap", Str("round"))]
  {
    var ns := Calls(Demo);
    DemoTags();
    SheetThenLines(root.body, Transformer.DrawTags(ns));
    var rect := Transformer.Rect([NumberLeaf("0")], map[]).value;
    var line := Transformer.Line([NumberLeaf("10"), NumberLeaf("90"), NumberLeaf("90"), NumberLeaf("90")], Str("100"), map[]).value;
    DemoFirstSteps(ns, rect, line);
    DemoElements(rect, line);
    var st3 := Transformer.State(map[], Str("100"), [rect, line]);
    assert Transformer.Run(Transformer.Initial, ns).Ok?;
    Transformer.RunAppends(st3, ns[3..]);
    assert root.body == Transformer.Run(st3, ns[3..]).value.drawn;
    assert root.body[0] == rect && root.body[1] == line;
  }

  /** The demonstration drawing compiles to the white sheet and then four
      lines, the first from (10, 10) to (90, 10) in SVG coordinates, drawn in
      black. */
  lemma DemoProgram()
    ensures Translate(SourceText(Demo)).Ok?
    ensures var body := Translate(SourceText(Demo)).value.body;
      |body| == 5 && body[0].tag == "rect" && (forall i :: 1 <= i < 5 ==> body[i].tag == "line")
      && |body[0].attrs| == 5 && body[0].attrs[4] == Attr("fill", Str(Transformer.Gray("100")))
      && body[1].attrs == [Attr("x1", Str("10")), Attr("y1", Num(10)), Attr("x2", Str("90")), Attr("y2", Num(10)),
                           Attr("stroke", Str(Transformer.Gray("0"))), Attr("stroke-linecap", Str("round"))]
  {
    DemoIsValid();
    CommandProgram(Demo);
    DemoTree(Translate(SourceText(Demo)).value);
  }
}

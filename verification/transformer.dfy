/** The transformer (src/compiler/transformer.ts): walks the statements of a
    drawing once, keeping the variables and the current pen, and turns every
    `Papel` into a `rect` and every `Linea` into a `line` of an `svg` root. */
module Transformer {
  import opened Results
  import opened Types
  import opened Numbers
  import Parser

  // ---------------------------------------------------------------------------
  // Values

  /** What a node carries in its `value` field: a token's text or a comment's
      text; any other node carries nothing. */
  function NodeValue(n: Node): Val {
    match n
    case Leaf(_, Some(s)) => Str(s)
    case Comment(t) => Str(t)
    case _ => Undef
  }

  /** A word with text names a variable. */
  predicate NamesVariable(p: Node) {
    p.Leaf? && p.kind == Word && p.payload.Some? && p.payload.value != ""
  }

  /** The value of a parameter: a variable's value (undefined when unset) for a
      word, the node's own value otherwise. */
  function FindParamValue(p: Node, vars: VarMap): (v: Val)
    ensures NamesVariable(p) && p.payload.value in vars ==> v == vars[p.payload.value]
    ensures NamesVariable(p) && p.payload.value !in vars ==> v.Undef?
    ensures !NamesVariable(p) ==> v == NodeValue(p)
  {
    if NamesVariable(p) then
      if p.payload.value in vars then vars[p.payload.value] else Undef
    else NodeValue(p)
  }

  /** The conversion to a number used for the y coordinates: the empty string
      is 0, a digit string its value; anything else is not a number. */
  function JsNumber(v: Val): (r: Option<int>)
    ensures v.Num? ==> r == Some(v.n)
    ensures v.NaN? || v.Undef? ==> r.None?
    ensures v.Str? ==> (r.Some? <==> v.s == "" || IsNumeric(v.s))
    ensures v.Str? && v.s == "" ==> r == Some(0)
    ensures v.Str? && r.Some? && v.s != "" ==> r == Level(v)
  {
    match v
    case Str(s) => ToNumber(s)
    case Num(n) => Some(n)
    case NaN => None
    case Undef => None
  }

  /** The y flip: the language's y axis points up, SVG's points down. */
  function FlipY(v: Val): (r: Val)
    ensures r.Num? || r.NaN?
    ensures r.Num? <==> JsNumber(v).Some?
    ensures r.Num? ==> r.n + JsNumber(v).value == 100
  {
    match JsNumber(v)
    case Some(n) => Num(100 - n)
    case None => NaN
  }

  // ---------------------------------------------------------------------------
  // Colours

  /** The grey level a colour is made from: an unset level counts as 100, text
      is read as a decimal integer, anything else is not a number. */
  function Level(level: Val): (r: Option<int>)
    ensures level.Undef? ==> r == Some(100)
    ensures level.Num? ==> r == Some(level.n)
    ensures level.NaN? ==> r.None?
    ensures level.Str? ==> (r.Some? <==> IsNumeric(level.s))
    ensures level.Str? && r.Some? ==> r.value >= 0 && IntToString(r.value) == StripZeros(level.s)
  {
    match level
    case Undef => Some(100)
    case Str(s) => ParseInt(s)
    case Num(n) => Some(n)
    case NaN => None
  }

  predicate NoPercent(s: string) {
    forall i :: 0 <= i < |s| ==> s[i] != '%'
  }

  /** A grey: the same percentage for red, green and blue. Its red part, read
      up to the first `%`, gives the percentage back when that holds no `%`. */
  function Gray(percent: string): (r: string)
    ensures |r| >= 4 && r[..4] == "rgb("
    ensures NoPercent(percent) ==> r[4..][..IndexOf(r[4..], '%')] == percent
  {
    var r := "rgb(" + percent + "%, " + percent + "%, " + percent + "%)";
    var body := r[4..];
    assert body == percent + ("%, " + percent + "%, " + percent + "%)");
    assert body[|percent|] == '%';
    assert forall i :: 0 <= i < |percent| ==> body[i] == percent[i];
    r
  }

  /** A colour of the form `rgb(p%, p%, p%)` for the percentage text `p` that
      its red part holds. */
  predicate IsGray(c: string) {
    |c| >= 4 && c == Gray(c[4..][..IndexOf(c[4..], '%')])
  }

  /** The colour of a level: 0 is white, 100 is black. It is always a grey, and
      the level can be read back from it. */
  function MakeColor(level: Val): (r: string)
    ensures IsGray(r)
    ensures LevelOfColor(r) == Level(level)
    ensures Level(level).None? ==> r == Gray("NaN")
  {
    match Level(level)
    case Some(n) =>
      IntColor(100 - n);
      assert 100 - (100 - n) == n;
      Gray(IntToString(100 - n))
    case None => NaNColor(); Gray("NaN")
  }

  // The inverse of MakeColor: reads the level back from a colour.

  /** The index of the first `c` in `s`, or the length when there is none. */
  function IndexOf(s: string, c: char): (k: nat)
    ensures k <= |s|
    ensures k < |s| ==> s[k] == c
    ensures forall i :: 0 <= i < k ==> s[i] != c
    decreases |s|
  {
    if |s| == 0 || s[0] == c then 0 else 1 + IndexOf(s[1..], c)
  }

  /** A decimal integer with an optional minus sign. */
  function SignedDigits(t: string): Option<int> {
    if |t| > 0 && t[0] == '-' then
      if IsNumeric(t[1..]) then Some(-(DigitsValue(t[1..]) as int)) else None
    else if IsNumeric(t) then Some(DigitsValue(t))
    else None
  }

  /** An integer as the host language prints it: a signed decimal with no
      redundant leading zero and no `-0`. Any other text is rejected. */
  function SignedValue(t: string): (r: Option<int>)
    ensures r.Some? ==> IntToString(r.value) == t
  {
    match SignedDigits(t)
    case Some(v) => if IntToString(v) == t then Some(v) else None
    case None => None
  }

  /** The level a grey colour was made from, or None when its red part is not
      an integer. */
  function LevelOfColor(c: string): Option<int> {
    if |c| < 4 || c[..4] != "rgb(" then None
    else
      var k := IndexOf(c[4..], '%');
      match SignedValue(c[4..][..k])
      case Some(p) => Some(100 - p)
      case None => None
  }

  lemma SignedValueOfInt(i: int)
    ensures SignedValue(IntToString(i)) == Some(i)
  {
    var t := IntToString(i);
    if i >= 0 {
      assert t[0] != '-' by { assert IsDigit(t[0]); }
    }
    assert SignedDigits(t) == Some(i);
  }

  /** A grey is determined by the level read back from it: two greys with the
      same level are the same text. With `MakeColor`'s contract this fixes its
      result for every level. */
  lemma GrayOfLevel(c: string, d: string)
    requires IsGray(c) && IsGray(d) && LevelOfColor(c).Some? && LevelOfColor(c) == LevelOfColor(d)
    ensures c == d
  {
    var p := c[4..][..IndexOf(c[4..], '%')];
    var q := d[4..][..IndexOf(d[4..], '%')];
    assert c[..4] == "rgb(" && d[..4] == "rgb(";
    var u, v := SignedValue(p).value, SignedValue(q).value;
    assert 100 - u == 100 - v;
    assert p == IntToString(u) == IntToString(v) == q;
  }

  /** The grey of an integer percentage gives the integer back. */
  lemma IntColor(p: int)
    ensures IsGray(Gray(IntToString(p)))
    ensures LevelOfColor(Gray(IntToString(p))) == Some(100 - p)
  {
    SignedValueOfInt(p);
  }

  lemma NaNColor()
    ensures IsGray(Gray("NaN"))
    ensures LevelOfColor(Gray("NaN")) == None
  {
    assert NoPercent("NaN");
    assert !IsNumeric("NaN") by { assert !IsDigit("NaN"[0]); }
  }

  // ---------------------------------------------------------------------------
  // Elements

  /** Every element is drawn in a 100 x 100 view box. */
  const RootAttrs: seq<Attr> := [
    Attr("width", Num(100)), Attr("height", Num(100)), Attr("viewBox", Str("0 0 100 100")),
    Attr("xmlns", Str("http://www.w3.org/2000/svg")), Attr("version", Str("1.1"))]

  function Keys(attrs: seq<Attr>): seq<string> {
    seq(|attrs|, i requires 0 <= i < |attrs| => attrs[i].key)
  }

  lemma KeysOfFive(attrs: seq<Attr>)
    requires |attrs| == 5
    ensures Keys(attrs) == [attrs[0].key, attrs[1].key, attrs[2].key, attrs[3].key, attrs[4].key]
  {
  }

  lemma KeysOfSix(attrs: seq<Attr>)
    requires |attrs| == 6
    ensures Keys(attrs) == [attrs[0].key, attrs[1].key, attrs[2].key, attrs[3].key, attrs[4].key, attrs[5].key]
  {
  }

  /** `Linea x1 y1 x2 y2`: a round-capped line in the pen's colour, with the y
      coordinates flipped. A missing parameter fails, naming the first index
      that is missing. */
  function Line(params: seq<Node>, pen: Val, vars: VarMap): (r: Result<Element, Error>)
    ensures r.Err? <==> |params| < 4
    ensures r.Err? ==> r.error == MissingParameter("Linea", |params|)
    ensures r.Ok? ==> r.value.tag == "line" && r.value.body == []
    ensures r.Ok? ==> |r.value.attrs| == 6 && Keys(r.value.attrs) == ["x1", "y1", "x2", "y2", "stroke", "stroke-linecap"]
    ensures r.Ok? ==> (r.value.attrs[0].val == FindParamValue(params[0], vars)
                       && r.value.attrs[2].val == FindParamValue(params[2], vars))
    ensures r.Ok? ==> (r.value.attrs[1].val == FlipY(FindParamValue(params[1], vars))
                       && r.value.attrs[3].val == FlipY(FindParamValue(params[3], vars)))
    ensures r.Ok? ==> r.value.attrs[4] == Attr("stroke", Str(MakeColor(pen)))
    ensures r.Ok? ==> r.value.attrs[4].val.Str? && IsGray(r.value.attrs[4].val.s)
    ensures r.Ok? ==> r.value.attrs[4].val.Str? && LevelOfColor(r.value.attrs[4].val.s) == Level(pen)
    ensures r.Ok? ==> r.value.attrs[5] == Attr("stroke-linecap", Str("round"))
  {
    if |params| < 4 then Err(MissingParameter("Linea", |params|))
    else
      var attrs := [
        Attr("x1", FindParamValue(params[0], vars)),
        Attr("y1", FlipY(FindParamValue(params[1], vars))),
        Attr("x2", FindParamValue(params[2], vars)),
        Attr("y2", FlipY(FindParamValue(params[3], vars))),
        Attr("stroke", Str(MakeColor(pen))),
        Attr("stroke-linecap", Str("round"))];
      KeysOfSix(attrs);
      Ok(Element("line", attrs, []))
  }

  /** `Papel level`: a rectangle covering the whole view box, filled with the
      colour of the level. A missing level fails. */
  function Rect(params: seq<Node>, vars: VarMap): (r: Result<Element, Error>)
    ensures r.Err? <==> |params| == 0
    ensures r.Err? ==> r.error == MissingParameter("Papel", 0)
    ensures r.Ok? ==> r.value.tag == "rect" && r.value.body == []
    ensures r.Ok? ==> |r.value.attrs| == 5 && Keys(r.value.attrs) == ["x", "y", "width", "height", "fill"]
    ensures r.Ok? ==> r.value.attrs[..4] == [Attr("x", Num(0)), Attr("y", Num(0)), Attr("width", Num(100)), Attr("height", Num(100))]
    ensures r.Ok? ==> r.value.attrs[4] == Attr("fill", Str(MakeColor(FindParamValue(params[0], vars))))
    ensures r.Ok? ==> r.value.attrs[4].val.Str? && IsGray(r.value.attrs[4].val.s)
    ensures r.Ok? ==> r.value.attrs[4].val.Str? && LevelOfColor(r.value.attrs[4].val.s) == Level(FindParamValue(params[0], vars))
  {
    if |params| == 0 then Err(MissingParameter("Papel", 0))
    else
      var fill := MakeColor(FindParamValue(params[0], vars));
      var attrs := [Attr("x", Num(0)), Attr("y", Num(0)), Attr("width", Num(100)), Attr("height", Num(100)), Attr("fill", Str(fill))];
      KeysOfFive(attrs);
      Ok(Element("rect", attrs, []))
  }

  /** The tag a drawing command produces. */
  function DrawTag(name: string): Option<string> {
    if name == "Papel" then Some("rect") else if name == "Linea" then Some("line") else None
  }

  /** The element for a drawing command; a name that is not one fails. */
  function Build(name: string, params: seq<Node>, pen: Val, vars: VarMap): (r: Result<Element, Error>)
    ensures DrawTag(name).None? ==> r == Err(UnknownElement(name))
    ensures r.Ok? ==> DrawTag(name) == Some(r.value.tag) && r.value.body == []
  {
    if name == "Linea" then Line(params, pen, vars)
    else if name == "Papel" then Rect(params, vars)
    else Err(UnknownElement(name))
  }

  // ---------------------------------------------------------------------------
  // The statement walk

  /** The walk's state: the variables, the current pen, the elements drawn. */
  datatype State = State(vars: VarMap, pen: Val, drawn: seq<Element>)

  const Initial := State(map[], Undef, [])

  /** A statement the walk rejects whatever the state: a call that is neither a
      pen change, a no-op nor a drawing command, or a drawing command short of
      parameters. */
  predicate Faulty(n: Node) {
    n.Call? && n.name != "Lapiz" && n.name != "Set" && n.name != ""
    && (DrawTag(n.name).None? || (n.name == "Papel" && |n.params| < 1) || (n.name == "Linea" && |n.params| < 4))
  }

  /** The tag a statement adds to the drawing: one for a drawing command, none otherwise. */
  function DrawnBy(n: Node): seq<string> {
    if n.Call? && DrawTag(n.name).Some? then [DrawTag(n.name).value] else []
  }

  /** Drawn elements are childless and have a tag. */
  predicate Childless(els: seq<Element>) {
    forall i :: 0 <= i < |els| ==> els[i].tag != "" && els[i].body == []
  }

  function Tags(els: seq<Element>): seq<string> {
    seq(|els|, i requires 0 <= i < |els| => els[i].tag)
  }

  lemma TagsAppend(a: seq<Element>, b: seq<Element>)
    ensures Tags(a + b) == Tags(a) + Tags(b)
  {
  }

  /** One statement. `Lapiz` changes the pen (when it has a parameter); a
      variable declaration whose identifier has text stores the value's value;
      a call named `Set` or with no name, comments and braces change nothing;
      any other call draws. */
  function Apply(st: State, n: Node): (r: Result<State, Error>)
    ensures r.Err? <==> Faulty(n)
    ensures r.Ok? ==> Tags(r.value.drawn) == Tags(st.drawn) + DrawnBy(n)
  {
    match n
    case Call(name, params) =>
      if name == "Lapiz" then
        Ok(if |params| > 0 then st.(pen := FindParamValue(params[0], st.vars)) else st)
      else if name == "Set" || name == "" then
        Ok(st)
      else
        (match Build(name, params, st.pen, st.vars)
         case Err(e) => Err(e)
         case Ok(el) => TagsAppend(st.drawn, [el]); Ok(st.(drawn := st.drawn + [el])))
    case VarDecl(id, value) =>
      (match NodeValue(id)
       case Str(s) => Ok(if s != "" then st.(vars := st.vars[s := NodeValue(value)]) else st)
       case _ => Ok(st))
    case _ => Ok(st)
  }
  /** A drawing command that builds appends its element and changes nothing else. */
  lemma DrawStep(st: State, name: string, params: seq<Node>)
    requires (name == "Papel" || name == "Linea") && Build(name, params, st.pen, st.vars).Ok?
    ensures Apply(st, Call(name, params)) == Ok(st.(drawn := st.drawn + [Build(name, params, st.pen, st.vars).value]))
  {
    assert name != "Lapiz" && name != "Set" && name != "";
  }


  /** What a statement changes: a drawing command appends one childless
      element and nothing else changes; `Lapiz` only sets the pen; a variable
      declaration only writes its variable, the last write winning. */
  lemma ApplyEffects(st: State, n: Node)
    requires Apply(st, n).Ok?
    ensures var r := Apply(st, n).value;
            && st.drawn <= r.drawn
            && (Childless(st.drawn) ==> Childless(r.drawn))
            && (!(n.Call? && n.name == "Lapiz") ==> r.pen == st.pen)
            && (n.Call? && n.name == "Lapiz" && |n.params| > 0 ==> r.pen == FindParamValue(n.params[0], st.vars))
            && (!n.VarDecl? ==> r.vars == st.vars)
            && (n.VarDecl? && NamesVariable(n.identifier) ==> r.vars == st.vars[n.identifier.payload.value := NodeValue(n.value)])
  {
    var r := Apply(st, n).value;
    if n.Call? && n.name != "Lapiz" && n.name != "Set" && n.name != "" {
      var el := Build(n.name, n.params, st.pen, st.vars).value;
      assert r == st.(drawn := st.drawn + [el]);
      assert el.tag != "" && el.body == [];
    } else {
      assert r.drawn == st.drawn;
    }
  }

  /** The tags the drawing commands among `ns` produce, in order. */
  function DrawTags(ns: seq<Node>): seq<string>
    decreases |ns|
  {
    if |ns| == 0 then [] else DrawnBy(ns[0]) + DrawTags(ns[1..])
  }

  /** Some statement of `ns` is faulty. */
  predicate AnyFaulty(ns: seq<Node>)
    decreases |ns|
  {
    |ns| > 0 && (Faulty(ns[0]) || AnyFaulty(ns[1..]))
  }

  lemma {:induction false} AnyFaultyExists(ns: seq<Node>)
    ensures AnyFaulty(ns) <==> exists i :: 0 <= i < |ns| && Faulty(ns[i])
    decreases |ns|
  {
    if |ns| > 0 {
      AnyFaultyExists(ns[1..]);
      assert forall i :: 1 <= i < |ns| ==> ns[i] == ns[1..][i - 1];
      if AnyFaulty(ns[1..]) {
        var j :| 0 <= j < |ns[1..]| && Faulty(ns[1..][j]);
        assert Faulty(ns[j + 1]);
      }
    }
  }

  /** The statements in order; the first faulty one stops the walk. */
  function Run(st: State, ns: seq<Node>): (r: Result<State, Error>)
    ensures r.Err? <==> AnyFaulty(ns)
    ensures r.Ok? ==> Tags(r.value.drawn) == Tags(st.drawn) + DrawTags(ns)
    decreases |ns|
  {
    if |ns| == 0 then Ok(st)
    else
      match Apply(st, ns[0])
      case Err(e) => Err(e)
      case Ok(next) => Run(next, ns[1..])
  }

  /** The walk only appends to the drawing, and appends childless elements. */
  lemma {:induction false} RunAppends(st: State, ns: seq<Node>)
    requires Run(st, ns).Ok?
    ensures st.drawn <= Run(st, ns).value.drawn
    ensures Childless(st.drawn) ==> Childless(Run(st, ns).value.drawn)
    decreases |ns|
  {
    if |ns| > 0 {
      var next := Apply(st, ns[0]).value;
      ApplyEffects(st, ns[0]);
      RunAppends(next, ns[1..]);
    }
  }

  /** The transformer: an `svg` root holding one element per drawing command. A
      node that is not a drawing has no statements and gives an empty root. */
  function Transform(ast: Node): (r: Result<Element, Error>)
    ensures r.Ok? ==> r.value.tag == "svg" && r.value.attrs == RootAttrs
    ensures r.Ok? ==> Tags(r.value.body) == (if ast.Drawing? then DrawTags(ast.body) else [])
    ensures r.Ok? ==> Childless(r.value.body)
    ensures r.Err? <==> ast.Drawing? && exists i :: 0 <= i < |ast.body| && Faulty(ast.body[i])
  {
    match ast
    case Drawing(body) =>
      AnyFaultyExists(body);
      (match Run(Initial, body)
       case Err(e) => Err(e)
       case Ok(st) => RunAppends(Initial, body); Ok(Element("svg", RootAttrs, st.drawn)))
    case _ => Ok(Element("svg", RootAttrs, []))
  }

  // ---------------------------------------------------------------------------
  // Properties of the transformer

  /** Level 0 is white paper, level 100 black ink, and no pen at all draws black. */
  lemma Greys()
    ensures MakeColor(Str("0")) == Gray("100")
    ensures MakeColor(Str("100")) == Gray("0")
    ensures MakeColor(Undef) == Gray("0")
    ensures MakeColor(Str("")) == Gray("NaN")
  {
    ScaleEnds();
    assert ParseInt("0") == Some(0) by { assert DigitsValue("0") == 0; }
    assert ParseInt("100") == Some(100) by {
      assert DigitsValue("1") == 1;
      assert DigitsValue("10") == 10 by { assert "10"[..1] == "1"; }
      assert "100"[..2] == "10";
    }
    assert ParseInt("") == None;
  }

  /** The statements the parser produces never make the walk fail. */
  lemma WellFormedNotFaulty(n: Node)
    requires Parser.WellFormedStatement(n)
    ensures !Faulty(n)
  {
  }

  /** Each `Papel` statement yields one `rect`. */
  lemma {:induction false} RectsArePapers(ns: seq<Node>)
    ensures multiset(DrawTags(ns))["rect"] == Parser.PapelCount(ns)
    decreases |ns|
  {
    if |ns| > 0 {
      RectsArePapers(ns[1..]);
    }
  }

  /** What the parser accepts, the transformer turns into an `svg` root with at
      most one `rect`, one element per drawing command, in order. */
  lemma ParsedProgramsTransform(ts: seq<Token>)
    requires Parser.Parse(ts).Ok?
    ensures Transform(Parser.Parse(ts).value).Ok?
    ensures var root := Transform(Parser.Parse(ts).value).value;
            Tags(root.body) == DrawTags(Parser.Parse(ts).value.body) && multiset(Tags(root.body))["rect"] <= 1
  {
    var body := Parser.Parse(ts).value.body;
    forall i | 0 <= i < |body| ensures !Faulty(body[i]) {
      WellFormedNotFaulty(body[i]);
    }
    RectsArePapers(body);
  }

  /** A word parameter reads the variable its `Set` declared: `Set x v` then
      `Linea x a x b` draws a line whose x coordinates are both `v`. */
  lemma SetThenDraw(x: string, v: string, a: string, b: string)
    requires x != ""
    ensures var w := Leaf(Word, Some(x));
            var body := [VarDecl(w, Leaf(Number, Some(v))), Call("Linea", [w, Leaf(Number, Some(a)), w, Leaf(Number, Some(b))])];
            var r := Transform(Drawing(body));
            r.Ok? && |r.value.body| == 1 && |r.value.body[0].attrs| == 6
            && r.value.body[0].attrs[0] == Attr("x1", Str(v))
            && r.value.body[0].attrs[2] == Attr("x2", Str(v))
  {
    var w := Leaf(Word, Some(x));
    var decl := VarDecl(w, Leaf(Number, Some(v)));
    var draw := Call("Linea", [w, Leaf(Number, Some(a)), w, Leaf(Number, Some(b))]);
    var st := State(map[x := Str(v)], Undef, []);
    assert Apply(Initial, decl) == Ok(st);
    var line := Line(draw.params, Undef, st.vars).value;
    DrawWithVariable(x, v, draw, st, line);
    RunPair(Initial, decl, draw);
  }

  lemma DrawWithVariable(x: string, v: string, draw: Node, st: State, line: Element)
    requires x != "" && st == State(map[x := Str(v)], Undef, [])
    requires draw.Call? && draw.name == "Linea" && |draw.params| == 4
    requires draw.params[0] == Leaf(Word, Some(x)) && draw.params[2] == Leaf(Word, Some(x))
    requires line == Line(draw.params, Undef, st.vars).value
    ensures Apply(st, draw) == Ok(st.(drawn := [line]))
    ensures line.attrs[0] == Attr("x1", Str(v)) && line.attrs[2] == Attr("x2", Str(v))
  {
    assert Build("Linea", draw.params, st.pen, st.vars) == Ok(line);
    assert st.drawn + [line] == [line];
    assert "Linea" != "Lapiz" && "Linea" != "Set" && "Linea" != "";
  }

  /** Two statements run one after the other. */
  lemma RunPair(st: State, n: Node, m: Node)
    requires Apply(st, n).Ok?
    ensures Run(st, [n, m]) == (match Apply(Apply(st, n).value, m) case Err(e) => Err(e) case Ok(s2) => Ok(s2))
  {
    var s1 := Apply(st, n).value;
    assert [n, m][1..] == [m];
    assert Run(st, [n, m]) == Run(s1, [m]);
    assert [m][1..] == [];
    match Apply(s1, m)
    case Err(e) =>
    case Ok(s2) => assert Run(s1, [m]) == Run(s2, []);
  }

  /** A line is drawn with the pen of the last `Lapiz` before it. */
  lemma LineUsesPen(p: Node, ps: seq<Node>, st: State)
    requires |ps| >= 4
    ensures var r := Run(st, [Call("Lapiz", [p]), Call("Linea", ps)]);
            r.Ok? && |r.value.drawn| == |st.drawn| + 1
            && |r.value.drawn[|st.drawn|].attrs| == 6 && r.value.drawn[|st.drawn|].attrs[4].val.Str?
            && LevelOfColor(r.value.drawn[|st.drawn|].attrs[4].val.s) == Level(FindParamValue(p, st.vars))
  {
    var pen, draw := Call("Lapiz", [p]), Call("Linea", ps);
    var s1 := st.(pen := FindParamValue(p, st.vars));
    assert Apply(st, pen) == Ok(s1);
    var line := Line(ps, s1.pen, s1.vars).value;
    assert Build("Linea", ps, s1.pen, s1.vars) == Ok(line);
    assert "Linea" != "Lapiz" && "Linea" != "Set" && "Linea" != "";
    assert Apply(s1, draw) == Ok(s1.(drawn := st.drawn + [line]));
    RunPair(st, pen, draw);
  }
}

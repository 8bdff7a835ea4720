/** The parser (src/compiler/parser.ts). The source pops tokens off a shared
    queue; here every routine takes the unread tokens and returns what it built
    together with the tokens it left unread, always a suffix of its input. */
module Parser {
  import opened Results
  import opened Types
  import opened Numbers
  import Seqs

  /** A routine's product and the tokens it left unread. */
  datatype Read<T> = Read(product: T, rest: seq<Token>)

  /** What one top-level command appends, the tokens left, and whether a paper is now declared. */
  datatype Step = Step(nodes: seq<Node>, rest: seq<Token>, paper: bool)

  predicate IsSuffix(rest: seq<Token>, ts: seq<Token>) {
    |rest| <= |ts| && rest == ts[|ts| - |rest|..]
  }

  lemma SuffixTransitive(a: seq<Token>, b: seq<Token>, c: seq<Token>)
    requires IsSuffix(a, b) && IsSuffix(b, c)
    ensures IsSuffix(a, c)
  {
    assert c[|c| - |b|..][|b| - |a|..] == c[|c| - |a|..];
  }

  function LeafOf(t: Token): Node {
    Leaf(t.kind, t.value)
  }

  /** Argument nodes copied from tokens, one per token, in order. */
  function Leaves(ts: seq<Token>): (ns: seq<Node>)
    ensures |ns| == |ts|
    ensures forall i :: 0 <= i < |ts| ==> ns[i] == LeafOf(ts[i])
  {
    seq(|ts|, i requires 0 <= i < |ts| => LeafOf(ts[i]))
  }

  // ---------------------------------------------------------------------------
  // The dot recogniser

  const DotPattern: seq<TokenKind> := [Ob, Number, Number, Cb]

  /** One step of the dot recogniser at position `pos` of `[ x y ]`: checks the
      current token against the pattern, binds x or y, then reads the next token
      if there is one. At position 3 the token is taken without any check. */
  function DotStep(current: Token, pos: nat, dot: Node, ts: seq<Token>): (r: Result<Read<Node>, Error>)
    requires pos <= 3 && dot.Dot?
    ensures r.Ok? ==> r.value.product.Dot? && IsSuffix(r.value.rest, ts)
    decreases |ts|
  {
    if pos == 3 then
      Ok(Read(dot, ts))
    else if current.kind != DotPattern[pos] then
      Err(DotType(DotPattern[pos], current.kind))
    else
      var bound := if pos == 1 then dot.(x := current.value) else if pos == 2 then dot.(y := current.value) else dot;
      if |ts| == 0 then
        Ok(Read(bound, ts))
      else
        var r := DotStep(ts[0], pos + 1, bound, ts[1..]);
        if r.Ok? then
          SuffixTransitive(r.value.rest, ts[1..], ts);
          r
        else r
  }

  /** The dot recogniser, entered with the `[` token already read. It checks two
      numbers, then consumes one more token whatever it is; when tokens run out
      it returns the partial dot without error. */
  function CreateDot(ob: Token, ts: seq<Token>): (r: Result<Read<Node>, Error>)
    requires ob.kind == Ob
    ensures |ts| == 0 ==> r == Ok(Read(Dot(None, None), ts))
    ensures |ts| > 0 && ts[0].kind != Number ==> r == Err(DotType(Number, ts[0].kind))
    ensures |ts| == 1 && ts[0].kind == Number ==> r == Ok(Read(Dot(ts[0].value, None), []))
    ensures |ts| > 1 && ts[0].kind == Number && ts[1].kind != Number ==> r == Err(DotType(Number, ts[1].kind))
    ensures |ts| == 2 && ts[0].kind == Number && ts[1].kind == Number ==> r == Ok(Read(Dot(ts[0].value, ts[1].value), []))
    ensures |ts| > 2 && ts[0].kind == Number && ts[1].kind == Number ==> r == Ok(Read(Dot(ts[0].value, ts[1].value), ts[3..]))
  {
    var start := Dot(None, None);
    assert |ts| > 0 ==> DotStep(ob, 0, start, ts) == DotStep(ts[0], 1, start, ts[1..]);
    assert |ts| > 1 && ts[0].kind == Number
           ==> DotStep(ts[0], 1, start, ts[1..]) == DotStep(ts[1], 2, Dot(ts[0].value, None), ts[2..]);
    assert |ts| > 2 && ts[0].kind == Number && ts[1].kind == Number
           ==> DotStep(ts[1], 2, Dot(ts[0].value, None), ts[2..]) == DotStep(ts[2], 3, Dot(ts[0].value, ts[1].value), ts[3..]);
    DotStep(ob, 0, start, ts)
  }

  // ---------------------------------------------------------------------------
  // Argument gathering

  /** The kinds accepted at argument position `pos`; past the end of the table, none. */
  function Accepted(types: seq<seq<TokenKind>>, pos: nat): seq<TokenKind> {
    if pos < |types| then types[pos] else []
  }

  /** The range check: a number outside 0..100. A value that is not a number
      compares false both ways and passes. */
  predicate OutOfRange(value: string) {
    match ToNumber(value)
    case Some(n) => n < 0 || n > 100
    case None => false
  }

  /** The checks on one argument token, run only when a type table is given:
      its kind must be accepted at this position, and a non-empty number must
      lie in 0..100. */
  function CheckArgument(command: string, types: Option<seq<seq<TokenKind>>>, pos: nat, t: Token): (r: Option<Error>)
    ensures types.None? ==> r.None?
    ensures types.Some? && t.kind !in Accepted(types.value, pos)
            ==> r == Some(ArgumentType(command, Accepted(types.value, pos), pos + 1, t.kind, t.value))
    ensures types.Some? && t.kind in Accepted(types.value, pos) && t.kind == Number && t.value.Some? && OutOfRange(t.value.value)
            ==> r == Some(Range(command, t.value.value))
    ensures r.None? && types.Some? ==> t.kind in Accepted(types.value, pos)
  {
    match types
    case None => None
    case Some(table) =>
      if t.kind !in Accepted(table, pos) then
        Some(ArgumentType(command, Accepted(table, pos), pos + 1, t.kind, t.value))
      else if t.kind == Number && t.value.Some? && t.value.value != "" && OutOfRange(t.value.value) then
        Some(Range(command, t.value.value))
      else
        None
  }

  /** An argument node: a dot, or a copy of a token other than `[`. */
  predicate IsArgument(n: Node) {
    n.Dot? || (n.Leaf? && n.kind != Ob)
  }

  /** An argument whose token kind was accepted: a dot stands for an accepted `[`. */
  predicate ArgumentFits(n: Node, kinds: seq<TokenKind>) {
    (n.Dot? && Ob in kinds) || (n.Leaf? && n.kind != Ob && n.kind in kinds)
  }

  /** Each argument, from position `pos` on, fits the kinds the table accepts there. */
  predicate AllFit(args: seq<Node>, table: seq<seq<TokenKind>>, pos: nat)
    decreases |args|
  {
    |args| == 0 || (ArgumentFits(args[0], Accepted(table, pos)) && AllFit(args[1..], table, pos + 1))
  }

  /** Reads argument `pos` of `command`: the checks, then one token, or a dot
      when the token is `[`. */
  function ReadArgument(command: string, types: Option<seq<seq<TokenKind>>>, pos: nat, ts: seq<Token>)
    : (r: Result<Read<Node>, Error>)
    requires |ts| > 0
    ensures r.Ok? ==> IsArgument(r.value.product) && IsSuffix(r.value.rest, ts) && |r.value.rest| < |ts|
    ensures r.Ok? && types.Some? ==> ArgumentFits(r.value.product, Accepted(types.value, pos))
    ensures r.Err? && types.None? ==> r.error.DotType?
    ensures ts[0].kind != Ob && types.None? ==> r == Ok(Read(LeafOf(ts[0]), ts[1..]))
  {
    var t := ts[0];
    match CheckArgument(command, types, pos, t)
    case Some(e) => Err(e)
    case None =>
      if t.kind == Ob then
        var r := CreateDot(t, ts[1..]);
        if r.Ok? then
          SuffixTransitive(r.value.rest, ts[1..], ts);
          r
        else r
      else
        Ok(Read(LeafOf(t), ts[1..]))
  }

  /** Gathers arguments `pos`..`n - 1` of `command`, in order. Running out of
      tokens is an arity error naming the command and `n`. */
  function FindArguments(command: string, n: nat, types: Option<seq<seq<TokenKind>>>, pos: nat, ts: seq<Token>)
    : (r: Result<Read<seq<Node>>, Error>)
    requires pos <= n
    ensures r.Ok? ==> |r.value.product| == n - pos
    ensures r.Ok? ==> IsSuffix(r.value.rest, ts)
    ensures r.Ok? && types.Some? ==> AllFit(r.value.product, types.value, pos)
    ensures r.Err? && types.None? ==> r.error.Arity? || r.error.DotType?
    ensures r.Err? && r.error.Arity? ==> r.error == Arity(command, n)
    decreases n - pos
  {
    if pos == n then
      Ok(Read([], ts))
    else if |ts| == 0 then
      Err(Arity(command, n))
    else
      match ReadArgument(command, types, pos, ts)
      case Err(e) => Err(e)
      case Ok(arg) =>
        match FindArguments(command, n, types, pos + 1, arg.rest)
        case Err(e) => Err(e)
        case Ok(more) =>
          SuffixTransitive(more.rest, arg.rest, ts);
          assert ([arg.product] + more.product)[1..] == more.product;
          Ok(Read([arg.product] + more.product, more.rest))
  }

  /** Without a type table and without a `[` among them, the arguments are the
      next `n` tokens, unchecked; fewer than `n` tokens is an arity error. */
  lemma {:induction false} UntypedArguments(command: string, n: nat, pos: nat, ts: seq<Token>)
    requires pos <= n
    requires forall i :: 0 <= i < |ts| && i < n - pos ==> ts[i].kind != Ob
    ensures FindArguments(command, n, None, pos, ts)
         == if |ts| < n - pos then Err(Arity(command, n))
            else Ok(Read(Leaves(ts[..n - pos]), ts[n - pos..]))
    decreases n - pos
  {
    if pos == n {
      assert Leaves(ts[..0]) == [];
    } else if |ts| > 0 {
      var k := n - pos;
      assert ts[0].kind != Ob;
      assert ReadArgument(command, None, pos, ts) == Ok(Read(LeafOf(ts[0]), ts[1..]));
      forall i | 0 <= i < |ts[1..]| && i < k - 1 ensures ts[1..][i].kind != Ob {
        assert ts[1..][i] == ts[i + 1];
      }
      UntypedArguments(command, n, pos + 1, ts[1..]);
      if |ts| >= k {
        LeavesCons(ts, k);
      }
    }
  }

  lemma LeavesCons(ts: seq<Token>, k: nat)
    requires 0 < k <= |ts|
    ensures Leaves(ts[..k]) == [LeafOf(ts[0])] + Leaves(ts[1..][..k - 1])
    ensures ts[1..][k - 1..] == ts[k..]
  {
    assert ts[1..][..k - 1] == ts[1..k];
    var l := Leaves(ts[..k]);
    assert l[0] == LeafOf(ts[0]);
    assert l[1..] == Leaves(ts[1..k]);
  }

  // ---------------------------------------------------------------------------
  // Comments

  /** Everything after a token's text: its value, or nothing, and one space. */
  function SpacedText(t: Token): string {
    (if t.value.Some? then t.value.value else "") + " "
  }

  function SpacedTexts(ts: seq<Token>): string
    decreases |ts|
  {
    if |ts| == 0 then "" else SpacedText(ts[0]) + SpacedTexts(ts[1..])
  }

  /** The index of the first newline token, or the length when there is none. */
  function FirstNewline(ts: seq<Token>): (k: nat)
    ensures k <= |ts|
    ensures k < |ts| ==> ts[k].kind == Newline
    ensures forall i :: 0 <= i < k ==> ts[i].kind != Newline
    decreases |ts|
  {
    if |ts| == 0 || ts[0].kind == Newline then 0 else 1 + FirstNewline(ts[1..])
  }

  /** A comment's body: tokens up to and including the next newline (or to the
      end), each contributing its text and one space. */
  function CommentBody(ts: seq<Token>, text: string): (r: Read<string>)
    ensures var k := FirstNewline(ts);
            && r.product == text + SpacedTexts(ts[..k])
            && r.rest == (if k < |ts| then ts[k + 1..] else [])
    decreases |ts|
  {
    if |ts| == 0 then Read(text, [])
    else if ts[0].kind == Newline then Read(text, ts[1..])
    else
      var r := CommentBody(ts[1..], text + SpacedText(ts[0]));
      CommentStep(ts, text);
      r
  }

  lemma CommentStep(ts: seq<Token>, text: string)
    requires |ts| > 0 && ts[0].kind != Newline
    ensures var k, j := FirstNewline(ts), FirstNewline(ts[1..]);
            && k == j + 1
            && text + SpacedTexts(ts[..k]) == text + SpacedText(ts[0]) + SpacedTexts(ts[1..][..j])
            && (k < |ts| ==> ts[k + 1..] == ts[1..][j + 1..])
  {
    var k, j := FirstNewline(ts), FirstNewline(ts[1..]);
    var head := ts[..k];
    assert head[0] == ts[0] && head[1..] == ts[1..][..j];
    assert SpacedTexts(head) == SpacedText(ts[0]) + SpacedTexts(ts[1..][..j]);
    Seqs.Regroup3(text, SpacedText(ts[0]), SpacedTexts(ts[1..][..j]));
  }

  // ---------------------------------------------------------------------------
  // Commands

  /** `Set` accepts a word or `[` first, then a number. */
  const SetTypes: seq<seq<TokenKind>> := [[Word, Ob], [Number]]

  /** The nodes `Set` appends: with a dot, a pen change followed by a line from
      the dot to itself; otherwise a variable declaration. */
  function SetNodes(target: Node, level: Node): (r: seq<Node>)
    ensures target.Dot? ==> |r| == 2 && r[0] == Call("Lapiz", [level])
    ensures target.Dot? ==> r[1].Call? && r[1].name == "Linea" && |r[1].params| == 4
    ensures target.Dot? ==> r[1].params[0] == r[1].params[2] == Leaf(Number, target.x)
    ensures target.Dot? ==> r[1].params[1] == r[1].params[3] == Leaf(Number, target.y)
    ensures !target.Dot? ==> r == [VarDecl(target, level)]
  {
    if target.Dot? then
      [Call("Lapiz", [level]),
       Call("Linea", [Leaf(Number, target.x), Leaf(Number, target.y), Leaf(Number, target.x), Leaf(Number, target.y)])]
    else
      [VarDecl(target, level)]
  }

  lemma SetNodesWellFormed(target: Node, level: Node)
    requires ArgumentFits(target, [Word, Ob]) && ArgumentFits(level, [Number])
    ensures PapelCount(SetNodes(target, level)) == 0
    ensures forall n <- SetNodes(target, level) :: WellFormedStatement(n)
  {
    var nodes := SetNodes(target, level);
    if target.Dot? {
      assert nodes[1..] == [nodes[1]];
      assert PapelCount(nodes[1..]) == 0 by { assert nodes[1..][1..] == []; }
    } else {
      assert nodes[1..] == [];
    }
  }

  /** A command with `n` unchecked arguments. */
  function SimpleCommand(name: string, n: nat, ts: seq<Token>, paper: bool): (r: Result<Step, Error>)
    ensures r.Ok? ==> |r.value.nodes| == 1 && r.value.nodes[0].Call? && r.value.nodes[0].name == name
    ensures r.Ok? ==> |r.value.nodes[0].params| == n && r.value.paper == paper
    ensures r.Ok? ==> IsSuffix(r.value.rest, ts)
  {
    match FindArguments(name, n, None, 0, ts)
    case Err(e) => Err(e)
    case Ok(args) => Ok(Step([Call(name, args.product)], args.rest, paper))
  }

  /** `Set`: a word or dot, then a number in 0..100. */
  function SetCommand(ts: seq<Token>, paper: bool): (r: Result<Step, Error>)
    ensures r.Ok? ==> IsSuffix(r.value.rest, ts) && r.value.paper == paper
    ensures r.Ok? ==> PapelCount(r.value.nodes) == 0
    ensures r.Ok? ==> forall n <- r.value.nodes :: WellFormedStatement(n)
  {
    match FindArguments("Set", 2, Some(SetTypes), 0, ts)
    case Err(e) => Err(e)
    case Ok(args) =>
      var target := args.product[0];
      var level := args.product[1];
      assert ArgumentFits(target, [Word, Ob]) && ArgumentFits(level, [Number]);
      SetNodesWellFormed(target, level);
      Ok(Step(SetNodes(target, level), args.rest, paper))
  }

  /** A comment runs to the end of its line. */
  function CommentCommand(ts: seq<Token>, paper: bool): (r: Step)
    ensures IsSuffix(r.rest, ts) && r.paper == paper
    ensures r.nodes == [Comment(CommentBody(ts, "").product)]
  {
    var c := CommentBody(ts, "");
    assert IsSuffix(c.rest, ts) by {
      if FirstNewline(ts) < |ts| { assert ts[FirstNewline(ts) + 1..] == ts[|ts| - |c.rest|..]; }
    }
    Step([Comment(c.product)], c.rest, paper)
  }

  /** One top-level command introduced by a word token with value `word`. */
  function ParseWord(word: Option<string>, ts: seq<Token>, paper: bool): (r: Result<Step, Error>)
    ensures r.Ok? ==> IsSuffix(r.value.rest, ts)
    ensures word == Some("Papel") && paper ==> r == Err(DuplicatePaper)
    ensures r.Ok? ==> r.value.paper == (paper || word == Some("Papel"))
    ensures r.Ok? ==> PapelCount(r.value.nodes) == (if word == Some("Papel") then 1 else 0)
    ensures r.Ok? ==> forall n <- r.value.nodes :: WellFormedStatement(n)
    ensures word !in {Some("{"), Some("}"), Some("//"), Some("Papel"), Some("Lapiz"), Some("Linea"), Some("Set")}
            ==> r == Err(UnknownCommand(word))
  {
    if word == Some("{") then
      Ok(Step([BlockStart], ts, paper))
    else if word == Some("}") then
      Ok(Step([BlockEnd], ts, paper))
    else if word == Some("//") then
      Ok(CommentCommand(ts, paper))
    else if word == Some("Papel") then
      if paper then Err(DuplicatePaper) else SimpleCommand("Papel", 1, ts, true)
    else if word == Some("Lapiz") then
      SimpleCommand("Lapiz", 1, ts, paper)
    else if word == Some("Linea") then
      SimpleCommand("Linea", 4, ts, paper)
    else if word == Some("Set") then
      SetCommand(ts, paper)
    else
      Err(UnknownCommand(word))
  }

  // ---------------------------------------------------------------------------
  // The statement shapes the parser produces

  /** The arity table: `Papel` and `Lapiz` take one argument, `Linea` four; a
      variable declaration binds a word to a number. */
  predicate WellFormedStatement(n: Node) {
    match n
    case Call(name, params) =>
      (name == "Papel" && |params| == 1) || (name == "Lapiz" && |params| == 1) || (name == "Linea" && |params| == 4)
    case VarDecl(id, v) => id.Leaf? && id.kind == Word && v.Leaf? && v.kind == Number
    case Comment(_) => true
    case BlockStart => true
    case BlockEnd => true
    case _ => false
  }

  function PapelCount(body: seq<Node>): nat
    decreases |body|
  {
    if |body| == 0 then 0
    else (if body[0].Call? && body[0].name == "Papel" then 1 else 0) + PapelCount(body[1..])
  }

  lemma {:induction false} PapelCountAppend(a: seq<Node>, b: seq<Node>)
    ensures PapelCount(a + b) == PapelCount(a) + PapelCount(b)
    decreases |a|
  {
    if |a| == 0 {
      assert a + b == b;
    } else {
      assert (a + b)[1..] == a[1..] + b;
      PapelCountAppend(a[1..], b);
    }
  }

  // ---------------------------------------------------------------------------
  // The top-level loop

  /** The command loop: a word starts a command; newline and braces are
      skipped; any other token is unexpected. `body` is what was appended so
      far, `paper` whether a `Papel` was seen. */
  function ParseLoop(ts: seq<Token>, paper: bool, body: seq<Node>): (r: Result<seq<Node>, Error>)
    ensures r.Ok? ==> body <= r.value
    ensures r.Ok? && (forall n <- body :: WellFormedStatement(n)) ==> forall n <- r.value :: WellFormedStatement(n)
    ensures r.Ok? && (paper <==> PapelCount(body) > 0) && PapelCount(body) <= 1 ==> PapelCount(r.value) <= 1
    ensures |ts| > 0 && ts[0].kind in {Ob, Cb, Number} ==> r == Err(UnexpectedToken(ts[0].kind))
    decreases |ts|
  {
    if |ts| == 0 then
      Ok(body)
    else
      var t := ts[0];
      if t.kind == Word then
        var step :- ParseWord(t.value, ts[1..], paper);
        PapelCountAppend(body, step.nodes);
        ParseLoop(step.rest, step.paper, body + step.nodes)
      else if t.kind == Newline || t.kind == Ocb || t.kind == Ccb then
        ParseLoop(ts[1..], paper, body)
      else
        Err(UnexpectedToken(t.kind))
  }

  /** The parser: a drawing whose body lists the commands in order. */
  function Parse(ts: seq<Token>): (r: Result<Node, Error>)
    ensures r.Ok? ==> r.value.Drawing?
    ensures r.Ok? ==> PapelCount(r.value.body) <= 1
    ensures r.Ok? ==> forall n <- r.value.body :: WellFormedStatement(n)
  {
    var body :- ParseLoop(ts, false, []);
    Ok(Drawing(body))
  }

  // ---------------------------------------------------------------------------
  // Properties of the parser

  /** `Papel`, `Lapiz` and `Linea` take the next 1, 1 and 4 tokens as they
      are, with no type or range check (so `Papel 200` and `Linea x 50 90 50`
      are accepted); too few tokens is an arity error. */
  lemma UncheckedCommand(name: string, n: nat, ts: seq<Token>, paper: bool)
    requires (name == "Papel" && n == 1 && !paper) || (name == "Lapiz" && n == 1) || (name == "Linea" && n == 4)
    requires forall i :: 0 <= i < |ts| && i < n ==> ts[i].kind != Ob
    ensures ParseWord(Some(name), ts, paper)
         == if |ts| < n then Err(Arity(name, n))
            else Ok(Step([Call(name, Leaves(ts[..n]))], ts[n..], paper || name == "Papel"))
  {
    var after := paper || name == "Papel";
    DispatchSimple(name, n, ts, paper);
    SimpleUntyped(name, n, ts, after);
  }

  lemma DispatchSimple(name: string, n: nat, ts: seq<Token>, paper: bool)
    requires (name == "Papel" && n == 1 && !paper) || (name == "Lapiz" && n == 1) || (name == "Linea" && n == 4)
    ensures ParseWord(Some(name), ts, paper) == SimpleCommand(name, n, ts, paper || name == "Papel")
  {
  }

  lemma SimpleUntyped(name: string, n: nat, ts: seq<Token>, paper: bool)
    requires forall i :: 0 <= i < |ts| && i < n ==> ts[i].kind != Ob
    ensures SimpleCommand(name, n, ts, paper)
         == if |ts| < n then Err(Arity(name, n)) else Ok(Step([Call(name, Leaves(ts[..n]))], ts[n..], paper))
  {
    UntypedArguments(name, n, 0, ts);
  }

  /** `Set w c` declares a variable when `w` is a word and `c` a number in 0..100. */
  lemma SetDeclares(ts: seq<Token>, paper: bool)
    requires |ts| >= 2 && ts[0].kind == Word && ts[1].kind == Number
    requires ts[1].value.Some? ==> !OutOfRange(ts[1].value.value)
    ensures SetCommand(ts, paper) == Ok(Step([VarDecl(LeafOf(ts[0]), LeafOf(ts[1]))], ts[2..], paper))
  {
    assert Accepted(SetTypes, 0) == [Word, Ob] && Accepted(SetTypes, 1) == [Number];
    assert ts[1..][1..] == ts[2..];
    assert ReadArgument("Set", Some(SetTypes), 0, ts) == Ok(Read(LeafOf(ts[0]), ts[1..]));
    assert ReadArgument("Set", Some(SetTypes), 1, ts[1..]) == Ok(Read(LeafOf(ts[1]), ts[2..]));
    assert FindArguments("Set", 2, Some(SetTypes), 2, ts[2..]) == Ok(Read([], ts[2..]));
    assert [LeafOf(ts[1])] + [] == [LeafOf(ts[1])];
    assert FindArguments("Set", 2, Some(SetTypes), 1, ts[1..]) == Ok(Read([LeafOf(ts[1])], ts[2..]));
    assert ts[..0] == [];
  }

  /** `Set [x y] c` appends `Lapiz c` and then a line from (x, y) to (x, y).
      The token after `y` is consumed whatever it is. */
  lemma SetDrawsDot(ts: seq<Token>, paper: bool)
    requires |ts| >= 5 && ts[0].kind == Ob && ts[1].kind == Number && ts[2].kind == Number && ts[4].kind == Number
    requires ts[4].value.Some? ==> !OutOfRange(ts[4].value.value)
    ensures var x := Leaf(Number, ts[1].value);
            var y := Leaf(Number, ts[2].value);
            SetCommand(ts, paper) == Ok(Step([Call("Lapiz", [LeafOf(ts[4])]), Call("Linea", [x, y, x, y])], ts[5..], paper))
  {
    assert ts[1..][3..] == ts[4..];
    assert ReadArgument("Set", Some(SetTypes), 0, ts) == Ok(Read(Dot(ts[1].value, ts[2].value), ts[4..]));
    assert FindArguments("Set", 2, Some(SetTypes), 2, ts[5..]) == Ok(Read([], ts[5..]));
    assert ts[4..][1..] == ts[5..];
    assert Accepted(SetTypes, 1) == [Number];
    assert ReadArgument("Set", Some(SetTypes), 1, ts[4..]) == Ok(Read(LeafOf(ts[4]), ts[5..]));
    assert [LeafOf(ts[4])] + [] == [LeafOf(ts[4])];
    assert FindArguments("Set", 2, Some(SetTypes), 1, ts[4..]) == Ok(Read([LeafOf(ts[4])], ts[5..]));
  }

  /** `Set` rejects a first argument that is neither a word nor `[`, naming
      the accepted kinds and position 1. */
  lemma SetRejectsTarget(ts: seq<Token>, paper: bool)
    requires |ts| >= 1 && ts[0].kind != Word && ts[0].kind != Ob
    ensures SetCommand(ts, paper) == Err(ArgumentType("Set", [Word, Ob], 1, ts[0].kind, ts[0].value))
  {
  }

  /** `Set w` rejects a second argument that is not a number, naming position 2. */
  lemma SetRejectsLevelKind(ts: seq<Token>, paper: bool)
    requires |ts| >= 2 && ts[0].kind == Word && ts[1].kind != Number
    ensures SetCommand(ts, paper) == Err(ArgumentType("Set", [Number], 2, ts[1].kind, ts[1].value))
  {
    assert FindArguments("Set", 2, Some(SetTypes), 1, ts[1..]) == Err(ArgumentType("Set", [Number], 2, ts[1].kind, ts[1].value));
  }

  /** `Set w c` rejects a number outside 0..100. */
  lemma SetRejectsLevelRange(ts: seq<Token>, paper: bool)
    requires |ts| >= 2 && ts[0].kind == Word && ts[1].kind == Number
    requires ts[1].value.Some? && OutOfRange(ts[1].value.value)
    ensures SetCommand(ts, paper) == Err(Range("Set", ts[1].value.value))
  {
    assert ts[1].value.value != "";
    assert FindArguments("Set", 2, Some(SetTypes), 1, ts[1..]) == Err(Range("Set", ts[1].value.value));
  }

  /** A second top-level `Papel` fails, and no successful parse holds two. */
  lemma SecondPapelFails(rest: seq<Token>, body: seq<Node>, ts: seq<Token>)
    requires ts == [Token(Word, Some("Papel"))] + rest
    ensures ParseLoop(ts, true, body) == Err(DuplicatePaper)
    ensures Parse(ts).Ok? ==> PapelCount(Parse(ts).value.body) <= 1
  {
    assert ts[1..] == rest;
  }

  /** Newlines and braces between commands are skipped. */
  lemma SkipsSeparators(ts: seq<Token>, paper: bool, body: seq<Node>)
    requires |ts| > 0 && (ts[0].kind == Newline || ts[0].kind == Ocb || ts[0].kind == Ccb)
    ensures ParseLoop(ts, paper, body) == ParseLoop(ts[1..], paper, body)
  {
  }

  /** A comment's text is each token's value followed by one space, up to the
      newline, which it consumes. */
  lemma CommentKeepsSpacedWords(a: string, b: string, rest: seq<Token>, paper: bool)
    ensures var ts := [Token(Word, Some(a)), Token(Number, Some(b)), Token(Newline, None)] + rest;
            ParseWord(Some("//"), ts, paper) == Ok(Step([Comment(a + " " + b + " ")], rest, paper))
  {
    var ts := [Token(Word, Some(a)), Token(Number, Some(b)), Token(Newline, None)] + rest;
    assert FirstNewline(ts[2..]) == 0;
    assert FirstNewline(ts) == 2;
    assert ts[..2] == [ts[0], ts[1]];
    assert SpacedTexts([ts[1]]) == b + " " by { assert [ts[1]][1..] == []; }
    assert SpacedTexts(ts[..2]) == a + " " + (b + " ") by { assert [ts[0], ts[1]][1..] == [ts[1]]; }
    assert ts[3..] == rest;
    var c := CommentBody(ts, "");
    assert c.product == a + " " + b + " " && c.rest == rest;
    assert CommentCommand(ts, paper) == Step([Comment(a + " " + b + " ")], rest, paper);
  }
}

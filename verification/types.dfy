/** The data that flows between the compiler's four stages: tokens, syntax-tree
    nodes, SVG elements, variable values and the errors any stage may raise. */
module Types {
  import opened Results

  /** The seven token kinds; `Ob`/`Cb` are `[`/`]` and `Ocb`/`Ccb` are `{`/`}`. */
  datatype TokenKind = Newline | Ob | Cb | Ocb | Ccb | Word | Number

  /** A token with its optional text; the lexer sets the text only for words and numbers. */
  datatype Token = Token(kind: TokenKind, value: Option<string>)

  predicate IsStructuralKind(k: TokenKind) {
    k == Newline || k == Ob || k == Cb || k == Ocb || k == Ccb
  }

  /** The shape the lexer gives every token it emits. */
  predicate WellFormedToken(t: Token) {
    if IsStructuralKind(t.kind) then t.value == None
    else t.value.Some? && |t.value.value| > 0
  }

  /** Syntax-tree nodes. `Leaf` is an argument node copied from a token;
      `Dot` is a bracketed `[x y]` pair whose coordinates may be missing. */
  datatype Node =
    | Drawing(body: seq<Node>)
    | Call(name: string, params: seq<Node>)
    | VarDecl(identifier: Node, value: Node)
    | Comment(text: string)
    | BlockStart
    | BlockEnd
    | Dot(x: Option<string>, y: Option<string>)
    | Leaf(kind: TokenKind, payload: Option<string>)

  /** A value held by an attribute or a variable. `NaN` and `Undef` stand for the
      host language's not-a-number and undefined, which the compiler lets flow
      into its output instead of failing. */
  datatype Val = Str(s: string) | Num(n: int) | NaN | Undef

  datatype Attr = Attr(key: string, val: Val)

  /** An SVG element: a tag, attributes in insertion order and child elements. */
  datatype Element = Element(tag: string, attrs: seq<Attr>, body: seq<Element>)

  /** Variables declared with `Set`; a later declaration of a name overwrites it. */
  type VarMap = map<string, Val>

  /** Everything that aborts a compilation. */
  datatype Error =
    | NoTokens
    | UnexpectedToken(kind: TokenKind)
    | UnknownCommand(word: Option<string>)
    | DuplicatePaper
    | Arity(command: string, count: nat)
    | ArgumentType(command: string, accepted: seq<TokenKind>, position: nat, foundKind: TokenKind, foundValue: Option<string>)
    | Range(command: string, value: string)
    | DotType(wanted: TokenKind, found: TokenKind)
    | UnknownElement(name: string)
    | MissingParameter(name: string, index: nat)
}

# A model of the SBN drawing-language compiler

SBN is a small drawing language written in Spanish command words. `Papel
<level>` lays down a sheet. `Lapiz <level>` picks a pen. `Linea x1 y1 x2 y2`
draws a line. `Set <name> <level>` declares a variable, and `Set [x y] <level>`
draws a dot. `//` starts a comment, and `{` `}` are accepted and ignored.
Levels run from 0 (white) to 100 (black) on a 100 x 100 canvas whose y axis
points up. `compile` turns a program into SVG text in four stages:

1. The lexer turns text into tokens. It replaces line breaks and brackets by
   padded markers, splits on runs of blanks and classifies each fragment.
2. The parser turns tokens into a `Drawing` syntax tree of statements.
3. The transformer turns the statements into an `svg` element tree, with one
   `rect` per `Papel` and one `line` per `Linea`. It uses grey colours and
   flips y.
4. The generator prints the element tree as indented SVG text.

The project has one module per source file:

- `results.dfy`: `Option` and `Result`. A stage that throws in the original
  returns `Err` here.
- `numbers.dfy`: digit strings and their values.
- `types.dfy`: tokens, nodes, values, elements and the error kinds.
- `lexer.dfy`: the lexer.
- `parser.dfy`: the parser.
- `transformer.dfy`: the transformer.
- `generator.dfy`: the generator.
- `sbn.dfy`: `compile`, and whole programs including the demonstration drawing
  of `src/main.ts`.
- `seqs.dfy`: regrouping facts about sequence concatenation, stated once for
  any element type.

Every stage is a pure function, except the generator, which is a method with
the source's loop and explicit stacks. Each stage is paired with an
independent description that it is proved to agree with:

- The lexer is paired with a one-pass scanner (`Lexer.Scan`).
- The colour maker is paired with its inverse (`Transformer.LevelOfColor`).
- The generator loop is paired with a recursive serialiser
  (`Generator.Serialize`).
- The parser and the transformer are paired with the invariants they keep:
  well-formed statements, at most one sheet, and one tag per drawing command.

Design points the model makes explicit:

- A fragment that literally spells a marker, such as `*nl*`, is read as that
  marker's token. The lexer's replacement step cannot tell it from a real line
  break (`Lexer.Classify`).
- `Papel`, `Lapiz` and `Linea` take their arguments unchecked: no type check
  and no 0..100 range check. Only `Set` checks types and ranges
  (`Parser.UncheckedCommand`, `Parser.SetRejectsLevelRange`).
- Inside a dot, `]` is never checked. The recogniser checks `[`, a number and
  a number, then consumes one more token whatever it is. When tokens run out
  it returns a partial dot without error (`Parser.CreateDot`).
- Every comment word is followed by one space, including the last.
- An unset variable reads as undefined, and an unset pen draws black. A `y`
  that is not a number becomes NaN. These values are printed as `undefined`
  and `NaN` (`Transformer.FindParamValue`, `Transformer.FlipY`,
  `Transformer.MakeColor`).

## Model

| member | source | states |
|---|---|---|
| Lexer.Lex | src/compiler/lexer.ts:8-53 | Lexing fails exactly when the text is all blanks, and then with the no-tokens error. Otherwise a structural token carries no text, and a word or number carries non-empty text with no blank, line break or bracket in it. |
| Lexer.Classify | src/compiler/lexer.ts:25-44 | The empty fragment yields no token. A digit string is a number token carrying it. Each marker spelling yields its own structural token with no text, and only it: `*nl*` newline, `*ob*` ob, `*cb*` cb, `*ocb*` ocb, `*ccb*` ccb. Anything else is a word carrying the fragment. |
| Lexer.StructuralToken | src/compiler/lexer.ts:11-36 | Each line break or bracket stands for a structural token with no text: newline exactly for `\n` and `\r`, ob for `[`, cb for `]`, ocb for `{` and ccb for `}`. |
| Lexer.SkipBlanks | src/compiler/lexer.ts:16 | What remains after skipping a blank run is a suffix of the input that starts with a non-blank, and everything skipped is blank. |
| Lexer.LexMatchesScan | src/compiler/lexer.ts:10-16 | The replace, split and classify pipeline gives the same tokens as a one-pass left-to-right scan, whatever fragment is pending. |
| Lexer.Tokens | src/compiler/lexer.ts:10-45 | The token list built by replacing, splitting and classifying is the one-pass scan of the text. |
| Lexer.Substitute | src/compiler/lexer.ts:10-15 | After the replacements no line break or bracket is left in the text, and text without one is unchanged. |
| Lexer.SplitFrom | src/compiler/lexer.ts:16 | Splitting on blank runs never yields a field holding a blank, and text without a blank extends the pending field into the only field. |
| Lexer.Split | src/compiler/lexer.ts:16 | No field of the split holds a blank, and text without a blank is a single field. |
| Lexer.ClassifyAll | src/compiler/lexer.ts:22-45 | Classification emits at most one token per fragment, and exactly one per fragment when none is empty. |
| Lexer.LexOfTokens | src/compiler/lexer.ts:48-52 | When the token list is not empty, the lexer returns it. |
| Lexer.ClassifyAllAppend | src/compiler/lexer.ts:22-45 | Classifying fragments distributes over concatenation of the fragment list. |
| Lexer.SplitFromBlankFree | src/compiler/lexer.ts:16 | Text without blanks only extends the current field of the split. |
| Lexer.SkipBlanksInvisible | src/compiler/lexer.ts:16-40 | A leading blank run only adds an empty field, and classification drops it. |
| Lexer.SplitAtBlank | src/compiler/lexer.ts:16 | A blank ends the pending fragment and emits nothing of its own. |
| Lexer.SplitAtStructural | src/compiler/lexer.ts:10-16 | A structural character ends the pending fragment and emits its own token in place. |
| Lexer.SplitAtMarker | src/compiler/lexer.ts:10-16 | A marker padded with spaces becomes a field of its own between the pending fragment and the rest. |
| Lexer.MarkerFields | src/compiler/lexer.ts:10-16 | The split fields around a padded marker: the pending field, the marker, then the fields after the following blanks. |
| Lexer.ScanAtStructural | src/compiler/lexer.ts:11-15 | A structural character yields its token at its place, whatever text surrounds it. |
| Lexer.ScanAtBlank | src/compiler/lexer.ts:16 | A blank separates the tokens before it from those after it and yields none. |
| Lexer.ScanFragment | src/compiler/lexer.ts:16-44 | A run of plain characters is read as a single fragment. |
| Lexer.ScanEmpty | src/compiler/lexer.ts:48-50 | The scan emits nothing exactly when nothing is pending and the text is all blanks. |
| Lexer.ScanClean | src/compiler/lexer.ts:22-45 | Every token emitted is well formed, and a word or number contains no blank or structural character. |
| Lexer.ScanCountsLineBreaks | src/compiler/lexer.ts:11 | Without a literal `*`, the scan emits exactly one newline token per `\n` or `\r`. |
| Lexer.TokensCountLineBreaks | src/compiler/lexer.ts:11 | Without a literal `*`, the lexer's newline tokens are exactly the line-break characters, so `\r\n` counts twice. |
| Lexer.TokensAtStructural | src/compiler/lexer.ts:11-15 | The tokens of `a c b` for a structural `c` are those of `a`, then `c`'s token, then those of `b`. |
| Lexer.TokensAtBlank | src/compiler/lexer.ts:16 | The tokens of `a c b` for a blank `c` are those of `a` followed by those of `b`. |
| Lexer.TokensOfFragment | src/compiler/lexer.ts:25-44 | A run of plain characters is a single token: a number for a digit string, otherwise a word carrying the run (unless it spells a marker). |
| Lexer.BracketTokens | src/compiler/lexer.ts:12-13 | Brackets need no surrounding spaces: they add their two tokens around the tokens of what they enclose. |
| Lexer.BraceTokens | src/compiler/lexer.ts:14-15 | Braces need no surrounding spaces: they add an ocb and a ccb token around the tokens of what they enclose. |
| Lexer.PairTokens | src/compiler/lexer.ts:16-43 | Two digit strings separated by a space lex to two number tokens carrying them. |
| Lexer.BracketedPairList | src/compiler/lexer.ts:12-16 | The token list of `[x y]` with digit strings is `[`, number x, number y, `]`. |
| Lexer.BracketedPairTokens | src/compiler/lexer.ts:12-13 | `[x y]` with digit strings lexes to `[`, number x, number y, `]`. |
| Lexer.BracketedPair | src/compiler/lexer.ts:12-13 | `[10 20]` lexes to `[`, 10, 20, `]`. |
| Lexer.CarriageReturnLineFeed | src/compiler/lexer.ts:11 | `\r\n` lexes to two newline tokens. |
| Parser.DotStep | src/compiler/parser.ts:30-58 | One step of the dot recogniser yields a dot and leaves a suffix of its input unread. |
| Parser.CreateDot | src/compiler/parser.ts:30-58 | For every input length and kind: a non-number in place of x or y is an error naming the expected and found kinds. Running out of tokens returns the partial dot. Otherwise x and y are bound and one more token is consumed unchecked. |
| Parser.CheckArgument | src/compiler/parser.ts:82-99 | Without a type table, nothing is checked. With one, a kind not accepted at the position is a type error naming the command, the accepted kinds, the 1-based position and the token found. An accepted number outside 0..100 is a range error. Passing means the kind was accepted. |
| Parser.ReadArgument | src/compiler/parser.ts:77-110 | A read argument is a dot or a copy of a token other than `[`, consumes at least one token, and fits the accepted kinds when a table is given. Untyped, a token other than `[` is copied as is, and only a dot can fail. |
| Parser.FindArguments | src/compiler/parser.ts:69-114 | Success yields exactly the remaining count of arguments, each fitting the table when there is one. Failure without a table is an arity or dot error. An arity error names the command and its full arity. |
| Parser.UntypedArguments | src/compiler/parser.ts:76-113 | Without a table and without `[`, the arguments are the next n tokens verbatim. Fewer tokens is an arity error. |
| Parser.CommentBody | src/compiler/parser.ts:148-152 | A comment's text is the text of each token up to the first newline, each followed by one space. The newline is consumed, or everything is when there is none. |
| Parser.CommentStep | src/compiler/parser.ts:149-152 | Reading one non-newline token moves the first newline one place closer and appends that token's spaced text. |
| Parser.SetNodes | src/compiler/parser.ts:206-229 | For a dot target, `Set` appends a pen change to the level and then a line whose two ends are both the dot. For any other target it appends one declaration of that target to the level. |
| Parser.SetNodesWellFormed | src/compiler/parser.ts:206-229 | What `Set` appends holds no `Papel` and consists of well-formed statements. |
| Parser.SimpleCommand | src/compiler/parser.ts:161-199 | A successful `Papel`, `Lapiz` or `Linea` appends one call of that name with exactly its arity of parameters. It leaves a suffix of the input and keeps the paper flag. |
| Parser.SetCommand | src/compiler/parser.ts:202-233 | A successful `Set` leaves a suffix of the input, appends no `Papel` and appends only well-formed statements. |
| Parser.CommentCommand | src/compiler/parser.ts:143-155 | A comment appends one comment node with its body's text and leaves a suffix of the input. |
| Parser.ParseWord | src/compiler/parser.ts:129-237 | A second `Papel` is the duplicate-paper error, and a word that is not a command is the unknown-command error. On success the paper flag records a `Papel`, exactly a `Papel` adds a sheet, and every statement appended is well formed. |
| Parser.ParseLoop | src/compiler/parser.ts:125-241 | Success only appends to the body and keeps statements well formed and sheets at most one. A leading `[`, `]` or number token is the unexpected-token error. |
| Parser.Parse | src/compiler/parser.ts:116-243 | A successful parse is a drawing of well-formed statements with at most one `Papel`. |
| Parser.UncheckedCommand | src/compiler/parser.ts:157-200 | `Papel`, `Lapiz` and `Linea` take the next 1, 1 and 4 tokens verbatim with no type or range check. Too few tokens is an arity error. |
| Parser.DispatchSimple | src/compiler/parser.ts:157-200 | `Papel` (with no sheet yet), `Lapiz` and `Linea` each dispatch to reading their fixed number of unchecked arguments. |
| Parser.SimpleUntyped | src/compiler/parser.ts:166-198 | A simple command appends the call of its next n tokens, or fails with an arity error when fewer remain. |
| Parser.SetDeclares | src/compiler/parser.ts:222-231 | `Set w c` with a word and an in-range number appends a variable declaration of w to c and consumes two tokens. |
| Parser.SetDrawsDot | src/compiler/parser.ts:203-221 | `Set [x y] c` appends `Lapiz c` and then a line from (x, y) to (x, y), consuming five tokens. The fourth token is not checked. |
| Parser.SetRejectsTarget | src/compiler/parser.ts:82-89 | `Set` rejects a first argument that is neither a word nor `[`, naming the accepted kinds and position 1. |
| Parser.SetRejectsLevelKind | src/compiler/parser.ts:82-89 | `Set w` rejects a second argument that is not a number, naming position 2. |
| Parser.SetRejectsLevelRange | src/compiler/parser.ts:91-97 | `Set w c` rejects a number outside 0..100 with the range error. |
| Parser.SecondPapelFails | src/compiler/parser.ts:157-160 | A `Papel` after a sheet was declared is the duplicate-paper error, and no successful parse holds two sheets. |
| Parser.SkipsSeparators | src/compiler/parser.ts:238-240 | Newline and brace tokens between commands are skipped. |
| Parser.CommentKeepsSpacedWords | src/compiler/parser.ts:143-154 | `// a b` followed by a newline is one comment `a b ` (each word with a space), and the newline is consumed. |
| Numbers.ToNumber | src/compiler/lexer.ts:25 | `Number` on the modelled strings: the empty string is 0, and a digit string is its non-negative value, which prints back as the string without leading zeros. Anything else is not a number. |
| Numbers.ParseInt | src/compiler/transformer.ts:23 | `parseInt` on the modelled strings: a value exactly for a digit string, its decimal value, which prints back as the string without leading zeros. |
| Numbers.IntToString | src/compiler/transformer.ts:26-27 | An integer prints as its decimal digits, after a minus sign when negative, and the digits give back its magnitude. |
| Transformer.FindParamValue | src/compiler/transformer.ts:35-40 | A word with text reads its variable, or undefined when unset. Any other node gives its own value. |
| Transformer.JsNumber | src/compiler/transformer.ts:51-53 | The conversion used for y: an integer is itself, undefined and NaN are no number, and text is a number exactly when it is empty (0) or a digit string, where it agrees with the level parse. |
| Transformer.FlipY | src/compiler/transformer.ts:51-53 | The flipped coordinate is a number exactly when the input converts to one, and the two add up to 100. Otherwise it is NaN. |
| Transformer.Level | src/compiler/transformer.ts:18-24 | An unset level is 100 and an integer is itself. Text gives a level exactly when it is a digit string, and then a non-negative one that prints back as the text without leading zeros. NaN gives none. |
| Transformer.Gray | src/compiler/transformer.ts:27 | A grey starts with `rgb(`, and when the percentage text holds no `%` its red part, read up to the first `%`, is that text. |
| Transformer.MakeColor | src/compiler/transformer.ts:17-28 | The colour has the form `rgb(p%, p%, p%)`, the same percentage text three times. The level read back from it (its inverse, which accepts only canonical integer text) is the input level: an unset level counts as 100, text is parsed as a decimal integer. A non-number level gives exactly `rgb(NaN%, NaN%, NaN%)`. With `Transformer.GrayOfLevel` this fixes the text for every level. |
| Transformer.GrayOfLevel | src/compiler/transformer.ts:26-27 | Two greys that read back to the same level are the same text, because the percentage is printed in canonical form. |
| Transformer.IntColor | src/compiler/transformer.ts:26-27 | The grey made from any integer percentage p has the `rgb(p%, p%, p%)` form and reads back as level 100 - p, negative percentages included. |
| Transformer.NaNColor | src/compiler/transformer.ts:26-27 | The grey made from NaN has the `rgb(p%, p%, p%)` form and reads back as no level. |
| Transformer.Line | src/compiler/transformer.ts:46-59 | Fails exactly when fewer than 4 parameters exist, naming the first missing index. Otherwise it is a childless `line` with keys x1, y1, x2, y2, stroke, stroke-linecap. The x values are the parameters' values and the y values are flipped. The stroke is exactly the colour made from the pen, a grey `rgb(p%, p%, p%)` whose level is the pen's, and the line cap is `round`. |
| Transformer.Rect | src/compiler/transformer.ts:60-72 | Fails exactly when the level is missing. Otherwise it is a childless `rect` at 0,0 of size 100 x 100. Its fill is exactly the colour made from the level parameter, a grey `rgb(p%, p%, p%)` whose level is the parameter's. |
| Transformer.Build | src/compiler/transformer.ts:106-116 | A name that is not a drawing command fails with the unknown-element error. A built element carries the command's tag and has no children. |
| Transformer.Apply | src/compiler/transformer.ts:93-117 | A statement fails exactly when it is faulty. On success, the drawn tags grow by the statement's own tag, if any. |
| Transformer.DrawStep | src/compiler/transformer.ts:106-116 | A drawing command that builds appends its element and changes nothing else. |
| Transformer.ApplyEffects | src/compiler/transformer.ts:93-117 | A statement only appends to the drawing, and only childless elements. Only `Lapiz` changes the pen, to its parameter's value. Only a declaration changes the variables, by writing its own name, the last write winning. |
| Transformer.AnyFaultyExists | src/compiler/transformer.ts:89-119 | The walk's recursive fault test holds exactly when some statement is faulty. |
| Transformer.Run | src/compiler/transformer.ts:89-119 | The walk fails exactly when some statement is faulty. Otherwise the drawn tags are extended by the tags of the drawing commands, in order. |
| Transformer.RunAppends | src/compiler/transformer.ts:89-119 | The walk only appends to the drawing, and everything it appends is childless. |
| Transformer.Transform | src/compiler/transformer.ts:76-121 | The result is an `svg` root with the fixed 100 x 100 attributes and childless children, one tag per drawing command in order. It fails exactly when some statement is faulty. |
| Transformer.Greys | src/compiler/transformer.ts:17-28 | Level 0 is white, level 100 black, and an unset pen black. An empty level is NaN. |
| Transformer.WellFormedNotFaulty | src/compiler/transformer.ts:106-110 | No statement the parser produces is rejected by the walk. |
| Transformer.RectsArePapers | src/compiler/transformer.ts:60-72 | The number of `rect` tags equals the number of `Papel` statements. |
| Transformer.ParsedProgramsTransform | src/compiler/transformer.ts:89-121 | Whatever the parser accepts transforms successfully, into one element per drawing command and at most one `rect`. |
| Transformer.SetThenDraw | src/compiler/transformer.ts:98-105 | After `Set x v`, a line whose x parameters are the word x has both x coordinates equal to v. |
| Transformer.DrawWithVariable | src/compiler/transformer.ts:35-38 | A line's word parameters read the declared variable. |
| Transformer.RunPair | src/compiler/transformer.ts:89-92 | Two statements run one after the other. |
| Transformer.LineUsesPen | src/compiler/transformer.ts:94-97 | A line drawn right after `Lapiz p` has the stroke of level p. |
| Generator.OpenParent | src/compiler/generator.ts:42-52 | Opening an element with children prints its opening line; what remains is its children one level deeper, then the unwinding with its tag and remaining siblings pushed. |
| Generator.PrintLeaf | src/compiler/generator.ts:42-55 | A childless element prints on one line, followed by what was already owed. |
| Generator.CloseLevel | src/compiler/generator.ts:58-69 | Popping a level prints its closing line at its depth, then the siblings saved with it. |
| Generator.PushStep | src/compiler/generator.ts:42-52 | Descending into an element with children keeps the loop invariant: printed text plus what is owed is the serialised root. |
| Generator.LeafStep | src/compiler/generator.ts:42-55 | Printing a childless element keeps the loop invariant. |
| Generator.PopStep | src/compiler/generator.ts:58-69 | Popping a level keeps the loop invariant, and for a tree without empty tags the popped tag is never empty. |
| Generator.Indent | src/compiler/generator.ts:41 | The indentation of depth d is d tab characters and nothing else. |
| Generator.ValReadBack | src/compiler/generator.ts:38 | A printed integer reads back as itself with `parseInt`, after the sign for a negative one, and text prints verbatim. |
| Generator.AttrReadBack | src/compiler/generator.ts:38 | A printed attribute splits back into its key, `="`, its printed value and a closing quote. |
| Generator.AttrsEnds | src/compiler/generator.ts:37-39 | The printed attribute list is empty exactly when there are no attributes. Otherwise it starts with the first attribute's text and ends with the last one's. |
| Generator.TagsMatch | src/compiler/generator.ts:42-55 | An opening tag is `<`, the name and a space, then the attributes and `>`, with nothing between the space and `>` exactly when there are no attributes. The closing tag repeats the same name between `</` and `>` and ends the line. |
| Generator.RenderAttrsSnoc | src/compiler/generator.ts:37-39 | Attributes print in order as `key="value"`, separated by exactly one space: appending an attribute appends one space and its text. |
| Generator.EndsWithClose | src/compiler/generator.ts:55-65 | Every element's text, childless or not, ends with its own closing tag, and so with a line break. |
| Generator.Generate | src/compiler/generator.ts:9-75 | For a tree without empty tags, the stack-driven walk prints exactly the recursive serialisation: opening tag, children one tab deeper, closing tag. |
| Sbn.Translate | src/sbn.ts:14 | The first failing stage's error is the result, and only the lexer and the parser fail. A successful result is an `svg` root with the fixed root attributes. |
| Sbn.FrontEndDecides | src/sbn.ts:13-15 | Only the lexer and the parser can reject a program, and every tree that reaches the generator has no empty tag. |
| Sbn.Compile | src/sbn.ts:13-15 | Compilation fails exactly when lexing or parsing fails, and always when the text is blank, with the failing stage's error. On success the text is the serialised tree of the front end, and it ends with `</svg>` and a line break. |
| Sbn.SvgText | src/sbn.ts:13-15 | The text of any program that translates ends with the root's closing tag `</svg>` and a line break. |
| Sbn.TranslatedTag | src/compiler/transformer.ts:76-86 | Any program that translates has an `svg` root. |
| Sbn.ClosingSvg | src/compiler/generator.ts:55-65 | An `svg` tree prints ending with `</svg>` and a line break. |
| Sbn.WordThenNumber | src/compiler/lexer.ts:16-43 | A command word, a space and a digit string lex to a word and a number token. |
| Sbn.PenOnlyParses | src/compiler/parser.ts:172-183 | `Lapiz x` parses to the single pen call. |
| Sbn.PenOnlyTransforms | src/compiler/transformer.ts:94-97 | Choosing a pen draws nothing: the result is the bare root. |
| Sbn.BareRootText | src/compiler/generator.ts:42-55 | The root with no children prints on one line. |
| Sbn.PenOnlyProgram | src/sbn.ts:13-15 | `Lapiz x` compiles to the bare root, printed as its opening and closing tags on one line. |
| Sbn.UnknownCommandProgram | src/compiler/parser.ts:235-236 | `Foo x` fails with the unknown-command error naming `Foo`. |
| Sbn.SpacedTokens | src/compiler/lexer.ts:16-43 | A fragment followed by space-separated digit strings lexes to the fragment's tokens, then one number per argument. |
| Sbn.SourceTokens | src/compiler/lexer.ts:10-45 | Lines of commands lex to each command's word and numbers, with one newline token between lines. |
| Sbn.LexCommands | src/compiler/lexer.ts:8-53 | A program of command lines lexes successfully to those tokens. |
| Sbn.ParseCommandLine | src/compiler/parser.ts:157-200 | A command word followed by its numbers appends its call and sets the paper flag for `Papel`. |
| Sbn.ParseCommands | src/compiler/parser.ts:125-241 | Lines of valid commands parse to their calls in order, after whatever was already parsed. |
| Sbn.ParseProgram | src/compiler/parser.ts:116-243 | The tokens of valid command lines parse to the drawing of their calls. |
| Sbn.TranslateStages | src/sbn.ts:13-15 | When lexing and parsing succeed, the front end's result is the transformer's on the parsed tree, and it succeeds. |
| Sbn.CommandProgram | src/sbn.ts:13-15 | Any program of valid command lines (at most one `Papel`, first) reaches the transformer as the drawing of its calls and does not fail. |
| Sbn.DemoIsValid | src/main.ts:4-9 | Every line of the demonstration lexes as a word and numbers and parses as a command, `Papel` first. |
| Sbn.DemoCalls | src/main.ts:4-9 | The demonstration parses to six calls: `Papel 0`, `Lapiz 100` and four lines, with their parameters. |
| Sbn.DemoNumbers | src/compiler/transformer.ts:35-53 | The demonstration's literals read back as themselves, and y = 90 flips to 10. |
| Sbn.DemoPaper | src/compiler/transformer.ts:60-72 | `Papel 0` from the initial state draws its rectangle. |
| Sbn.DemoPen | src/compiler/transformer.ts:94-97 | `Lapiz 100` sets the pen to 100 and changes nothing else. |
| Sbn.DemoLine | src/compiler/transformer.ts:46-59 | With the pen set by `Lapiz 100`, a `Linea` with four parameters appends its line and changes nothing else. |
| Sbn.DemoFirstSteps | src/compiler/transformer.ts:89-119 | After the first three statements the walk holds the rectangle and the first line, with pen 100. |
| Sbn.LineTags | src/compiler/transformer.ts:106-116 | Statements that are all `Linea` calls give one `line` tag each. |
| Sbn.DemoTags | src/main.ts:4-9 | The demonstration draws a `rect` and then four `line`s. |
| Sbn.DemoElements | src/compiler/transformer.ts:46-72 | The sheet is filled white, and the first line runs from (10, 10) to (90, 10) in SVG coordinates with a black round stroke. |
| Sbn.DemoTree | src/main.ts:4-9 | The demonstration's statements transform into the white sheet and four lines, the first as above. |
| Sbn.DemoProgram | src/main.ts:4-9 | The demonstration source compiles to the white sheet and then four lines. The first line runs from (10, 10) to (90, 10) in black. |

## Left out

- Lexer.Classify: only non-empty decimal digit strings count as numbers. The host language's `Number` also accepts signs, decimals, exponents, `Infinity`, the `0x`, `0b` and `0o` prefixes, and surrounding Unicode spaces. Those fragments become words here; modelling that number syntax adds nothing to the compiler's structure.
- Transformer.MakeColor: `parseInt` is modelled on digit strings only. The host language also reads a leading numeric prefix, such as `12abc`, and a sign.
- Transformer.FlipY: the conversion to a number is restricted the same way, so any other text gives NaN.
- Generator.Generate: the equality with the recursive serialiser is proved only for trees with no empty tag. For a popped empty tag, the source skips the closing tag and the siblings saved with it. The method models that branch, but no property is stated for it. The transformer never produces an empty tag (`Sbn.FrontEndDecides`).
- Parser.SecondPapelFails: the duplicate-paper error is proved for a `Papel` met at top level after a sheet. It is not claimed for every program with two `Papel` words. A statement between them may fail first, and a `Papel` inside a comment is comment text. For every program, a successful parse is proved to hold at most one `Papel` (`Parser.Parse`).
- Numbers are mathematical integers. The host language's floating-point arithmetic, and its printing of non-integers, are not modelled.
- The source's error messages are Spanish text built with string templates. They are modelled as the `Types.Error` constructors carrying the same data.
- The parser's `pen` flag and the empty `if (!paper)` / `if (!pen)` checks before `Linea` have no effect, so they are not modelled. The same goes for the transformer's empty "pen not defined" check.
- The parser, the transformer and the generator consume their input arrays in place (`shift`). The generator empties the `body` arrays of the tree it prints (`src/compiler/generator.ts:33`). The model takes input values and returns new ones, so this side effect on the caller's data is not modelled.
- Variable and element lookups go through plain objects in the source, so names such as `toString` or `__proto__` would hit inherited properties. The model uses a map and a fixed pair of element names.
- `src/main.ts` logs every stage and writes `dibujo.svg`. That console and file I/O is left out. Only its program text is modelled, as `Sbn.Demo`.
- The syntax-tree node's open-ended extra fields (`[key: string]: any`) are left out. Each node kind has exactly the fields the parser sets.

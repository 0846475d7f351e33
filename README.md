# json_lang query engine, modelled in Dafny

json_lang evaluates JSONPath-like expressions such as `$.user.name` against a
JSON document. An expression goes through two stages:

- **Tokenizer.** It makes one left-to-right pass over the expression with a
  cursor `index`. It emits `Root` (`$`), `Property` (`.name`) and
  `BracketExpression` (`[text]`) tokens, or stops at the first syntax error.
- **Parser.** It walks the token list with its own cursor and keeps one
  current node, which starts at the document root. A Property token moves the
  node into an object field. A Root token is accepted only as token 0. A
  bracket expression aborts, because that feature is not implemented.

The Dafny model keeps this structure. For each stage, pure functions state
what the stage computes, and a class does the work step by step:

| file | module | contents |
|---|---|---|
| `wrappers.dfy` | `Wrappers` | `Option`, `Result` and `Outcome`, which stand in for the C++ exceptions |
| `json.dfy` | `Json` | an abstract JSON value; `FindField`, the first field with a given key |
| `tokens.dfy` | `Tokens` | `Token` and `TokenType`; the text `std::to_string` gives a `char`; the rendering of tokens back to text |
| `lexer.dfy` | `Lexer` | the scanning specification (`Step`, `Scan`, `Tokenize`) and the class `Tokenizer` |
| `lexer_properties.dfy` | `LexerProperties` | soundness and completeness of the scan, maximal names, one lemma per syntax error |
| `evaluator.dfy` | `Evaluator` | the walk specification (`PropertyStep`, `EvalFrom`, `Evaluate`) and the class `Parser` |
| `evaluator_properties.dfy` | `EvaluatorProperties` | a token list selects the value at the path of names it spells; every other list fails |
| `query.dfy` | `Query` | the driver (tokenize, then parse) and lemmas about whole queries |
| `query_examples.dfy` | `QueryExamples` | concrete expressions, including the places where the code accepts more than the grammar |

Each method of the two classes is proved against its specification function.

- `Tokenizer.GetTokens` returns `Scan(source, old(index))`.
- Each `TryConsume…` method returns the token list extended by one `Step`, and states the new index.
- `Parser.Parse` returns `EvalFrom(tokens, old(index), doc)`.

The lemmas are stated about these functions.

## Where the code and the documented language differ

The model follows the code in each case:

- **No leading `$` is required.** The documented grammar is `'$' Step*`, but
  the tokenizer never demands a `$`. `.a` tokenizes to one Property token
  (`QueryExamples.RootIsOptional`), and the evaluator then starts at the
  document root.
- **The Root token's content is `"36"`, not `"$"`.**
  `Token(const char c, …)` stores `std::to_string(c)`, and `std::to_string`
  promotes the `char` to an integer (main.cpp:17). `Tokens.DollarToken`
  proves that the token built from `'$'` has content `"36"`.
- **Bracket expressions are not evaluated.** The tokenizer captures the raw
  text up to the first `]`. The parser throws "feature non-implemented" on
  it, so no filter or index semantics exist to model.
- **A `$` inside brackets is accepted.** Bracket text is raw, so `$[$]`
  tokenizes. "A `$` at a non-zero index fails" therefore holds only for a `$`
  at the top level.
- **Brackets do not nest.** The text stops at the first `]`.

## Model

| member | source | states |
|---|---|---|
| Tokens.NatToDecimal | main.cpp:17 | the text `std::to_string` gives a natural number: non-empty, decimal digits only, no leading zero, and denoting exactly that number |
| Tokens.CharToken | main.cpp:17 | `Token(const char c)` makes a token of kind Root whose content is the text `std::to_string` writes for the code of `c`: non-empty, decimal digits only, no leading zero, denoting that code |
| Tokens.DollarToken | main.cpp:17 | the token built from `'$'` is the Root token, whose content is "36" |
| Tokens.RenderAllAppend | main.cpp:80-103 | rendering tokens back to text is compositional: rendering a concatenation gives the concatenation of the renderings |
| Json.FindField | main.cpp:152 | field lookup finds nothing exactly when no field has the key; otherwise it returns the value of the first field with that key |
| Lexer.NameEnd | main.cpp:42-44 | the greedy name loop stops at the first character that is not an ASCII letter or `_`, or at the end; every character it passes is a name character |
| Lexer.BracketEnd | main.cpp:58-60 | the bracket loop stops at the first `]`, or at the end when there is none; no character it passes is `]` |
| Lexer.Step | main.cpp:84-98 | one iteration of the token loop; on success it consumes at least one character and stays within the input, so the scan terminates |
| Lexer.Tokenizer.constructor | main.cpp:78 | a new tokenizer is at index 0 of its source |
| Lexer.Tokenizer.Consume | main.cpp:27 | returns the character at the cursor and advances the cursor by one |
| Lexer.Tokenizer.Peak | main.cpp:29 | the character at the cursor; at the end of input, the terminating NUL |
| Lexer.Tokenizer.Eof | main.cpp:31 | true exactly when the cursor is at or past the end |
| Lexer.Tokenizer.TryConsumeRoot | main.cpp:33-37 | fails with RootNotAtStart, leaving the index unchanged, unless the index is 0; otherwise appends the Root token of the consumed character; the result and new index are those of `Step` |
| Lexer.Tokenizer.TryConsumeProperty | main.cpp:39-51 | consumes the '.' and the greedy run of name characters; fails with EmptyPropertyName when the run is empty; otherwise appends the name as a Property token; the result and new index are those of `Step` |
| Lexer.Tokenizer.TryConsumeBracketExpression | main.cpp:53-75 | consumes '[' and the text up to the first ']'; fails with UnterminatedBracket when no ']' follows (the lookahead at the end is NUL), and then with EmptyBracketExpression for "[]"; otherwise consumes ']' and appends the text as a BracketExpression token |
| Lexer.Tokenizer.GetTokens | main.cpp:80-103 | the token loop returns exactly `Scan(source, index)`: the token list of the whole expression, or its first syntax error, for example UnexpectedCharacter with the index and the character; on success the cursor is left at the end of the source, so a second call returns no tokens |
| LexerProperties.NameEndAt | main.cpp:42-44 | the greedy name run ends at the only index that closes a run of name characters |
| LexerProperties.BracketEndAt | main.cpp:58-60 | the bracket text ends at the only index that closes a run free of `]` |
| LexerProperties.StepSound | main.cpp:33-75 | a successful step reads a valid token, and its rendering is exactly the text consumed |
| LexerProperties.ScanSound | main.cpp:80-103 | a successful scan from any index yields valid tokens, with Root only at index 0, whose rendering is the rest of the input |
| LexerProperties.TokenizeSound | main.cpp:33-103 | on success the tokens are well formed: each Property is a non-empty run of ASCII letters or `_`; each BracketExpression is non-empty text without `]`; Root comes only first, with content "36". Rendering them gives back the input exactly |
| LexerProperties.TokenizeRootFirst | main.cpp:33-37 | the first token is Root exactly when the input starts with `$`; that token is then the Root token; no later token is Root |
| LexerProperties.RenderAllSplit | main.cpp:80-103 | in the rendering of a token list, token `k` stands between the text of the tokens before it and the text of those after it |
| LexerProperties.TokenAtItsPlace | main.cpp:80-103 | every token of a successful scan stands in the input right after the text of the tokens before it |
| LexerProperties.PropertyNameMaximal | main.cpp:39-50 | a Property token's name stands after its '.' in the input, and the input after the name is empty or starts with a character that is not a letter or `_` |
| LexerProperties.BracketTextUpToFirstClose | main.cpp:53-75 | a BracketExpression token's text stands between '[' and ']' in the input and holds no `]`, so the scan took the first `]` and brackets do not nest |
| LexerProperties.StepRendered | main.cpp:33-75 | where the text of a valid token stands, and no name character follows it, one step reads exactly that token |
| LexerProperties.StepRenderedHead | main.cpp:84-98 | where the text of a token list stands, one step reads its first token and the remaining text is the rendering of the rest |
| LexerProperties.ScanRendered | main.cpp:80-103 | where the text of valid tokens stands from index `i` to the end, the scan from `i` returns exactly those tokens |
| LexerProperties.TokenizeRendered | main.cpp:33-103 | the converse round trip: every well-formed token list renders to text that tokenizes back to the same list |
| LexerProperties.StepExtend | main.cpp:39-75 | appending text does not change a successful step, unless the step is a name at the end that the appended text would extend |
| LexerProperties.ScanPrefix | main.cpp:80-103 | the scan of `p + q` starts with the tokens of `p`, provided `q` does not continue `p`'s last property name |
| LexerProperties.TokenizePrefix | main.cpp:80-103 | the same at index 0: tokenizing `p + q` gives the tokens of `p`, then the scan of `q` in place |
| LexerProperties.FailsAfterPrefix | main.cpp:80-103 | a step that fails right after a prefix that tokenizes makes the whole expression fail with that step's error |
| LexerProperties.DollarAfterPrefixFails | main.cpp:33-35 | a `$` after a non-empty prefix that tokenizes fails with RootNotAtStart at the `$`'s index |
| LexerProperties.StepEmptyProperty | main.cpp:39-49 | a '.' not followed by a name character fails with EmptyPropertyName at the '.' |
| LexerProperties.EmptyPropertyFails | main.cpp:39-49 | after a prefix that tokenizes, a '.' followed by the end or by a character that is not a name character fails with EmptyPropertyName |
| LexerProperties.StepUnterminatedBracket | main.cpp:58-66 | a '[' with no later `]` fails with UnterminatedBracket at the '[' |
| LexerProperties.UnterminatedBracketFails | main.cpp:58-66 | after a prefix that tokenizes, a '[' with no later `]` fails with UnterminatedBracket, also when it is the last character |
| LexerProperties.StepEmptyBracket | main.cpp:68-70 | "[]" fails with EmptyBracketExpression at the '[' |
| LexerProperties.EmptyBracketFails | main.cpp:68-70 | after a prefix that tokenizes, "[]" fails with EmptyBracketExpression |
| LexerProperties.UnexpectedCharacterFails | main.cpp:97-98 | after a prefix that tokenizes, any character other than `$`, `.` and `[` fails with UnexpectedCharacter, its index and its value (unless it extends a property name) |
| LexerProperties.TokenizeEmpty | main.cpp:81-83 | the empty expression gives the empty token list |
| Evaluator.Parser.constructor | main.cpp:122 | a new parser is at token 0, over the given tokens and document |
| Evaluator.Parser.Consume | main.cpp:111 | returns the token at the cursor and advances the cursor by one |
| Evaluator.Parser.Peak | main.cpp:112 | the token at the cursor |
| Evaluator.Parser.Eof | main.cpp:113 | true exactly when the cursor is at or past the last token |
| Evaluator.Parser.EnsureValidRoot | main.cpp:115-120 | fails with MisplacedRoot, leaving the cursor unchanged, unless the cursor is at token 0; otherwise consumes the token |
| Evaluator.Parser.Parse | main.cpp:124-167 | the parse loop returns exactly `EvalFrom(tokens, index, doc)`; a Property fails on a scalar or an array, moves into the field's value on an object that has it, and fails otherwise; a bracket aborts; a Root past token 0 fails; on success the cursor is left past the last token |
| EvaluatorProperties.PropertyStepCases | main.cpp:137-155 | a Property step fails on a string, null, number or boolean; it fails on an array; it fails on an object without the field; it succeeds exactly when the object has the field, with the first such field's value |
| EvaluatorProperties.SelectPathAppend | main.cpp:130-156 | following a chain of names is following its first part and then the rest |
| EvaluatorProperties.EvalFromPath | main.cpp:130-156 | over Root/Property tokens, the walk succeeds exactly when the document has the chain of fields, with the value at its end; otherwise it fails with a property error |
| EvaluatorProperties.EvalFromSuccessIsPath | main.cpp:130-163 | a walk that succeeds passed only Property tokens and a Root at token 0 |
| EvaluatorProperties.EvaluateSelectsPath | main.cpp:124-167 | the evaluator selects a node exactly when the token list is a path and the document has it, and the node is the value at that path |
| EvaluatorProperties.EvaluateEmpty | main.cpp:130-131 | the empty token list selects the whole document |
| EvaluatorProperties.EvalFromPrefix | main.cpp:130-156 | walking a path prefix that exists lands on its value and continues from there |
| EvaluatorProperties.EvaluateBracketAborts | main.cpp:157-160 | a bracket expression reached after an existing path fails with BracketNotImplemented and its text |
| EvaluatorProperties.EvaluateMisplacedRoot | main.cpp:115-118 | a Root token at token `k > 0`, reached after an existing path, fails with MisplacedRoot(k) |
| EvaluatorProperties.EvaluateWithBracketFails | main.cpp:157-160 | a token list with a bracket expression anywhere never selects a node |
| Query.Execute | main.cpp:182-187 | the driver (tokenizer, then parser) returns exactly `RunQuery`: the selected node, the syntax error, or the evaluation error |
| Query.PropertyTokensRender | main.cpp:39-51 | `.p1.p2…` is the rendering of the Property tokens of the names, and those tokens spell the names back |
| Query.PathTokensWellFormed | main.cpp:33-51 | the Root token followed by valid Property tokens is well formed and is a path |
| Query.PathTokensSpell | main.cpp:33-51 | those tokens spell the names and render to `$.p1.p2…` |
| Query.TokenizePath | main.cpp:80-103 | `$.p1.p2…` over valid names tokenizes to the Root token and one Property token per name |
| Query.QuerySelectsPath | main.cpp:182-187 | `$.p1.p2…` selects the value at that chain of nested fields when the document has it, and otherwise fails with a property error |
| Query.QueryPathCompose | main.cpp:131-156 | queries compose: `$.a….b…` fails when `$.a…` fails, and otherwise selects what `$.b…` selects in the node `$.a…` selected |
| Query.BracketTokensRender | main.cpp:53-75 | a path followed by a bracket token renders to `$.p1.p2…[text]` |
| Query.BracketTokensFacts | main.cpp:53-75 | such a token list is well formed: a path, then the bracket token |
| Query.QueryBracketAfterPath | main.cpp:157-160 | `$.p1.p2…[text]`, on a document that has the path, fails with BracketNotImplemented(text) |
| Query.QueryRenderedBracket | main.cpp:157-160 | a well-formed token list with a bracket after an existing path, rendered and queried, fails with BracketNotImplemented |
| QueryExamples.SelectsField | main.cpp:182-187 | `$.user` on `{"user": true}` selects `true` |
| QueryExamples.PropertyOfNumberFails | main.cpp:139-144 | `$.a.b` on `{"a": 1}` fails with PropertyOfScalar("b") |
| QueryExamples.UnexpectedCharacterAfterRoot | main.cpp:97-98 | `$x` fails with UnexpectedCharacter at index 1, with the character 'x' |
| QueryExamples.UnterminatedBracketAtEnd | main.cpp:64-66 | `$.items[` fails with UnterminatedBracket at index 7 |
| QueryExamples.RootIsOptional | main.cpp:83-100 | `.a` tokenizes to a single Property token, with no Root |
| QueryExamples.DollarInsideBracket | main.cpp:58-60 | `$[$]` tokenizes: a `$` inside bracket text is not a misplaced root |
| QueryExamples.BracketsDoNotNest | main.cpp:58-60 | `$[[a]]` gives the bracket text `[a` and then fails on the second `]` |

## Left out

- Document loading and parsing by simdjson, and the `doc.get_value()` error path (main.cpp:125-128, 171-179). The document is an abstract `Json` value passed in, and the walk always starts at it. simdjson's on-demand `document::get_value()` is documented to refuse a document whose root is a scalar (error `SCALAR_DOCUMENT_AS_VALUE`). The program therefore throws at main.cpp:126-127 for every scalar document, even for an empty token list. The model has no such failure, so `EvaluatorProperties.EvaluateEmpty` and a PropertyOfScalar at the root do not describe what the program does on a scalar document.
- Serialization with `simdjson::to_json_string` (main.cpp:166). The result is the selected node itself, not its text.
- The debug output with `std::cout` (main.cpp:62, 158), and `main` with its hard-coded file and expression (main.cpp:170-191). `Query.Execute` models only the tokenize-then-parse sequence of main.cpp:182-187.
- The text of exception messages, including `std::to_string` of the index and the character (main.cpp:98). Errors are distinct tagged values and carry the index where it is known.
- The `default` branch that throws "Unknown token type" (main.cpp:162-164). It cannot be reached, since `TokenType` has exactly three values.
- Locale-dependent `std::isalpha`. Name characters are the ASCII letters and `_`.
- Bytes versus characters. The expression is a sequence of Dafny `char`s, one per position, so indices of non-ASCII input are not counted in bytes as in C++. `Tokens.CharToken` writes the non-negative code of the character. With a signed `char`, C++ would write a negative number with a leading `-` for a byte above 127. The model cannot express this, and the tokenizer only applies `Token(const char)` to `$`.
- Filter semantics of bracket expressions. The code has none: evaluating a bracket always fails.
- The key matching of simdjson's `find_field`: raw key bytes, with no unescaping. It is modelled as an exact match on the key string, taking the first field in document order. Numbers are kept as their literal text, because evaluation never looks inside them.
- Aliasing of the token vector. `try_consume_*` extend a `std::vector` passed by reference; the methods take the list and return the extended list.
- LexerProperties.DollarAfterPrefixFails: states the failure for a `$` that follows a prefix which tokenizes on its own, not for every `$` past index 0. A `$` inside bracket text is accepted (`QueryExamples.DollarInsideBracket`), so the general statement does not hold.
- LexerProperties.UnexpectedCharacterFails: requires that the character does not continue the prefix's last property name. A letter or `_` there is part of the name, not an unexpected character.
- Query.QueryBracketAfterPath: covers only documents that have the path before the bracket. On other documents the path's own property error comes first (`EvaluatorProperties.EvalFromPath`).

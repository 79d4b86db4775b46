# panza-lexer token core, in Dafny

A model of `tokens.go`, the tokenizer of the panza lexer. The model has five parts:

- **Signatures** (`signatures.dfy`) hold a kind's literal character sequence. They are compared by substring (`Contains`) and by equality (`Compare`).
- **Declarations** (`declarations.dfy`) parse declaration lines of the form `NAME SEQUENCE #: comment`:
  - `findCommentPos`, `justifyString`, `parseComment`;
  - `parseLine`, with Go's `strings.SplitN(line, " ", 2)`.
- **Kinds** (`kinds.dfy`) covers the kind table and the `Registry` class:
  - `TokenKind`, `TokenObject` and `Get`;
  - `Ids`, `Find` and `FindEx`, which are append loops over an optional id list;
  - the `Registry` class, which holds Go's globals: the id counter, the two length maxima and the kind map;
  - `newKind`, `Add` and `loadTokens`, with the reserved block first and the declarations file given as its lines.
- **Matching** (`matching.dfy`) is the matching engine:
  - `calcStep`, `calcView` and `calcViewR`;
  - `isToken`, the lookahead oracle: a function over the loop's states, plus the loop itself as a method;
  - `findToken`, the recursive narrowing over the view length and the candidate ids. It has a fuel bound and returns `Found(id, text)`, `OutOfRange` for Go's slice panic, or `OutOfFuel` for recursion that does not end.
- **Tokenizer** (`tokenizer.dfy`) covers:
  - `findIdenToken`, which trims a generic identifier so it stops where a token starts;
  - `TokenizeLine`, a loop that emits 1-based columns;
  - `TokenizeLines`, which numbers lines from 0.

  Each loop is a method proved equal to a specification function. The layout properties are proved about those functions.
- **Scenarios** (`scenarios.dfy`) work the matcher through a small table of whitespace, the generic identifier, `=` and `==`. They pin down what the code does:
  - `==` is one `==` token;
  - in `= a` the `=` comes out as a generic token, not as `=`;
  - with only `==` declared, `findToken` on `=` never returns.

The engine reads the kind table and the longest signature length as parameters. In Go they are the package globals `tokenKinds` and `tokenKindSignatureMaxSize`.

`findToken` is not a terminating longest-match lexer, and the model keeps its actual behaviour:
- its recursion can run forever (`Scenarios.AssignAloneDiverges`);
- its lookahead slice can panic (`Matching.Match.OutOfRange`);
- `= a` does not start with the declared `=` (`Scenarios.AssignFirstToken`).

`TokenizeLines` numbers lines from 0 and `TokenizeFile` numbers them from 1; `Tokenizer.LinesTokens` takes the first number as `base`.

## Model

| member | source | states |
|---|---|---|
| Signatures.Contains | tokens.go:26-28 | true exactly when `ots` occurs at some offset of `ts` |
| Signatures.ContainsPrefix | tokens.go:26-28 | a signature contains each of its prefixes, itself and the empty text included |
| Signatures.ContainsChar | tokens.go:26-28 | a one-character text is contained exactly when that character occurs |
| Signatures.ContainsKeepsChars | tokens.go:26-28 | every character of a contained text occurs in the containing signature |
| Signatures.Compare | tokens.go:34-36 | exact equality of two signatures, which implies that the first contains the second |
| Declarations.MarkerFrom | tokens.go:469-471 | `strings.Index(s, "#:")` from an offset: -1 or the first marker at or after it |
| Declarations.FindCommentPos | tokens.go:469-471 | -1 exactly when there is no `#:`; otherwise the first marker, with none before it |
| Declarations.TrimRightSpaces | tokens.go:488 | `strings.TrimRight(s, " ")`: a prefix that does not end in a space, with only spaces cut |
| Declarations.JustifyString | tokens.go:480-489 | a negative index keeps the text; a cut of exactly two spaces gives one space; any other cut loses its trailing spaces and nothing else |
| Declarations.StripComment | tokens.go:495-504 | the text `parseComment` returns: the whole line when it has no `#:`, else the justified text before the first one; its properties are `StripCommentShape` and `StripCommentIdempotent` |
| Declarations.StripCommentShape | tokens.go:495-504 | what `parseComment` returns is a prefix of its input, holds no `#:`, and equals the input when it had none |
| Declarations.StripCommentIdempotent | tokens.go:495-504 | parsing comments twice is parsing them once |
| Declarations.ParseComment | tokens.go:495-504 | the `ind`/`temp` loop yields the text before the first comment, justified |
| Declarations.FirstSpace | tokens.go:508 | the offset of the first space, with none before it |
| Declarations.SplitN2 | tokens.go:508 | `strings.SplitN(s, " ", 2)`: one part (the line) exactly when it has no space, else a space-free head and the rest around the first space |
| Declarations.ParseLine | tokens.go:507-521 | both parts comment-stripped; `("", "")` for a line without a space; the more-than-two panic cannot happen |
| Declarations.Declaration | tokens.go:507-521 | the pair `parseLine` returns: `("", "")` for a line without a space, else both `SplitN` parts comment-stripped; `ParseLine` computes it and `DeclarationShape` states its shape |
| Declarations.DeclarationShape | tokens.go:507-521 | the name is a prefix of the text before the first space, and neither part keeps a `#:` |
| Kinds.Get | tokens.go:119-121 | the stored kind, or Go's zero `TokenKind` (id 0, empty name and signature) for an unregistered id |
| Kinds.Select | tokens.go:138-179 | the ids a lookup returns, as a set: those of its scope (the given ids, or all when none are given) that the query accepts; `Search` returns them and `ExactWithinSubstring` and `SelectIdempotent` relate two lookups |
| Kinds.Filter | tokens.go:145-150 | the ids of the given list that the query accepts, in list order, and no more of them than the list holds; `FilterMembers` states which ids it keeps |
| Kinds.FilterMembers | tokens.go:145-150 | the append loop keeps exactly the accepted ids of the list and repeats none of a duplicate-free list |
| Kinds.Ids | tokens.go:109-116 | every registered id, each exactly once |
| Kinds.Scan | tokens.go:145-150 | the loop appends, in list order, the ids the query accepts |
| Kinds.ScanSelects | tokens.go:138-152 | scanning a list that covers the lookup's scope yields exactly the selected ids, without repeats |
| Kinds.Search | tokens.go:138-179 | the shared body of `Find`/`FindEx`: the given ids filtered in order, or all ids when none are given; exactly the accepted ids of that scope |
| Kinds.Find | tokens.go:138-152 | the ids (of the list, or of the whole table when the list is empty) whose signature contains `sig`, in list order, without new repeats |
| Kinds.FindEx | tokens.go:164-179 | the ids (of the list, or of the whole table when the list is empty) whose signature equals `sig`, in list order, without new repeats |
| Kinds.ExactWithinSubstring | tokens.go:164-179 | `FindEx` returns a subset of what `Find` returns on the same arguments |
| Kinds.SelectIdempotent | tokens.go:229 | re-running a lookup on its own non-empty result changes nothing |
| Kinds.RegisteredDomain | tokens.go:123-127 | after successive `Add`s from id `start` the table holds exactly the old ids and `start` to `start + n - 1` |
| Kinds.RegisteredEntry | tokens.go:123-127 | successive `Add`s store declaration `id - start` under `id` |
| Kinds.RegisteredKeeps | tokens.go:123-127 | successive `Add`s leave every old entry outside the new ids unchanged |
| Kinds.RegisteredSnoc | tokens.go:123-127 | one more `Add` stores the next declaration under the next id |
| Kinds.RegisteredStep | tokens.go:123-127 | the same, for the `k`-th entry of a fixed list |
| Kinds.Declared | tokens.go:544-550 | the (name, sequence) pairs of the lines that declare a kind, in file order: no more than there are lines, and every name non-empty |
| Kinds.DeclaredStep | tokens.go:544-550 | a line whose parsed name is empty is skipped, any other adds its declaration |
| Kinds.MaxLenBounds | tokens.go:85-98 | the longest-name and longest-sequence lengths of a list of declarations bound every entry and are attained by one, or are 0 for no entries |
| Kinds.MaxLenSnoc | tokens.go:85-98 | one more declaration raises each maximum to the larger of the old maximum and its own length |
| Kinds.MaxLenStep | tokens.go:85-98 | the same, for the `k`-th entry of a fixed list |
| Kinds.FreshDomain | tokens.go:529-550 | on a fresh registry, the reserved block and then the declared kinds hold exactly the ids below their total count (0 to 6 and then from 7 for the seven reserved kinds) |
| Kinds.FreshFirst | tokens.go:529-542 | on a fresh registry the reserved kinds take ids 0, 1, … in order, and the declared kinds after them leave those entries unchanged |
| Kinds.FreshNext | tokens.go:544-550 | the declared kinds take the ids that follow the reserved block, in line order |
| Kinds.Registry.constructor | tokens.go:75-82 | the globals start at zero with an empty map |
| Kinds.Registry.NewKind | tokens.go:85-98 | the kind takes the counter's old value, the counter rises by one, and each maximum becomes the larger of the old value and the new length |
| Kinds.Registry.Add | tokens.go:124-127 | the new kind is stored under the old counter, which was free; all other entries are unchanged; no duplicate check is made |
| Kinds.Registry.LoadReserved | tokens.go:529-542 | the seven reserved kinds, added in order under the next seven ids; each maximum becomes the larger of its old value and the longest reserved name or signature |
| Kinds.Registry.AddAll | tokens.go:529-542 | a run of `Add`s stores the list in order under the next ids and raises each maximum to cover the list |
| Kinds.Registry.AddNext | tokens.go:529-542 | one `Add` of that run keeps the registry equal to the first `k + 1` entries stored, with maxima covering them |
| Kinds.Registry.LoadTokens | tokens.go:524-553 | the reserved block, then one kind per declaring line, in line order; each maximum covers the old value, the reserved kinds and the declared kinds |
| Kinds.Registry.LoadDeclarations | tokens.go:544-550 | the scanning loop adds exactly the declared (name, sequence) pairs in order; each maximum becomes the larger of its old value and the longest declared name or sequence |
| Kinds.Registry.LoadNext | tokens.go:544-550 | pass `i` of that loop keeps the registry equal to the kinds declared by the first `i + 1` lines, with maxima covering them |
| Kinds.Registry.LoadLine | tokens.go:545-549 | one pass of that loop: a line with an empty name changes nothing, maxima included; any other adds one kind and raises each maximum to cover its name and sequence |
| Matching.CalcStep | tokens.go:195-199 | always the length of the line, whatever the longest signature |
| Matching.CalcView | tokens.go:202-207 | `step` characters from `pos`, or the rest when fewer remain; a panic exactly when `pos` is past the end |
| Matching.CalcViewR | tokens.go:210-215 | empty unless `pos == step`, because the unsigned difference is positive otherwise; then the first `pos` characters |
| Matching.IsTokenFrom | tokens.go:228-241 | the rest of the `isToken` loop from a state at its head, with the one-pass lag between the test and the narrowing; `IsTokenFromPrefix` states what it accepts |
| Matching.IsToken | tokens.go:221-242 | `isToken(line)`: the loop started on the whole text; `IsTokenOfSignature` and `IsTokenOnlyIfPrefix` state when it holds |
| Matching.EmptyTextMatchesAll | tokens.go:226 | for the empty text, a non-empty table always yields candidates |
| Matching.ComputeIsToken | tokens.go:221-242 | the shrinking loop over `step`, `sig` and `view`, with its one-pass lag, computes `IsToken` |
| Matching.IsTokenOfSignature | tokens.go:221-242 | a text equal to a registered signature is a token |
| Matching.IsTokenFromPrefix | tokens.go:228-241 | whatever the loop accepts from a state at its head is a registered signature equal to a non-empty prefix |
| Matching.IsTokenOnlyIfPrefix | tokens.go:221-242 | a non-empty text is a token only if one of its non-empty prefixes is a registered signature |
| Matching.NotTokenWithoutFirstChar | tokens.go:221-242 | a text whose first character no signature holds is not a token |
| Matching.Only | tokens.go:275 | `ids[0]` of a one-element result is its only element |
| Matching.SingleExact | tokens.go:270-275 | exact matches among one candidate are that candidate or nothing |
| Matching.Narrow | tokens.go:282-293 | the several-candidates branch stays at the view or grows it by one, and fails exactly on the slice panic or on the empty lookahead in an empty table |
| Matching.NarrowGrows | tokens.go:290-293 | a token right after the view: grow by one, keep the candidates |
| Matching.NarrowStays | tokens.go:282-287 | no token right after the view: stay, with the exact matches or else the generic id |
| Matching.Decide | tokens.go:253-294 | one call either returns a sound result or recurses with a view at least as long |
| Matching.FindToken | tokens.go:253-294 | `findToken(line, step)` under a fuel bound; on a non-empty line a found result is `(1, line)` or a registered kind whose signature is a non-empty prefix of the line |
| Matching.FindTokenGeneric | tokens.go:260-269 | when no signature holds the first character, the result is `(1, line)` |
| Tokenizer.FindIdenFrom | tokens.go:306-321 | from offset `from`: the first cut that a token follows, or the whole line; no token starts inside |
| Tokenizer.FindIden | tokens.go:297-322 | a one-character line unchanged; else `line[:k]` for the least `k >= 1` where a token starts, or the whole line; always a non-empty prefix |
| Tokenizer.FindIdenToken | tokens.go:297-322 | the `view`/`lookAhead` loop, whose view lags one step, computes `FindIden` |
| Tokenizer.Lex | tokens.go:333-338 | the symbol for the rest of a line is a non-empty prefix of it; a non-generic id is registered with that symbol as its signature |
| Tokenizer.TokensFrom | tokens.go:325-344 | the tokens `TokenizeLine` emits from offset `pos` on: the token there, then those from just past its symbol; at most one per remaining character; `TokensLayout` states their layout |
| Tokenizer.Tokens | tokens.go:325-344 | the tokens of a whole line, at most one per character; `TokensOfLine` states their layout |
| Tokenizer.TokenAt | tokens.go:333-339 | the token at offset `pos` has column `pos + 1`, a non-empty symbol that sits in the line there, and a fitting kind |
| Tokenizer.LexToken | tokens.go:333-338 | `findToken(line[pos:], 1)`, widened by `findIdenToken` for the generic id, computes `Lex` |
| Tokenizer.NextToken | tokens.go:333-339 | one loop pass builds `TokenAt` |
| Tokenizer.TokensAdvance | tokens.go:329-341 | one pass keeps "tokens found so far, then the tokens from `pos`" equal to the line's tokens |
| Tokenizer.ProgressStep | tokens.go:329-341 | the token at `pos` moves the scan offset strictly forward and keeps that progress; no token fails the line |
| Tokenizer.AdvanceToken | tokens.go:329-341 | one loop pass: the offset strictly increases and the progress is kept, or the line fails |
| Tokenizer.TokenizeLine | tokens.go:325-344 | the loop returns exactly `Tokens(line)` |
| Tokenizer.TokensCons | tokens.go:333-340 | a successful scan from `pos` is its first token followed by the scan from just past its symbol |
| Tokenizer.LayoutCons | tokens.go:339-340 | a fitting token in front of a layout from just past it is a layout from `pos` |
| Tokenizer.TokensLayout | tokens.go:325-344 | symbols concatenate to the rest of the line; the first column is `pos + 1`; each next column is the previous plus the previous symbol's length; non-generic symbols equal their kind's signature |
| Tokenizer.TokensOfLine | tokens.go:325-344 | symbols concatenate to exactly the line; the empty line, and only it, has no tokens; each token carries `lineNo` and a column within the line |
| Tokenizer.LinesTokens | tokens.go:347-357 | the tokens of each line in turn, numbered from `base`, at most one per character of the lines; `LinesTokensLayout` states their layout |
| Tokenizer.LinesTokensSnoc | tokens.go:350-354 | the tokens of several lines are those of all but the last, then the last line's |
| Tokenizer.LinesLayoutSnoc | tokens.go:350-354 | appending the next line's tokens keeps the symbols, the line-number range and the line order |
| Tokenizer.LinesTokensLayout | tokens.go:347-357 | symbols concatenate to the lines run together; line numbers lie in `[base, base + n)` and never decrease |
| Tokenizer.LinesTokensFail | tokens.go:350-354 | a line that fails makes the whole run fail |
| Tokenizer.TokenizeLines | tokens.go:347-357 | the loop returns the in-order concatenation of `Tokens(lines[i], i)` |
| Scenarios.HoldingChar | tokens.go:261 | `Find` of one character returns exactly the kinds whose signature holds it |
| Scenarios.HoldingNone | tokens.go:261 | `Find` of a text with a character no signature holds returns nothing |
| Scenarios.AssignCandidates | tokens.go:261 | in the table, `=` is held by `=` and `==` |
| Scenarios.SpaceCandidates | tokens.go:261 | in the table, a space is held by, and equals, whitespace only |
| Scenarios.NothingHoldsA | tokens.go:261 | in the table, no signature holds a text containing `a` |
| Scenarios.AssignIsToken | tokens.go:221-242 | `=` is a token |
| Scenarios.SpaceIsToken | tokens.go:221-242 | a space is a token |
| Scenarios.LetterIsNotToken | tokens.go:221-242 | `a` is not a token |
| Scenarios.EmptyIsNotToken | tokens.go:221-242 | the empty text is not a token |
| Scenarios.SpaceAIsToken | tokens.go:314 | ` a` starts with a token, so `findIdenToken` cuts `= a` after `=` |
| Scenarios.EqualsGrows | tokens.go:290-293 | at `=` in `==` the view grows, keeping both candidates |
| Scenarios.EqualsNarrows | tokens.go:282-287 | at `==` the empty lookahead is not a token, so the candidates narrow to `==` |
| Scenarios.EqualsFound | tokens.go:270-275 | the single candidate `==` equals the view and wins |
| Scenarios.EqualsIsOneToken | tokens.go:253-294 | `findToken("==", 1)` returns `==` (id 8) with text `==` |
| Scenarios.AssignGrows | tokens.go:290-293 | at `=` in `= a` the space ahead is a token, so the view grows |
| Scenarios.AssignFallsBack | tokens.go:282-287 | at `= ` nothing is exact and `a` is no token, so the candidates fall back to the generic id |
| Scenarios.GenericGrows | tokens.go:270-273 | the generic id does not equal `= `, so the view grows with no candidates |
| Scenarios.GenericFound | tokens.go:264-269 | no signature holds `= a`, so the result is the generic id with the whole text |
| Scenarios.AssignBeforeSpaceIsGeneric | tokens.go:253-294 | `findToken("= a", 1)` returns the generic id with the whole text |
| Scenarios.EqualsTokens | tokens.go:325-344 | the line `==` is the one token `==` at column 1 |
| Scenarios.EqualsFirstToken | tokens.go:333-339 | the first token of `==` is `==` at column 1 |
| Scenarios.AssignFirstToken | tokens.go:333-339 | the first token of `= a` is a generic `=` at column 1, not the declared `=` |
| Scenarios.AssignAloneDiverges | tokens.go:270-274 | with `==` but no `=` declared, `findToken("=", step)` recurses for ever: every fuel bound runs out |

## Left out

- File I/O is not modelled: `tokenFile`, `newTokenFile`, `openTokensFile`, `check`, and the file loop of `TokenizeFile` (tokens.go:363-374, 429-463). `loadTokens` reads its declaration lines as a sequence of strings. `TokenizeFile` is `Tokenizer.LinesTokens` with `base` 1.
- The `init()` side effect (tokens.go:10-12) is left out: a `Kinds.Registry` is constructed explicitly, and the engine takes its table and signature maximum as parameters.
- Rendering is left out: `asString`, `String`, `GoString`, `RenderTokenRepr` and `DisplayTokensRepr`. It is `fmt` formatting, and the name-length maximum only serves it; the model keeps that maximum but never reads it.
- `TokenKind.New` returns a pointer to a copy, and `TokenObject.Kind` is that pointer. The model holds the kind by value, so pointer identity is not modelled.
- Go's map iteration order in `Ids` is not modelled. The order of `Kinds.Ids` is left unspecified too, and its contract says only which ids it lists.
- Kinds.Registry.Add: `tokenId` is `uint16`. After 65536 registrations the counter would wrap and overwrite id 0, and the model's unbounded counter does not show this.
- `tokenLineNo` and `tokenPosition` are `uint64`, and line numbers and columns are unbounded naturals in the model. Unsigned wrap-around matters in two places, and both are modelled: `calcViewR`'s `pos - step`, and `isToken`'s `step - 1` on the empty text, which wraps and panics (see `Matching.IsToken` below).
- A Go `string` is a sequence of bytes, while the model's `char` is one character of a `seq<char>`. The model is exact for single-byte (ASCII) text: columns are byte offsets in Go, and multi-byte UTF-8 characters are not modelled.
- Matching.FindToken: `findToken` is modelled with a fuel bound because Go's recursion need not end. `OutOfFuel` stands for the non-terminating runs, so properties are stated for the `Found` results only.
- Matching.Narrow: Go panics both on the lookahead slice past the end of the line and on `isToken("")` over an empty table (its unsigned step wraps). Both become `OutOfRange`, and `Tokenizer.Tokens` then returns `None` in place of the panic.
- Matching.IsToken requires a non-empty text or a non-empty table, which rules out that same panic. Every caller in the model meets this requirement.
- `lexer/lexer.go` is not part of this model: it is a `main` that prints tokens. `tokens_test.go` prints tokens read from a file and checks nothing.

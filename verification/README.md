# mpasm2aspic line parser, modelled in Dafny

`mpasm2aspic` converts PIC assembly from the MPASM dialect to the XC8 ASPIC
dialect one line at a time. The `Parser` class does the work:

- `tokenize` splits a line into `field1`, `field2`, `field3` and `comment`.
- `fix_literals` rewrites MPASM literals. `B'0101'` becomes `0101B` and
  `A'x'` becomes `"x"`.
- `is_directive` and `is_instruction` look a token up in a keyword table,
  ignoring case.
- `has_label` decides whether `field1` is a label.
- `parse` chains these steps. It appends `:` to a label that lacks one, or
  indents a line whose first field is an instruction.
- `textify` renders the token record back into a line of text.

This project models that class as pure functions over an immutable record and
proves what the code promises. Modules:

- `Options`: the absent-or-present value.
- `Text`: Python's `\w`, `str.isspace`, `str.lower` and `str.strip`.
- `Fields`: the data model. It holds the `Tokens` record (four optional
  string slots and `indent: nat`), the `Groups` a line-pattern match yields,
  and the `Parser` configuration: the directive table, the table of
  directives allowed beside a label, the instruction table, and the line
  pattern as a function.
- `Literals`: the `re_literal` pattern as a hand-written matcher, and
  `fix_literals`.
- `Classify`: `is_directive`, `is_instruction` and `has_label`.
- `Render`: `textify`.
- `LineParser`: `tokenize`, the literal fixes and label resolution of
  `parse`, and `parse` itself.
- `WorkedExamples`: the repository's unit tests, restated as lemmas.

Points worth knowing:

- **`has_label` never consults the label table.** Line 114 compares
  `tokens["field2"].lower`, the method object (the call parentheses are
  missing), against the table of directives allowed beside a label. A method
  object never equals a string, so that test is always false. As a result,
  any directive in `field2` stops `field1` from being a label. The model keeps
  this behaviour: `PyValue.BoundMethod` stands for the method object, and
  `Classify.HasLabelIgnoresLabelDirectives` proves the table has no effect.
  The presumably intended lookup is not modelled.
- **Empty slots in the middle keep their spaces.** `textify` formats all
  four slots, absent ones as empty strings, joined by single spaces, and
  strips only the two ends. A label with a comment therefore renders as
  `LABEL:   ; a comment`, with three spaces; see
  `Render.TextifyKeepsInnerSeparators`.
- **A comment's trailing whitespace is dropped on rendering.** The `comment`
  group of `re_line` is `;.*`, which keeps any blanks at the end of the line,
  and the final `strip()` of `textify` removes them;
  see `Render.TextifyDropsCommentTrailingSpace`. Every other field keeps its
  text, since the groups of `field1` to `field3` hold no whitespace at their
  ends.
- **`tokenize` matches the line against the `re_line` pattern.** A line it
  matches yields the pattern's named groups with indentation 0. A line it
  rejects becomes a record whose only field is a comment: the line followed
  by `    ;#PARSE_ERROR`.
- **The empty-line branch of `tokenize` is dead code.** Every group of
  `re_line` is optional, so the pattern already matches the empty line, with
  every group absent. `LineParser.ParseEmptyLine` shows both paths give the
  blank record.
- **Two properties depend on the instruction table.** Exclusivity (a label
  ending in `:` never comes with indentation 1) and idempotence of the label
  resolution hold only when no instruction keyword ends in `:`. This is
  stated as `MarkerFreeInstructions`. The instruction table is not part of
  this model.

## Model

| member | source | states |
|---|---|---|
| Literals.PayloadRun | mpasm2aspic/parse.py:11 | the greedy `[\w ]+` run: every character before it is a payload character and the next one is not |
| Literals.MatchLiteral | mpasm2aspic/parse.py:11 | `re_literal` matches a string with groups (type, number) exactly when the string opens with a type character, a quote, a non-empty payload and a quote; the match is unique and trailing text is ignored |
| Literals.FixLiterals | mpasm2aspic/parse.py:57-92 | absent or empty field gives None; a literal of type `A` becomes `"payload"`; any other type becomes payload followed by type; a field that opens with no literal is returned unchanged |
| Literals.ConvertedNeverMatches | mpasm2aspic/parse.py:79-90 | the ASPIC spelling of a converted literal never matches the literal pattern again |
| Literals.FixLiteralsIdempotent | mpasm2aspic/parse.py:57-92 | applying `fix_literals` twice gives the same result as once |
| Classify.IsKeyword | mpasm2aspic/parse.py:94-104 | an absent or empty token is never a keyword (the full membership condition is the next row) |
| Classify.KeywordMatchesIgnoringCase | mpasm2aspic/parse.py:94-104 | against a lower-case table, a token is a directive/instruction iff it is present, non-empty and equal up to case to some table keyword; absent or empty tokens never are |
| Classify.KeywordIgnoresCase | mpasm2aspic/parse.py:95-101 | two tokens that differ only in case classify the same way |
| Classify.HasLabel | mpasm2aspic/parse.py:106-120 | field1 is a label iff it is present and non-empty, is neither a directive nor an instruction, and field2 is not a directive (the label-table test being always false) |
| Classify.HasLabelIgnoresLabelDirectives | mpasm2aspic/parse.py:111-116 | the result of `has_label` does not depend on the table of directives allowed beside a label |
| Text.Strip | mpasm2aspic/parse.py:127 | `strip()` leaves a slice with no whitespace at either end, and everything it removes is whitespace |
| Text.StripIsUnique | mpasm2aspic/parse.py:127 | that characterisation determines the stripped string uniquely |
| Text.StripKeepsClean | mpasm2aspic/parse.py:127 | stripping never cuts into a piece of text that begins and ends with non-whitespace |
| Render.Textify | mpasm2aspic/parse.py:122-130 | the rendered line opens with exactly `indent` tabs followed by the strip of the four slots joined by single spaces, absent slots rendered as empty |
| Render.TextifyBlank | mpasm2aspic/parse.py:122-130 | a record with every slot absent renders as its indentation alone |
| Render.TextifyKeepsFields | mpasm2aspic/parse.py:127-129 | every field with no whitespace at either end survives rendering: field1 opens the text after the tabs, field2 and field3 occur in it, the comment ends it |
| Render.TextifyDropsCommentTrailingSpace | mpasm2aspic/parse.py:122-130 | whitespace that the `;.*` comment group of `re_line` keeps after the last visible character of a comment is lost: the line renders exactly as if the comment ended there |
| Render.TextifyFullLine | mpasm2aspic/parse.py:127-129 | with all four slots present, the line is the four values separated by single spaces behind the tabs |
| Render.TextifyFirstFieldOnly | mpasm2aspic/parse.py:127-129 | a record holding only field1 renders as that field behind the tabs, as `LABEL:` does |
| Render.TextifyKeepsInnerSeparators | mpasm2aspic/parse.py:127 | absent middle slots still leave their separators: label and comment are joined by three spaces |
| LineParser.Tokenize | mpasm2aspic/parse.py:35-55 | indent is 0; a line the pattern matches yields its four named groups unchanged; the empty line the pattern rejects yields the blank record; any other rejected line yields a record whose only field is the comment `line + "    ;#PARSE_ERROR"` |
| LineParser.FixFields | mpasm2aspic/parse.py:135-139 | the literal fixes leave field1, the comment and the indentation alone, and keep field2 and field3 present and non-empty exactly when they were |
| LineParser.Resolve | mpasm2aspic/parse.py:141-146 | the other fields never change; a label ends in `:` afterwards, gaining it only when missing, with indentation unchanged; a non-label keeps field1 and gets indentation 1 when it is an instruction, and is left as it was otherwise |
| LineParser.Parse | mpasm2aspic/parse.py:132-148 | the indentation is 0 or 1; the comment is the one `tokenize` found: the pattern's comment group for a matched line, the line with the error marker for a rejected non-empty one |
| LineParser.ParseRejectedLine | mpasm2aspic/parse.py:48-55 | a rejected non-empty line parses to the error record and renders as the left-stripped line followed by `    ;#PARSE_ERROR` |
| LineParser.ParseEmptyLine | mpasm2aspic/parse.py:35-47 | the empty line parses to the blank record and renders as the empty string, whether the pattern rejects it or matches it with all groups absent |
| LineParser.ParsePassesFieldsThrough | mpasm2aspic/parse.py:132-139 | `parse` changes field2 and field3 only through `fix_literals`, and only when they are non-empty; the comment passes through untouched |
| LineParser.ParsedOperandsAreFixed | mpasm2aspic/parse.py:135-139 | the operands `parse` returns are fixed points of `fix_literals` |
| LineParser.ParseResolution | mpasm2aspic/parse.py:141-146 | indent becomes 1 iff field1 is an instruction and not a label; a label always ends in `:`, which is appended only when missing; field1 changes in no other way |
| LineParser.ResolveExclusive | mpasm2aspic/parse.py:141-146 | resolving an unindented record never yields both a `:`-terminated field1 and indentation 1 |
| LineParser.ResolveIdempotent | mpasm2aspic/parse.py:141-146 | resolving a second time changes nothing |
| LineParser.ParseLabelOrIndent | mpasm2aspic/parse.py:132-148 | after `parse`, field1 ending in `:` and indentation 1 exclude each other |
| LineParser.ParseResolvedOnce | mpasm2aspic/parse.py:132-148 | re-running the resolution on a parsed record changes nothing |
| WorkedExamples.NumericLiterals | tests/test_mpasm2aspic.py:22-29 | `B'01010101'`, `D'32'`, `H'32'` become `01010101B`, `32D`, `32H` |
| WorkedExamples.HexPassesThrough | tests/test_mpasm2aspic.py:31-32 | `0x32` is returned unchanged |
| WorkedExamples.CharacterLiterals | tests/test_mpasm2aspic.py:34-39 | `A'A'`, `A' '`, `A'Hello'` become `"A"`, `" "`, `"Hello"` |
| WorkedExamples.InstructionLookup | tests/test_mpasm2aspic.py:11-15 | `movwf` and `MOVWF` are instructions, `#define` is not, and absent or empty tokens are not |
| WorkedExamples.SimpleLabel | tests/test_mpasm2aspic.py:46-56 | `LABEL` parses to field1 `LABEL:`, indent 0 |
| WorkedExamples.CommentedLabel | tests/test_mpasm2aspic.py:58-68 | `LABEL\t\t    ; a comment` parses to `LABEL:` with the comment kept |
| WorkedExamples.FourFieldLabel | tests/test_mpasm2aspic.py:70-82 | label, mnemonic, binary literal and comment parse to `LABEL:`, `MOVLW`, `10101010B` and the comment |
| WorkedExamples.ColonLabel | tests/test_mpasm2aspic.py:84-94 | `BEGIN:` keeps a single colon |
| WorkedExamples.TwoFieldInstruction | tests/test_mpasm2aspic.py:96-106 | `\tmovwf TRISB` parses with indent 1 |
| WorkedExamples.IncludeDirective | tests/test_mpasm2aspic.py:120-130 | `#include pic16f877a.inc` is neither a label nor indented |

## Left out

- `mpasm2aspic/__main__.py`: file reading and writing, command-line arguments and output-path derivation are I/O outside the per-line core.
- The internals of the `re_line` pattern (mpasm2aspic/parse.py:8-10): Python's backtracking matcher is not modelled. The match is the `lineRegex` function of `Parser`, which returns the named groups or `None`. The worked examples state the groups the pattern yields for each test line as a precondition.
- The directive table, the label-directive table and the `pic16f877` instruction table are not part of this model. They are `set<string>` parameters.
- The unit test at tests/test_mpasm2aspic.py:108-118 (`MOVLW 1 << 5`): `<` is in none of the character classes of `re_line`, so that line falls to the parse-error branch and the test's expected record cannot come from this code.
- Literals.MatchLiteral: `\w` is taken as the ASCII word characters. Python also counts non-ASCII letters and digits as word characters.
- Classify.IsKeyword: its own contract states only that absent and empty tokens are never keywords, because the lookup itself is what its body computes; the condition in terms of the table is stated by Classify.KeywordMatchesIgnoringCase.
- Classify.KeywordMatchesIgnoringCase: case folding covers ASCII letters only, where Python's `str.lower` also lowers non-ASCII letters.
- LineParser.ResolveExclusive, LineParser.ResolveIdempotent, LineParser.ParseLabelOrIndent, LineParser.ParseResolvedOnce: proved only for instruction tables with no keyword ending in `:`. The instruction table is not part of this model.
- The in-place update of the token dictionary in `textify` (mpasm2aspic/parse.py:124-126): rendering is a pure function of the record.
- The `INSTRUCTION_SET=[]` default of the constructor: any instruction table, the empty one included, is a `Parser` parameter.

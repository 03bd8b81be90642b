# ABAP reply formatter, modelled in Dafny

The chat backend in `app.py` passes every model reply through
`format_response`, which puts Markdown code fences around the parts that look
like ABAP CDS code. It works in three steps.

1. **Gate.** The upper-cased reply is searched for a list of ABAP keywords.
   Without one, the reply is returned as it was.
2. **Scan.** Otherwise the reply is split on line feeds and scanned line by
   line with a `code_started` flag:
   - a line that opens a span (its upper-cased, stripped form starts with `@`
     or contains `DEFINE VIEW`) gets an opening fence `"\n```abap"` when no
     span is open;
   - inside a span, a line that keeps it going is emitted as it is;
   - a non-blank line without an ABAP keyword gets `"```\n"` before it and
     ends the span;
   - everything else is emitted as it is.
3. **Close.** A span still open after the last line gets a final `"```"`,
   and the list is joined back with line feeds.

The same handler also computes a separate `has_code` flag, with a keyword list
of its own.

The project has five modules:
- **`Strings`** models the Python string operations the formatter uses
  (`upper`, `strip`, `startswith`, `endswith`, `in`, `split('\n')`,
  `'\n'.join`) on ASCII text, with split and join proved inverse.
- **`Formatter`** holds:
  - the keyword lists and fences;
  - the three line tests;
  - a specification of the scan: `Step` is one pass of the loop body and
    `Scan` is the loop;
  - `FormatResponse`, the scan written as the source's loop over a growing
    list, proved equal to that specification.
- **`FormatterLemmas`** proves what the formatter promises.
- **`CodeFlag`** models `has_code` and relates it to the gate.
- **`Scenarios`** works through concrete replies.

The scan's output is modelled as a list of `Piece`s: an input line (`Text`) or
one of the three fences (`Open`, `Close`, `End`). `RenderAll` maps each piece
to the string the source appends. Properties about fences are stated on the
pieces, because an input line may itself be the text "```".

Two behaviours of the code are worth noting:
- **A lone `"@AccessControl: #CHECK"` comes back unchanged.** The gate
  (app.py:31,34) compares the upper-cased reply with the mixed-case spelling
  `'@AccessControl'`, which can never match, and the reply has no other
  keyword (`Scenarios.AccessControlAlone`).
- **The continue tests work on the stripped line.** The comment, blank, comma
  and semicolon tests use `line.strip()`. The token tests use the upper-cased,
  stripped line.

## Model

| member | source | states |
|---|---|---|
| Formatter.FormatResponse | app.py:27-80 | The loop over the split lines, with its flag and growing list, the fence after the loop and the final join, returns exactly `Formatted(aiMsg)`; a reply that fails the gate is returned unchanged |
| Formatter.HasAbapCode | app.py:34 | The gate: some entry of the fourteen-keyword list occurs in the upper-cased reply |
| Formatter.LineUpper | app.py:43 | `line_upper`: the line upper-cased, then stripped |
| Formatter.Opens | app.py:46-48 | The opening test: `line_upper` starts with `@`, starts with `DEFINE VIEW`, or contains `DEFINE VIEW` |
| Formatter.Continues | app.py:55-61 | The continue test without its `code_started` conjunct: a continuation token in `line_upper`, or the stripped line starts with `//`, is empty, or ends in `,` or `;` |
| Formatter.Closes | app.py:65 | The close test without its `code_started` conjunct: the stripped line is non-empty and `line_upper` holds none of the gate keywords |
| Formatter.Ends | app.py:46-65 | A line reaches the close branch inside a span: it fails the opening and continue tests and passes the close test |
| Formatter.Step | app.py:46-72 | One pass of the loop body: the new `code_started` and the fence, if any, and line it appends, branch for branch in the source's order |
| Formatter.Scan | app.py:40-72 | The loop from `code_started = False` and an empty list: each line in turn is one `Step` on the state left by the lines before it |
| Formatter.RenderAll | app.py:50-76 | The strings appended for each piece: the line itself, `"\n```abap"`, `"```\n"` or the final `"```"` |
| Formatter.FormatPieces | app.py:75-76 | The loop's list followed by the final fence when a span is still open after the last line |
| Formatter.Formatted | app.py:36-80 | What `format_response` returns: the split, scanned and rejoined reply when the gate passes, otherwise the reply itself |
| CodeFlag.HasCode | app.py:163-164 | `has_code`: one of `DEFINE VIEW`, `@VIEWTYPE`, `@ACCESSCONTROL`, `SELECT FROM` occurs in the upper-cased reply |
| Strings.Upper | app.py:43 | `upper()`: every ASCII lower-case letter mapped to its capital, every other character unchanged, length kept |
| Strings.Strip | app.py:43 | `strip()`: the leading, then the trailing, whitespace removed |
| Strings.Join | app.py:78 | `'\n'.join`: the lines with one line feed between neighbours, the empty string for no lines |
| Formatter.ScanSnoc | app.py:42-72 | One more pass of the loop body is one more `Step` on the state left by the lines before it |
| Strings.Split | app.py:38 | Splitting on line feeds always yields at least one piece, even for the empty reply |
| Strings.SplitNoLineFeed | app.py:38 | No piece of a split contains a line feed |
| Strings.JoinSplit | app.py:38 | Joining the split pieces with line feeds gives back the reply exactly |
| Strings.SplitJoin | app.py:78 | Splitting a join of line-feed-free lines gives back the lines |
| Strings.StripSpec | app.py:43 | `strip` removes exactly the whitespace at both ends: the result is the whole line minus surrounding whitespace, empty exactly for an all-whitespace line, and otherwise starts and ends with a non-space |
| Strings.StripUnpadded | app.py:43 | `strip` leaves text that neither starts nor ends with whitespace unchanged |
| Strings.UpperNoLower | app.py:43 | An upper-cased text holds no lower-case ASCII letter |
| Strings.ContainsTransitive | app.py:34 | The substring test is transitive |
| Strings.ContainsAnyAppend | app.py:34 | Testing against a concatenated keyword list is testing against either part |
| Strings.ContainsUpperJoin | app.py:34 | A keyword in one upper-cased line is a keyword in the upper-cased joined reply |
| FormatterLemmas.StepShape | app.py:46-72 | One pass appends its line, preceded by an opening fence only when no span was open and one opens, and by a closing fence only when a span was open and ends |
| FormatterLemmas.StepTexts | app.py:46-72 | Deleting the fences from what one pass appends leaves its line |
| FormatterLemmas.ScanKeepsLines | app.py:42-72 | Deleting the fences from everything the loop appended leaves exactly the input lines, in order |
| FormatterLemmas.FormatKeepsLines | app.py:38-76 | The same holds for the final list with the fence after the loop: nothing is dropped, altered or reordered |
| FormatterLemmas.ScanFencesAlternate | app.py:46-68 | During the loop the fences are Open, Close, Open, ... and a span is open exactly when their number is odd, so no fence is opened inside a span and none closed outside one |
| FormatterLemmas.StepFencesAlternate | app.py:46-68 | One pass of the loop body keeps the fences alternating and `code_started` true exactly when their number is odd |
| FormatterLemmas.FencesBalanced | app.py:46-76 | In the final list the fences are Open at every even position and a closing fence at every odd one, the after-loop fence only last, and there are as many opening fences as closing ones |
| FormatterLemmas.AlternatingCounts | app.py:49-68 | An alternating fence list holds no after-loop fence, and one more Open than Close when its length is odd, as many when even |
| FormatterLemmas.InCodeIff | app.py:40-72 | After any prefix of the lines, a span is open exactly when some line opened it and no later line ended it |
| FormatterLemmas.InSpanStep | app.py:46-72 | Inside a span, a line that ends it gets a closing fence before it and ends the span; every other line, an opening one included, is emitted alone and the span stays open |
| FormatterLemmas.InProseStep | app.py:46-72 | Outside a span, an opening line gets an opening fence before it and opens a span; every other line is emitted alone |
| FormatterLemmas.SpanRun | app.py:55-62 | Inside a span, a run of lines none of which ends it is emitted unchanged and the span is still open after it |
| FormatterLemmas.NoOpeningScan | app.py:46-72 | Without an opening line the loop emits every line as prose and never opens a span |
| FormatterLemmas.RenderTextPieces | app.py:72 | Lines emitted as prose render to themselves |
| FormatterLemmas.FirstOpening | app.py:46-52 | The span opens immediately before the first opening line: the lines before it are emitted without any fence, and the opening fence precedes it |
| FormatterLemmas.NoOpeningLineIdentity | app.py:36-78 | A reply that passes the gate but has no opening line is returned unchanged |
| FormatterLemmas.MixedCaseNeverMatches | app.py:30-34 | None of the four mixed-case keywords occurs in upper-cased text |
| FormatterLemmas.KeywordsActAsCaps | app.py:30-34 | Against upper-cased text, the keyword list matches exactly when its all-caps part does |
| FormatterLemmas.GateIgnoresMixedCase | app.py:30-36 | The gate passes exactly when the upper-cased reply contains one of the ten all-caps keywords |
| FormatterLemmas.CloseIgnoresMixedCase | app.py:65 | The close test holds exactly when the stripped line is non-blank and contains none of the ten all-caps keywords |
| FormatterLemmas.NoKeywordIdentity | app.py:34-80 | A reply without any all-caps keyword is returned unchanged |
| FormatterLemmas.BlankLine | app.py:46-68 | A blank line neither opens nor ends a span |
| FormatterLemmas.SpanKeepers | app.py:55-65 | A comment line, a line ending in a comma or semicolon, a line with a continuation token and a line with an all-caps ABAP keyword never end a span |
| FormatterLemmas.KeywordLinePassesGate | app.py:34-38 | One line with an ABAP keyword lets the whole reply through the gate |
| CodeFlag.SharedKeywordsAgree | app.py:163-164 | A reply containing `DEFINE VIEW` or `SELECT FROM` raises `has_code` and passes the gate |
| CodeFlag.FlagWithoutGate | app.py:163-164 | `has_code` holds without the gate passing only when the upper-cased reply contains `@VIEWTYPE` or `@ACCESSCONTROL` |
| Scenarios.AccessControlAlone | app.py:30-36 | A lone `"@AccessControl: #CHECK"` raises `has_code` and would open a span, yet fails the gate and is returned unchanged |
| Scenarios.ViewExample | app.py:27-80 | For the reply "Here is the view:", "@AccessControl: #CHECK", "define view Z_TEST as select from t1", "}", "Done.": the gate passes; the opening fence precedes the annotation; the span runs through the view and the brace; the closing fence precedes "Done." |
| Scenarios.GroupByKeepsSpan | app.py:55-72 | Inside a span, "GROUP BY x" fails every continue test but holds an ABAP keyword, so it is emitted and the span stays open |
| Scenarios.ProseWordsKeepSpan | app.py:55-62 | Inside a span, the prose words "monkey" and "has" keep the span open through the substrings KEY and AS, though they pass the close test |
| Scenarios.OpenThenKeep | app.py:46-76 | A two-line reply whose first line opens a span and whose second does not end it is fenced as Open, both lines, and the fence after the loop |
| Scenarios.GateWithoutFlag | app.py:27-80 | The reply "@X" / "SELECT a" passes the gate without raising `has_code` (app.py:163-164); it is returned as the opening fence, both lines and the after-loop fence, "\n```abap\n@X\nSELECT a\n```" |

## Left out

- `get_db`, `log_chat` and `log_feedback` (app.py:16-25, 82-125) are not modelled: they are thin wrappers over a MongoDB driver, with random identifiers and clock readings.
- `handle_message` (app.py:138-185) is not modelled beyond `has_code`: it emits Socket.IO events, calls the OpenAI API and keeps a per-session history. `has_code` is modelled alone as `CodeFlag.HasCode`.
- `index` and `submit_feedback` (app.py:129-136, 187-200) and the module-level setup are not modelled: they are HTTP routing, session cookies, environment variables and logging.
- Upper-casing and stripping cover ASCII only. Python's `str.upper()` also maps non-ASCII letters, and `str.strip()` also removes non-ASCII whitespace; neither is modelled.
- The two line lists are not modelled as mutable Python lists. `lines` and `formatted_lines` are Dafny sequences that the loop reassigns; nothing else in the source aliases them.

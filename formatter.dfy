/** `format_response` of app.py: a two-state scanner (prose or code) that walks
    a model reply line by line and puts ABAP code fences around the spans it
    recognises as code.

    The list the scanner builds is modelled twice: as the strings the source
    appends (`FormatResponse`, the imperative method), and as `Piece`s that
    remember which entries are fences (`Scan`, the specification it is proved
    against). Properties about fences are stated on pieces, because an input
    line may itself read "```". */
module Formatter {
  import opened Strings

  /** Appended before the first line of a span. */
  const OpenFence: string := "\n```abap"
  /** Appended before the line that ends a span in mid-text. */
  const CloseFence: string := "```\n"
  /** Appended after the last line when a span is still open. */
  const EndFence: string := "```"

  /** `abap_keywords`: gates the whole scan, and keeps a span from closing. */
  const AbapKeywords: seq<string> :=
    ["DEFINE VIEW", "SELECT", "FROM", "WHERE", "GROUP BY", "ORDER BY",
     "@ViewType", "@AccessControl", "@EndUserText", "@Analytics",
     "AS SELECT", "UNION ALL", "LEFT JOIN", "INNER JOIN"]

  /** The entries of `AbapKeywords` with a lower-case letter; they are compared
      against upper-cased text and so can never match. */
  const MixedCaseKeywords: seq<string> :=
    ["@ViewType", "@AccessControl", "@EndUserText", "@Analytics"]

  /** The entries of `AbapKeywords` that can match. */
  const CapsKeywords: seq<string> :=
    ["DEFINE VIEW", "SELECT", "FROM", "WHERE", "GROUP BY", "ORDER BY",
     "AS SELECT", "UNION ALL", "LEFT JOIN", "INNER JOIN"]

  /** The tokens that keep an open span going. */
  const ContinueKeywords: seq<string> :=
    ["SELECT", "FROM", "WHERE", "AS", "KEY", "UNION", "JOIN", "}", "{"]

  /** `has_abap_code`: does the upper-cased reply contain an ABAP keyword? */
  predicate HasAbapCode(aiMsg: string) {
    ContainsAny(Upper(aiMsg), AbapKeywords)
  }

  /** `line_upper`: the line upper-cased, then stripped. */
  function LineUpper(line: string): string {
    Strip(Upper(line))
  }

  /** The line starts a span: an annotation or a view definition. */
  predicate Opens(line: string) {
    var u := LineUpper(line);
    StartsWith(u, "@") || StartsWith(u, "DEFINE VIEW") || Contains(u, "DEFINE VIEW")
  }

  /** Inside a span, the line keeps the span open. */
  predicate Continues(line: string) {
    var t := Strip(line);
    ContainsAny(LineUpper(line), ContinueKeywords)
    || StartsWith(t, "//") || t == "" || EndsWith(t, ",") || EndsWith(t, ";")
  }

  /** Inside a span, the line is non-blank prose without an ABAP keyword. */
  predicate Closes(line: string) {
    Strip(line) != "" && !ContainsAny(LineUpper(line), AbapKeywords)
  }

  /** Inside a span, the line is the one the scanner closes the span before:
      none of the first two branches takes it and the third does. */
  predicate Ends(line: string) {
    !Opens(line) && !Continues(line) && Closes(line)
  }

  /** One entry of `formatted_lines`: an input line or one of the three fences. */
  datatype Piece = Text(line: string) | Open | Close | End

  function Render(p: Piece): string {
    match p
    case Text(line) => line
    case Open => OpenFence
    case Close => CloseFence
    case End => EndFence
  }

  /** The strings the source appends for a list of pieces. */
  function RenderAll(ps: seq<Piece>): seq<string> {
    if ps == [] then [] else RenderAll(ps[..|ps| - 1]) + [Render(ps[|ps| - 1])]
  }

  /** The value of `code_started` and the pieces appended so far. */
  datatype ScanState = ScanState(inCode: bool, out: seq<Piece>)

  /** What one pass of the loop body does with `line`: the new `code_started`
      and the pieces it appends. */
  function Step(inCode: bool, line: string): ScanState {
    if Opens(line) then
      ScanState(true, if inCode then [Text(line)] else [Open, Text(line)])
    else if inCode && Continues(line) then
      ScanState(true, [Text(line)])
    else if inCode && Closes(line) then
      ScanState(false, [Close, Text(line)])
    else
      ScanState(inCode, [Text(line)])
  }

  /** The state after the loop has consumed `lines`, starting outside a span. */
  function Scan(lines: seq<string>): ScanState
    decreases |lines|
  {
    if lines == [] then ScanState(false, [])
    else
      var before := Scan(lines[..|lines| - 1]);
      var step := Step(before.inCode, lines[|lines| - 1]);
      ScanState(step.inCode, before.out + step.out)
  }

  /** The whole of `formatted_lines`, with the fence after the loop. */
  function FormatPieces(lines: seq<string>): seq<Piece> {
    var s := Scan(lines);
    s.out + (if s.inCode then [End] else [])
  }

  /** What `format_response` returns. */
  function Formatted(aiMsg: string): string {
    if HasAbapCode(aiMsg) then Join(RenderAll(FormatPieces(Split(aiMsg)))) else aiMsg
  }

  /** `format_response` as the source runs it. */
  method FormatResponse(aiMsg: string) returns (r: string)
    ensures r == Formatted(aiMsg)
    ensures !HasAbapCode(aiMsg) ==> r == aiMsg
  {
    if !HasAbapCode(aiMsg) {
      return aiMsg;
    }
    var lines := Split(aiMsg);
    var formattedLines: seq<string> := [];
    var codeStarted := false;
    ghost var pieces: seq<Piece> := [];
    for i := 0 to |lines|
      invariant codeStarted == Scan(lines[..i]).inCode
      invariant pieces == Scan(lines[..i]).out
      invariant formattedLines == RenderAll(pieces)
    {
      var line := lines[i];
      ScanSnoc(lines, i);
      if Opens(line) {
        ghost var opening := !codeStarted;
        if !codeStarted {
          formattedLines := formattedLines + [OpenFence];
          codeStarted := true;
        }
        formattedLines := formattedLines + [line];
        if opening {
          RenderTwo(pieces, Open, Text(line));
          pieces := pieces + [Open, Text(line)];
        } else {
          RenderOne(pieces, Text(line));
          pieces := pieces + [Text(line)];
        }
      } else if codeStarted && Continues(line) {
        formattedLines := formattedLines + [line];
        RenderOne(pieces, Text(line));
        pieces := pieces + [Text(line)];
      } else if codeStarted && Closes(line) {
        formattedLines := formattedLines + [CloseFence];
        formattedLines := formattedLines + [line];
        codeStarted := false;
        RenderTwo(pieces, Close, Text(line));
        pieces := pieces + [Close, Text(line)];
      } else {
        formattedLines := formattedLines + [line];
        RenderOne(pieces, Text(line));
        pieces := pieces + [Text(line)];
      }
    }
    assert lines[..|lines|] == lines;
    if codeStarted {
      formattedLines := formattedLines + [EndFence];
      RenderOne(pieces, End);
      pieces := pieces + [End];
    } else {
      assert pieces == pieces + [];
    }
    assert pieces == FormatPieces(lines);
    r := Join(formattedLines);
  }

  /** Consuming one more line is one more Step. */
  lemma ScanSnoc(lines: seq<string>, i: nat)
    requires i < |lines|
    ensures var before := Scan(lines[..i]);
            var step := Step(before.inCode, lines[i]);
            Scan(lines[..i + 1]) == ScanState(step.inCode, before.out + step.out)
  {
    assert lines[..i + 1][..i] == lines[..i];
  }

  lemma RenderOne(ps: seq<Piece>, p: Piece)
    ensures RenderAll(ps + [p]) == RenderAll(ps) + [Render(p)]
  {
    assert (ps + [p])[..|ps|] == ps;
  }

  lemma RenderTwo(ps: seq<Piece>, p: Piece, q: Piece)
    ensures RenderAll(ps + [p, q]) == RenderAll(ps) + [Render(p)] + [Render(q)]
  {
    assert (ps + [p, q])[..|ps| + 1] == ps + [p];
    RenderOne(ps, p);
  }
}

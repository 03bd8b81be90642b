/** Worked replies: the lone annotation that the gate misses, a five-line
    reply with a view in it, a reply that passes the gate without raising
    `has_code`, and the substring and keyword rules on single lines.

    Facts about a literal are proved in small lemmas of their own, through the
    set of characters it is made of (`Within`), and then combined. */
module Scenarios {
  import opened Strings
  import opened Formatter
  import opened FormatterLemmas
  import opened CodeFlag

  /** Every character of `s` is drawn from `alphabet`. */
  predicate Within(s: string, alphabet: set<char>) {
    forall k :: 0 <= k < |s| ==> s[k] in alphabet
  }

  /** A substring with a character from outside the alphabet is absent. */
  lemma AbsentOutside(s: string, alphabet: set<char>, sub: string, j: nat)
    requires Within(s, alphabet) && j < |sub| && sub[j] !in alphabet
    ensures !Contains(s, sub)
  {
    AbsentChar(s, sub, j);
  }

  /** No keyword occurs when each has, at the chosen position, a character
      from outside the alphabet. */
  lemma NoKeywordOutside(u: string, alphabet: set<char>, ks: seq<string>, js: seq<nat>)
    requires Within(u, alphabet) && |js| == |ks|
    requires forall i :: 0 <= i < |ks| ==> js[i] < |ks[i]| && ks[i][js[i]] !in alphabet
    ensures !ContainsAny(u, ks)
  {
    forall i | 0 <= i < |ks|
      ensures !Contains(u, ks[i])
    {
      AbsentOutside(u, alphabet, ks[i], js[i]);
    }
  }

  // ----- "@AccessControl: #CHECK" on its own -----

  /** A lone "@AccessControl: #CHECK" raises `has_code`, and its line would
      open a span, but the gate tests the upper-cased reply against the
      mixed-case spelling and lets it through unchanged. */
  lemma AccessControlAlone(m: string)
    requires m == "@AccessControl: #CHECK"
    ensures HasCode(m) && Opens(m)
    ensures !HasAbapCode(m) && Formatted(m) == m
  {
    AnnotationFlag(m);
    AnnotationGate(m);
  }

  lemma AnnotationFlag(m: string)
    requires m == "@AccessControl: #CHECK"
    ensures HasCode(m) && Opens(m)
  {
    AnnotationUpper(m);
    assert Contains(Upper(m), CodeFlagKeywords[2]);
  }

  lemma AnnotationGate(m: string)
    requires m == "@AccessControl: #CHECK"
    ensures !HasAbapCode(m)
  {
    var u := Upper(m);
    AnnotationUpper(m);
    AnnotationLetters(u);
    NoCapsKeyword(u, AnnotationAlphabet);
    GateIgnoresMixedCase(m);
  }

  lemma AnnotationUpper(m: string)
    requires m == "@AccessControl: #CHECK"
    ensures Upper(m) == "@ACCESSCONTROL: #CHECK"
    ensures OccursAt(Upper(m), "@ACCESSCONTROL", 0)
    ensures Strip(Upper(m)) == Upper(m)
  {
    var u := Upper(m);
    assert u == "@ACCESSCONTROL: #CHECK";
    StripUnpadded(u);
  }

  const AnnotationAlphabet: set<char> :=
    {'@', 'A', 'C', 'E', 'S', 'O', 'N', 'T', 'R', 'L', ':', ' ', '#', 'H', 'K'}

  lemma AnnotationLetters(u: string)
    requires u == "@ACCESSCONTROL: #CHECK"
    ensures Within(u, AnnotationAlphabet)
    ensures !Contains(u, "SE")
  {
    AbsentPair(u, "SE", 0);
  }

  /** Six letters and the pair "SE" rule out every all-caps keyword. */
  lemma NoCapsKeyword(u: string, alphabet: set<char>)
    requires Within(u, alphabet) && !Contains(u, "SE")
    requires 'D' !in alphabet && 'F' !in alphabet && 'W' !in alphabet
    requires 'G' !in alphabet && 'U' !in alphabet && 'I' !in alphabet
    ensures !ContainsAny(u, CapsKeywords)
  {
    AbsentOutside(u, alphabet, "DEFINE VIEW", 0);
    assert OccursAt("SELECT", "SE", 0);
    AbsentVia(u, "SELECT", "SE");
    AbsentOutside(u, alphabet, "FROM", 0);
    AbsentOutside(u, alphabet, "WHERE", 0);
    AbsentOutside(u, alphabet, "GROUP BY", 0);
    AbsentOutside(u, alphabet, "ORDER BY", 2);
    assert OccursAt("AS SELECT", "SE", 3);
    AbsentVia(u, "AS SELECT", "SE");
    AbsentOutside(u, alphabet, "UNION ALL", 0);
    AbsentOutside(u, alphabet, "LEFT JOIN", 2);
    AbsentOutside(u, alphabet, "INNER JOIN", 0);
  }

  // ----- the five-line view -----

  /** Prose, an opening line, two lines that keep the span, and a line that
      ends it: one Open before the second line and one Close before the last. */
  lemma FiveLineTrace(a: string, b: string, c: string, d: string, e: string)
    requires !Opens(a) && Opens(b) && !Ends(c) && !Ends(d) && Ends(e)
    ensures FormatPieces([a, b, c, d, e]) == [Text(a), Open, Text(b), Text(c), Text(d), Close, Text(e)]
  {
    RegroupFive(a, b, c, d, e);
    ProseThenOpen(a, b);
    SpanThenEnd([a, b], c, d, e);
  }

  lemma ProseThenOpen(a: string, b: string)
    requires !Opens(a) && Opens(b)
    ensures Scan([a, b]) == ScanState(true, [Text(a), Open, Text(b)])
  {
    PairOfSingles(a, b);
    InProseStep([], a);
    InProseStep([a], b);
  }

  lemma SpanThenEnd(p: seq<string>, c: string, d: string, e: string)
    requires Scan(p).inCode && !Ends(c) && !Ends(d) && Ends(e)
    ensures Scan(p + [c, d, e]) == ScanState(false, Scan(p).out + [Text(c), Text(d), Close, Text(e)])
  {
    var p2 := p + [c] + [d];
    RegroupThree(p, c, d, e);
    SpanKeepTwo(p, c, d);
    InSpanStep(p2, e);
    RegroupFour(Scan(p).out, Text(c), Text(d), Close, Text(e));
  }

  lemma PairOfSingles<T>(x: T, y: T)
    ensures [] + [x] == [x] && [x] + [y] == [x, y]
  {
  }

  lemma RegroupFive<T>(v: T, w: T, x: T, y: T, z: T)
    ensures [v, w] + [x, y, z] == [v, w, x, y, z]
  {
  }

  lemma RegroupThree<T>(o: seq<T>, x: T, y: T, z: T)
    ensures o + [x] + [y] + [z] == o + [x, y, z]
  {
  }

  lemma RegroupFour<T>(o: seq<T>, w: T, x: T, y: T, z: T)
    ensures o + [w] + [x] + [y, z] == o + [w, x, y, z]
  {
  }

  lemma SpanKeepTwo(p: seq<string>, c: string, d: string)
    requires Scan(p).inCode && !Ends(c) && !Ends(d)
    ensures Scan(p + [c] + [d]) == ScanState(true, Scan(p).out + [Text(c)] + [Text(d)])
  {
    InSpanStep(p, c);
    InSpanStep(p + [c], d);
  }

  /** A five-line reply with a view in it: the fence opens before the annotation,
      runs through the view definition and the closing brace, and is closed
      before "Done."; the first line stays outside it. */
  lemma ViewExample(intro: string, annotation: string, view: string, brace: string, done: string)
    requires intro == "Here is the view:" && annotation == "@AccessControl: #CHECK"
    requires view == "define view Z_TEST as select from t1" && brace == "}" && done == "Done."
    ensures var lines := [intro, annotation, view, brace, done];
            && HasAbapCode(Join(lines))
            && FormatPieces(lines) == [Text(intro), Open, Text(annotation), Text(view), Text(brace), Close, Text(done)]
            && Formatted(Join(lines)) == Join(RenderAll(FormatPieces(lines)))
  {
    var lines := [intro, annotation, view, brace, done];
    IntroLine(intro);
    AnnotationLine(annotation);
    DefineLine(view);
    BraceLine(brace);
    DoneLine(done);
    FiveLineTrace(intro, annotation, view, brace, done);
    ViewGate(intro, annotation, view, brace, done);
    ViewSplit(intro, annotation, view, brace, done);
  }

  lemma ViewSplit(a: string, b: string, c: string, d: string, e: string)
    requires '\n' !in a && '\n' !in b && '\n' !in c && '\n' !in d && '\n' !in e
    ensures Split(Join([a, b, c, d, e])) == [a, b, c, d, e]
  {
    SplitJoin([a, b, c, d, e]);
  }

  lemma ViewGate(a: string, b: string, c: string, d: string, e: string)
    requires Contains(Upper(c), "DEFINE VIEW")
    ensures HasAbapCode(Join([a, b, c, d, e]))
  {
    assert Contains(Upper([a, b, c, d, e][2]), AbapKeywords[0]);
    KeywordLinePassesGate([a, b, c, d, e], 2);
  }

  lemma AnnotationLine(l: string)
    requires l == "@AccessControl: #CHECK"
    ensures Opens(l) && '\n' !in l
  {
    AnnotationFlag(l);
  }

  lemma IntroLine(l: string)
    requires l == "Here is the view:"
    ensures !Opens(l) && '\n' !in l
  {
    var u := LineUpper(l);
    assert u == "HERE IS THE VIEW:";
    assert Within(u, {'H', 'E', 'R', ' ', 'I', 'S', 'T', 'V', 'W', ':'});
    AbsentOutside(u, {'H', 'E', 'R', ' ', 'I', 'S', 'T', 'V', 'W', ':'}, "DEFINE VIEW", 0);
  }

  lemma DefineLine(l: string)
    requires l == "define view Z_TEST as select from t1"
    ensures Opens(l) && '\n' !in l
    ensures Contains(Upper(l), "DEFINE VIEW")
  {
    DefineLineUpper(l);
    assert OccursAt(Upper(l), "DEFINE VIEW", 0);
    assert Strip(Upper(l)) == Upper(l);
  }

  lemma DefineLineUpper(l: string)
    requires l == "define view Z_TEST as select from t1"
    ensures Upper(l)[..11] == "DEFINE VIEW" && Upper(l)[|l| - 1] == '1'
    ensures '\n' !in l
  {
    assert l[..11] == "define view";
    assert Upper(l)[..11] == Upper(l[..11]);
  }

  lemma BraceLine(l: string)
    requires l == "}"
    ensures Continues(l) && !Opens(l) && '\n' !in l
  {
    var u := LineUpper(l);
    assert u == "}";
    assert OccursAt(u, ContinueKeywords[7], 0);
    assert Contains(u, ContinueKeywords[7]);
    assert |u| < |"DEFINE VIEW"| && u[0] != '@';
  }

  lemma DoneLine(l: string)
    requires l == "Done."
    ensures Ends(l) && '\n' !in l
  {
    var u := LineUpper(l);
    var alphabet := {'D', 'O', 'N', 'E', '.'};
    assert Strip(l) == l && u == "DONE.";
    assert Within(u, alphabet);
    DoneNoContinueKeyword(u, alphabet);
    DoneNoCapsKeyword(u, alphabet);
    CloseIgnoresMixedCase(l);
  }

  lemma DoneNoContinueKeyword(u: string, alphabet: set<char>)
    requires Within(u, alphabet) && alphabet == {'D', 'O', 'N', 'E', '.'}
    ensures !ContainsAny(u, ContinueKeywords)
  {
    NoKeywordOutside(u, alphabet, ContinueKeywords, [0, 0, 0, 0, 0, 0, 0, 0, 0]);
  }

  lemma DoneNoCapsKeyword(u: string, alphabet: set<char>)
    requires Within(u, alphabet) && alphabet == {'D', 'O', 'N', 'E', '.'}
    ensures !ContainsAny(u, CapsKeywords)
  {
    NoKeywordOutside(u, alphabet, CapsKeywords, [2, 0, 0, 0, 0, 1, 0, 0, 0, 0]);
  }

  // ----- single lines inside a span -----

  /** "GROUP BY x" passes none of the continue tests, but holds an ABAP
      keyword, so inside a span it is emitted and the span stays open. */
  lemma GroupByKeepsSpan(lines: seq<string>, l: string)
    requires Scan(lines).inCode && l == "GROUP BY x"
    ensures !Continues(l) && !Closes(l)
    ensures Scan(lines + [l]) == ScanState(true, Scan(lines).out + [Text(l)])
  {
    GroupByLine(l);
    InSpanStep(lines, l);
  }

  lemma GroupByLine(l: string)
    requires l == "GROUP BY x"
    ensures !Continues(l) && !Closes(l)
  {
    var u := LineUpper(l);
    var alphabet := {'G', 'R', 'O', 'U', 'P', ' ', 'B', 'Y', 'X'};
    assert Strip(l) == l && u == "GROUP BY X";
    assert Within(u, alphabet);
    NoKeywordOutside(u, alphabet, ContinueKeywords, [0, 0, 0, 0, 0, 1, 0, 0, 0]);
    assert OccursAt(u, AbapKeywords[4], 0);
  }

  /** Continuation tokens are plain substrings: "monkey" holds KEY and "has"
      holds AS. Both are prose that would otherwise end a span, yet inside
      one they are emitted and the span stays open. */
  lemma ProseWordsKeepSpan(lines: seq<string>, l: string)
    requires Scan(lines).inCode && (l == "monkey" || l == "has")
    ensures Closes(l) && Continues(l)
    ensures Scan(lines + [l]) == ScanState(true, Scan(lines).out + [Text(l)])
  {
    if l == "monkey" {
      MonkeyLine(l);
    } else {
      HasLine(l);
    }
    InSpanStep(lines, l);
  }

  lemma MonkeyLine(l: string)
    requires l == "monkey"
    ensures Closes(l) && Continues(l)
  {
    var u := LineUpper(l);
    var alphabet := {'M', 'O', 'N', 'K', 'E', 'Y'};
    assert Strip(l) == l && u == "MONKEY";
    assert OccursAt(u, ContinueKeywords[4], 3);
    assert Within(u, alphabet);
    NoKeywordOutside(u, alphabet, CapsKeywords, [0, 0, 0, 0, 0, 1, 0, 0, 0, 0]);
    CloseIgnoresMixedCase(l);
  }

  lemma HasLine(l: string)
    requires l == "has"
    ensures Closes(l) && Continues(l)
  {
    var u := LineUpper(l);
    var alphabet := {'H', 'A', 'S'};
    assert Strip(l) == l && u == "HAS";
    assert OccursAt(u, ContinueKeywords[3], 1);
    assert Within(u, alphabet);
    NoKeywordOutside(u, alphabet, CapsKeywords, [0, 1, 0, 0, 0, 0, 2, 0, 0, 0]);
    CloseIgnoresMixedCase(l);
  }

  // ----- the gate without the flag -----

  /** "@X" followed by "SELECT a" passes the gate but does not raise
      `has_code`; both lines are fenced, and the span is closed after the
      last line by the fence without a line feed. */
  lemma GateWithoutFlag(a: string, b: string)
    requires a == "@X" && b == "SELECT a"
    ensures HasAbapCode(Join([a, b])) && !HasCode(Join([a, b]))
    ensures FormatPieces([a, b]) == [Open, Text(a), Text(b), End]
    ensures Formatted(Join([a, b])) == "\n```abap\n@X\nSELECT a\n```"
  {
    var lines := [a, b];
    ShortReplyUpper(a, b);
    assert Contains(Upper(Join(lines)), AbapKeywords[1]);
    ShortReplyLines(a, b);
    OpenThenKeep(a, b);
    SplitJoin(lines);
    ShortReplyRender(a, b);
  }

  /** An opening first line and a second line that does not end the span:
      both are fenced, and the fence after the loop closes the span. */
  lemma OpenThenKeep(a: string, b: string)
    requires Opens(a) && !Ends(b)
    ensures FormatPieces([a, b]) == [Open, Text(a), Text(b), End]
  {
    PairOfSingles(a, b);
    InProseStep([], a);
    InSpanStep([a], b);
  }

  lemma ShortReplyUpper(a: string, b: string)
    requires a == "@X" && b == "SELECT a"
    ensures Upper(Join([a, b])) == "@X\nSELECT A"
    ensures OccursAt(Upper(Join([a, b])), "SELECT", 3)
    ensures !HasCode(Join([a, b]))
  {
    var u := Upper(Join([a, b]));
    var alphabet := {'@', 'X', '\n', 'S', 'E', 'L', 'C', 'T', ' ', 'A'};
    assert Join([a, b]) == "@X\nSELECT a";
    assert u == "@X\nSELECT A";
    assert Within(u, alphabet);
    NoKeywordOutside(u, alphabet, CodeFlagKeywords, [0, 1, 8, 7]);
  }

  lemma ShortReplyLines(a: string, b: string)
    requires a == "@X" && b == "SELECT a"
    ensures Opens(a) && Continues(b) && !Opens(b)
    ensures '\n' !in a && '\n' !in b
  {
    assert LineUpper(a) == "@X";
    var u := LineUpper(b);
    assert u == "SELECT A";
    assert OccursAt(u, ContinueKeywords[0], 0);
    assert Within(u, {'S', 'E', 'L', 'C', 'T', ' ', 'A'});
    AbsentOutside(u, {'S', 'E', 'L', 'C', 'T', ' ', 'A'}, "DEFINE VIEW", 0);
  }

  lemma ShortReplyRender(a: string, b: string)
    requires a == "@X" && b == "SELECT a"
    ensures Join(RenderAll([Open, Text(a), Text(b), End])) == "\n```abap\n@X\nSELECT a\n```"
  {
    RenderFour(Open, Text(a), Text(b), End);
    JoinFour(OpenFence, a, b, EndFence);
  }

  lemma RenderFour(p: Piece, q: Piece, r: Piece, t: Piece)
    ensures RenderAll([p, q, r, t]) == [Render(p), Render(q), Render(r), Render(t)]
  {
    var s1 := [p];
    var s2 := s1 + [q];
    var s3 := s2 + [r];
    assert s3 + [t] == [p, q, r, t];
    RenderOne([], p);
    assert [] + [p] == s1;
    RenderOne(s1, q);
    RenderOne(s2, r);
    RenderOne(s3, t);
  }

  lemma JoinFour(w: string, x: string, y: string, z: string)
    ensures Join([w, x, y, z]) == w + "\n" + x + "\n" + y + "\n" + z
  {
    assert [w, x, y, z][1..] == [x, y, z];
    assert [x, y, z][1..] == [y, z];
    assert [y, z][1..] == [z];
    assert Join([y, z]) == y + "\n" + z;
    assert Join([x, y, z]) == x + "\n" + (y + "\n" + z);
  }
}

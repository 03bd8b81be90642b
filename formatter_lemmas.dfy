/** What `format_response` promises, proved about the specification in module
    Formatter: the input lines survive unchanged and in order, fences
    alternate and balance, a span is open exactly when some line opened it and
    no later line ended it, and the two identity fallbacks. */
module FormatterLemmas {
  import opened Strings
  import opened Formatter

  /** The input lines among the pieces, in order. */
  function Texts(ps: seq<Piece>): seq<string> {
    if ps == [] then []
    else Texts(ps[..|ps| - 1]) + (if ps[|ps| - 1].Text? then [ps[|ps| - 1].line] else [])
  }

  /** The fences among the pieces, in order. */
  function Fences(ps: seq<Piece>): seq<Piece> {
    if ps == [] then []
    else Fences(ps[..|ps| - 1]) + (if ps[|ps| - 1].Text? then [] else [ps[|ps| - 1]])
  }

  /** The pieces of lines emitted as prose, with no fence. */
  function TextPieces(lines: seq<string>): seq<Piece> {
    if lines == [] then [] else TextPieces(lines[..|lines| - 1]) + [Text(lines[|lines| - 1])]
  }

  /** Open, Close, Open, Close, ... */
  predicate Alternating(fs: seq<Piece>) {
    forall i :: 0 <= i < |fs| ==> fs[i] == if i % 2 == 0 then Open else Close
  }

  /** Line `j` opened a span and no later line ended it. */
  predicate OpenedAndNotEnded(lines: seq<string>, j: int) {
    0 <= j < |lines| && Opens(lines[j]) && forall k :: j < k < |lines| ==> !Ends(lines[k])
  }

  lemma {:induction false} TextsAppend(a: seq<Piece>, b: seq<Piece>)
    ensures Texts(a + b) == Texts(a) + Texts(b)
    decreases |b|
  {
    if b == [] {
      assert a + b == a;
    } else {
      var b' := b[..|b| - 1];
      assert (a + b)[..|a + b| - 1] == a + b';
      TextsAppend(a, b');
    }
  }

  lemma {:induction false} FencesAppend(a: seq<Piece>, b: seq<Piece>)
    ensures Fences(a + b) == Fences(a) + Fences(b)
    decreases |b|
  {
    if b == [] {
      assert a + b == a;
    } else {
      var b' := b[..|b| - 1];
      assert (a + b)[..|a + b| - 1] == a + b';
      FencesAppend(a, b');
    }
  }

  /** A step appends its line, preceded by an Open only when an opening line
      comes outside a span and by a Close only when a line ends one. */
  lemma StepShape(inCode: bool, line: string)
    ensures var st := Step(inCode, line);
            || (st.out == [Text(line)] && st.inCode == inCode)
            || (st.out == [Open, Text(line)] && !inCode && Opens(line) && st.inCode)
            || (st.out == [Close, Text(line)] && inCode && Ends(line) && !st.inCode)
  {
  }

  lemma PiecesOfStep(f: Piece, line: string)
    requires !f.Text?
    ensures Texts([Text(line)]) == [line] && Fences([Text(line)]) == []
    ensures Texts([f, Text(line)]) == [line] && Fences([f, Text(line)]) == [f]
  {
    assert [f, Text(line)][..1] == [f];
    assert [f][..0] == [];
    assert [Text(line)][..0] == [];
  }

  /** Removing the fences from the pieces a step appends leaves its line. */
  lemma StepTexts(inCode: bool, line: string)
    ensures Texts(Step(inCode, line).out) == [line]
  {
    StepShape(inCode, line);
    PiecesOfStep(Open, line);
    PiecesOfStep(Close, line);
  }

  /** Deleting the fences from what the loop appended leaves exactly the
      input lines, in their order. */
  lemma {:induction false} ScanKeepsLines(lines: seq<string>)
    ensures Texts(Scan(lines).out) == lines
    decreases |lines|
  {
    if lines != [] {
      var init := lines[..|lines| - 1];
      var last := lines[|lines| - 1];
      assert init + [last] == lines;
      ScanKeepsLines(init);
      TextsAppend(Scan(init).out, Step(Scan(init).inCode, last).out);
      StepTexts(Scan(init).inCode, last);
    }
  }

  /** The same for the final list, where the fence after the loop is added. */
  lemma FormatKeepsLines(lines: seq<string>)
    ensures Texts(FormatPieces(lines)) == lines
  {
    ScanKeepsLines(lines);
    var s := Scan(lines);
    TextsAppend(s.out, if s.inCode then [End] else []);
    assert Texts([End]) == [];
  }

  /** While the loop runs, its fences are Open, Close, Open, ... and a span is
      open exactly when an Open is the last fence: so no fence is opened inside
      a span and no Close is emitted outside one. */
  lemma {:induction false} ScanFencesAlternate(lines: seq<string>)
    ensures Alternating(Fences(Scan(lines).out))
    ensures Scan(lines).inCode <==> |Fences(Scan(lines).out)| % 2 == 1
    decreases |lines|
  {
    if lines != [] {
      var init := lines[..|lines| - 1];
      var last := lines[|lines| - 1];
      var before := Scan(init);
      var step := Step(before.inCode, last);
      ScanFencesAlternate(init);
      FencesAppend(before.out, step.out);
      StepFencesAlternate(Fences(before.out), before.inCode, last);
    }
  }

  /** One pass keeps the fences alternating and the flag in step with their
      parity. */
  lemma StepFencesAlternate(fs: seq<Piece>, inCode: bool, line: string)
    requires Alternating(fs) && (inCode <==> |fs| % 2 == 1)
    ensures var step := Step(inCode, line);
            && Alternating(fs + Fences(step.out))
            && (step.inCode <==> |fs + Fences(step.out)| % 2 == 1)
  {
    var step := Step(inCode, line);
    StepShape(inCode, line);
    PiecesOfStep(Open, line);
    PiecesOfStep(Close, line);
    var added := Fences(step.out);
    assert || (added == [] && step.inCode == inCode)
           || (added == [Open] && |fs| % 2 == 0 && step.inCode)
           || (added == [Close] && |fs| % 2 == 1 && !step.inCode);
    assert |fs + added| == |fs| + |added|;
    Parity(|fs|);
    if added != [] {
      AlternatingSnoc(fs, added[0]);
      assert fs + added == fs + [added[0]];
    } else {
      assert fs + added == fs;
    }
  }

  lemma Parity(n: nat)
    ensures (n + 1) % 2 == 1 - n % 2
  {
  }

  lemma AlternatingSnoc(fs: seq<Piece>, f: Piece)
    requires Alternating(fs)
    requires f == if |fs| % 2 == 0 then Open else Close
    ensures Alternating(fs + [f])
  {
  }

  /** An even number of fences, Open at every even position and a closing
      fence at every odd one, End only last, and as many opening fences as
      closing ones. */
  predicate Balanced(fs: seq<Piece>) {
    && |fs| % 2 == 0
    && (forall i :: 0 <= i < |fs| ==> (fs[i] == Open <==> i % 2 == 0))
    && (forall i :: 0 <= i < |fs| ==> fs[i] == Open || fs[i] == Close || fs[i] == End)
    && (forall i :: 0 <= i < |fs| - 1 ==> fs[i] != End)
    && multiset(fs)[Open] == multiset(fs)[Close] + multiset(fs)[End]
  }

  /** In the final list the fences balance. */
  lemma FencesBalanced(lines: seq<string>)
    ensures Balanced(Fences(FormatPieces(lines)))
  {
    var s := Scan(lines);
    ScanFencesAlternate(lines);
    FencesAppend(s.out, if s.inCode then [End] else []);
    assert [End][..0] == [];
    assert Fences([End]) == [End];
    AlternatingThenEnd(Fences(s.out), s.inCode);
  }

  /** Adding End after an odd-length alternating list, and nothing after an
      even-length one, balances it. */
  lemma AlternatingThenEnd(fs: seq<Piece>, open: bool)
    requires Alternating(fs)
    requires open <==> |fs| % 2 == 1
    ensures Balanced(fs + (if open then [End] else []))
  {
    AlternatingCounts(fs);
    var gs := fs + (if open then [End] else []);
    assert forall i :: 0 <= i < |fs| ==> gs[i] == fs[i];
    if open {
      Parity(|fs|);
      assert multiset(gs) == multiset(fs) + multiset{End};
    } else {
      assert gs == fs;
    }
  }

  lemma {:induction false} AlternatingCounts(fs: seq<Piece>)
    requires Alternating(fs)
    ensures multiset(fs)[Open] == multiset(fs)[Close] + |fs| % 2
    ensures multiset(fs)[End] == 0
    decreases |fs|
  {
    if fs != [] {
      var n := |fs| - 1;
      var init := fs[..n];
      assert fs == init + [fs[n]];
      assert forall i :: 0 <= i < n ==> init[i] == fs[i];
      AlternatingCounts(init);
      Parity(n);
      assert multiset(fs) == multiset(init) + multiset{fs[n]};
    }
  }

  /** After any prefix, a span is open exactly when some line opened it and no
      line since has ended it. */
  lemma {:induction false} InCodeIff(lines: seq<string>)
    ensures Scan(lines).inCode <==> exists j :: OpenedAndNotEnded(lines, j)
    decreases |lines|
  {
    if lines != [] {
      var n := |lines| - 1;
      var init := lines[..n];
      var last := lines[n];
      assert init + [last] == lines;
      InCodeIff(init);
      if Scan(init).inCode {
        InSpanStep(init, last);
      } else {
        InProseStep(init, last);
      }
      if Opens(last) {
        assert OpenedAndNotEnded(lines, n);
      } else {
        forall j | 0 <= j < n && OpenedAndNotEnded(init, j) && !Ends(last)
          ensures OpenedAndNotEnded(lines, j)
        {
          ExtendOpened(init, last, j);
        }
        forall j | OpenedAndNotEnded(lines, j)
          ensures OpenedAndNotEnded(init, j) && !Ends(last)
        {
          ShrinkOpened(init, last, j);
        }
      }
    }
  }

  lemma ExtendOpened(lines: seq<string>, line: string, j: int)
    requires OpenedAndNotEnded(lines, j) && !Ends(line)
    ensures OpenedAndNotEnded(lines + [line], j)
  {
    assert (lines + [line])[j] == lines[j];
    forall k | j < k < |lines| + 1
      ensures !Ends((lines + [line])[k])
    {
      if k < |lines| {
        assert (lines + [line])[k] == lines[k];
      }
    }
  }

  lemma ShrinkOpened(lines: seq<string>, line: string, j: int)
    requires OpenedAndNotEnded(lines + [line], j) && !Opens(line)
    ensures OpenedAndNotEnded(lines, j) && !Ends(line)
  {
    assert (lines + [line])[|lines|] == line;
    assert j != |lines|;
    assert (lines + [line])[j] == lines[j];
    forall k | j < k < |lines|
      ensures !Ends(lines[k])
    {
      assert (lines + [line])[k] == lines[k];
    }
  }

  /** Inside a span, only a line that ends it changes anything: it gets a
      Close before it and the span ends. Every other line, an opening one
      included, is emitted as it is and the span stays open. */
  lemma InSpanStep(lines: seq<string>, line: string)
    requires Scan(lines).inCode
    ensures Ends(line) ==> Scan(lines + [line]) == ScanState(false, Scan(lines).out + [Close, Text(line)])
    ensures !Ends(line) ==> Scan(lines + [line]) == ScanState(true, Scan(lines).out + [Text(line)])
  {
    assert (lines + [line])[..|lines|] == lines;
  }

  /** Inside a span, a run of lines none of which ends it is emitted as it
      is, and the span is still open after it. */
  lemma {:induction false} SpanRun(p: seq<string>, q: seq<string>)
    requires Scan(p).inCode
    requires forall k :: 0 <= k < |q| ==> !Ends(q[k])
    ensures Scan(p + q) == ScanState(true, Scan(p).out + TextPieces(q))
    decreases |q|
  {
    if q == [] {
      assert p + q == p;
    } else {
      var init := q[..|q| - 1];
      var last := q[|q| - 1];
      assert p + q == (p + init) + [last];
      SpanRun(p, init);
      InSpanStep(p + init, last);
      assert TextPieces(q) == TextPieces(init) + [Text(last)];
      AppendAssoc(Scan(p).out, TextPieces(init), [Text(last)]);
    }
  }

  lemma AppendAssoc<T>(a: seq<T>, b: seq<T>, c: seq<T>)
    ensures a + b + c == a + (b + c)
  {
  }

  /** Outside a span, an opening line gets an Open before it and starts a
      span; every other line is emitted as prose. */
  lemma InProseStep(lines: seq<string>, line: string)
    requires !Scan(lines).inCode
    ensures Opens(line) ==> Scan(lines + [line]) == ScanState(true, Scan(lines).out + [Open, Text(line)])
    ensures !Opens(line) ==> Scan(lines + [line]) == ScanState(false, Scan(lines).out + [Text(line)])
  {
    assert (lines + [line])[..|lines|] == lines;
  }

  /** Without an opening line the loop emits every line as prose. */
  lemma {:induction false} NoOpeningScan(lines: seq<string>)
    requires forall k :: 0 <= k < |lines| ==> !Opens(lines[k])
    ensures Scan(lines) == ScanState(false, TextPieces(lines))
    decreases |lines|
  {
    if lines != [] {
      NoOpeningScan(lines[..|lines| - 1]);
    }
  }

  lemma {:induction false} RenderTextPieces(lines: seq<string>)
    ensures RenderAll(TextPieces(lines)) == lines
    decreases |lines|
  {
    if lines != [] {
      var init := lines[..|lines| - 1];
      RenderTextPieces(init);
      RenderOne(TextPieces(init), Text(lines[|lines| - 1]));
      assert init + [lines[|lines| - 1]] == lines;
    }
  }

  /** A span opens immediately before the first opening line: the lines before
      it are prose without any fence, and an Open precedes it. */
  lemma FirstOpening(lines: seq<string>, i: nat)
    requires i < |lines| && Opens(lines[i])
    requires forall k :: 0 <= k < i ==> !Opens(lines[k])
    ensures Scan(lines[..i]) == ScanState(false, TextPieces(lines[..i]))
    ensures Scan(lines[..i + 1]) == ScanState(true, TextPieces(lines[..i]) + [Open, Text(lines[i])])
  {
    NoOpeningScan(lines[..i]);
    ScanSnoc(lines, i);
  }

  /** The gate passes, but no line opens a span: the reply comes back as it
      was, because joining the split lines restores it. */
  lemma NoOpeningLineIdentity(aiMsg: string)
    requires forall k :: 0 <= k < |Split(aiMsg)| ==> !Opens(Split(aiMsg)[k])
    ensures Formatted(aiMsg) == aiMsg
  {
    var lines := Split(aiMsg);
    NoOpeningScan(lines);
    assert FormatPieces(lines) == TextPieces(lines);
    RenderTextPieces(lines);
    JoinSplit(aiMsg);
  }

  /** Upper-cased text never matches the mixed-case keywords. */
  lemma MixedCaseNeverMatches(t: string)
    requires NoLower(t)
    ensures !ContainsAny(t, MixedCaseKeywords)
  {
    forall i | 0 <= i < |MixedCaseKeywords|
      ensures !Contains(t, MixedCaseKeywords[i])
    {
      NoLowerNeverContains(t, MixedCaseKeywords[i], 2);
    }
  }

  /** Against upper-cased text the keyword list acts as its all-caps part. */
  lemma KeywordsActAsCaps(t: string)
    requires NoLower(t)
    ensures ContainsAny(t, AbapKeywords) <==> ContainsAny(t, CapsKeywords)
  {
    var first := CapsKeywords[..6];
    var rest := CapsKeywords[6..];
    assert AbapKeywords == first + MixedCaseKeywords + rest;
    assert CapsKeywords == first + rest;
    ContainsAnyAppend(t, first + MixedCaseKeywords, rest);
    ContainsAnyAppend(t, first, MixedCaseKeywords);
    ContainsAnyAppend(t, first, rest);
    MixedCaseNeverMatches(t);
  }

  /** The gate ignores the four mixed-case entries. */
  lemma GateIgnoresMixedCase(aiMsg: string)
    ensures HasAbapCode(aiMsg) <==> ContainsAny(Upper(aiMsg), CapsKeywords)
  {
    UpperNoLower(aiMsg);
    KeywordsActAsCaps(Upper(aiMsg));
  }

  /** So does the close rule. */
  lemma CloseIgnoresMixedCase(line: string)
    ensures Closes(line) <==> Strip(line) != "" && !ContainsAny(LineUpper(line), CapsKeywords)
  {
    UpperNoLower(line);
    StripNoLower(Upper(line));
    KeywordsActAsCaps(LineUpper(line));
  }

  /** Identity fallback: a reply without any of the all-caps keywords comes
      back unchanged. */
  lemma NoKeywordIdentity(aiMsg: string)
    requires !ContainsAny(Upper(aiMsg), CapsKeywords)
    ensures Formatted(aiMsg) == aiMsg
  {
    GateIgnoresMixedCase(aiMsg);
  }

  /** A blank line neither opens nor ends a span. */
  lemma BlankLine(line: string)
    requires Strip(line) == ""
    ensures !Opens(line) && !Ends(line)
  {
    StripSpec(line);
    StripSpec(Upper(line));
    assert LineUpper(line) == "";
  }

  /** Inside a span, a line with a comment marker, a trailing comma or
      semicolon, a continuation token or an all-caps ABAP keyword never ends it. */
  lemma SpanKeepers(line: string)
    requires || StartsWith(Strip(line), "//")
             || EndsWith(Strip(line), ",") || EndsWith(Strip(line), ";")
             || ContainsAny(LineUpper(line), ContinueKeywords)
             || ContainsAny(LineUpper(line), CapsKeywords)
    ensures !Ends(line)
  {
    CloseIgnoresMixedCase(line);
  }

  /** A single line with an ABAP keyword anywhere in the reply lets the whole
      reply through the gate. */
  lemma KeywordLinePassesGate(lines: seq<string>, k: nat)
    requires k < |lines| && ContainsAny(Upper(lines[k]), AbapKeywords)
    ensures HasAbapCode(Join(lines))
  {
    var i :| 0 <= i < |AbapKeywords| && Contains(Upper(lines[k]), AbapKeywords[i]);
    ContainsUpperJoin(lines, k, AbapKeywords[i]);
  }
}

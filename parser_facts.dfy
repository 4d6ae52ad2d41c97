/** Properties of the directive parser (server/lib/assistant.js, `parseResponseForContent`). */
module ParserFacts {
  import opened Wrappers
  import opened JsString
  import opened Actions
  import opened DirectiveParser

  // ---------------------------------------------------------------------------------------------
  // Kind-major order

  /** A loop only collects actions of its expression's kind. */
  lemma {:induction false} ScanFromKind(exec: Search, k: Kind, s: string, e: Option<Found>, acc: seq<Action>)
    requires Searches(exec) && YieldsKind(exec, k) && Fits(e, s) && AllOfKind(acc, k)
    requires e.Some? ==> KindOf(e.value.tag.action) == k
    ensures AllOfKind(ScanFrom(exec, s, e, acc).actions, k)
    decreases |s|
  {
    match e
    case None =>
    case Some(f) =>
      var t := DeleteMatch(s, f);
      var acc' := acc + [f.tag.action];
      assert AllOfKind(acc', k) by {
        forall i | 0 <= i < |acc'| ensures KindOf(acc'[i]) == k {
          if i < |acc| { assert acc'[i] == acc[i]; }
        }
      }
      ScanFromKind(exec, k, t, exec(t, f.pos + f.tag.len), acc');
  }

  lemma ScanKind(k: Kind, s: string)
    ensures AllOfKind(Scan(SearchFor(k), s).actions, k)
  {
    var exec := SearchFor(k);
    ScanFromKind(exec, k, s, exec(s, 0), []);
  }

  /** Six blocks, one per kind in extraction order, make kind-major actions. */
  lemma BlocksKindMajor(a1: seq<Action>, a2: seq<Action>, a3: seq<Action>, a4: seq<Action>, a5: seq<Action>, a6: seq<Action>)
    requires AllOfKind(a1, SectionKind) && AllOfKind(a2, HighlightKind) && AllOfKind(a3, QuestionKind)
    requires AllOfKind(a4, PageBreakKind) && AllOfKind(a5, MermaidKind) && AllOfKind(a6, ImageKind)
    ensures KindMajor(a1 + a2 + a3 + a4 + a5 + a6)
  {
    AppendKindMajor([], a1, SectionKind);
    assert [] + a1 == a1;
    AppendKindMajor(a1, a2, HighlightKind);
    AppendKindMajor(a1 + a2, a3, QuestionKind);
    AppendKindMajor(a1 + a2 + a3, a4, PageBreakKind);
    AppendKindMajor(a1 + a2 + a3 + a4, a5, MermaidKind);
    AppendKindMajor(a1 + a2 + a3 + a4 + a5, a6, ImageKind);
  }

  /** Every section comes before any highlight, every highlight before any question, and so on
      through page breaks, diagrams and images. */
  lemma ParseKindMajor(content: string)
    ensures KindMajor(Parse(content).actions)
  {
    var sections := Scan(SearchFor(SectionKind), content);
    var highlights := Scan(SearchFor(HighlightKind), sections.rest);
    var questions := Scan(SearchFor(QuestionKind), highlights.rest);
    var pageBreaks := Scan(SearchFor(PageBreakKind), questions.rest);
    var diagrams := Scan(SearchFor(MermaidKind), pageBreaks.rest);
    var images := Scan(SearchFor(ImageKind), diagrams.rest);
    ScanKind(SectionKind, content);
    ScanKind(HighlightKind, sections.rest);
    ScanKind(QuestionKind, highlights.rest);
    ScanKind(PageBreakKind, questions.rest);
    ScanKind(MermaidKind, pageBreaks.rest);
    ScanKind(ImageKind, diagrams.rest);
    BlocksKindMajor(sections.actions, highlights.actions, questions.actions, pageBreaks.actions,
      diagrams.actions, images.actions);
  }

  // ---------------------------------------------------------------------------------------------
  // Text without a well-formed tag

  /** Every match starts with its expression's leading literal, and so at a `{`. */
  lemma MatchStartsAtBrace(k: Kind, s: string, p: nat)
    requires WellFormed(RegexOf(k)) && p <= |s|
    ensures MatchAt(RegexOf(k), s, p).Some? ==> OccursAt(s, Prefix(k), p) && s[p] == '{'
  {
    var re := RegexOf(k);
    if MatchAt(re, s, p).Some? {
      var t := re.steps.first.text;
      assert t == Prefix(k);
      assert s[p..p + |t|][0] == t[0];
    }
  }

  /** `exec` finds nothing when the expression matches at none of the `{` from `from` on. */
  lemma NoMatchAtBraces(k: Kind, s: string, from: nat)
    requires WellFormed(RegexOf(k))
    requires forall q :: from <= q < |s| && s[q] == '{' ==> MatchAt(RegexOf(k), s, q).None?
    ensures SearchFor(k)(s, from).None?
  {
    var r := Exec(RegexOf(k), s, from);
    if r.Some? {
      MatchStartsAtBrace(k, s, r.value.pos);
    }
  }

  /** A loop whose first `exec` finds nothing leaves the text alone and collects nothing. */
  lemma ScanNothing(k: Kind, s: string)
    requires SearchFor(k)(s, 0).None?
    ensures Scan(SearchFor(k), s) == Scanned(s, [])
  {
  }

  /** Text in which no expression matches gives no actions, and all of it, trimmed, is the
      speech. */
  lemma ParseWithoutMatches(content: string)
    requires forall k :: SearchFor(k)(content, 0).None?
    ensures Parse(content) == Parsed(Trim(content), [])
  {
    ScanNothing(SectionKind, content);
    ScanNothing(HighlightKind, content);
    ScanNothing(QuestionKind, content);
    ScanNothing(PageBreakKind, content);
    ScanNothing(MermaidKind, content);
    ScanNothing(ImageKind, content);
  }

  /** Text without a `{` has no tag. */
  lemma ParseWithoutBraces(content: string)
    requires '{' !in content
    ensures Parse(content) == Parsed(Trim(content), [])
  {
    forall k ensures SearchFor(k)(content, 0).None? {
      RegexOfWellFormed(k);
      NoMatchAtBraces(k, content, 0);
    }
    ParseWithoutMatches(content);
  }

  /** A step that ends by matching a literal whose last character is `}`. */
  predicate ClosesWithBrace(step: Step) {
    match step
    case Lit(t) => t != [] && t[|t| - 1] == '}'
    case LazyCapture(t) => t != [] && t[|t| - 1] == '}'
    case _ => false
  }

  /** A closing step matches text that ends with `}`. */
  lemma StepEndsWithBrace(step: Step, s: string, i: nat)
    requires i <= |s| && ClosesWithBrace(step) && StepAt(step, s, i).Some?
    ensures var e := StepAt(step, s, i).value.end; i < e && s[e - 1] == '}'
  {
    match step
    case Lit(t) => assert s[i..i + |t|][|t| - 1] == t[|t| - 1];
    case LazyCapture(t) =>
      var j := LazyFind(s, t, i).value;
      assert s[j..j + |t|][|t| - 1] == t[|t| - 1];
  }

  /** Steps whose last step closes with `}`. */
  predicate EndsClosing(steps: Steps) {
    match steps
    case Done => false
    case Then(step, Done) => ClosesWithBrace(step)
    case Then(_, rest) => EndsClosing(rest)
  }

  /** Steps that end with a closing literal match text that ends with `}`. */
  lemma {:induction false} RunEndsWithBrace(steps: Steps, s: string, i: nat)
    requires i <= |s| && EndsClosing(steps) && Run(steps, s, i).Some?
    ensures var e := Run(steps, s, i).value.end; i < e && s[e - 1] == '}'
  {
    var m := StepAt(steps.first, s, i).value;
    if steps.rest == Done {
      StepEndsWithBrace(steps.first, s, i);
    } else {
      RunEndsWithBrace(steps.rest, s, m.end);
    }
  }

  /** Every expression ends with a literal that closes with `}`. */
  lemma RegexClosesWithBrace(k: Kind)
    ensures EndsClosing(RegexOf(k).steps)
  {
  }

  /** A match of an expression whose last step closes with `}` ends with a `}`. */
  lemma MatchOfClosingRegex(re: Regex, s: string, p: nat)
    requires WellFormed(re) && p <= |s| && EndsClosing(re.steps)
    ensures MatchAt(re, s, p).Some? ==>
      var len := MatchAt(re, s, p).value.len; 0 < len && s[p + len - 1] == '}'
  {
    if MatchAt(re, s, p).Some? {
      RunEndsWithBrace(re.steps, s, p);
    }
  }

  /** A match ends with a `}`: text without a `}` at or after `p` has no match at `p`. */
  lemma MatchEndsWithBrace(k: Kind, s: string, p: nat)
    requires WellFormed(RegexOf(k)) && p <= |s|
    ensures MatchAt(RegexOf(k), s, p).Some? ==>
      var len := MatchAt(RegexOf(k), s, p).value.len; 0 < len && s[p + len - 1] == '}'
  {
    RegexClosesWithBrace(k);
    MatchOfClosingRegex(RegexOf(k), s, p);
  }

  /** Text without a `}` has no tag. */
  lemma ParseWithoutClosingBrace(content: string)
    requires '}' !in content
    ensures Parse(content) == Parsed(Trim(content), [])
  {
    forall k ensures SearchFor(k)(content, 0).None? {
      var r := SearchFor(k)(content, 0);
      if r.Some? {
        MatchEndsWithBrace(k, content, r.value.pos);
      }
    }
    ParseWithoutMatches(content);
  }

  /** `\s*"([^"]+)"}` matched at `i`: after the white space comes a `"` that is not followed by
      another `"` (the group is never empty). */
  lemma QuotedBodyRun(s: string, i: nat)
    requires i <= |s| && Run(QuotedBody, s, i).Some?
    ensures var j := SkipSpaces(s, i); j + 1 < |s| && s[j] == '"' && s[j + 1] != '"'
  {
    var j := SkipSpaces(s, i);
    assert Run(QuotedBody.rest, s, j).Some?;
    assert OccursAt(s, "\"", j);
    assert s[j..j + 1][0] == '"';
    assert Run(QuotedBody.rest.rest, s, j + 1).Some?;
  }

  /** The section, highlight and image expressions share the body `\s*"([^"]+)"}`. */
  lemma QuotedKindBody(k: Kind)
    requires k == SectionKind || k == HighlightKind || k == ImageKind
    ensures RegexOf(k).steps == Then(Lit(Prefix(k)), QuotedBody)
  {
    match k
    case SectionKind =>
    case HighlightKind =>
    case ImageKind =>
  }

  /** A run that starts with a literal continues right after it. */
  lemma RunAfterLiteral(steps: Steps, s: string, p: nat)
    requires p <= |s| && steps.Then? && steps.first.Lit? && Run(steps, s, p).Some?
    ensures p + |steps.first.text| <= |s| && Run(steps.rest, s, p + |steps.first.text|).Some?
  {
  }

  /** `{section: ""}` is not a section: the title group needs at least one character. */
  lemma EmptySectionNoMatch(c: string)
    requires |c| >= 13 && c[..13] == "{section: \"\"}"
    ensures WellFormed(RegexOf(SectionKind))
    ensures MatchAt(RegexOf(SectionKind), c, 0).None?
  {
    var steps := RegexOf(SectionKind).steps;
    RegexOfWellFormed(SectionKind);
    assert c[9] == ' ' && c[10] == '"' && c[11] == '"';
    if MatchAt(RegexOf(SectionKind), c, 0).Some? {
      RunAfterLiteral(steps, c, 0);
      QuotedBodyRun(c, 9);
    }
  }
  /** A text whose second character differs from that of the leading literal has no match at 0. */
  lemma PrefixMismatch(k: Kind, s: string)
    requires WellFormed(RegexOf(k)) && |s| > 1 && s[1] != Prefix(k)[1]
    ensures MatchAt(RegexOf(k), s, 0).None?
  {
    MatchStartsAtBrace(k, s, 0);
  }

  /** No directive matches a text that opens with `{section: ""}` and has no other `{`. */
  lemma EmptySectionAlone(c: string)
    requires |c| >= 13 && c[..13] == "{section: \"\"}"
    requires forall q :: 0 < q < |c| ==> c[q] != '{'
    ensures forall k :: SearchFor(k)(c, 0).None?
  {
    assert c[1] == 's';
    forall k ensures SearchFor(k)(c, 0).None? {
      RegexOfWellFormed(k);
      if k == SectionKind {
        EmptySectionNoMatch(c);
      } else {
        PrefixMismatch(k, c);
      }
      NoMatchAtBraces(k, c, 0);
    }
  }

  /** `{section: ""}` is no tag: followed by text without a `{`, nothing is extracted and all of
      it, trimmed, is the speech. */
  lemma ParseEmptySection(rest: string)
    requires '{' !in rest
    ensures var c := "{section: \"\"}" + rest; Parse(c) == Parsed(Trim(c), [])
  {
    var c := "{section: \"\"}" + rest;
    assert c[..13] == "{section: \"\"}";
    forall q | 0 < q < |c| ensures c[q] != '{' {
      if q >= 13 { assert c[q] == rest[q - 13]; }
    }
    EmptySectionAlone(c);
    ParseWithoutMatches(c);
  }

  // ---------------------------------------------------------------------------------------------
  // The `lastIndex` that is not rewound

  /** `{page_break}` matches wherever its text stands. */
  lemma PageBreakMatch(s: string, p: nat)
    requires OccursAt(s, "{page_break}", p)
    ensures WellFormed(RegexOf(PageBreakKind))
    ensures MatchAt(RegexOf(PageBreakKind), s, p) == Some(Tag(12, PageBreak))
  {
    RegexOfWellFormed(PageBreakKind);
    assert StepAt(Lit("{page_break}"), s, p) == Some(Stepped(p + 12, None));
    assert Run(RegexOf(PageBreakKind).steps, s, p) == Some(Matched(p + 12, NoCaptures));
  }

  /** The first turn on two page breaks in a row: the first tag is found at 0 and deleted. */
  lemma AdjacentFirstTurn(rest: string)
    ensures var c := "{page_break}" + "{page_break}" + rest;
      var f := Found(0, Tag(12, PageBreak));
      SearchFor(PageBreakKind)(c, 0) == Some(f) && Fits(Some(f), c)
      && DeleteMatch(c, f) == "{page_break}" + rest
  {
    var c := "{page_break}" + "{page_break}" + rest;
    assert c[0..12] == "{page_break}";
    PageBreakMatch(c, 0);
    var f := Found(0, Tag(12, PageBreak));
    assert SearchFor(PageBreakKind)(c, 0) == Some(f);
    DeleteMatchItself(c, f);
    assert c[12..] == "{page_break}" + rest;
  }

  /** The second turn searches from 12, past the remaining tag, and finds nothing. */
  lemma AdjacentSecondTurn(rest: string)
    requires '{' !in rest
    ensures SearchFor(PageBreakKind)("{page_break}" + rest, 12).None?
  {
    var t := "{page_break}" + rest;
    forall q | 12 <= q < |t| ensures t[q] != '{' {
      assert t[q] == rest[q - 12];
    }
    NoMatchAtBraces(PageBreakKind, t, 12);
  }

  /** Two page breaks in a row: the loop deletes the first, but its next search starts 12
      characters into the shrunken text, past the second tag, which is left in the text. */
  lemma AdjacentPageBreakSkipped(rest: string)
    requires '{' !in rest
    ensures var c := "{page_break}" + "{page_break}" + rest;
      Scan(SearchFor(PageBreakKind), c) == Scanned("{page_break}" + rest, [PageBreak])
  {
    var exec := SearchFor(PageBreakKind);
    var c := "{page_break}" + "{page_break}" + rest;
    var t := "{page_break}" + rest;
    var f := Found(0, Tag(12, PageBreak));
    AdjacentFirstTurn(rest);
    AdjacentSecondTurn(rest);
    assert [] + [f.tag.action] == [PageBreak];
    assert Scan(exec, c) == ScanFrom(exec, c, Some(f), []);
    assert ScanFrom(exec, c, Some(f), []) == ScanFrom(exec, t, exec(t, 12), [PageBreak]);
  }

  // ---------------------------------------------------------------------------------------------
  // Question options

  /** A quoted option loses exactly its two quotes, whatever it holds. */
  lemma StripQuotesQuoted(o: string)
    ensures StripQuotes("\"" + o + "\"") == o
  {
    var t := "\"" + o + "\"";
    assert t[0] == '"' && t[|t| - 1] == '"';
    assert t[1..|t| - 1] == o;
  }

  /** An option that neither starts nor ends with a quote is kept as it is. */
  lemma StripQuotesUnquoted(o: string)
    requires o == [] || (o[0] != '"' && o[|o| - 1] != '"')
    ensures StripQuotes(o) == o
  {
  }

  /** The bracket contents `"A", "B", …`: comma-free parts, each of which is one quoted option
      with white space around it, give exactly the options back, in order. */
  lemma {:induction false} OptionsOfQuoted(parts: seq<string>, opts: seq<string>)
    requires |parts| == |opts| >= 1
    requires forall i :: 0 <= i < |parts| ==> ',' !in parts[i]
    requires forall i :: 0 <= i < |parts| ==> Trim(parts[i]) == "\"" + opts[i] + "\""
    ensures Options(Join(parts, ',')) == opts
  {
    SplitJoin(parts, ',');
    forall i | 0 <= i < |parts| ensures StripQuotes(Trim(parts[i])) == opts[i] {
      StripQuotesQuoted(opts[i]);
    }
  }
}

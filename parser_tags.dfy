/** What each well-formed directive tag becomes (server/lib/assistant.js, lines 117-181): the
    matcher is run step by step over a tag written out in full, and the action it builds carries
    the tag's own payload. */
module ParserTags {
  import opened Wrappers
  import opened JsString
  import opened Actions
  import opened DirectiveParser
  import opened ParserFacts

  // ---------------------------------------------------------------------------------------------
  // Occurrences

  /** A piece of an occurrence is an occurrence. */
  lemma OccursPiece(s: string, u: string, p: nat, a: nat, b: nat)
    requires OccursAt(s, u, p) && a <= b <= |u|
    ensures OccursAt(s, u[a..b], p + a)
  {
    var w := s[p..p + |u|];
    assert forall q :: 0 <= q < b - a ==> w[a..b][q] == s[p + a..p + b][q];
  }

  /** An occurrence gives the characters one by one. */
  lemma OccursChars(s: string, u: string, i: nat)
    requires OccursAt(s, u, i)
    ensures forall q :: i <= q < i + |u| ==> s[q] == u[q - i]
  {
    forall q | i <= q < i + |u| ensures s[q] == u[q - i] {
      assert s[i..i + |u|][q - i] == s[q];
    }
  }

  /** The first character of an occurrence. */
  lemma OccursFirst(s: string, u: string, i: nat)
    requires OccursAt(s, u, i) && u != []
    ensures i < |s| && s[i] == u[0]
  {
    assert s[i..i + |u|][0] == s[i];
  }

  // ---------------------------------------------------------------------------------------------
  // One step at a time

  /** `\s*` from `i` ends at the first character that is not white space. */
  lemma SpacesStep(s: string, i: nat, j: nat)
    requires i <= j < |s| && !IsSpace(s[j])
    requires forall q :: i <= q < j ==> IsSpace(s[q])
    ensures StepAt(Spaces, s, i) == Some(Stepped(j, None))
  {
  }

  /** `([^c]+)` from `i` captures everything up to the first `c`, when there is something. */
  lemma CaptureStep(s: string, c: char, i: nat, j: nat)
    requires i < j < |s| && s[j] == c
    requires forall q :: i <= q < j ==> s[q] != c
    ensures StepAt(Capture(c), s, i) == Some(Stepped(j, Some(s[i..j])))
  {
  }

  /** `(.*?)` followed by `t` from `i` stops at the first place `t` stands, when no line
      terminator comes before it. */
  lemma {:induction false} LazyFindAt(s: string, t: string, i: nat, j: nat)
    requires i <= j && OccursAt(s, t, j)
    requires forall q :: i <= q < j ==> !IsLineTerminator(s[q]) && !OccursAt(s, t, q)
    ensures LazyFind(s, t, i) == Some(j)
    decreases j - i
  {
    if i < j {
      LazyFindAt(s, t, i + 1, j);
    }
  }

  /** Steps matched one after the other: the first step, then the rest from where it ended. */
  lemma RunThen(step: Step, steps: Steps, s: string, i: nat, m: Stepped, n: Matched)
    requires i <= |s| && StepAt(step, s, i) == Some(m) && m.end <= |s| && Run(steps, s, m.end) == Some(n)
    ensures Run(Then(step, steps), s, i) == Some(Matched(n.end, Prepend(m.group, n.groups)))
  {
  }

  // ---------------------------------------------------------------------------------------------
  // Delimited payloads

  /** `([^c]+)` then a closing literal that starts with `c`, then `more`. */
  lemma CloseRun(s: string, b: nat, c: char, e: nat, close: string, more: Steps, n: Matched)
    requires OccursAt(s, close, e) && close != [] && close[0] == c
    requires b < e && (forall q :: b <= q < e ==> s[q] != c)
    requires Run(more, s, e + |close|) == Some(n)
    ensures Run(Then(Capture(c), Then(Lit(close), more)), s, b) == Some(Matched(n.end, Captures(s[b..e], n.groups)))
  {
    OccursFirst(s, close, e);
    CaptureStep(s, c, b, e);
    RunThen(Lit(close), more, s, e, Stepped(e + |close|, None), n);
    RunThen(Capture(c), Then(Lit(close), more), s, b, Stepped(e, Some(s[b..e])), n);
  }

  /** `\s*` then an opening literal that does not start with white space, then `more`. */
  lemma OpenRun(s: string, i: nat, j: nat, open: string, more: Steps, n: Matched)
    requires OccursAt(s, open, j) && open != [] && !IsSpace(open[0])
    requires i <= j && (forall q :: i <= q < j ==> IsSpace(s[q]))
    requires Run(more, s, j + |open|) == Some(n)
    ensures Run(Then(Spaces, Then(Lit(open), more)), s, i) == Some(n)
  {
    OccursFirst(s, open, j);
    SpacesStep(s, i, j);
    RunThen(Lit(open), more, s, j, Stepped(j + |open|, None), n);
    RunThen(Spaces, Then(Lit(open), more), s, i, Stepped(j, None), n);
  }

  /** An occurrence of `a + b` is one of `a` followed by one of `b`. */
  lemma OccursSplit(s: string, a: string, b: string, i: nat)
    requires OccursAt(s, a + b, i)
    ensures OccursAt(s, a, i) && OccursAt(s, b, i + |a|)
  {
    OccursPiece(s, a + b, i, 0, |a|);
    assert (a + b)[0..|a|] == a;
    OccursPiece(s, a + b, i, |a|, |a + b|);
    assert (a + b)[|a|..|a + b|] == b;
  }

  /** An occurrence of a literal followed by four more pieces is one of the literal followed by
      one of the four pieces together. */
  lemma OccursAfterLiteral(s: string, lit: string, ws: string, open: string, t: string, close: string, p: nat)
    requires OccursAt(s, lit + ws + open + t + close, p)
    ensures OccursAt(s, lit, p) && OccursAt(s, ws + open + t + close, p + |lit|)
  {
    assert lit + ws + open + t + close == lit + (ws + open + t + close);
    OccursSplit(s, lit, ws + open + t + close, p);
  }

  /** The characters of written-out white space are white space. */
  lemma SpaceChars(s: string, i: nat, ws: string)
    requires OccursAt(s, ws, i) && AllSpace(ws)
    ensures forall q :: i <= q < i + |ws| ==> IsSpace(s[q])
  {
    OccursChars(s, ws, i);
  }

  /** The characters of a written-out payload without `c` are not `c`. */
  lemma AvoidsChar(s: string, i: nat, t: string, c: char)
    requires OccursAt(s, t, i) && c !in t
    ensures forall q :: i <= q < i + |t| ==> s[q] != c
  {
    OccursChars(s, t, i);
  }

  // ---------------------------------------------------------------------------------------------
  // Delimited payloads

  /** `\s*`, an opening literal, `([^c]+)`, a closing literal that starts with `c`, then `more`:
      over white space from `i` to `j`, the opening at `j`, a payload without `c` up to `e` and
      the closing at `e`, the payload is the first group. This is the shape of `\s*"([^"]+)"}`,
      of `\s*"([^"]+)",` and of ``\s*```([^`]+)```}``. */
  lemma DelimitedRun(s: string, i: nat, j: nat, open: string, c: char, e: nat, close: string,
                     more: Steps, n: Matched)
    requires OccursAt(s, open, j) && open != [] && !IsSpace(open[0])
    requires OccursAt(s, close, e) && close != [] && close[0] == c
    requires i <= j && (forall q :: i <= q < j ==> IsSpace(s[q]))
    requires j + |open| < e && (forall q :: j + |open| <= q < e ==> s[q] != c)
    requires Run(more, s, e + |close|) == Some(n)
    ensures Run(Then(Spaces, Then(Lit(open), Then(Capture(c), Then(Lit(close), more)))), s, i)
         == Some(Matched(n.end, Captures(s[j + |open|..e], n.groups)))
  {
    var b := j + |open|;
    CloseRun(s, b, c, e, close, more, n);
    OpenRun(s, i, j, open, Then(Capture(c), Then(Lit(close), more)), Matched(n.end, Captures(s[b..e], n.groups)));
  }

  /** Where the parts of a written-out `ws open t close` stand. */
  lemma DelimitedLayout(s: string, i: nat, ws: string, open: string, t: string, close: string)
    requires OccursAt(s, ws + open + t + close, i)
    ensures var j := i + |ws|; var b := j + |open|; var e := b + |t|;
      OccursAt(s, ws, i) && OccursAt(s, open, j) && OccursAt(s, t, b) && OccursAt(s, close, e)
  {
    OccursSplit(s, ws + open + t, close, i);
    OccursSplit(s, ws + open, t, i);
    OccursSplit(s, ws, open, i);
  }

  /** Where the parts of a written-out `ws open t close` stand, character by character. */
  lemma DelimitedChars(s: string, i: nat, j: nat, e: nat, ws: string, open: string, c: char, t: string, close: string)
    requires AllSpace(ws) && t != [] && c !in t
    requires j == i + |ws| && e == j + |open| + |t|
    requires OccursAt(s, ws + open + t + close, i)
    ensures OccursAt(s, open, j) && OccursAt(s, close, e)
      && i <= j && (forall q :: i <= q < j ==> IsSpace(s[q]))
      && j + |open| < e && (forall q :: j + |open| <= q < e ==> s[q] != c)
      && s[j + |open|..e] == t
  {
    DelimitedLayout(s, i, ws, open, t, close);
    SpaceChars(s, i, ws);
    AvoidsChar(s, j + |open|, t, c);
  }

  /** The delimited steps over written-out white space, the opening, a payload without the stop
      character and the closing, then `more`: the payload is the first group. */
  lemma DelimitedThen(s: string, i: nat, ws: string, open: string, c: char, t: string, close: string,
                      more: Steps, n: Matched)
    requires AllSpace(ws) && open != [] && !IsSpace(open[0])
    requires t != [] && c !in t && close != [] && close[0] == c
    requires OccursAt(s, ws + open + t + close, i)
    requires Run(more, s, i + |ws| + |open| + |t| + |close|) == Some(n)
    ensures Run(Then(Spaces, Then(Lit(open), Then(Capture(c), Then(Lit(close), more)))), s, i)
         == Some(Matched(n.end, Captures(t, n.groups)))
  {
    var j := i + |ws|;
    var e := j + |open| + |t|;
    DelimitedChars(s, i, j, e, ws, open, c, t, close);
    DelimitedRun(s, i, j, open, c, e, close, more, n);
  }

  /** The leading literal, then the body. */
  lemma TagRun(re: Regex, lit: string, body: Steps, s: string, p: nat, m: Matched)
    requires WellFormed(re) && re.steps == Then(Lit(lit), body)
    requires OccursAt(s, lit, p) && Run(body, s, p + |lit|) == Some(m)
    ensures Count(m.groups) == Arity(re.kind)
    ensures MatchAt(re, s, p) == Some(Tag(m.end - p, ActionOf(re.kind, m.groups)))
  {
    RunThen(Lit(lit), body, s, p, Stepped(p + |lit|, None), m);
    assert Run(re.steps, s, p) == Some(m);
  }

  // ---------------------------------------------------------------------------------------------
  // The tags

  /** An expression made of a leading literal and the delimited steps, matched over the
      literal, written-out white space, the opening, a payload without the stop character and
      the closing: the match spans all of it and its action is built from the payload. */
  lemma DelimitedMatch(re: Regex, lit: string, open: string, c: char, close: string,
                       s: string, p: nat, ws: string, t: string)
    requires WellFormed(re)
    requires re.steps == Then(Lit(lit), Then(Spaces, Then(Lit(open), Then(Capture(c), Then(Lit(close), Done)))))
    requires open != [] && !IsSpace(open[0]) && close != [] && close[0] == c
    requires AllSpace(ws) && t != [] && c !in t
    requires OccursAt(s, lit + ws + open + t + close, p)
    ensures Arity(re.kind) == 1
    ensures MatchAt(re, s, p) == Some(Tag(|lit| + |ws| + |open| + |t| + |close|, ActionOf(re.kind, Captures(t, NoCaptures))))
  {
    OccursAfterLiteral(s, lit, ws, open, t, close, p);
    var end := p + |lit| + |ws| + |open| + |t| + |close|;
    DelimitedThen(s, p + |lit|, ws, open, c, t, close, Done, Matched(end, NoCaptures));
    TagRun(re, lit, Then(Spaces, Then(Lit(open), Then(Capture(c), Then(Lit(close), Done)))), s, p,
      Matched(end, Captures(t, NoCaptures)));
  }

  /** `{section: "T"}`, with any white space after the colon, gives the section `T`. */
  lemma SectionTagMatch(s: string, p: nat, ws: string, t: string)
    requires AllSpace(ws) && t != [] && '"' !in t
    requires OccursAt(s, "{section:" + ws + "\"" + t + "\"}", p)
    ensures WellFormed(RegexOf(SectionKind))
    ensures MatchAt(RegexOf(SectionKind), s, p) == Some(Tag(|ws| + |t| + 12, Section(t)))
  {
    RegexOfWellFormed(SectionKind);
    DelimitedMatch(RegexOf(SectionKind), "{section:", "\"", '"', "\"}", s, p, ws, t);
  }

  /** `{highlight: "T"}`, with any white space after the colon, highlights `T`. */
  lemma HighlightTagMatch(s: string, p: nat, ws: string, t: string)
    requires AllSpace(ws) && t != [] && '"' !in t
    requires OccursAt(s, "{highlight:" + ws + "\"" + t + "\"}", p)
    ensures WellFormed(RegexOf(HighlightKind))
    ensures MatchAt(RegexOf(HighlightKind), s, p) == Some(Tag(|ws| + |t| + 14, Highlight(t)))
  {
    RegexOfWellFormed(HighlightKind);
    DelimitedMatch(RegexOf(HighlightKind), "{highlight:", "\"", '"', "\"}", s, p, ws, t);
  }

  /** `{image: "U"}`, with any white space after the colon, shows the image at `U`. */
  lemma ImageTagMatch(s: string, p: nat, ws: string, u: string)
    requires AllSpace(ws) && u != [] && '"' !in u
    requires OccursAt(s, "{image:" + ws + "\"" + u + "\"}", p)
    ensures WellFormed(RegexOf(ImageKind))
    ensures MatchAt(RegexOf(ImageKind), s, p) == Some(Tag(|ws| + |u| + 10, Image(u)))
  {
    RegexOfWellFormed(ImageKind);
    DelimitedMatch(RegexOf(ImageKind), "{image:", "\"", '"', "\"}", s, p, ws, u);
  }

  /** `{mermaid: ```D```}`, with any white space after the colon: the match spans the whole tag
      and the diagram is `D`. */
  lemma MermaidTagMatch(s: string, p: nat, ws: string, d: string)
    requires AllSpace(ws) && d != [] && '`' !in d
    requires OccursAt(s, "{mermaid:" + ws + "```" + d + "```}", p)
    ensures WellFormed(RegexOf(MermaidKind))
    ensures MatchAt(RegexOf(MermaidKind), s, p) == Some(Tag(|ws| + |d| + 16, Mermaid(d)))
  {
    RegexOfWellFormed(MermaidKind);
    DelimitedMatch(RegexOf(MermaidKind), "{mermaid:", "```", '`', "```}", s, p, ws, d);
  }

  // ---------------------------------------------------------------------------------------------
  // Questions

  /** `(.*?)` followed by `t` as the last step. */
  lemma LazyLast(s: string, t: string, i: nat, j: nat)
    requires i <= j && OccursAt(s, t, j)
    requires forall q :: i <= q < j ==> !IsLineTerminator(s[q]) && !OccursAt(s, t, q)
    ensures Run(Then(LazyCapture(t), Done), s, i) == Some(Matched(j + |t|, Captures(s[i..j], NoCaptures)))
  {
    LazyFindAt(s, t, i, j);
    RunThen(LazyCapture(t), Done, s, i, Stepped(j + |t|, Some(s[i..j])), Matched(j + |t|, NoCaptures));
  }

  /** `\s*\[(.*?)\]}`, the bracketed options. */
  const BracketBody: Steps := Then(Spaces, Then(Lit("["), Then(LazyCapture("]}"), Done)))

  /** The bracket steps over white space from `i` to `c`, `[` at `c`, and a line up to the
      first `]}` at `d`. */
  lemma BracketRun(s: string, i: nat, c: nat, d: nat)
    requires OccursAt(s, "[", c) && OccursAt(s, "]}", d)
    requires i <= c && (forall q :: i <= q < c ==> IsSpace(s[q]))
    requires c + 1 <= d && (forall q :: c + 1 <= q < d ==> !IsLineTerminator(s[q]) && !OccursAt(s, "]}", q))
    ensures Run(BracketBody, s, i) == Some(Matched(d + 2, Captures(s[c + 1..d], NoCaptures)))
  {
    LazyLast(s, "]}", c + 1, d);
    OpenRun(s, i, c, "[", Then(LazyCapture("]}"), Done), Matched(d + 2, Captures(s[c + 1..d], NoCaptures)));
  }

  /** The options steps over white space from `i` to `a`, `options:` at `a`, white space up to
      `c`, `[` at `c`, a line up to the first `]}` at `d`: the bracket contents are the group. */
  lemma OptionsRun(s: string, i: nat, a: nat, c: nat, o: string)
    requires OccursAt(s, "options:", a) && OccursAt(s, "[", c) && OccursAt(s, o, c + 1) && OccursAt(s, "]}", c + 1 + |o|)
    requires i <= a && (forall q :: i <= q < a ==> IsSpace(s[q]))
    requires a + 8 <= c && (forall q :: a + 8 <= q < c ==> IsSpace(s[q]))
    requires forall q :: c + 1 <= q < c + 1 + |o| ==> !IsLineTerminator(s[q]) && !OccursAt(s, "]}", q)
    ensures Run(OptionsBody, s, i) == Some(Matched(c + 3 + |o|, Captures(o, NoCaptures)))
  {
    var d := c + 1 + |o|;
    assert s[c + 1..d] == o;
    BracketRun(s, a + 8, c, d);
    assert Matched(d + 2, Captures(s[c + 1..d], NoCaptures)) == Matched(c + 3 + |o|, Captures(o, NoCaptures));
    OpenRun(s, i, a, "options:", BracketBody, Matched(c + 3 + |o|, Captures(o, NoCaptures)));
  }

  /** Where the six parts of a written-out `ws2 options: ws3 [o]}` stand. */
  lemma OptionsLayout(s: string, i: nat, ws2: string, lit: string, ws3: string, open: string, o: string, close: string)
    requires OccursAt(s, ws2 + lit + ws3 + open + o + close, i)
    ensures var a := i + |ws2|; var c := a + |lit| + |ws3|; var d := c + |open| + |o|;
      OccursAt(s, ws2, i) && OccursAt(s, lit, a) && OccursAt(s, ws3, a + |lit|)
      && OccursAt(s, open, c) && OccursAt(s, o, c + |open|) && OccursAt(s, close, d)
  {
    OccursSplit(s, ws2 + lit + ws3 + open + o, close, i);
    OccursSplit(s, ws2 + lit + ws3 + open, o, i);
    OccursSplit(s, ws2 + lit + ws3, open, i);
    OccursSplit(s, ws2 + lit, ws3, i);
    OccursSplit(s, ws2, lit, i);
  }

  /** `]}` stands at `q` only where its two characters do. */
  lemma CloseChars(s: string, q: nat)
    ensures OccursAt(s, "]}", q) ==> q + 1 < |s| && s[q] == ']' && s[q + 1] == '}'
  {
    if OccursAt(s, "]}", q) {
      OccursChars(s, "]}", q);
    }
  }

  /** Bracket contents on one line and without `]}` leave no `]}` before the closing one. */
  lemma NoEarlierClose(s: string, k: nat, o: string)
    requires OccursAt(s, o, k) && OccursAt(s, "]}", k + |o|)
    requires forall j :: 0 <= j < |o| ==> !IsLineTerminator(o[j])
    requires forall j :: 0 <= j < |o| - 1 ==> !(o[j] == ']' && o[j + 1] == '}')
    ensures forall q :: k <= q < k + |o| ==> !IsLineTerminator(s[q]) && !OccursAt(s, "]}", q)
  {
    OccursChars(s, o, k);
    CloseChars(s, k + |o|);
    forall q | k <= q < k + |o| ensures !OccursAt(s, "]}", q) {
      CloseChars(s, q);
      if q + 1 < k + |o| {
        assert s[q] == o[q - k] && s[q + 1] == o[q - k + 1];
      } else {
        assert s[q + 1] == ']';
      }
    }
  }

  /** Where the parts of a written-out `ws2 options: ws3 [o]}` stand, character by character. */
  lemma OptionsChars(s: string, i: nat, ws2: string, ws3: string, o: string)
    requires AllSpace(ws2) && AllSpace(ws3)
    requires forall j :: 0 <= j < |o| ==> !IsLineTerminator(o[j])
    requires forall j :: 0 <= j < |o| - 1 ==> !(o[j] == ']' && o[j + 1] == '}')
    requires OccursAt(s, ws2 + "options:" + ws3 + "[" + o + "]}", i)
    ensures var a := i + |ws2|; var c := a + 8 + |ws3|;
      OccursAt(s, "options:", a) && OccursAt(s, "[", c) && OccursAt(s, o, c + 1) && OccursAt(s, "]}", c + 1 + |o|)
      && (forall q :: i <= q < a ==> IsSpace(s[q]))
      && (forall q :: a + 8 <= q < c ==> IsSpace(s[q]))
      && (forall q :: c + 1 <= q < c + 1 + |o| ==> !IsLineTerminator(s[q]) && !OccursAt(s, "]}", q))
  {
    OptionsSpaces(s, i, ws2, "options:", ws3, "[", o, "]}");
    NoEarlierClose(s, i + |ws2| + 8 + |ws3| + 1, o);
  }

  /** The white space of a written-out `ws2 lit ws3 open o close`, character by character. */
  lemma OptionsSpaces(s: string, i: nat, ws2: string, lit: string, ws3: string, open: string, o: string, close: string)
    requires AllSpace(ws2) && AllSpace(ws3)
    requires OccursAt(s, ws2 + lit + ws3 + open + o + close, i)
    ensures var a := i + |ws2|; var c := a + |lit| + |ws3|; var d := c + |open| + |o|;
      OccursAt(s, lit, a) && OccursAt(s, open, c) && OccursAt(s, o, c + |open|) && OccursAt(s, close, d)
      && (forall q :: i <= q < a ==> IsSpace(s[q]))
      && (forall q :: a + |lit| <= q < c ==> IsSpace(s[q]))
  {
    OptionsLayout(s, i, ws2, lit, ws3, open, o, close);
    SpaceChars(s, i, ws2);
    SpaceChars(s, i + |ws2| + |lit|, ws3);
  }

  /** The options steps over a written-out `ws2 options: ws3 [o]}`: the bracket contents are
      the group. */
  lemma OptionsAt(s: string, i: nat, ws2: string, ws3: string, o: string)
    requires AllSpace(ws2) && AllSpace(ws3)
    requires forall j :: 0 <= j < |o| ==> !IsLineTerminator(o[j])
    requires forall j :: 0 <= j < |o| - 1 ==> !(o[j] == ']' && o[j + 1] == '}')
    requires OccursAt(s, ws2 + "options:" + ws3 + "[" + o + "]}", i)
    ensures Run(OptionsBody, s, i) == Some(Matched(i + |ws2| + |ws3| + |o| + 11, Captures(o, NoCaptures)))
  {
    var c := i + |ws2| + 8 + |ws3|;
    OptionsChars(s, i, ws2, ws3, o);
    OptionsRun(s, i, i + |ws2|, c, o);
    assert Matched(c + 3 + |o|, Captures(o, NoCaptures)) == Matched(i + |ws2| + |ws3| + |o| + 11, Captures(o, NoCaptures));
  }

  /** An occurrence of ten pieces is one of the first four followed by one of the last six. */
  lemma OccursFourThenSix(s: string, i: nat, a: string, b: string, c: string, d: string,
                          e: string, f: string, g: string, h: string, k: string, l: string)
    requires OccursAt(s, a + b + c + d + e + f + g + h + k + l, i)
    ensures OccursAt(s, a + b + c + d, i) && OccursAt(s, e + f + g + h + k + l, i + |a| + |b| + |c| + |d|)
  {
    assert a + b + c + d + e + f + g + h + k + l == (a + b + c + d) + (e + f + g + h + k + l);
    OccursSplit(s, a + b + c + d, e + f + g + h + k + l, i);
  }

  /** An occurrence of eleven pieces is one of the first followed by one of the other ten. */
  lemma OccursOneThenTen(s: string, i: nat, lit: string, a: string, b: string, c: string, d: string,
                         e: string, f: string, g: string, h: string, k: string, l: string)
    requires OccursAt(s, lit + a + b + c + d + e + f + g + h + k + l, i)
    ensures OccursAt(s, lit, i) && OccursAt(s, a + b + c + d + e + f + g + h + k + l, i + |lit|)
  {
    assert lit + a + b + c + d + e + f + g + h + k + l == lit + (a + b + c + d + e + f + g + h + k + l);
    OccursSplit(s, lit, a + b + c + d + e + f + g + h + k + l, i);
  }

  /** The question expression's body over a written-out question text, then the options. */
  lemma QuestionTextThen(s: string, i: nat, e: nat, ws1: string, q: string, n: Matched)
    requires AllSpace(ws1) && q != [] && '"' !in q
    requires OccursAt(s, ws1 + "\"" + q + "\",", i) && e == i + |ws1| + |q| + 3
    requires Run(OptionsBody, s, e) == Some(n)
    ensures Run(Body(QuestionKind), s, i) == Some(Matched(n.end, Captures(q, n.groups)))
  {
    DelimitedThen(s, i, ws1, "\"", '"', q, "\",", OptionsBody, n);
  }

  /** The question expression's body over a written-out question text and options: the groups
      are the question text and the bracket contents. */
  lemma QuestionBodyAt(s: string, i: nat, ws1: string, q: string, ws2: string, ws3: string, o: string)
    requires AllSpace(ws1) && q != [] && '"' !in q && AllSpace(ws2) && AllSpace(ws3)
    requires forall j :: 0 <= j < |o| ==> !IsLineTerminator(o[j])
    requires forall j :: 0 <= j < |o| - 1 ==> !(o[j] == ']' && o[j + 1] == '}')
    requires OccursAt(s, ws1 + "\"" + q + "\"," + ws2 + "options:" + ws3 + "[" + o + "]}", i)
    ensures Run(Body(QuestionKind), s, i)
         == Some(Matched(i + |ws1| + |q| + |ws2| + |ws3| + |o| + 14, Captures(q, Captures(o, NoCaptures))))
  {
    var e := i + |ws1| + |q| + 3;
    var n := Matched(e + |ws2| + |ws3| + |o| + 11, Captures(o, NoCaptures));
    OccursFourThenSix(s, i, ws1, "\"", q, "\",", ws2, "options:", ws3, "[", o, "]}");
    OptionsAt(s, e, ws2, ws3, o);
    QuestionTextThen(s, i, e, ws1, q, n);
  }

  /** The question expression: its leading literal, then its body. */
  lemma QuestionRun(s: string, p: nat, m: Matched)
    requires OccursAt(s, "{question:", p) && Run(Body(QuestionKind), s, p + 10) == Some(m)
    ensures WellFormed(RegexOf(QuestionKind)) && Count(m.groups) == 2
    ensures MatchAt(RegexOf(QuestionKind), s, p) == Some(Tag(m.end - p, ActionOf(QuestionKind, m.groups)))
  {
    RegexOfWellFormed(QuestionKind);
    TagRun(RegexOf(QuestionKind), "{question:", Body(QuestionKind), s, p, m);
  }

  /** The question expression after its leading literal. */
  lemma QuestionAfterLiteral(s: string, p: nat, ws1: string, q: string, ws2: string, ws3: string, o: string)
    requires AllSpace(ws1) && q != [] && '"' !in q && AllSpace(ws2) && AllSpace(ws3)
    requires forall j :: 0 <= j < |o| ==> !IsLineTerminator(o[j])
    requires forall j :: 0 <= j < |o| - 1 ==> !(o[j] == ']' && o[j + 1] == '}')
    requires OccursAt(s, "{question:", p)
    requires OccursAt(s, ws1 + "\"" + q + "\"," + ws2 + "options:" + ws3 + "[" + o + "]}", p + 10)
    ensures WellFormed(RegexOf(QuestionKind))
    ensures MatchAt(RegexOf(QuestionKind), s, p)
         == Some(Tag(|ws1| + |q| + |ws2| + |ws3| + |o| + 24, Question(q, Options(o))))
  {
    var m := Matched(p + 10 + |ws1| + |q| + |ws2| + |ws3| + |o| + 14, Captures(q, Captures(o, NoCaptures)));
    QuestionBodyAt(s, p + 10, ws1, q, ws2, ws3, o);
    QuestionRun(s, p, m);
    assert Tag(m.end - p, ActionOf(QuestionKind, m.groups))
        == Tag(|ws1| + |q| + |ws2| + |ws3| + |o| + 24, Question(q, Options(o)));
  }

  /** `{question: "Q", options: [O]}`, with any white space between the parts: the match spans
      the whole tag and asks `Q` with the options read from `O`. */
  lemma QuestionTagMatch(s: string, p: nat, ws1: string, q: string, ws2: string, ws3: string, o: string)
    requires AllSpace(ws1) && q != [] && '"' !in q && AllSpace(ws2) && AllSpace(ws3)
    requires forall j :: 0 <= j < |o| ==> !IsLineTerminator(o[j])
    requires forall j :: 0 <= j < |o| - 1 ==> !(o[j] == ']' && o[j + 1] == '}')
    requires OccursAt(s, "{question:" + ws1 + "\"" + q + "\"," + ws2 + "options:" + ws3 + "[" + o + "]}", p)
    ensures WellFormed(RegexOf(QuestionKind))
    ensures MatchAt(RegexOf(QuestionKind), s, p)
         == Some(Tag(|ws1| + |q| + |ws2| + |ws3| + |o| + 24, Question(q, Options(o))))
  {
    OccursOneThenTen(s, p, "{question:", ws1, "\"", q, "\",", ws2, "options:", ws3, "[", o, "]}");
    QuestionAfterLiteral(s, p, ws1, q, ws2, ws3, o);
  }

  // ---------------------------------------------------------------------------------------------
  // A whole response

  /** A text that starts with `u` has `u` at index 0. */
  lemma OccursAtStart(u: string, rest: string)
    ensures OccursAt(u + rest, u, 0)
  {
    assert (u + rest)[0..|u|] == u;
  }

  /** The first `exec` of the section loop on a text that opens with a section tag finds that
      tag at index 0. */
  lemma SectionFirstMatch(c: string, ws: string, t: string)
    requires AllSpace(ws) && t != [] && '"' !in t
    requires OccursAt(c, "{section:" + ws + "\"" + t + "\"}", 0)
    ensures SearchFor(SectionKind)(c, 0) == Some(Found(0, Tag(|ws| + |t| + 12, Section(t))))
  {
    SectionTagMatch(c, 0, ws, t);
  }

  /** The section loop on a section tag followed by text without a `{`: the tag is deleted, its
      section recorded, and the search from the old end of the tag finds nothing more. */
  lemma SectionLoopOnTag(ws: string, t: string, rest: string)
    requires AllSpace(ws) && t != [] && '"' !in t && '{' !in rest
    ensures Scan(SearchFor(SectionKind), "{section:" + ws + "\"" + t + "\"}" + rest) == Scanned(rest, [Section(t)])
  {
    var exec := SearchFor(SectionKind);
    var u := "{section:" + ws + "\"" + t + "\"}";
    var c := u + rest;
    var f := Found(0, Tag(|ws| + |t| + 12, Section(t)));
    OccursAtStart(u, rest);
    SectionFirstMatch(c, ws, t);
    DeleteMatchItself(c, f);
    assert c[..0] + c[|u|..] == rest;
    RegexOfWellFormed(SectionKind);
    NoMatchAtBraces(SectionKind, rest, |u|);
    assert DeleteMatch(c, f) == rest && f.pos + f.tag.len == |u|;
    assert [] + [f.tag.action] == [Section(t)];
    calc {
      Scan(exec, c);
      ScanFrom(exec, c, Some(f), []);
      ScanFrom(exec, rest, exec(rest, |u|), [Section(t)]);
      Scanned(rest, [Section(t)]);
    }
  }

  /** `parseResponseForContent` on a section tag followed by text without a `{`: one section
      action with the tag's title, and the text, trimmed, as the speech. */
  lemma ParseSection(ws: string, t: string, rest: string)
    requires AllSpace(ws) && t != [] && '"' !in t && '{' !in rest
    ensures Parse("{section:" + ws + "\"" + t + "\"}" + rest) == Parsed(Trim(rest), [Section(t)])
  {
    SectionLoopOnTag(ws, t, rest);
    forall k ensures SearchFor(k)(rest, 0).None? {
      RegexOfWellFormed(k);
      NoMatchAtBraces(k, rest, 0);
    }
    ScanNothing(HighlightKind, rest);
    ScanNothing(QuestionKind, rest);
    ScanNothing(PageBreakKind, rest);
    ScanNothing(MermaidKind, rest);
    ScanNothing(ImageKind, rest);
  }
}

/** The tagged-block directive parser of the tutor's assistant (server/lib/assistant.js,
    `parseResponseForContent`). Six global regular expressions are run one after the other over a
    working copy of the completion text; every match becomes an action and its text is deleted
    with `String.prototype.replace`, which removes the FIRST occurrence of that text. The regex's
    `lastIndex` is not rewound after the deletion, so the next search starts as far right as the
    end of the match in the text before it shrank. The regular expressions are written as lists
    of steps for one small matcher, with `\s` the JavaScript white-space class and `.` anything
    but a line terminator. */
module DirectiveParser {
  import opened Wrappers
  import opened JsString
  import opened Actions

  // ---------------------------------------------------------------------------------------------
  // The regular expressions

  /** One element of a directive's regular expression. None of them needs backtracking: `\s*` is
      always followed by a literal that does not start with white space, and a `([^c]+)` group
      by a literal that starts with `c`, so the greedy choice is the only one that can succeed. */
  datatype Step =
    | Lit(text: string)          // the literal text itself
    | Spaces                     // `\s*`
    | Capture(stop: char)        // `([^c]+)`, with `c` the stop character
    | LazyCapture(close: string) // `(.*?)` followed by the literal `close`

  /** The steps of a regular expression, first to last. */
  datatype Steps = Done | Then(first: Step, rest: Steps)

  /** A regular expression, with the kind of action its matches become. */
  datatype Regex = Regex(kind: Kind, steps: Steps)

  /** Where one step matched ends, and the text it captured if it is a capture step. */
  datatype Stepped = Stepped(end: nat, group: Option<string>)

  /** The groups a match captured, first to last. */
  datatype Captures = NoCaptures | Captures(text: string, later: Captures)

  /** Where a successful match of some steps ends, and the groups it captured. */
  datatype Matched = Matched(end: nat, groups: Captures)

  /** How many groups were captured. */
  function Count(g: Captures): nat {
    match g
    case NoCaptures => 0
    case Captures(_, later) => 1 + Count(later)
  }

  /** The groups of some steps: the group of the first step, if any, then those of the rest. */
  function Prepend(group: Option<string>, later: Captures): (r: Captures)
    ensures Count(r) == Count(later) + (if group.Some? then 1 else 0)
  {
    match group
    case None => later
    case Some(t) => Captures(t, later)
  }

  /** The literal text each regular expression starts with. */
  function Prefix(k: Kind): (r: string)
    ensures 7 <= |r| && r[0] == '{'
  {
    match k
    case SectionKind => "{section:"
    case HighlightKind => "{highlight:"
    case QuestionKind => "{question:"
    case PageBreakKind => "{page_break}"
    case MermaidKind => "{mermaid:"
    case ImageKind => "{image:"
  }

  /** The six leading literals differ in their second character, so no two expressions can
      match at the same place. */
  lemma PrefixIdentifiesKind(k1: Kind, k2: Kind)
    ensures Prefix(k1)[1] == Prefix(k2)[1] <==> k1 == k2
  {
  }

  /** `\s*"([^"]+)"}`, the end of the section, highlight and image expressions. */
  const QuotedBody: Steps := Then(Spaces, Then(Lit("\""), Then(Capture('"'), Then(Lit("\"}"), Done))))

  /** `\s*options:\s*\[(.*?)\]}`, the end of the question expression. */
  const OptionsBody: Steps := Then(Spaces, Then(Lit("options:"), Then(Spaces, Then(Lit("["), Then(LazyCapture("]}"), Done)))))

  /** ``\s*```([^`]+)```}``, the end of the diagram expression. */
  const FenceBody: Steps := Then(Spaces, Then(Lit("```"), Then(Capture('`'), Then(Lit("```}"), Done))))

  /** The regular expression of each kind after its leading literal. */
  function Body(k: Kind): Steps {
    match k
    case SectionKind => QuotedBody
    case HighlightKind => QuotedBody
    case QuestionKind => Then(Spaces, Then(Lit("\""), Then(Capture('"'), Then(Lit("\","), OptionsBody))))
    case PageBreakKind => Done
    case MermaidKind => FenceBody
    case ImageKind => QuotedBody
  }

  /** `/{section:\s*"([^"]+)"}/g` and the five others. */
  function RegexOf(k: Kind): Regex {
    Regex(k, Then(Lit(Prefix(k)), Body(k)))
  }

  /** How many groups the expression of kind `k` captures. */
  function Arity(k: Kind): nat {
    if k == QuestionKind then 2 else if k == PageBreakKind then 0 else 1
  }

  /** How many groups some steps capture. */
  function CaptureCount(steps: Steps): nat {
    match steps
    case Done => 0
    case Then(step, rest) => (if step.Capture? || step.LazyCapture? then 1 else 0) + CaptureCount(rest)
  }

  /** An expression the loops can run: it starts with a non-empty literal, so every match is
      non-empty, and it captures the groups its kind's action is built from. */
  predicate WellFormed(re: Regex) {
    re.steps.Then? && re.steps.first.Lit? && re.steps.first.text != [] && CaptureCount(re.steps) == Arity(re.kind)
  }

  lemma RegexOfWellFormed(k: Kind)
    ensures WellFormed(RegexOf(k))
  {
    match k
    case SectionKind =>
    case HighlightKind =>
    case QuestionKind =>
    case PageBreakKind =>
    case MermaidKind =>
    case ImageKind =>
  }

  // ---------------------------------------------------------------------------------------------
  // Matching at one index

  /** The first index at or after `i` that holds `c`, if any. */
  function FindChar(s: string, c: char, i: nat): (r: Option<nat>)
    requires i <= |s|
    decreases |s| - i
    ensures r.Some? ==> i <= r.value < |s| && s[r.value] == c
    ensures r.Some? ==> forall q :: i <= q < r.value ==> s[q] != c
    ensures r.None? ==> forall q :: i <= q < |s| ==> s[q] != c
  {
    if i == |s| then None
    else if s[i] == c then Some(i)
    else FindChar(s, c, i + 1)
  }

  /** `.*?` followed by `t`, from `i` (lazy): the first index at or after `i` where `t` stands,
      provided no line terminator comes before it. */
  function LazyFind(s: string, t: string, i: nat): (r: Option<nat>)
    requires i <= |s|
    decreases |s| - i
    ensures r.Some? ==> i <= r.value && OccursAt(s, t, r.value)
    ensures r.Some? ==> forall q :: i <= q < r.value ==> !IsLineTerminator(s[q]) && !OccursAt(s, t, q)
  {
    if OccursAt(s, t, i) then Some(i)
    else if i == |s| || IsLineTerminator(s[i]) then None
    else LazyFind(s, t, i + 1)
  }

  /** One step matched at index `i`. */
  function StepAt(step: Step, s: string, i: nat): (r: Option<Stepped>)
    requires i <= |s|
    ensures r.Some? ==> i <= r.value.end <= |s|
    ensures r.Some? ==> (r.value.group.Some? <==> step.Capture? || step.LazyCapture?)
  {
    match step
    case Lit(t) => if OccursAt(s, t, i) then Some(Stepped(i + |t|, None)) else None
    case Spaces => Some(Stepped(SkipSpaces(s, i), None))
    case Capture(c) =>
      (match FindChar(s, c, i)
       case None => None
       case Some(j) => if j == i then None else Some(Stepped(j, Some(s[i..j]))))
    case LazyCapture(t) =>
      (match LazyFind(s, t, i)
       case None => None
       case Some(j) => Some(Stepped(j + |t|, Some(s[i..j]))))
  }

  /** Some steps matched one after the other from index `i`. */
  function Run(steps: Steps, s: string, i: nat): (r: Option<Matched>)
    requires i <= |s|
    ensures r.Some? ==> i <= r.value.end <= |s| && Count(r.value.groups) == CaptureCount(steps)
  {
    match steps
    case Done => Some(Matched(i, NoCaptures))
    case Then(step, rest) =>
      match StepAt(step, s, i)
      case None => None
      case Some(m) =>
        (match Run(rest, s, m.end)
         case None => None
         case Some(n) => Some(Matched(n.end, Prepend(m.group, n.groups))))
  }

  /** One option as the server cleans it: trimmed, then `.replace(/^"|"$/g, '')`, which drops a
      leading `"` and a trailing `"` (a lone `"` is dropped once). */
  function StripQuotes(t: string): (r: string)
    ensures (t == [] || (t[0] != '"' && t[|t| - 1] != '"')) <==> r == t
    ensures forall i :: 0 <= i < |r| ==> r[i] in t
  {
    var a := if |t| > 0 && t[0] == '"' then 1 else 0;
    var b := if |t| > a && t[|t| - 1] == '"' then |t| - 1 else |t|;
    t[a..b]
  }

  /** Cleaning a part that holds no comma gives an option that holds none. */
  lemma OptionsCommaFree(parts: seq<string>)
    requires forall i :: 0 <= i < |parts| ==> ',' !in parts[i]
    ensures forall i :: 0 <= i < |parts| ==> ',' !in StripQuotes(Trim(parts[i]))
  {
    forall i | 0 <= i < |parts| ensures ',' !in StripQuotes(Trim(parts[i])) {
      var p := parts[i];
      TrimPosition(p);
      var k := |p| - |TrimStart(p)|;
      assert forall j :: 0 <= j < |Trim(p)| ==> Trim(p)[j] == p[k + j];
    }
  }

  /** `match[2].split(',').map(opt => opt.trim().replace(/^"|"$/g, ''))`. */
  function Options(group: string): (r: seq<string>)
    ensures |r| == |Split(group, ',')|
    ensures forall i :: 0 <= i < |r| ==> ',' !in r[i]
  {
    var parts := Split(group, ',');
    OptionsCommaFree(parts);
    seq(|parts|, i requires 0 <= i < |parts| => StripQuotes(Trim(parts[i])))
  }

  /** The action a loop builds from its match's groups. */
  function ActionOf(k: Kind, groups: Captures): Action
    requires Count(groups) == Arity(k)
  {
    match k
    case SectionKind => Section(groups.text)
    case HighlightKind => Highlight(groups.text)
    case QuestionKind =>
      assert Count(groups.later) == 1;
      Question(groups.text, Options(groups.later.text))
    case PageBreakKind => PageBreak
    case MermaidKind => Mermaid(groups.text)
    case ImageKind => Image(groups.text)
  }

  lemma ActionOfKind(k: Kind, groups: Captures)
    requires Count(groups) == Arity(k)
    ensures KindOf(ActionOf(k, groups)) == k
  {
    match k
    case SectionKind =>
    case HighlightKind =>
    case QuestionKind =>
    case PageBreakKind =>
    case MermaidKind =>
    case ImageKind =>
  }

  /** A match found at some index: how many characters it spans and the action its groups give. */
  datatype Tag = Tag(len: nat, action: Action)

  /** The expression `re` matched at index `p` of `s`: a match starts with the expression's
      leading literal, lies within `s` and gives an action of the expression's kind. */
  function MatchAt(re: Regex, s: string, p: nat): (r: Option<Tag>)
    requires WellFormed(re) && p <= |s|
    ensures r.Some? ==> OccursAt(s, re.steps.first.text, p) && |re.steps.first.text| <= r.value.len && p + r.value.len <= |s|
    ensures r.Some? ==> KindOf(r.value.action) == re.kind
  {
    match Run(re.steps, s, p)
    case None => None
    case Some(m) =>
      ActionOfKind(re.kind, m.groups);
      Some(Tag(m.end - p, ActionOf(re.kind, m.groups)))
  }

  // ---------------------------------------------------------------------------------------------
  // Searching and deleting

  /** A successful `exec`: the index of the match and the match. */
  datatype Found = Found(pos: nat, tag: Tag)

  /** `regex.exec(s)` with `regex.lastIndex == from`: the leftmost match starting at or after
      `from`; none when `from` is past the end. */
  function Exec(re: Regex, s: string, from: nat): (r: Option<Found>)
    requires WellFormed(re)
    decreases |s| - from
    ensures r.Some? ==> from <= r.value.pos && 0 < r.value.tag.len && r.value.pos + r.value.tag.len <= |s|
    ensures r.Some? ==> MatchAt(re, s, r.value.pos) == Some(r.value.tag)
    ensures r.Some? ==> forall q :: from <= q < r.value.pos ==> MatchAt(re, s, q).None?
    ensures r.None? ==> forall q :: from <= q <= |s| ==> MatchAt(re, s, q).None?
  {
    if from > |s| then None
    else match MatchAt(re, s, from)
      case Some(t) => Some(Found(from, t))
      case None => if from == |s| then None else Exec(re, s, from + 1)
  }

  /** The text a match spans. */
  function MatchedText(s: string, f: Found): string
    requires f.pos + f.tag.len <= |s|
  {
    s[f.pos..f.pos + f.tag.len]
  }

  /** `modifiedContent.replace(match[0], '')`: the first occurrence of the matched text is
      deleted, which is not always the match itself. */
  function DeleteMatch(s: string, f: Found): (r: string)
    requires 0 < f.tag.len && f.pos + f.tag.len <= |s|
    ensures |r| == |s| - f.tag.len
  {
    var t := MatchedText(s, f);
    assert OccursAt(s, t, f.pos);
    RemoveFirst(s, t, IndexOf(s, t).value);
    Replace(s, t, "")
  }


  /** `replace` deletes the first occurrence of the matched text: it starts at or before the
      match, the text does not occur earlier, and everything around it is kept. */
  lemma DeleteMatchRemovesFirst(s: string, f: Found)
    requires 0 < f.tag.len && f.pos + f.tag.len <= |s|
    ensures IndexOf(s, MatchedText(s, f)).Some?
    ensures var i := IndexOf(s, MatchedText(s, f)).value;
      i <= f.pos && DeleteMatch(s, f) == s[..i] + s[i + f.tag.len..]
  {
    var t := MatchedText(s, f);
    assert OccursAt(s, t, f.pos);
    RemoveFirst(s, t, IndexOf(s, t).value);
  }

  /** When the matched text does not occur before the match, the match itself is deleted. */
  lemma DeleteMatchItself(s: string, f: Found)
    requires 0 < f.tag.len && f.pos + f.tag.len <= |s|
    requires forall j :: 0 <= j < f.pos ==> !OccursAt(s, MatchedText(s, f), j)
    ensures DeleteMatch(s, f) == s[..f.pos] + s[f.pos + f.tag.len..]
  {
    DeleteMatchRemovesFirst(s, f);
  }

  // ---------------------------------------------------------------------------------------------
  // The extraction loops

  /** `regex.exec` of one of the six expressions, as a function of the text and `lastIndex`. */
  type Search = (string, nat) -> Option<Found>

  /** A match `exec` may return on `s`: non-empty and within `s`. */
  predicate Fits(r: Option<Found>, s: string) {
    r.Some? ==> 0 < r.value.tag.len && r.value.pos + r.value.tag.len <= |s|
  }

  /** Every match `exec` returns fits the text it searched. */
  ghost predicate Searches(exec: Search) {
    forall s, i :: Fits(exec(s, i), s)
  }

  /** Every match `exec` returns gives an action of kind `k`. */
  ghost predicate YieldsKind(exec: Search, k: Kind) {
    forall s, i :: exec(s, i).Some? ==> KindOf(exec(s, i).value.tag.action) == k
  }

  /** `exec` of the expression of kind `k`. */
  function SearchFor(k: Kind): (exec: Search)
    ensures WellFormed(RegexOf(k))
    ensures forall s, i :: exec(s, i) == Exec(RegexOf(k), s, i)
    ensures Searches(exec) && YieldsKind(exec, k)
  {
    RegexOfWellFormed(k);
    (s: string, i: nat) => Exec(RegexOf(k), s, i)
  }

  /** What is left of the text after the matches were deleted, and the actions, in order. */
  datatype Scanned = Scanned(rest: string, actions: seq<Action>)

  /** What one extraction loop does once `exec` returned `e` on `s`, after collecting `acc`:
      the match is deleted (its first occurrence), its action recorded, and the search goes on
      from the end of the match as it stood before the deletion. */
  function ScanFrom(exec: Search, s: string, e: Option<Found>, acc: seq<Action>): Scanned
    requires Searches(exec) && Fits(e, s)
    decreases |s|
  {
    match e
    case None => Scanned(s, acc)
    case Some(f) =>
      var t := DeleteMatch(s, f);
      ScanFrom(exec, t, exec(t, f.pos + f.tag.len), acc + [f.tag.action])
  }

  /** One extraction loop over `s`, starting with `lastIndex == 0`. */
  function Scan(exec: Search, s: string): Scanned
    requires Searches(exec)
  {
    ScanFrom(exec, s, exec(s, 0), [])
  }

  /** One turn of an extraction loop: push the action, delete the match, search again from
      `lastIndex`, which is the end of the match in the text before the deletion. */
  method ExtractOne(exec: Search, s: string, e: Option<Found>, acc: seq<Action>)
      returns (t: string, e': Option<Found>, acc': seq<Action>)
    requires Searches(exec) && Fits(e, s) && e.Some?
    ensures Fits(e', t) && |t| < |s|
    ensures ScanFrom(exec, t, e', acc') == ScanFrom(exec, s, e, acc)
  {
    var f := e.value;
    acc' := acc + [f.tag.action];
    t := DeleteMatch(s, f);
    var lastIndex := f.pos + f.tag.len;
    e' := exec(t, lastIndex);
  }

  /** `while ((match = regex.exec(modifiedContent)) !== null) { … }`. */
  method Extract(exec: Search, content: string) returns (modified: string, actions: seq<Action>)
    requires Searches(exec)
    ensures Scanned(modified, actions) == Scan(exec, content)
  {
    modified, actions := content, [];
    var m := exec(modified, 0);
    while m.Some?
      invariant Fits(m, modified)
      invariant ScanFrom(exec, modified, m, actions) == Scan(exec, content)
      decreases |modified|
    {
      modified, m, actions := ExtractOne(exec, modified, m, actions);
    }
  }

  /** The value `parseResponseForContent` returns. */
  datatype Parsed = Parsed(speech: string, actions: seq<Action>)

  /** `parseResponseForContent(content)`: the six loops in their fixed order, each on what the
      previous one left, then the trimmed remainder as the speech. */
  function Parse(content: string): (r: Parsed)
    ensures r.speech == [] || (!IsSpace(r.speech[0]) && !IsSpace(r.speech[|r.speech| - 1]))
  {
    var sections := Scan(SearchFor(SectionKind), content);
    var highlights := Scan(SearchFor(HighlightKind), sections.rest);
    var questions := Scan(SearchFor(QuestionKind), highlights.rest);
    var pageBreaks := Scan(SearchFor(PageBreakKind), questions.rest);
    var diagrams := Scan(SearchFor(MermaidKind), pageBreaks.rest);
    var images := Scan(SearchFor(ImageKind), diagrams.rest);
    Parsed(Trim(images.rest),
      sections.actions + highlights.actions + questions.actions + pageBreaks.actions + diagrams.actions + images.actions)
  }

  /** `parseResponseForContent`. */
  method ParseResponseForContent(content: string) returns (r: Parsed)
    ensures r == Parse(content)
  {
    var modified := content;
    var sections, highlights, questions, pageBreaks, diagrams, images;
    modified, sections := Extract(SearchFor(SectionKind), modified);
    modified, highlights := Extract(SearchFor(HighlightKind), modified);
    modified, questions := Extract(SearchFor(QuestionKind), modified);
    modified, pageBreaks := Extract(SearchFor(PageBreakKind), modified);
    modified, diagrams := Extract(SearchFor(MermaidKind), modified);
    modified, images := Extract(SearchFor(ImageKind), modified);
    r := Parsed(Trim(modified), sections + highlights + questions + pageBreaks + diagrams + images);
  }
}

/** The content actions the tutor's completion text carries (server/lib/assistant.js) and the
    learning dashboard consumes (web/src/components/LearningDashboard.jsx, ContentDisplay.jsx). */
module Actions {
  import opened Wrappers

  /** One content action; its field names follow the objects the server pushes. */
  datatype Action =
    | Section(title: string)
    | Highlight(content: string)
    | Question(content: string, options: seq<string>)
    | PageBreak
    | Mermaid(diagram: string)
    | Image(url: string)

  /** The `type` discriminator of an action. */
  datatype Kind = SectionKind | HighlightKind | QuestionKind | PageBreakKind | MermaidKind | ImageKind

  function KindOf(a: Action): Kind {
    match a
    case Section(_) => SectionKind
    case Highlight(_) => HighlightKind
    case Question(_, _) => QuestionKind
    case PageBreak => PageBreakKind
    case Mermaid(_) => MermaidKind
    case Image(_) => ImageKind
  }

  /** The position of a kind in the parser's extraction order. */
  function Rank(k: Kind): nat {
    match k
    case SectionKind => 0
    case HighlightKind => 1
    case QuestionKind => 2
    case PageBreakKind => 3
    case MermaidKind => 4
    case ImageKind => 5
  }

  /** Every action of `acts` is of kind `k`. */
  predicate AllOfKind(acts: seq<Action>, k: Kind) {
    forall i :: 0 <= i < |acts| ==> KindOf(acts[i]) == k
  }

  /** Every action of `acts` comes no later than kind `k` in the extraction order. */
  predicate RanksAtMost(acts: seq<Action>, k: Kind) {
    forall i :: 0 <= i < |acts| ==> Rank(KindOf(acts[i])) <= Rank(k)
  }

  /** The actions are grouped by kind, the kinds in extraction order. */
  predicate KindMajor(acts: seq<Action>) {
    forall i, j :: 0 <= i < j < |acts| ==> Rank(KindOf(acts[i])) <= Rank(KindOf(acts[j]))
  }

  /** Appending a block of kind `k` to kind-major actions that come no later than `k` keeps
      them kind-major. */
  lemma AppendKindMajor(a: seq<Action>, b: seq<Action>, k: Kind)
    requires KindMajor(a) && RanksAtMost(a, k) && AllOfKind(b, k)
    ensures KindMajor(a + b) && RanksAtMost(a + b, k)
  {
    forall i, j | 0 <= i < j < |a + b|
      ensures Rank(KindOf((a + b)[i])) <= Rank(KindOf((a + b)[j]))
    {
      if j >= |a| {
        assert KindOf((a + b)[j]) == k;
      }
    }
  }

  /** `acts.filter(a => a.type === 'section').map(a => a.title)`. */
  function SectionTitles(acts: seq<Action>): seq<string> {
    if acts == [] then []
    else (if acts[0].Section? then [acts[0].title] else []) + SectionTitles(acts[1..])
  }

  /** `acts.filter(a => a.type === 'page_break').length`. */
  function CountPageBreaks(acts: seq<Action>): nat {
    if acts == [] then 0
    else (if acts[0].PageBreak? then 1 else 0) + CountPageBreaks(acts[1..])
  }

  /** `acts.filter(a => a.type === kind)[0]`, if there is one. */
  function FirstOfKind(acts: seq<Action>, k: Kind): (r: Option<Action>)
    ensures r.Some? ==> KindOf(r.value) == k
  {
    if acts == [] then None
    else if KindOf(acts[0]) == k then Some(acts[0])
    else FirstOfKind(acts[1..], k)
  }

  /** `FirstOfKind` finds the earliest action of the kind, and finds none only when there is
      none. */
  lemma {:induction false} FirstOfKindIsFirst(acts: seq<Action>, k: Kind)
    ensures FirstOfKind(acts, k).None? <==> forall i :: 0 <= i < |acts| ==> KindOf(acts[i]) != k
    ensures FirstOfKind(acts, k).Some? ==>
      exists i :: 0 <= i < |acts| && acts[i] == FirstOfKind(acts, k).value && KindOf(acts[i]) == k
        && forall j :: 0 <= j < i ==> KindOf(acts[j]) != k
  {
    if acts != [] && KindOf(acts[0]) != k {
      FirstOfKindIsFirst(acts[1..], k);
      if FirstOfKind(acts, k).Some? {
        var i :| 0 <= i < |acts[1..]| && acts[1..][i] == FirstOfKind(acts, k).value && KindOf(acts[1..][i]) == k
          && forall j :: 0 <= j < i ==> KindOf(acts[1..][j]) != k;
        assert acts[i + 1] == acts[1..][i];
        assert forall j :: 1 <= j < i + 1 ==> KindOf(acts[j]) == KindOf(acts[1..][j - 1]);
      } else {
        assert forall i :: 1 <= i < |acts| ==> acts[i] == acts[1..][i - 1];
      }
    }
  }

  lemma {:induction false} SectionTitlesAppend(a: seq<Action>, b: seq<Action>)
    ensures SectionTitles(a + b) == SectionTitles(a) + SectionTitles(b)
  {
    if a != [] {
      assert (a + b)[1..] == a[1..] + b;
      SectionTitlesAppend(a[1..], b);
      assert (a + b)[0] == a[0];
    } else {
      assert a + b == b;
    }
  }

  lemma {:induction false} CountPageBreaksAppend(a: seq<Action>, b: seq<Action>)
    ensures CountPageBreaks(a + b) == CountPageBreaks(a) + CountPageBreaks(b)
  {
    if a != [] {
      assert (a + b)[1..] == a[1..] + b;
      CountPageBreaksAppend(a[1..], b);
      assert (a + b)[0] == a[0];
    } else {
      assert a + b == b;
    }
  }
}

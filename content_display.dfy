/** The content pane of the client (web/src/components/ContentDisplay.jsx): the grouping of the
    current page's actions under their section titles, and the escaping of the highlighted text
    before it becomes a regular expression. */
module ContentDisplay {
  import opened Actions

  // ---------------------------------------------------------------------------------------------
  // Grouping by sections

  /** One titled group of the content pane. */
  datatype Group = Group(title: string, items: seq<Action>)

  const IntroductionTitle: string := "Introduction"

  /** The groups closed so far and the group being filled. */
  datatype Grouping = Grouping(groups: seq<Group>, current: Group)

  /** One item of the `forEach`: a section closes the current group, if it has items, and opens
      an empty one under its title; a highlight is skipped; anything else joins the current
      group. */
  function Feed(g: Grouping, item: Action): Grouping {
    if item.Section? then
      Grouping(if |g.current.items| > 0 then g.groups + [g.current] else g.groups, Group(item.title, []))
    else if item.Highlight? then g
    else g.(current := g.current.(items := g.current.items + [item]))
  }

  /** The grouping after the first `|s|` items. */
  function Scan(s: seq<Action>): Grouping {
    if s == [] then Grouping([], Group(IntroductionTitle, []))
    else Feed(Scan(s[..|s| - 1]), s[|s| - 1])
  }

  /** `groupContentBySections()` on `content`. */
  function Grouped(content: seq<Action>): seq<Group> {
    if content == [] then []
    else
      var g := Scan(content);
      if |g.current.items| > 0 then g.groups + [g.current] else g.groups
  }

  /** The items the pane shows: every action that is neither a section nor a highlight. */
  function Shown(s: seq<Action>): seq<Action> {
    if s == [] then []
    else
      var last := s[|s| - 1];
      Shown(s[..|s| - 1]) + if last.Section? || last.Highlight? then [] else [last]
  }

  /** The items of the groups, one group after the other. */
  function Flatten(gs: seq<Group>): seq<Action> {
    if gs == [] then [] else Flatten(gs[..|gs| - 1]) + gs[|gs| - 1].items
  }

  /** A title a group may carry: the first group's, or that of a section of `s`. */
  predicate TitleFrom(s: seq<Action>, title: string) {
    title == IntroductionTitle || exists i :: 0 <= i < |s| && s[i] == Section(title)
  }

  /** What every grouping of a prefix satisfies: closed groups are non-empty, every title comes
      from the content, and the closed items followed by the current ones are the shown items. */
  predicate ScanInvariant(s: seq<Action>, g: Grouping) {
    (forall i :: 0 <= i < |g.groups| ==> |g.groups[i].items| > 0 && TitleFrom(s, g.groups[i].title))
    && TitleFrom(s, g.current.title)
    && Flatten(g.groups) + g.current.items == Shown(s)
  }

  /** A title from a prefix is a title from the whole. */
  lemma TitlesExtend(s: seq<Action>, n: nat)
    requires n <= |s|
    ensures forall title :: TitleFrom(s[..n], title) ==> TitleFrom(s, title)
  {
    forall title | TitleFrom(s[..n], title) ensures TitleFrom(s, title) {
      if title != IntroductionTitle {
        var i :| 0 <= i < n && s[..n][i] == Section(title);
        assert s[i] == s[..n][i];
      }
    }
  }

  /** Closing a group appends its items to the flattened ones. */
  lemma FlattenPush(gs: seq<Group>, g: Group)
    ensures Flatten(gs + [g]) == Flatten(gs) + g.items
  {
    assert (gs + [g])[..|gs|] == gs;
  }

  lemma {:induction false} ScanKeepsInvariant(s: seq<Action>)
    ensures ScanInvariant(s, Scan(s))
  {
    if s != [] {
      var n := |s| - 1;
      var t := s[..n];
      var g := Scan(t);
      ScanKeepsInvariant(t);
      TitlesExtend(s, n);
      assert Scan(s) == Feed(g, s[n]);
      if s[n].Section? {
        assert s[n] == Section(s[n].title);
        FlattenPush(g.groups, g.current);
      }
    }
  }

  /** `groupContentBySections` never returns an empty group, so a section with nothing after it
      (before the next section) is dropped. */
  lemma NoEmptyGroup(content: seq<Action>)
    ensures forall i :: 0 <= i < |Grouped(content)| ==> |Grouped(content)[i].items| > 0
  {
    ScanKeepsInvariant(content);
  }

  /** The group items, concatenated, are the content without its sections and highlights, in
      order. */
  lemma {:induction false} GroupsKeepOrder(content: seq<Action>)
    ensures Flatten(Grouped(content)) == Shown(content)
  {
    ScanKeepsInvariant(content);
    if content != [] {
      var g := Scan(content);
      if |g.current.items| > 0 {
        assert (g.groups + [g.current])[..|g.groups|] == g.groups;
      } else {
        assert Flatten(g.groups) + [] == Flatten(g.groups);
      }
    }
  }

  /** Every group is titled `Introduction` or after a section of the content. */
  lemma GroupTitles(content: seq<Action>)
    ensures forall i :: 0 <= i < |Grouped(content)| ==> TitleFrom(content, Grouped(content)[i].title)
  {
    ScanKeepsInvariant(content);
  }

  /** Without sections, the shown items form one `Introduction` group, or none at all. */
  lemma {:induction false} NoSectionsOneGroup(content: seq<Action>)
    requires forall i :: 0 <= i < |content| ==> !content[i].Section?
    ensures Shown(content) == [] ==> Grouped(content) == []
    ensures Shown(content) != [] ==> Grouped(content) == [Group(IntroductionTitle, Shown(content))]
  {
    NoSectionsScan(content);
  }

  lemma {:induction false} NoSectionsScan(s: seq<Action>)
    requires forall i :: 0 <= i < |s| ==> !s[i].Section?
    ensures Scan(s) == Grouping([], Group(IntroductionTitle, Shown(s)))
  {
    if s != [] {
      NoSectionsScan(s[..|s| - 1]);
    }
  }

  /** Items that are not sections only add their shown items to the current group. */
  lemma {:induction false} ScanWithoutSections(a: seq<Action>, b: seq<Action>)
    requires forall i :: 0 <= i < |b| ==> !b[i].Section?
    ensures Scan(a + b) == Scan(a).(current := Scan(a).current.(items := Scan(a).current.items + Shown(b)))
  {
    if b == [] {
      assert a + b == a;
    } else {
      var n := |b| - 1;
      ScanWithoutSections(a, b[..n]);
      assert (a + b)[..|a + b| - 1] == a + b[..n];
      assert (a + b)[|a + b| - 1] == b[n];
    }
  }

  /** A section followed by items that are not sections: the groups of what comes before, then
      a group under the section's title holding the shown items after it; with no shown items
      after it the section is dropped. */
  lemma SectionOpensGroup(c: seq<Action>, t: string, b: seq<Action>)
    requires forall i :: 0 <= i < |b| ==> !b[i].Section?
    ensures Shown(b) != [] ==> Grouped(c + [Section(t)] + b) == Grouped(c) + [Group(t, Shown(b))]
    ensures Shown(b) == [] ==> Grouped(c + [Section(t)] + b) == Grouped(c)
  {
    var a := c + [Section(t)];
    assert a[..|a| - 1] == c && a[|a| - 1] == Section(t);
    assert Scan(a) == Grouping(Grouped(c), Group(t, []));
    ScanWithoutSections(a, b);
    assert Scan(a + b) == Grouping(Grouped(c), Group(t, Shown(b)));
    assert c + [Section(t)] + b == a + b != [];
  }

  /** `groupContentBySections`: the `forEach` over `content`, filling `currentGroup` and pushing
      it onto `groups` as sections close it. */
  method GroupContentBySections(content: seq<Action>) returns (groups: seq<Group>)
    ensures groups == Grouped(content)
  {
    if |content| == 0 {
      return [];
    }
    groups := [];
    var currentGroup := Group(IntroductionTitle, []);
    var i := 0;
    while i < |content|
      invariant 0 <= i <= |content|
      invariant Grouping(groups, currentGroup) == Scan(content[..i])
    {
      assert content[..i + 1][..i] == content[..i];
      var item := content[i];
      if item.Section? {
        if |currentGroup.items| > 0 {
          groups := groups + [currentGroup];
        }
        currentGroup := Group(item.title, []);
      } else if !item.Highlight? {
        currentGroup := currentGroup.(items := currentGroup.items + [item]);
      }
      i := i + 1;
    }
    assert content[..i] == content;
    if |currentGroup.items| > 0 {
      groups := groups + [currentGroup];
    }
  }

  // ---------------------------------------------------------------------------------------------
  // The highlight pattern

  /** A character of the class `[.*+?^${}()|[\]\\]`. */
  predicate IsMeta(c: char) {
    c in {'.', '*', '+', '?', '^', '$', '{', '}', '(', ')', '|', '[', ']', '\\'}
  }

  /** `text.replace(/[.*+?^${}()|[\]\\]/g, '\\$&')`: a backslash before every such character. */
  function EscapePattern(s: string): (r: string)
    ensures |r| >= |s|
  {
    if s == [] then []
    else (if IsMeta(s[0]) then ['\\', s[0]] else [s[0]]) + EscapePattern(s[1..])
  }

  /** A pattern that matches its text literally: every special character is escaped by a
      backslash, and no other character is. */
  predicate Literal(t: string)
    decreases |t|
  {
    t == []
    || (|t| >= 2 && t[0] == '\\' && IsMeta(t[1]) && Literal(t[2..]))
    || (!IsMeta(t[0]) && Literal(t[1..]))
  }

  /** The text a literal pattern stands for: each escape gives its character. */
  function Unescape(t: string): string
    decreases |t|
  {
    if t == [] then []
    else if |t| >= 2 && t[0] == '\\' then [t[1]] + Unescape(t[2..])
    else [t[0]] + Unescape(t[1..])
  }

  /** The escaped text is a literal pattern, and it stands for the text itself: the highlight
      regular expression matches the highlight's characters and nothing else, whatever they
      are. */
  lemma {:induction false} EscapeRoundTrip(s: string)
    ensures Literal(EscapePattern(s))
    ensures Unescape(EscapePattern(s)) == s
  {
    if s != [] {
      EscapeRoundTrip(s[1..]);
      var r := EscapePattern(s);
      var rest := EscapePattern(s[1..]);
      if IsMeta(s[0]) {
        assert r == ['\\', s[0]] + rest;
        assert r[2..] == rest;
      } else {
        assert r == [s[0]] + rest;
        assert r[1..] == rest;
        assert s[0] != '\\';
      }
    }
  }

  /** Characters outside the class pass through unchanged. */
  lemma {:induction false} EscapePlain(s: string)
    requires forall i :: 0 <= i < |s| ==> !IsMeta(s[i])
    ensures EscapePattern(s) == s
  {
    if s != [] {
      EscapePlain(s[1..]);
    }
  }
}

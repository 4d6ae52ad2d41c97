/** The JavaScript string primitives the modelled code relies on: the `\s` character class and
    `String.prototype.trim`, `indexOf`/`includes`, `startsWith`, `replace` with a string pattern
    (which replaces the first occurrence only and expands `$` patterns in the replacement),
    `split` on one character, and ASCII lower-casing. */
module JsString {
  import opened Wrappers

  /** WhiteSpace or LineTerminator (ECMA-262 sections 12.2 and 12.3): what `\s` matches and
      what `trim` removes. */
  predicate IsSpace(c: char) {
    c in SpaceChars || '\U{2000}' <= c <= '\U{200A}'
  }

  const SpaceChars: set<char> := {
    '\t', '\n', '\U{B}', '\U{C}', '\r', ' ', '\U{A0}', '\U{1680}',
    '\U{2028}', '\U{2029}', '\U{202F}', '\U{205F}', '\U{3000}', '\U{FEFF}'
  }

  /** The characters a regular-expression `.` does not match (no `s` flag). */
  predicate IsLineTerminator(c: char) {
    c == '\n' || c == '\r' || c == '\U{2028}' || c == '\U{2029}'
  }

  lemma LineTerminatorIsSpace(c: char)
    requires IsLineTerminator(c)
    ensures IsSpace(c)
  {
  }

  predicate AllSpace(s: string) {
    forall i :: 0 <= i < |s| ==> IsSpace(s[i])
  }

  /** The first index at or after `i` that does not hold white space (what `\s*` or `\s+` spans). */
  function SkipSpaces(s: string, i: nat): (j: nat)
    requires i <= |s|
    decreases |s| - i
    ensures i <= j <= |s| && (j == |s| || !IsSpace(s[j]))
    ensures forall q :: i <= q < j ==> IsSpace(s[q])
  {
    if i == |s| || !IsSpace(s[i]) then i else SkipSpaces(s, i + 1)
  }

  /** `String.prototype.trimStart`. */
  function TrimStart(s: string): (r: string)
    ensures |r| <= |s| && r == s[|s| - |r|..]
    ensures r == [] || !IsSpace(r[0])
  {
    if s == [] || !IsSpace(s[0]) then s else TrimStart(s[1..])
  }

  /** What `trimStart` removes is white space. */
  lemma {:induction false} TrimStartRemovesSpace(s: string)
    ensures forall i :: 0 <= i < |s| - |TrimStart(s)| ==> IsSpace(s[i])
  {
    if s != [] && IsSpace(s[0]) {
      TrimStartRemovesSpace(s[1..]);
      forall i | 1 <= i < |s| - |TrimStart(s)| ensures IsSpace(s[i]) { assert s[i] == s[1..][i - 1]; }
    }
  }

  /** `String.prototype.trimEnd`. */
  function TrimEnd(s: string): (r: string)
    ensures |r| <= |s| && r == s[..|r|]
    ensures r == [] || !IsSpace(r[|r| - 1])
  {
    if s == [] || !IsSpace(s[|s| - 1]) then s else TrimEnd(s[..|s| - 1])
  }

  /** What `trimEnd` removes is white space. */
  lemma {:induction false} TrimEndRemovesSpace(s: string)
    ensures forall i :: |TrimEnd(s)| <= i < |s| ==> IsSpace(s[i])
  {
    if s != [] && IsSpace(s[|s| - 1]) {
      var n := |s| - 1;
      TrimEndRemovesSpace(s[..n]);
      forall i | |TrimEnd(s)| <= i < n ensures IsSpace(s[i]) { assert s[i] == s[..n][i]; }
    }
  }

  /** `String.prototype.trim`: the middle part of `s` that neither starts nor ends with white
      space. */
  function Trim(s: string): (r: string)
    ensures |r| <= |s|
    ensures r == [] || (!IsSpace(r[0]) && !IsSpace(r[|r| - 1]))
  {
    TrimEndKeepsFirst(TrimStart(s));
    TrimEnd(TrimStart(s))
  }

  /** Where the trimmed text sits in `s`. */
  lemma TrimPosition(s: string)
    ensures var k := |s| - |TrimStart(s)|; var r := Trim(s);
      k + |r| <= |s| && s[k..k + |r|] == r
  {
    var a := TrimStart(s);
    var r := TrimEnd(a);
    var k := |s| - |a|;
    assert a[..|r|] == s[k..k + |r|];
  }

  /** Everything around the trimmed text is white space. */
  lemma TrimRemovesSpace(s: string)
    ensures var k := |s| - |TrimStart(s)|; var r := Trim(s);
      k + |r| <= |s| && (forall i :: 0 <= i < k ==> IsSpace(s[i])) && (forall i :: k + |r| <= i < |s| ==> IsSpace(s[i]))
  {
    var a := TrimStart(s);
    var r := TrimEnd(a);
    var k := |s| - |a|;
    TrimStartRemovesSpace(s);
    TrimEndRemovesSpace(a);
    forall i | k + |r| <= i < |s| ensures IsSpace(s[i]) { assert s[i] == a[i - k]; }
  }

  /** `trimEnd` keeps the first character of a text that has one left after it. */
  lemma TrimEndKeepsFirst(a: string)
    requires a == [] || !IsSpace(a[0])
    ensures TrimEnd(a) == [] || !IsSpace(TrimEnd(a)[0])
  {
    var r := TrimEnd(a);
    if r != [] { assert r[0] == a[0]; }
  }

  /** `s.trim()` is empty exactly when `s` is all white space. */
  lemma TrimEmpty(s: string)
    ensures Trim(s) == [] <==> AllSpace(s)
  {
    TrimRemovesSpace(s);
    TrimPosition(s);
  }

  lemma SubSlices(s: string, k: nat, n: nat)
    requires k + n <= |s|
    ensures s[k..][..n] == s[k..k + n]
    ensures s[k..][n..] == s[k + n..]
  {
  }

  /** Trimming a string with no white space at either end leaves it unchanged. */
  lemma TrimOfTrimmed(s: string)
    requires s == [] || (!IsSpace(s[0]) && !IsSpace(s[|s| - 1]))
    ensures Trim(s) == s
  {
  }

  /** Text `t` occurs in `s` starting at index `i`. */
  predicate OccursAt(s: string, t: string, i: nat) {
    i + |t| <= |s| && s[i..i + |t|] == t
  }

  function FindFrom(s: string, t: string, from: nat): (r: Option<nat>)
    requires from <= |s|
    decreases |s| - from
    ensures r.Some? ==> from <= r.value <= |s| && OccursAt(s, t, r.value)
    ensures r.Some? ==> forall j :: from <= j < r.value ==> !OccursAt(s, t, j)
    ensures r.None? ==> forall j :: from <= j <= |s| ==> !OccursAt(s, t, j)
  {
    if OccursAt(s, t, from) then Some(from)
    else if from == |s| then None
    else FindFrom(s, t, from + 1)
  }

  /** `s.indexOf(t)`: the first index at which `t` occurs, if any. */
  function IndexOf(s: string, t: string): (r: Option<nat>)
    ensures r.Some? ==> OccursAt(s, t, r.value) && forall j :: 0 <= j < r.value ==> !OccursAt(s, t, j)
    ensures r.None? ==> forall j :: 0 <= j <= |s| ==> !OccursAt(s, t, j)
  {
    FindFrom(s, t, 0)
  }

  /** An occurrence with none before it is the one `indexOf` finds. */
  lemma IndexOfFirst(s: string, t: string, k: nat)
    requires OccursAt(s, t, k) && forall j :: 0 <= j < k ==> !OccursAt(s, t, j)
    ensures IndexOf(s, t) == Some(k)
  {
  }

  /** A one-character text occurs exactly where that character stands. */
  lemma OccursAtChar(s: string, c: char, j: nat)
    ensures OccursAt(s, [c], j) <==> j < |s| && s[j] == c
  {
    if j < |s| { assert s[j..j + 1] == [s[j]]; }
  }

  /** `s.includes(t)`. */
  predicate Includes(s: string, t: string) {
    IndexOf(s, t).Some?
  }

  /** `s.startsWith(t)`. */
  predicate StartsWith(s: string, t: string) {
    OccursAt(s, t, 0)
  }

  /** The replacement text of `replace` (GetSubstitution, ECMA-262 section 22.1.3.19.1) for a
      string pattern: `$$`, `$&`, `` $` `` and `$'` are expanded; every other `$` is literal. */
  function Substitution(rep: string, matched: string, before: string, after: string): string
    decreases |rep|
  {
    if rep == [] then []
    else if rep[0] == '$' && |rep| >= 2 && rep[1] == '$' then "$" + Substitution(rep[2..], matched, before, after)
    else if rep[0] == '$' && |rep| >= 2 && rep[1] == '&' then matched + Substitution(rep[2..], matched, before, after)
    else if rep[0] == '$' && |rep| >= 2 && rep[1] == '`' then before + Substitution(rep[2..], matched, before, after)
    else if rep[0] == '$' && |rep| >= 2 && rep[1] == '\'' then after + Substitution(rep[2..], matched, before, after)
    else [rep[0]] + Substitution(rep[1..], matched, before, after)
  }

  /** A replacement without `$` is inserted literally. */
  lemma {:induction false} SubstitutionLiteral(rep: string, matched: string, before: string, after: string)
    requires '$' !in rep
    ensures Substitution(rep, matched, before, after) == rep
  {
    if rep != [] {
      assert '$' !in rep[1..];
      SubstitutionLiteral(rep[1..], matched, before, after);
    }
  }

  /** `s.replace(pattern, replacement)` with a string pattern: only the first occurrence of
      `pattern` is replaced; without an occurrence `s` is returned unchanged. */
  function Replace(s: string, pattern: string, replacement: string): string {
    match IndexOf(s, pattern)
    case None => s
    case Some(i) => s[..i] + Substitution(replacement, pattern, s[..i], s[i + |pattern|..]) + s[i + |pattern|..]
  }

  /** Replacing the first occurrence of `t` by the empty string deletes exactly that occurrence:
      the text before it, in which `t` does not occur, and the text after it are kept. */
  lemma RemoveFirst(s: string, t: string, i: nat)
    requires IndexOf(s, t) == Some(i)
    ensures Replace(s, t, "") == s[..i] + s[i + |t|..]
    ensures |Replace(s, t, "")| == |s| - |t|
    ensures forall j :: 0 <= j < i ==> !OccursAt(s, t, j)
  {
  }

  /** Replacing with a `$`-free text when `t` occurs first at `i`. */
  lemma ReplaceLiteral(s: string, t: string, rep: string, i: nat)
    requires IndexOf(s, t) == Some(i) && '$' !in rep
    ensures Replace(s, t, rep) == s[..i] + rep + s[i + |t|..]
  {
    SubstitutionLiteral(rep, t, s[..i], s[i + |t|..]);
  }

  /** `s.split(c)` for a one-character separator. */
  function Split(s: string, c: char): (r: seq<string>)
    decreases |s|
    ensures |r| >= 1
    ensures forall i :: 0 <= i < |r| ==> c !in r[i]
    ensures Join(r, c) == s
  {
    match IndexOf(s, [c])
    case None =>
      assert forall j :: 0 <= j < |s| ==> s[j] != c by {
        forall j | 0 <= j < |s| ensures s[j] != c { OccursAtChar(s, c, j); }
      }
      [s]
    case Some(i) =>
      OccursAtChar(s, c, i);
      assert forall j :: 0 <= j < i ==> s[j] != c by {
        forall j | 0 <= j < i ensures s[j] != c { OccursAtChar(s, c, j); }
      }
      var rest := Split(s[i + 1..], c);
      assert s == s[..i] + [c] + s[i + 1..];
      [s[..i]] + rest
  }

  /** `parts.join(c)`: the inverse of `Split`. */
  function Join(parts: seq<string>, c: char): string {
    if parts == [] then ""
    else if |parts| == 1 then parts[0]
    else parts[0] + [c] + Join(parts[1..], c)
  }

  /** Splitting a join of separator-free parts gives the parts back. */
  lemma {:induction false} SplitJoin(parts: seq<string>, c: char)
    requires |parts| >= 1
    requires forall i :: 0 <= i < |parts| ==> c !in parts[i]
    ensures Split(Join(parts, c), c) == parts
  {
    var s := Join(parts, c);
    if |parts| == 1 {
      forall j | 0 <= j <= |s| ensures !OccursAt(s, [c], j) { OccursAtChar(s, c, j); }
    } else {
      var p := parts[0];
      assert s == p + [c] + Join(parts[1..], c);
      assert OccursAt(s, [c], |p|);
      OccursAtChar(s, c, |p|);
      forall j | 0 <= j < |p| ensures !OccursAt(s, [c], j) { OccursAtChar(s, c, j); assert s[j] == p[j]; }
      assert IndexOf(s, [c]) == Some(|p|);
      assert s[|p| + 1..] == Join(parts[1..], c);
      SplitJoin(parts[1..], c);
    }
  }

  /** ASCII lower-casing of one character. */
  function LowerAscii(c: char): char {
    if 'A' <= c <= 'Z' then (c as int + 32) as char else c
  }

  /** `t` (written in lower case) occurs in `s` at `i` when letters are compared without regard
      to ASCII case (a regular expression's `i` flag for an ASCII pattern). */
  predicate OccursAtIgnoreCase(s: string, t: string, i: nat) {
    i + |t| <= |s| && forall j :: 0 <= j < |t| ==> LowerAscii(s[i + j]) == t[j]
  }
}

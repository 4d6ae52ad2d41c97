/** The two topic patterns of the conversation (server/lib/conversation.js):
    `/(?:learn|teach me) about\s+(.+?)(?:\.|\?|$)/i` in `extractTopicFromMessage` and
    `/learn about\s+(.+?)(?:\.|\?|$)/i` in `getLatestTopic`, each run with `String.prototype.match`
    (no `g` flag: the leftmost match, or none). The matcher below follows the backtracking order
    of the regular expression: `\s+` first takes every white-space character it can and gives them
    back one at a time, and for each choice `(.+?)` tries the shortest capture first. The `i` flag
    folds ASCII letters only, which for these all-ASCII patterns is exactly what JavaScript does
    without the `u` flag. */
module Topic {
  import opened Wrappers
  import opened JsString

  const LearnAbout: string := "learn about"
  const TeachMeAbout: string := "teach me about"

  /** The alternatives of each pattern, in the order the regular expression tries them. */
  const TopicPhrases: seq<string> := [LearnAbout, TeachMeAbout]
  const LatestPhrases: seq<string> := [LearnAbout]

  /** `(?:\.|\?|$)` holds at index `e`: a full stop, a question mark, or the end of the text
      (`$` without the `m` flag). */
  predicate StopsAt(s: string, e: nat)
    requires e <= |s|
  {
    e == |s| || s[e] == '.' || s[e] == '?'
  }

  /** `(.+?)(?:\.|\?|$)` with the capture starting at `k`: candidate ends `e` are tried from the
      shortest on; the capture may not run over a line terminator. */
  function LazyEnd(s: string, k: nat, e: nat): (r: Option<nat>)
    requires k < e <= |s|
    decreases |s| - e
    ensures r.Some? ==> e <= r.value <= |s| && StopsAt(s, r.value)
    ensures r.Some? ==> forall j :: e - 1 <= j < r.value ==> !IsLineTerminator(s[j])
    ensures r.Some? ==> forall j :: e <= j < r.value ==> !StopsAt(s, j)
  {
    if IsLineTerminator(s[e - 1]) then None
    else if StopsAt(s, e) then Some(e)
    else LazyEnd(s, k, e + 1)
  }

  /** The shortest capture is found when it holds no line terminator and no stop comes before
      its end. */
  lemma {:induction false} LazyEndFinds(s: string, k: nat, e: nat, target: nat)
    requires k < e <= target <= |s| && StopsAt(s, target)
    requires forall j :: e - 1 <= j < target ==> !IsLineTerminator(s[j])
    requires forall j :: e <= j < target ==> !StopsAt(s, j)
    ensures LazyEnd(s, k, e) == Some(target)
    decreases target - e
  {
    if e < target {
      LazyEndFinds(s, k, e + 1, target);
    }
  }

  /** `\s+(.+?)(?:\.|\?|$)` once `\s+` spans `q..k`: the capture from `k` if it succeeds,
      otherwise one white-space character is given back, as long as one remains. */
  function CaptureBacktracking(s: string, q: nat, k: nat): (r: Option<string>)
    requires q < k <= |s|
    decreases k
    ensures r.Some? ==> |r.value| > 0
  {
    var end := if k < |s| then LazyEnd(s, k, k + 1) else None;
    match end
    case Some(e) => Some(s[k..e])
    case None => if k == q + 1 then None else CaptureBacktracking(s, q, k - 1)
  }

  /** `\s+(.+?)(?:\.|\?|$)` from index `q`: the captured group, if the rest of the pattern
      matches there. */
  function CaptureAfter(s: string, q: nat): (r: Option<string>)
    requires q <= |s|
    ensures r.Some? ==> |r.value| > 0
  {
    var m := SkipSpaces(s, q);
    if m == q then None else CaptureBacktracking(s, q, m)
  }

  /** The pattern whose alternatives are `phrases`, matched at index `p`: each alternative in
      turn, ignoring ASCII case, followed by the rest of the pattern. */
  function PatternAt(s: string, p: nat, phrases: seq<string>): (r: Option<string>)
    requires p <= |s|
    ensures r.Some? ==> |r.value| > 0
  {
    if phrases == [] then None
    else
      var first := if OccursAtIgnoreCase(s, phrases[0], p) then CaptureAfter(s, p + |phrases[0]|) else None;
      if first.Some? then first else PatternAt(s, p, phrases[1..])
  }

  /** A match starts with one of the alternatives. */
  lemma {:induction false} PatternAtPhrase(s: string, p: nat, phrases: seq<string>)
    requires p <= |s|
    ensures PatternAt(s, p, phrases).Some? ==> exists i :: 0 <= i < |phrases| && OccursAtIgnoreCase(s, phrases[i], p)
  {
    if phrases != [] && !OccursAtIgnoreCase(s, phrases[0], p) && PatternAt(s, p, phrases).Some? {
      PatternAtPhrase(s, p, phrases[1..]);
      var i :| 0 <= i < |phrases[1..]| && OccursAtIgnoreCase(s, phrases[1..][i], p);
      assert OccursAtIgnoreCase(s, phrases[i + 1], p);
    }
  }

  /** `s.match(pattern)`: the capture of the leftmost match at or after `from`. */
  function FirstMatch(s: string, from: nat, phrases: seq<string>): (r: Option<string>)
    requires from <= |s|
    decreases |s| - from
    ensures r.Some? ==> |r.value| > 0
    ensures r.Some? ==> exists p :: from <= p <= |s| && PatternAt(s, p, phrases) == r
    ensures r.None? ==> forall p :: from <= p <= |s| ==> PatternAt(s, p, phrases).None?
  {
    match PatternAt(s, from, phrases)
    case Some(c) => Some(c)
    case None => if from == |s| then None else FirstMatch(s, from + 1, phrases)
  }

  /** `extractTopicFromMessage(message)`: the trimmed capture of the first "learn about" or
      "teach me about" phrase, or else the whole message trimmed. */
  function ExtractTopicFromMessage(message: string): (topic: string)
    ensures topic == [] || (!IsSpace(topic[0]) && !IsSpace(topic[|topic| - 1]))
  {
    match FirstMatch(message, 0, TopicPhrases)
    case Some(c) => Trim(c)
    case None => Trim(message)
  }

  /** The topic `getLatestTopic` takes from one user message, if its pattern matches. */
  function LatestTopicIn(message: string): (topic: Option<string>)
    ensures topic.Some? ==> topic.value == [] || (!IsSpace(topic.value[0]) && !IsSpace(topic.value[|topic.value| - 1]))
    ensures topic.Some? ==> exists p :: 0 <= p <= |message| && OccursAtIgnoreCase(message, LearnAbout, p)
  {
    match FirstMatch(message, 0, LatestPhrases)
    case Some(c) =>
      var p :| 0 <= p <= |message| && PatternAt(message, p, LatestPhrases) == Some(c);
      PatternAtPhrase(message, p, LatestPhrases);
      Some(Trim(c))
    case None => None
  }

  /** Without either phrase, in any ASCII case, the topic is the whole message trimmed. */
  lemma TopicWithoutPhrase(message: string)
    requires forall p :: 0 <= p <= |message| ==>
      !OccursAtIgnoreCase(message, LearnAbout, p) && !OccursAtIgnoreCase(message, TeachMeAbout, p)
    ensures ExtractTopicFromMessage(message) == Trim(message)
  {
    var r := FirstMatch(message, 0, TopicPhrases);
    if r.Some? {
      var p :| 0 <= p <= |message| && PatternAt(message, p, TopicPhrases) == r;
      PatternAtPhrase(message, p, TopicPhrases);
    }
  }

  /** A phrase followed by one space and a topic that holds no line terminator, full stop or
      question mark and starts with no white space, then the end of the text or a stop: the
      capture is exactly the topic. */
  lemma CaptureOfTopic(s: string, q: nat, x: string)
    requires q < |s| && s[q] == ' ' && x != [] && !IsSpace(x[0])
    requires q + 1 + |x| <= |s| && s[q + 1..q + 1 + |x|] == x
    requires forall j :: 0 <= j < |x| ==> !IsLineTerminator(x[j]) && x[j] != '.' && x[j] != '?'
    requires StopsAt(s, q + 1 + |x|)
    ensures CaptureAfter(s, q) == Some(x)
  {
    var k := q + 1;
    var e := k + |x|;
    assert s[k] == x[0];
    assert SkipSpaces(s, k) == k;
    assert SkipSpaces(s, q) == k;
    forall j | k <= j < e ensures !IsLineTerminator(s[j]) && s[j] != '.' && s[j] != '?' {
      assert s[j] == x[j - k];
    }
    LazyEndFinds(s, k, k + 1, e);
  }

  /** The leftmost match is the first index from `from` on where the pattern matches. */
  lemma {:induction false} FirstMatchAt(s: string, from: nat, p: nat, phrases: seq<string>)
    requires from <= p <= |s| && PatternAt(s, p, phrases).Some?
    requires forall p' :: from <= p' < p ==> PatternAt(s, p', phrases).None?
    ensures FirstMatch(s, from, phrases) == PatternAt(s, p, phrases)
    decreases p - from
  {
    if from < p {
      FirstMatchAt(s, from + 1, p, phrases);
    }
  }

  /** Where neither phrase stands, the topic pattern does not match. */
  lemma NoTopicPatternAt(s: string, p: nat)
    requires p <= |s|
    requires !OccursAtIgnoreCase(s, LearnAbout, p) && !OccursAtIgnoreCase(s, TeachMeAbout, p)
    ensures PatternAt(s, p, TopicPhrases).None?
  {
    PatternAtPhrase(s, p, TopicPhrases);
  }

  /** Where "learn about" does not stand, the `getLatestTopic` pattern does not match. */
  lemma NoLatestPatternAt(s: string, p: nat)
    requires p <= |s| && !OccursAtIgnoreCase(s, LearnAbout, p)
    ensures PatternAt(s, p, LatestPhrases).None?
  {
    PatternAtPhrase(s, p, LatestPhrases);
  }

  /** A phrase at `p` followed by one space and the topic `x`, then `rest`: the capture after
      the phrase is `x`. */
  lemma CaptureAfterPhrase(message: string, p: nat, phrase: string, x: string, rest: string)
    requires p + |phrase| < |message| && message[p + |phrase|] == ' '
    requires message[p + |phrase| + 1..] == x + rest
    requires x != [] && !IsSpace(x[0])
    requires forall j :: 0 <= j < |x| ==> !IsLineTerminator(x[j]) && x[j] != '.' && x[j] != '?'
    requires rest == [] || rest[0] == '.' || rest[0] == '?'
    ensures CaptureAfter(message, p + |phrase|) == Some(x)
  {
    var q := p + |phrase|;
    assert |message| == q + 1 + |x| + |rest|;
    assert message[q + 1..q + 1 + |x|] == (x + rest)[..|x|] == x;
    if rest != [] { assert message[q + 1 + |x|] == (x + rest)[|x|] == rest[0]; }
    CaptureOfTopic(message, q, x);
  }

  /** "learn about <topic>" (in any ASCII case) at index `p`, with neither phrase earlier, then
      the end of the message or a full stop or question mark and anything after it: the topic
      `extractTopicFromMessage` gives is that topic, trimmed. */
  lemma LearnAboutTopic(message: string, p: nat, x: string, rest: string)
    requires p + |LearnAbout| < |message|
    requires OccursAtIgnoreCase(message, LearnAbout, p) && message[p + |LearnAbout|] == ' '
    requires message[p + |LearnAbout| + 1..] == x + rest
    requires x != [] && !IsSpace(x[0])
    requires forall j :: 0 <= j < |x| ==> !IsLineTerminator(x[j]) && x[j] != '.' && x[j] != '?'
    requires rest == [] || rest[0] == '.' || rest[0] == '?'
    requires forall p' :: 0 <= p' < p ==>
      !OccursAtIgnoreCase(message, LearnAbout, p') && !OccursAtIgnoreCase(message, TeachMeAbout, p')
    ensures ExtractTopicFromMessage(message) == Trim(x)
  {
    CaptureAfterPhrase(message, p, LearnAbout, x, rest);
    assert PatternAt(message, p, TopicPhrases) == Some(x);
    forall p' | 0 <= p' < p ensures PatternAt(message, p', TopicPhrases).None? {
      NoTopicPatternAt(message, p');
    }
    FirstMatchAt(message, 0, p, TopicPhrases);
  }

  /** "learn about <topic>" at index `p` with no "learn about" earlier: `getLatestTopic` takes
      that topic, trimmed, from the message. */
  lemma LatestLearnAboutTopic(message: string, p: nat, x: string, rest: string)
    requires p + |LearnAbout| < |message|
    requires OccursAtIgnoreCase(message, LearnAbout, p) && message[p + |LearnAbout|] == ' '
    requires message[p + |LearnAbout| + 1..] == x + rest
    requires x != [] && !IsSpace(x[0])
    requires forall j :: 0 <= j < |x| ==> !IsLineTerminator(x[j]) && x[j] != '.' && x[j] != '?'
    requires rest == [] || rest[0] == '.' || rest[0] == '?'
    requires forall p' :: 0 <= p' < p ==> !OccursAtIgnoreCase(message, LearnAbout, p')
    ensures LatestTopicIn(message) == Some(Trim(x))
  {
    CaptureAfterPhrase(message, p, LearnAbout, x, rest);
    assert PatternAt(message, p, LatestPhrases) == Some(x);
    forall p' | 0 <= p' < p ensures PatternAt(message, p', LatestPhrases).None? {
      NoLatestPatternAt(message, p');
    }
    FirstMatchAt(message, 0, p, LatestPhrases);
  }

  /** "teach me about <topic>" at index `p`, with neither phrase earlier, likewise gives the topic
      to `extractTopicFromMessage`; `getLatestTopic`, whose pattern knows only "learn about",
      does not take it from there. */
  lemma TeachMeAboutTopic(message: string, p: nat, x: string, rest: string)
    requires p + |TeachMeAbout| < |message|
    requires OccursAtIgnoreCase(message, TeachMeAbout, p) && message[p + |TeachMeAbout|] == ' '
    requires message[p + |TeachMeAbout| + 1..] == x + rest
    requires x != [] && !IsSpace(x[0])
    requires forall j :: 0 <= j < |x| ==> !IsLineTerminator(x[j]) && x[j] != '.' && x[j] != '?'
    requires rest == [] || rest[0] == '.' || rest[0] == '?'
    requires forall p' :: 0 <= p' < p ==>
      !OccursAtIgnoreCase(message, LearnAbout, p') && !OccursAtIgnoreCase(message, TeachMeAbout, p')
    ensures ExtractTopicFromMessage(message) == Trim(x)
    ensures PatternAt(message, p, LatestPhrases).None?
  {
    CaptureAfterPhrase(message, p, TeachMeAbout, x, rest);
    assert TeachMeAbout[0] == 't' && LearnAbout[0] == 'l';
    assert LowerAscii(message[p + 0]) == 't';
    assert !OccursAtIgnoreCase(message, LearnAbout, p);
    assert PatternAt(message, p, TopicPhrases[1..]) == Some(x);
    assert PatternAt(message, p, TopicPhrases) == Some(x);
    forall p' | 0 <= p' < p ensures PatternAt(message, p', TopicPhrases).None? {
      NoTopicPatternAt(message, p');
    }
    FirstMatchAt(message, 0, p, TopicPhrases);
    NoLatestPatternAt(message, p);
  }

  /** The opening of the dashboard's topic request holds no topic phrase before index 10, where
      "learn about" and one space stand. */
  lemma RequestLead(m: string)
    requires |m| >= 22 && m[..22] == "I want to learn about "
    ensures OccursAtIgnoreCase(m, LearnAbout, 10) && m[21] == ' '
    ensures forall p' :: 0 <= p' < 10 ==>
      !OccursAtIgnoreCase(m, LearnAbout, p') && !OccursAtIgnoreCase(m, TeachMeAbout, p')
  {
    var lead := m[..22];
    assert forall q :: 0 <= q < 22 ==> m[q] == lead[q];
    forall p' | 0 <= p' < 10
      ensures !OccursAtIgnoreCase(m, LearnAbout, p') && !OccursAtIgnoreCase(m, TeachMeAbout, p')
    {
      assert LowerAscii(m[p' + 0]) != LearnAbout[0];
      if p' == 5 || p' == 7 {
        assert LowerAscii(m[p' + 1]) != TeachMeAbout[1];
      } else {
        assert LowerAscii(m[p' + 0]) != TeachMeAbout[0];
      }
    }
  }

  /** The request the dashboard sends when a topic is picked, "I want to learn about <topic>."
      followed by the rest of its sentence ("Please teach me …"): for a topic without stops or
      line terminators, both topic functions give back that topic, trimmed, whatever follows the
      full stop. */
  lemma TopicRequest(topic: string, more: string)
    requires topic != [] && !IsSpace(topic[0])
    requires forall j :: 0 <= j < |topic| ==> !IsLineTerminator(topic[j]) && topic[j] != '.' && topic[j] != '?'
    ensures ExtractTopicFromMessage("I want to learn about " + topic + "." + more) == Trim(topic)
    ensures LatestTopicIn("I want to learn about " + topic + "." + more) == Some(Trim(topic))
  {
    var lead := "I want to learn about ";
    var rest := "." + more;
    var tail := topic + rest;
    var m := lead + tail;
    assert lead + topic + "." + more == m;
    assert m[..|lead|] == lead && m[|lead|..] == tail;
    RequestLead(m);
    LearnAboutTopic(m, 10, topic, rest);
    LatestLearnAboutTopic(m, 10, topic, rest);
  }
}

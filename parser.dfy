/** The verdict decoder (`parse_response`): a judge's free-text reply becomes the
    tuple (judge name, cleaned text, vote, condition). */
module Parser {
  import opened Wrappers
  import opened Strings

  const APPROVE := "是認"
  const CONDITIONAL := "条件付是認"
  const DENY := "否認"
  /** Condition reported when the reply has no condition line at all. */
  const NO_CONDITION := "特になし"
  const FENCE := "```"
  const HTML_FENCE := "```html"
  const LABEL_JA := "条件"
  const LABEL_EN := "Condition"
  /** Captured conditions that mean "no condition"; compared after lower-casing. */
  const SENTINELS := ["なし", "none", "無し", "特になし", ""]

  /** One judge's verdict: display name, rationale text, vote and condition. */
  datatype Verdict = Verdict(name: string, reason: string, vote: string, condition: string)

  predicate IsVote(v: string) {
    v == APPROVE || v == CONDITIONAL || v == DENY
  }

  // ---------------------------------------------------------------------------
  // Cleaning: tags, fences, surrounding whitespace

  /** Index of the first '>' at or after i, or |s| when there is none. */
  function NextGt(s: string, i: nat): (j: nat)
    requires i <= |s|
    ensures i <= j <= |s|
    ensures j < |s| ==> s[j] == '>'
    ensures forall k | i <= k < j :: s[k] != '>'
    decreases |s| - i
  {
    if i == |s| || s[i] == '>' then i else NextGt(s, i + 1)
  }

  /** `re.sub(r'<[^>]+>', '', s)`. A '<' starts a match when the first '>' after
      it exists and is not the very next character; the match ends at that '>'
      and the scan resumes after it. Nothing grows, and a text without tags
      comes back unchanged. */
  function StripTags(s: string): (r: string)
    ensures |r| <= |s|
    ensures NoTag(s) ==> r == s
    decreases |s|
  {
    if s == [] then []
    else if s[0] == '<' && 1 < NextGt(s, 1) < |s| then
      assert s[NextGt(s, 1)] in s[1..];
      StripTags(s[NextGt(s, 1) + 1..])
    else
      assert s == [s[0]] + s[1..];
      [s[0]] + StripTags(s[1..])
  }

  /** `u` begins with '>' or holds no '>' at all, so a '<' right before `u`
      cannot start a tag. */
  predicate ClosedAtOnceOrNever(u: string) {
    (u != [] && u[0] == '>') || '>' !in u
  }

  /** The pattern `<[^>]+>` matches nowhere in `s`: every '<' is followed either
      at once by '>' or by no '>' at all. */
  predicate NoTag(s: string)
    decreases |s|
  {
    s == [] || ((s[0] == '<' ==> ClosedAtOnceOrNever(s[1..])) && NoTag(s[1..]))
  }

  /** The first '>' from i on, when there is one at j and none before it. */
  lemma {:induction false} NextGtAt(s: string, i: nat, j: nat)
    requires i <= j < |s| && s[j] == '>'
    requires forall k | i <= k < j :: s[k] != '>'
    ensures NextGt(s, i) == j
    decreases j - i
  {
    if i < j {
      NextGtAt(s, i + 1, j);
    }
  }

  /** Without any '<' there is no tag. */
  lemma {:induction false} NoLtNoTag(s: string)
    requires '<' !in s
    ensures NoTag(s)
    decreases |s|
  {
    if s != [] {
      assert forall c | c in s[1..] :: c in s;
      NoLtNoTag(s[1..]);
    }
  }

  /** A first character other than '<' is kept. */
  lemma StripTagsKeepsHead(s: string)
    requires s != [] && s[0] != '<'
    ensures StripTags(s) == [s[0]] + StripTags(s[1..])
  {
  }

  /** A tag `<y>` at the front is deleted. */
  lemma StripTagsTagFirst(y: string, z: string)
    requires y != [] && '>' !in y
    ensures StripTags("<" + y + ">" + z) == StripTags(z)
  {
    var s := "<" + y + ">" + z;
    assert s[|y| + 1] == '>';
    assert forall k | 1 <= k < |y| + 1 :: s[k] == y[k - 1];
    NextGtAt(s, 1, |y| + 1);
    assert s[|y| + 2..] == z;
  }

  /** The substitution keeps the text before a tag, deletes the tag `<y>`, and
      goes on after it. */
  lemma {:induction false} StripTagsSkipsTag(x: string, y: string, z: string)
    requires '<' !in x && y != [] && '>' !in y
    ensures StripTags(x + "<" + y + ">" + z) == x + StripTags(z)
    decreases |x|
  {
    var s := x + "<" + y + ">" + z;
    if x == [] {
      assert s == "<" + y + ">" + z;
      StripTagsTagFirst(y, z);
    } else {
      var t := x[1..] + "<" + y + ">" + z;
      assert s[0] == x[0] && s[1..] == t;
      assert forall c | c in x[1..] :: c in x;
      StripTagsSkipsTag(x[1..], y, z);
      StripTagsKeepsHead(s);
      assert x + StripTags(z) == [x[0]] + (x[1..] + StripTags(z));
    }
  }

  lemma {:induction false} StripTagsChars(s: string, c: char)
    requires c in StripTags(s)
    ensures c in s
    decreases |s|
  {
    if s == [] {
    } else if s[0] == '<' && 1 < NextGt(s, 1) < |s| {
      StripTagsChars(s[NextGt(s, 1) + 1..], c);
    } else if c != s[0] {
      StripTagsChars(s[1..], c);
    }
  }

  /** After the substitution no tag is left. */
  lemma {:induction false} StripTagsLeavesNoTag(s: string)
    ensures NoTag(StripTags(s))
    decreases |s|
  {
    if s == [] {
    } else if s[0] == '<' && 1 < NextGt(s, 1) < |s| {
      StripTagsLeavesNoTag(s[NextGt(s, 1) + 1..]);
    } else {
      var r := StripTags(s[1..]);
      StripTagsLeavesNoTag(s[1..]);
      assert ([s[0]] + r)[1..] == r;
      if s[0] == '<' {
        if |s| > 1 && s[1] == '>' {
          assert s[1..][0] == '>';
          assert r == [s[1]] + StripTags(s[2..]);
        } else {
          forall c | c in r
            ensures c != '>'
          {
            StripTagsChars(s[1..], c);
          }
        }
      }
    }
  }

  lemma {:induction false} NoTagSuffix(s: string, k: nat)
    requires NoTag(s) && k <= |s|
    ensures NoTag(s[k..])
    decreases k
  {
    if k > 0 {
      NoTagSuffix(s[1..], k - 1);
      assert s[1..][k - 1..] == s[k..];
    }
  }

  /** Cutting off a whitespace tail keeps a text tag-free. */
  lemma {:induction false} NoTagPrefix(s: string, k: nat)
    requires NoTag(s) && k <= |s| && AllSpace(s[k..])
    ensures NoTag(s[..k])
    decreases k
  {
    if k > 0 {
      assert s[1..][k - 1..] == s[k..];
      NoTagPrefix(s[1..], k - 1);
      assert s[..k][1..] == s[1..][..k - 1];
      if s[0] == '<' && s[1..] != [] && s[1] == '>' {
        assert 1 < k;
      }
    }
  }

  /** Deleting a pattern that holds neither '<' nor '>' keeps a text tag-free. */
  lemma {:induction false} NoTagRemoveAll(s: string, p: string)
    requires p != [] && '<' !in p && '>' !in p && NoTag(s)
    ensures NoTag(RemoveAll(s, p))
    decreases |s|
  {
    if |s| < |p| {
    } else if s[..|p|] == p {
      NoTagSuffix(s, |p|);
      NoTagRemoveAll(s[|p|..], p);
    } else {
      var r := RemoveAll(s[1..], p);
      NoTagRemoveAll(s[1..], p);
      assert ([s[0]] + r)[1..] == r;
      if s[0] == '<' {
        if s[1..] != [] && s[1] == '>' {
          RemoveAllHead(s[1..], p);
        } else {
          forall c | c in r
            ensures c != '>'
          {
            RemoveAllChars(s[1..], p, c);
          }
        }
      }
    }
  }

  /** Deleting "```" left to right leaves no "```" behind: a run of n backticks
      becomes a run of n % 3, and runs never merge. */
  lemma {:induction false} RemoveFenceLeavesNoFence(s: string)
    ensures !Contains(RemoveAll(s, FENCE), FENCE)
    decreases |s|
  {
    if |s| < |FENCE| {
    } else if s[..|FENCE|] == FENCE {
      RemoveFenceLeavesNoFence(s[|FENCE|..]);
    } else {
      var r := RemoveAll(s[1..], FENCE);
      RemoveFenceLeavesNoFence(s[1..]);
      assert ([s[0]] + r)[1..] == r;
      if s[0] == '`' && |r| >= 2 {
        if s[1] != '`' {
          RemoveAllHead(s[1..], FENCE);
          assert r[0] == s[1];
        } else {
          assert s[2] != '`';
          RemoveAllHead(s[2..], FENCE);
          if |s[1..]| >= |FENCE| {
            assert s[1..][..|FENCE|][1] == s[2];
          }
          assert r == [s[1]] + RemoveAll(s[2..], FENCE);
          assert r[1] == s[2];
        }
        assert ([s[0]] + r)[..|FENCE|] != FENCE;
      }
    }
  }

  lemma NoFenceSlice(s: string, lo: nat, hi: nat)
    requires lo <= hi <= |s| && !Contains(s, FENCE)
    ensures !Contains(s[lo..hi], FENCE)
  {
    if Contains(s[lo..hi], FENCE) {
      ContainsSlice(s, FENCE, lo, hi);
    }
  }

  lemma NoHtmlFence(s: string)
    requires !Contains(s, FENCE)
    ensures !Contains(s, HTML_FENCE)
  {
    assert HTML_FENCE == [] + FENCE + "html";
    if Contains(s, HTML_FENCE) {
      ContainsInfix(s, [], FENCE, "html");
    }
  }

  /** `strip()` keeps both properties of the cleaned text. */
  lemma StripKeepsClean(s: string)
    requires NoTag(s) && !Contains(s, FENCE)
    ensures NoTag(Strip(s)) && !Contains(Strip(s), FENCE)
  {
    var a := TrimStart(s);
    NoTagSuffix(s, |s| - |a|);
    NoFenceSlice(s, |s| - |a|, |s|);
    assert s[|s| - |a|..|s|] == a;
    var b := TrimEnd(a);
    NoTagPrefix(a, |b|);
    NoFenceSlice(a, 0, |b|);
  }

  /** The rationale text: tags removed, then the "```html" and "```" fence
      markers, then surrounding whitespace. */
  function CleanText(text: string): (r: string)
    ensures NoTag(r) && !Contains(r, FENCE) && IsTrimmed(r)
  {
    var untagged := StripTags(text);
    var unfenced := RemoveAll(RemoveAll(untagged, HTML_FENCE), FENCE);
    StripTagsLeavesNoTag(text);
    NoTagRemoveAll(untagged, HTML_FENCE);
    NoTagRemoveAll(RemoveAll(untagged, HTML_FENCE), FENCE);
    RemoveFenceLeavesNoFence(RemoveAll(untagged, HTML_FENCE));
    StripKeepsClean(unfenced);
    Strip(unfenced)
  }

  /** A text without tags, without fences and without surrounding whitespace
      is its own cleaned text. */
  lemma CleanTextFixpoint(t: string)
    requires NoTag(t) && !Contains(t, FENCE) && IsTrimmed(t)
    ensures CleanText(t) == t
  {
    NoHtmlFence(t);
  }

  /** A reply without markup characters loses only its surrounding whitespace. */
  lemma CleanTextPlain(s: string)
    requires '<' !in s && '`' !in s
    ensures CleanText(s) == Strip(s)
  {
    NoLtNoTag(s);
    AbsentHead(s, HTML_FENCE);
    AbsentHead(s, FENCE);
  }

  /** Cleaning an already cleaned text changes nothing. */
  lemma CleanTextIdempotent(text: string)
    ensures CleanText(CleanText(text)) == CleanText(text)
  {
    CleanTextFixpoint(CleanText(text));
  }

  // ---------------------------------------------------------------------------
  // Vote

  /** The substring tests, conditional approval first. */
  function VoteOf(t: string): (v: string)
    ensures IsVote(v)
  {
    if Contains(t, CONDITIONAL) || Contains(t, "【条件付是認】") then CONDITIONAL
    else if Contains(t, APPROVE) || Contains(t, "【是認】") then APPROVE
    else DENY
  }

  /** The bracketed markers are redundant: each contains its plain marker. */
  lemma BracketedMarkers(t: string)
    ensures Contains(t, "【条件付是認】") ==> Contains(t, CONDITIONAL)
    ensures Contains(t, "【是認】") ==> Contains(t, APPROVE)
  {
    assert "【条件付是認】" == "【" + CONDITIONAL + "】";
    assert "【是認】" == "【" + APPROVE + "】";
    if Contains(t, "【条件付是認】") {
      ContainsInfix(t, "【", CONDITIONAL, "】");
    }
    if Contains(t, "【是認】") {
      ContainsInfix(t, "【", APPROVE, "】");
    }
  }

  /** The conditional marker always contains the approval marker, which is why
      the conditional test has to come first. */
  lemma ConditionalContainsApproval(t: string)
    requires Contains(t, CONDITIONAL)
    ensures Contains(t, APPROVE)
  {
    assert CONDITIONAL == "条件付" + APPROVE + "";
    ContainsInfix(t, "条件付", APPROVE, "");
  }

  // ---------------------------------------------------------------------------
  // Condition: re.search(r"(?:条件|Condition)[:：]\s*(.+)", text, re.MULTILINE)

  /** When a `条件` or `Condition` label followed by ':' or '：' starts at i, the
      index just after the colon. */
  function LabelEnd(t: string, i: nat): (k: Option<nat>)
    ensures k.Some? ==> i < k.value <= |t| && (t[k.value - 1] == ':' || t[k.value - 1] == '：')
  {
    var colon :=
      if OccursAt(t, LABEL_JA, i) then i + |LABEL_JA|
      else if OccursAt(t, LABEL_EN, i) then i + |LABEL_EN|
      else |t|;
    if colon < |t| && (t[colon] == ':' || t[colon] == '：') then Some(colon + 1) else None
  }

  /** End of the whitespace run that starts at k. */
  function SpaceEnd(t: string, k: nat): (e: nat)
    requires k <= |t|
    ensures k <= e <= |t|
    ensures forall m | k <= m < e :: IsSpace(t[m])
    ensures e < |t| ==> !IsSpace(t[e])
    decreases |t| - k
  {
    if k == |t| || !IsSpace(t[k]) then k else SpaceEnd(t, k + 1)
  }

  /** End of the line that contains index k: the next '\n' at or after k, or |t|. */
  function LineEnd(t: string, k: nat): (e: nat)
    requires k <= |t|
    ensures k <= e <= |t|
    ensures forall m | k <= m < e :: t[m] != '\n'
    ensures e < |t| ==> t[e] == '\n'
    decreases |t| - k
  {
    if k == |t| || t[k] == '\n' then k else LineEnd(t, k + 1)
  }

  /** The last index in [k, hi) that does not hold '\n'. */
  function LastNonNewline(t: string, k: nat, hi: nat): (p: Option<nat>)
    requires k <= hi <= |t|
    ensures p.Some? ==> k <= p.value < hi && t[p.value] != '\n'
    ensures p.Some? ==> forall m | p.value < m < hi :: t[m] == '\n'
    ensures p.None? ==> forall m | k <= m < hi :: t[m] == '\n'
    decreases hi - k
  {
    if hi == k then None
    else if t[hi - 1] != '\n' then Some(hi - 1)
    else LastNonNewline(t, k, hi - 1)
  }

  /** `g` is what `\s*(.+)` can capture from index k: it follows a run of
      whitespace that starts at k and ends at a line break or the end of `t`. */
  predicate CapturedAfter(t: string, k: nat, g: string) {
    exists e: nat :: k <= e && e + |g| <= |t| && AllSpace(t[k..e]) && t[e..e + |g|] == g
      && (e + |g| == |t| || t[e + |g|] == '\n')
  }

  /** After the whitespace run from k ends at e, `(.+)` takes the rest of that line. */
  lemma CapturedRestOfLine(t: string, k: nat, e: nat)
    requires k <= e < |t| && SpaceEnd(t, k) == e
    ensures t[e..LineEnd(t, e)] != [] && '\n' !in t[e..LineEnd(t, e)] && !IsSpace(t[e..LineEnd(t, e)][0])
    ensures CapturedAfter(t, k, t[e..LineEnd(t, e)])
  {
    var g := t[e..LineEnd(t, e)];
    assert forall c | c in g :: c != '\n';
    assert AllSpace(t[k..e]) && t[e..e + |g|] == g;
  }

  /** When the whitespace runs to the end, `(.+)` backs off to the last
      character of the run that is not a line break. */
  lemma CapturedLastChar(t: string, k: nat, p: nat)
    requires k <= p < |t| && SpaceEnd(t, k) == |t|
    requires forall m | p < m < |t| :: t[m] == '\n'
    ensures CapturedAfter(t, k, t[p..p + 1])
    ensures AllSpace(t[k..])
  {
    var g := t[p..p + 1];
    assert AllSpace(t[k..p]) && t[p..p + |g|] == g && (p + |g| == |t| || t[p + |g|] == '\n');
  }

  /** What the condition pattern captures when it is tried at index i. `\s*` is
      greedy and also swallows line breaks; `(.+)` then takes the rest of that
      line. When the whitespace runs to the end of the text the engine backs off
      to the last character of the run that is not a line break, and that one
      character is the group. The group starts after the whole whitespace run
      unless that run reaches the end of the text. */
  function GroupAt(t: string, i: nat): (g: Option<string>)
    requires i <= |t|
    ensures g.Some? ==>
      && LabelEnd(t, i).Some? && g.value != [] && '\n' !in g.value && CapturedAfter(t, LabelEnd(t, i).value, g.value)
      && (!IsSpace(g.value[0]) || AllSpace(t[LabelEnd(t, i).value..]))
  {
    match LabelEnd(t, i)
    case None => None
    case Some(k) => GroupFrom(t, k)
  }

  /** What `\s*(.+)` captures from index k, if anything: a line's worth after
      the greedy whitespace run, which it starts past unless the run reaches
      the end of the text. */
  function GroupFrom(t: string, k: nat): (g: Option<string>)
    requires k <= |t|
    ensures g.Some? ==> g.value != [] && '\n' !in g.value && CapturedAfter(t, k, g.value)
    ensures g.Some? ==> !IsSpace(g.value[0]) || AllSpace(t[k..])
  {
    var e := SpaceEnd(t, k);
    if e < |t| then
      CapturedRestOfLine(t, k, e);
      Some(t[e..LineEnd(t, e)])
    else
      match LastNonNewline(t, k, |t|)
      case None => None
      case Some(p) =>
        CapturedLastChar(t, k, p);
        Some(t[p..p + 1])
  }

  /** The attempt at i matches exactly when a label and colon start at i and some
      character after the colon is not a line break. */
  lemma GroupAtMatches(t: string, i: nat)
    requires i <= |t|
    ensures GroupAt(t, i).Some? <==>
      LabelEnd(t, i).Some? && exists m | LabelEnd(t, i).value <= m < |t| :: t[m] != '\n'
  {
    if LabelEnd(t, i).Some? {
      var k := LabelEnd(t, i).value;
      var e := SpaceEnd(t, k);
      if e < |t| {
        assert t[e] != '\n';
      } else {
      }
    }
  }

  /** `re.search` from index i: the leftmost index where the pattern matches,
      with its group. */
  function FirstGroup(t: string, i: nat): (r: Option<(nat, string)>)
    requires i <= |t|
    ensures r.Some? ==> i <= r.value.0 <= |t| && GroupAt(t, r.value.0) == Some(r.value.1)
    ensures r.Some? ==> forall j | i <= j < r.value.0 :: GroupAt(t, j).None?
    ensures r.None? ==> forall j | i <= j <= |t| :: GroupAt(t, j).None?
    decreases |t| - i
  {
    match GroupAt(t, i)
    case Some(g) => Some((i, g))
    case None => if i == |t| then None else FirstGroup(t, i + 1)
  }

  /** `c.lower() in [...]`; lower-casing ASCII letters is all that matters here,
      since no other character lower-cases to a letter of any sentinel. */
  predicate IsSentinel(c: string) {
    LowerAscii(c) in SENTINELS
  }

  /** A captured `特になし` is itself blanked, so the no-match default cannot
      come from a match. */
  lemma NoConditionIsSentinel()
    ensures IsSentinel(NO_CONDITION)
  {
    var n := NO_CONDITION;
    assert forall i | 0 <= i < |n| :: !('A' <= n[i] <= 'Z');
    assert LowerAscii(n) == n;
  }

  /** The condition: `特になし` exactly when the pattern matches nowhere;
      otherwise the stripped group, blanked when it is a sentinel. It never
      spans a line break and has no whitespace at its ends. */
  function ConditionOf(t: string): (c: string)
    ensures c == NO_CONDITION <==> FirstGroup(t, 0).None?
    ensures '\n' !in c && IsTrimmed(c)
  {
    match FirstGroup(t, 0)
    case None => NO_CONDITION
    case Some(m) =>
      var c := Strip(m.1);
      NoConditionIsSentinel();
      if IsSentinel(c) then "" else c
  }

  // ---------------------------------------------------------------------------
  // parse_response

  /** The judge name is passed through, the rationale is the cleaned text (no
      tag, no fence, no surrounding whitespace) and the vote is one of the three. */
  function Parse(name: string, text: string): (v: Verdict)
    ensures v.name == name
    ensures v.reason == CleanText(text)
    ensures NoTag(v.reason) && !Contains(v.reason, FENCE) && IsTrimmed(v.reason)
    ensures IsVote(v.vote)
  {
    var clean := CleanText(text);
    Verdict(name, clean, VoteOf(clean), ConditionOf(clean))
  }

  /** Vote precedence: the conditional marker wins; otherwise the approval
      marker wins, even beside a denial; otherwise deny. */
  lemma VotePrecedence(t: string)
    ensures VoteOf(t) == CONDITIONAL <==> Contains(t, CONDITIONAL)
    ensures VoteOf(t) == APPROVE <==> !Contains(t, CONDITIONAL) && Contains(t, APPROVE)
    ensures VoteOf(t) == DENY <==> !Contains(t, CONDITIONAL) && !Contains(t, APPROVE)
  {
    BracketedMarkers(t);
    assert APPROVE[0] != DENY[0] && APPROVE != CONDITIONAL && DENY != CONDITIONAL;
  }

  /** The vote of a parsed reply follows that precedence on its cleaned text. */
  lemma ParseVote(name: string, text: string)
    ensures var v := Parse(name, text);
      && (v.vote == CONDITIONAL <==> Contains(v.reason, CONDITIONAL))
      && (v.vote == APPROVE <==> !Contains(v.reason, CONDITIONAL) && Contains(v.reason, APPROVE))
      && (v.vote == DENY <==> !Contains(v.reason, CONDITIONAL) && !Contains(v.reason, APPROVE))
  {
    VotePrecedence(Parse(name, text).reason);
  }

  /** A reply concluding with a bracketed denial is still an approval when it
      mentions approval anywhere without the conditional marker, even in "not
      approved" (`是認しない`); the denial marker is never consulted. */
  lemma DenialMentioningApproval(t: string)
    ensures Contains(t, "【否認】") && Contains(t, APPROVE) && !Contains(t, CONDITIONAL) ==> VoteOf(t) == APPROVE
    ensures VoteOf("【否認】是認しない") == APPROVE
  {
    var u := "【否認】是認しない";
    assert OccursAt(u, APPROVE, 4);
    ContainsAt(u, APPROVE, 4);
    AbsentHead(u, CONDITIONAL);
    BracketedMarkers(u);
    VotePrecedence(t);
  }

  /** Condition rules on a cleaned text: no condition line gives `特になし`;
      otherwise the first match's group, trimmed, and blanked when it is a
      sentinel. The result never spans a line break or has whitespace at its ends. */
  lemma ConditionRules(t: string)
    ensures var m := FirstGroup(t, 0); var c := ConditionOf(t);
      && (m.None? <==> c == NO_CONDITION)
      && (m.Some? ==> (c == "" <==> IsSentinel(Strip(m.value.1))))
      && (m.Some? && c != "" ==> c == Strip(m.value.1) && !IsSentinel(c))
      && '\n' !in c && IsTrimmed(c)
  {
    assert LowerAscii([]) == [];
    assert IsSentinel([]);
  }

  /** The condition of a parsed reply follows those rules whatever the vote. */
  lemma ParseCondition(name: string, text: string)
    ensures var v := Parse(name, text);
      var m := FirstGroup(v.reason, 0);
      && (m.None? <==> v.condition == NO_CONDITION)
      && (m.Some? ==> (v.condition == "" <==> IsSentinel(Strip(m.value.1))))
      && (m.Some? && v.condition != "" ==> v.condition == Strip(m.value.1))
  {
    ConditionRules(Parse(name, text).reason);
  }

  /** Re-parsing the returned text under the same name gives the same tuple. */
  lemma ParseIdempotent(name: string, text: string)
    ensures Parse(name, Parse(name, text).reason) == Parse(name, text)
  {
    CleanTextIdempotent(text);
  }
}

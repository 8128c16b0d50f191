/** The cleaning applied to the model's reply before it is parsed as JSON
    (main.py:57-58): `text.strip().replace("```json", "").replace("```", "").strip()`. */
module ResponseText {

  const Fence := "```"
  const JsonFence := "```json"

  /** Python's `str.isspace` for one character: the characters `str.strip()` removes. */
  predicate IsSpace(c: char) {
    || c == ' '
    || ('\t' <= c <= '\r')
    || ('\U{1C}' <= c <= '\U{1F}')
    || c == '\U{85}' || c == '\U{A0}' || c == '\U{1680}'
    || ('\U{2000}' <= c <= '\U{200A}')
    || c == '\U{2028}' || c == '\U{2029}' || c == '\U{202F}' || c == '\U{205F}' || c == '\U{3000}'
  }

  /** Every character of `t` is whitespace. */
  predicate AllSpace(t: string) {
    forall i :: 0 <= i < |t| ==> IsSpace(t[i])
  }

  /** Scanning forward from `i`, the position of the first non-whitespace character
      (or the end of `s`). */
  function LeadEnd(s: string, i: nat): (k: nat)
    requires i <= |s|
    ensures i <= k <= |s|
    ensures forall m :: i <= m < k ==> IsSpace(s[m])
    ensures k < |s| ==> !IsSpace(s[k])
    decreases |s| - i
  {
    if i < |s| && IsSpace(s[i]) then LeadEnd(s, i + 1) else i
  }

  /** Scanning backward from `j` but not below `lo`, the position just after the last
      non-whitespace character. */
  function TrailStart(s: string, lo: nat, j: nat): (k: nat)
    requires lo <= j <= |s|
    ensures lo <= k <= j
    ensures forall m :: k <= m < j ==> IsSpace(s[m])
    ensures lo < k ==> !IsSpace(s[k - 1])
    decreases j
  {
    if lo < j && IsSpace(s[j - 1]) then TrailStart(s, lo, j - 1) else j
  }

  /** `str.strip()`: drop the leading run of whitespace, then the trailing run. The
      result neither starts nor ends with whitespace; `StripIsSlice` says which part
      of `s` it is. */
  function Strip(s: string): (r: string)
    ensures |r| <= |s|
    ensures r != [] ==> !IsSpace(r[0]) && !IsSpace(r[|r| - 1])
  {
    var k := LeadEnd(s, 0);
    s[k..TrailStart(s, k, |s|)]
  }

  /** `Strip(s)` is the part of `s` at some offset `k` between a run of leading and a
      run of trailing whitespace. */
  lemma StripIsSlice(s: string) returns (k: nat)
    ensures var r := Strip(s);
      && k + |r| <= |s| && r == s[k..k + |r|]
      && AllSpace(s[..k]) && AllSpace(s[k + |r|..])
  {
    k := LeadEnd(s, 0);
    var j := TrailStart(s, k, |s|);
    assert AllSpace(s[..k]) by {
      forall m | 0 <= m < k ensures IsSpace(s[..k][m]) {
        assert s[..k][m] == s[m];
      }
    }
    assert AllSpace(s[j..]) by {
      forall m | 0 <= m < |s| - j ensures IsSpace(s[j..][m]) {
        assert s[j..][m] == s[j + m];
      }
    }
  }

  predicate StartsWith(s: string, p: string) {
    |p| <= |s| && s[..|p|] == p
  }

  predicate OccursAt(s: string, p: string, i: nat) {
    i + |p| <= |s| && s[i..i + |p|] == p
  }

  predicate Contains(s: string, p: string) {
    exists i: nat :: i <= |s| && OccursAt(s, p, i)
  }

  /** `s.replace(p, "")`: occurrences of `p` are found left to right, without
      overlapping, and deleted. */
  function RemoveAll(s: string, p: string): (r: string)
    requires p != []
    ensures |r| <= |s|
    decreases |s|
  {
    if s == [] then []
    else if StartsWith(s, p) then RemoveAll(s[|p|..], p)
    else [s[0]] + RemoveAll(s[1..], p)
  }

  /** The cleaned reply text (main.py:58). */
  function Clean(text: string): string {
    Strip(RemoveAll(RemoveAll(Strip(text), JsonFence), Fence))
  }

  // ----- Properties -----

  lemma FenceAt(s: string, i: nat)
    ensures OccursAt(s, Fence, i) <==> i + 3 <= |s| && s[i] == '`' && s[i + 1] == '`' && s[i + 2] == '`'
  {
    if i + 3 <= |s| {
      var w := s[i..i + 3];
      assert w[0] == s[i] && w[1] == s[i + 1] && w[2] == s[i + 2];
    }
  }

  /** A character other than a backtick that starts the text survives removal. */
  lemma KeepsHead(u: string)
    requires u != [] && u[0] != '`'
    ensures RemoveAll(u, Fence) != [] && RemoveAll(u, Fence)[0] == u[0]
  {
  }

  /** Deleting every "```" from left to right leaves no "```" behind: a backtick kept
      just before a deleted fence would itself have started a fence. */
  lemma {:induction false} NoFenceAfterRemoval(s: string)
    ensures !Contains(RemoveAll(s, Fence), Fence)
    decreases |s|
  {
    if s == [] {
    } else if StartsWith(s, Fence) {
      NoFenceAfterRemoval(s[3..]);
    } else {
      NoFenceAfterRemoval(s[1..]);
      var t := RemoveAll(s[1..], Fence);
      var r := [s[0]] + t;
      assert RemoveAll(s, Fence) == r;
      forall i: nat | i <= |r| ensures !OccursAt(r, Fence, i) {
        FenceAt(r, i);
        if i >= 1 {
          FenceAt(t, i - 1);
        } else if OccursAt(r, Fence, 0) {
          assert s[0] == '`' && t[0] == '`' && t[1] == '`';
          NotHeadFence(s);
        }
      }
    }
  }

  /** When `s` starts with a backtick but not with "```", the text that removal keeps
      after that backtick does not start with two backticks. */
  lemma NotHeadFence(s: string)
    requires s != [] && s[0] == '`' && !StartsWith(s, Fence)
    ensures var t := RemoveAll(s[1..], Fence); !(|t| >= 2 && t[0] == '`' && t[1] == '`')
  {
    FenceAt(s, 0);
    var u := s[1..];
    if |s| >= 2 && s[1] != '`' {
      KeepsHead(u);
    } else if |s| >= 2 {
      FenceAt(u, 0);
      assert !StartsWith(u, Fence) by {
        if |s| >= 3 {
          assert s[2] != '`';
        }
      }
      if |s| >= 3 {
        KeepsHead(u[1..]);
      }
    }
  }

  lemma SliceKeepsAbsence(s: string, p: string, a: nat, b: nat)
    requires a <= b <= |s|
    requires !Contains(s, p)
    ensures !Contains(s[a..b], p)
  {
    var t := s[a..b];
    forall i: nat | i <= |t| ensures !OccursAt(t, p, i) {
      if i + |p| <= |t| {
        var u, w := t[i..i + |p|], s[a + i..a + i + |p|];
        assert u == w by {
          forall j | 0 <= j < |p| ensures u[j] == w[j] {
            assert u[j] == t[i + j];
          }
        }
        assert !OccursAt(s, p, a + i);
      }
    }
  }

  lemma StripKeepsAbsence(s: string, p: string)
    requires !Contains(s, p)
    ensures !Contains(Strip(s), p)
  {
    var k := StripIsSlice(s);
    SliceKeepsAbsence(s, p, k, k + |Strip(s)|);
  }

  lemma JsonFenceHasFence(s: string)
    requires !Contains(s, Fence)
    ensures !Contains(s, JsonFence)
  {
    forall i: nat | i <= |s| ensures !OccursAt(s, JsonFence, i) {
      if i + 7 <= |s| {
        assert s[i..i + 7][..3] == s[i..i + 3];
        assert !OccursAt(s, Fence, i);
      }
    }
  }

  /** The cleaned text neither starts nor ends with whitespace and holds no "```"
      (hence no "```json"), as the comment at main.py:57 intends. */
  lemma CleanIsTrimmedAndFenceFree(text: string)
    ensures var c := Clean(text);
      && (c != [] ==> !IsSpace(c[0]) && !IsSpace(c[|c| - 1]))
      && !Contains(c, Fence)
      && !Contains(c, JsonFence)
  {
    var d := RemoveAll(RemoveAll(Strip(text), JsonFence), Fence);
    NoFenceAfterRemoval(RemoveAll(Strip(text), JsonFence));
    StripKeepsAbsence(d, Fence);
    JsonFenceHasFence(Strip(d));
  }

  lemma {:induction false} RemoveAbsent(s: string, p: string)
    requires p != [] && !Contains(s, p)
    ensures RemoveAll(s, p) == s
    decreases |s|
  {
    if s != [] {
      assert !StartsWith(s, p) by {
        if StartsWith(s, p) {
          assert OccursAt(s, p, 0);
        }
      }
      SliceKeepsAbsence(s, p, 1, |s|);
      assert s[1..|s|] == s[1..];
      RemoveAbsent(s[1..], p);
    }
  }

  lemma StripTrimmed(s: string)
    requires s != [] ==> !IsSpace(s[0]) && !IsSpace(s[|s| - 1])
    ensures Strip(s) == s
  {
  }

  /** Cleaning is idempotent: cleaned text is left as it is. */
  lemma CleanIdempotent(text: string)
    ensures Clean(Clean(text)) == Clean(text)
  {
    var c := Clean(text);
    CleanIsTrimmedAndFenceFree(text);
    StripTrimmed(c);
    RemoveAbsent(c, JsonFence);
    RemoveAbsent(c, Fence);
    StripTrimmed(c);
  }

  /** A pattern that starts with a backtick does not occur in text without one. */
  lemma NoBacktickNoFence(s: string, p: string)
    requires p != [] && p[0] == '`'
    requires forall i :: 0 <= i < |s| ==> s[i] != '`'
    ensures !Contains(s, p)
  {
    forall i: nat | i <= |s| ensures !OccursAt(s, p, i) {
      if i + |p| <= |s| {
        assert s[i..i + |p|][0] == s[i];
      }
    }
  }

  /** Text without backticks is only stripped. */
  lemma CleanWithoutBackticks(text: string)
    requires forall i :: 0 <= i < |text| ==> text[i] != '`'
    ensures Clean(text) == Strip(text)
  {
    var s := Strip(text);
    var k := StripIsSlice(text);
    assert forall i :: 0 <= i < |s| ==> s[i] == text[k + i];
    NoBacktickNoFence(s, JsonFence);
    NoBacktickNoFence(s, Fence);
    RemoveAbsent(s, JsonFence);
    RemoveAbsent(s, Fence);
    StripTrimmed(s);
  }

  /** `replace(p, "")` deletes an occurrence of `p` at the front and carries on
      after it. */
  lemma RemoveAllAtMatch(s: string, p: string)
    requires p != []
    ensures RemoveAll(p + s, p) == RemoveAll(s, p)
  {
    assert (p + s)[..|p|] == p;
    assert (p + s)[|p|..] == s;
  }

  /** `replace(p, "")` keeps, unchanged, a stretch of text in which the first
      character of `p` does not appear. */
  lemma {:induction false} RemoveAllSkipsPlain(a: string, s: string, p: string)
    requires p != [] && forall i :: 0 <= i < |a| ==> a[i] != p[0]
    ensures RemoveAll(a + s, p) == a + RemoveAll(s, p)
    decreases |a|
  {
    if a == [] {
      assert a + s == s;
    } else {
      var t := a + s;
      assert t[0] == a[0];
      assert !StartsWith(t, p);
      assert t[1..] == a[1..] + s;
      RemoveAllSkipsPlain(a[1..], s, p);
      assert a == [a[0]] + a[1..];
    }
  }

  lemma StartsWithIsOccursAtZero(s: string, p: string)
    ensures StartsWith(s, p) <==> OccursAt(s, p, 0)
  {
    if |p| <= |s| {
      assert s[..|p|] == s[0..|p|];
    }
  }

  /** Dropping the first character shifts every occurrence one place left. */
  lemma OccursShift(s: string, p: string, j: nat)
    requires s != []
    ensures OccursAt(s[1..], p, j) <==> OccursAt(s, p, j + 1)
  {
    if j + 1 + |p| <= |s| {
      assert s[1..][j..j + |p|] == s[j + 1..j + 1 + |p|];
    }
  }

  /** Away from a match, `replace` copies the first character and moves on. */
  lemma RemoveAllCopies(s: string, p: string)
    requires p != [] && s != [] && !StartsWith(s, p)
    ensures RemoveAll(s, p) == [s[0]] + RemoveAll(s[1..], p)
  {
  }

  /** Putting the first character back in front of the kept prefix of the rest. */
  lemma PrefixStep(s: string, i: nat, whole: string, tail: string, rest: string, rest': string)
    requires 0 < i <= |s|
    requires whole == [s[0]] + tail && tail == s[1..][..i - 1] + rest' && rest' == rest
    ensures whole == s[..i] + rest
  {
    assert [s[0]] + s[1..][..i - 1] == s[..i];
  }

  /** The first occurrence of `p` at `i > 0` is, after dropping one character, the
      first occurrence at `i - 1`. */
  lemma FirstOccurrenceShift(s: string, p: string, i: nat)
    requires 0 < i && OccursAt(s, p, i)
    requires forall j: nat :: j < i ==> !OccursAt(s, p, j)
    ensures s != [] && !StartsWith(s, p)
    ensures OccursAt(s[1..], p, i - 1)
    ensures forall j: nat :: j < i - 1 ==> !OccursAt(s[1..], p, j)
  {
    StartsWithIsOccursAtZero(s, p);
    OccursShift(s, p, i - 1);
    forall j: nat | j < i - 1 ensures !OccursAt(s[1..], p, j) {
      OccursShift(s, p, j);
    }
  }

  /** `replace(p, "")` keeps everything before the first occurrence of `p`, deletes
      that occurrence, and carries on after it. With `RemoveAbsent` for a text without
      `p`, this determines `RemoveAll` on every input. */
  lemma {:induction false} RemoveAtFirst(s: string, p: string, i: nat)
    requires p != [] && OccursAt(s, p, i)
    requires forall j: nat :: j < i ==> !OccursAt(s, p, j)
    ensures RemoveAll(s, p) == s[..i] + RemoveAll(s[i + |p|..], p)
    decreases i
  {
    if i == 0 {
      StartsWithIsOccursAtZero(s, p);
      assert s[..0] == [];
    } else {
      FirstOccurrenceShift(s, p, i);
      var u := s[1..];
      RemoveAllCopies(s, p);
      RemoveAtFirst(u, p, i - 1);
      var k := i - 1 + |p|;
      assert u[k..] == s[i + |p|..];
      PrefixStep(s, i, RemoveAll(s, p), RemoveAll(u, p), RemoveAll(s[i + |p|..], p), RemoveAll(u[k..], p));
    }
  }

  /** A lone backtick before a fence is not part of it and is kept, as in Python,
      where "`a```".replace("```", "") is "`a". */
  lemma LoneBacktickKept()
    ensures RemoveAll("`a```", Fence) == "`a"
  {
    var s := "`a```";
    assert s[2..5] == Fence;
    assert !OccursAt(s, Fence, 0) by { assert s[0..3][1] == 'a'; }
    assert !OccursAt(s, Fence, 1) by { assert s[1..4][0] == 'a'; }
    RemoveAtFirst(s, Fence, 2);
    assert s[5..] == [];
  }

  /** A reply fenced as a JSON code block, "```json" + body + "```", is cleaned to the
      stripped body when the body holds no backtick: the fences go and nothing else
      of the body is lost. */
  lemma FencedReplyKeepsBody(b: string)
    requires forall i :: 0 <= i < |b| ==> b[i] != '`'
    ensures Clean(JsonFence + b + Fence) == Strip(b)
  {
    var t := JsonFence + b + Fence;
    assert t[0] == '`' && t[|t| - 1] == '`';
    StripTrimmed(t);
    assert t == JsonFence + (b + Fence);
    RemoveAllAtMatch(b + Fence, JsonFence);
    RemoveAllSkipsPlain(b, Fence, JsonFence);
    assert RemoveAll(Fence, JsonFence) == Fence;
    RemoveAllSkipsPlain(b, Fence, Fence);
    assert Fence == Fence + [];
    RemoveAllAtMatch([], Fence);
    assert b + [] == b;
  }
}

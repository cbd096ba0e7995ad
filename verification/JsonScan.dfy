/** The brace scanner over arbitrary model output (internal/selfheal/llm_decider.go:179-199). */
module JsonScan {
  import opened Common

  function Delta(c: char): int { if c == '{' then 1 else if c == '}' then -1 else 0 }

  /** Opening minus closing braces. */
  function Depth(s: string): int {
    if |s| == 0 then 0 else Depth(s[..|s| - 1]) + Delta(s[|s| - 1])
  }

  /** Balanced, and open at every proper non-empty prefix. */
  ghost predicate MinimalObject(o: string) {
    |o| > 0 && o[0] == '{' && Depth(o) == 0 && forall k :: 0 < k < |o| ==> Depth(o[..k]) > 0
  }

  function FirstBrace(s: string): (i: nat)
    ensures i <= |s| && '{' !in s[..i] && (i < |s| ==> s[i] == '{')
  {
    if |s| == 0 || s[0] == '{' then 0
    else
      var i := 1 + FirstBrace(s[1..]);
      assert s[..i] == [s[0]] + s[1..][..i - 1];
      i
  }

  /** Where the brace counter, at `depth` before position i, comes back to zero. */
  function Closing(t: string, i: nat, depth: int): Option<nat>
    requires i <= |t|
    decreases |t| - i
  {
    if i == |t| then None
    else
      var d := depth + Delta(t[i]);
      if t[i] == '}' && d == 0 then Some(i + 1) else Closing(t, i + 1, d)
  }

  function Extract(s: string): string {
    var start := FirstBrace(s);
    var end := Closing(s, start, 0);
    if start < |s| && end.Some? && start <= end.value <= |s| then s[start..end.value] else ""
  }

  method ExtractJSONObject(s: string) returns (r: string)
    ensures r == Extract(s)
  {
    var start := 0;
    while start < |s| && s[start] != '{'
      invariant start <= |s| && FirstBrace(s) == start + FirstBrace(s[start..])
    {
      assert s[start..][1..] == s[start + 1..];
      start := start + 1;
    }
    if start == |s| { return ""; }
    assert FirstBrace(s) == start;
    ClosingInRange(s, start, 0);
    var depth := 0;
    var i := start;
    while i < |s|
      invariant start <= i <= |s| && Closing(s, start, 0) == Closing(s, i, depth)
    {
      if s[i] == '{' {
        depth := depth + 1;
      } else if s[i] == '}' {
        depth := depth - 1;
        if depth == 0 {
          return s[start..i + 1];
        }
      }
      i := i + 1;
    }
    return "";
  }

  lemma {:induction false} ClosingInRange(t: string, i: nat, depth: int)
    requires i <= |t|
    ensures Closing(t, i, depth).Some? ==> i < Closing(t, i, depth).value <= |t|
    decreases |t| - i
  {
    if i < |t| { ClosingInRange(t, i + 1, depth + Delta(t[i])); }
  }

  lemma DepthSnoc(s: string, c: char)
    ensures Depth(s + [c]) == Depth(s) + Delta(c)
  {
    assert (s + [c])[..|s|] == s;
  }

  /** The scan from `start` finds the first prefix at which the depth is back to zero. */
  lemma {:induction false} ClosingIsFirstZero(s: string, start: nat, i: nat, depth: int)
    requires start <= i <= |s| && depth == Depth(s[start..i])
    requires depth > 0 || (i == start < |s| && s[i] == '{')
    ensures match Closing(s, i, depth)
      case None => forall k :: i < k <= |s| ==> Depth(s[start..k]) > 0
      case Some(e) => i < e <= |s| && Depth(s[start..e]) == 0 && forall k :: i < k < e ==> Depth(s[start..k]) > 0
    decreases |s| - i
  {
    if i < |s| {
      assert s[start..i + 1] == s[start..i] + [s[i]];
      DepthSnoc(s[start..i], s[i]);
      var d := depth + Delta(s[i]);
      if !(s[i] == '}' && d == 0) {
        ClosingIsFirstZero(s, start, i + 1, d);
      }
    }
  }

  /** Soundness and completeness: the result is the minimal object starting at the first brace, and it is
      empty exactly when there is no brace or that brace never closes. */
  lemma ExtractCharacterised(s: string)
    ensures var start, r := FirstBrace(s), Extract(s);
      if r != "" then
        start + |r| <= |s| && s[start..start + |r|] == r && MinimalObject(r)
      else
        start == |s| || forall k :: start < k <= |s| ==> Depth(s[start..k]) > 0
  {
    var start, r := FirstBrace(s), Extract(s);
    if start < |s| {
      assert s[start..start] == "";
      ClosingIsFirstZero(s, start, start, 0);
      var end := Closing(s, start, 0);
      if end.Some? {
        assert r == s[start..end.value];
        forall k | 0 < k < |r| ensures Depth(r[..k]) > 0 { assert r[..k] == s[start..start + k]; }
      }
    }
  }

  /** Without an object that closes nothing is extracted. */
  lemma UnclosedIsEmpty(s: string)
    requires var start := FirstBrace(s); start == |s| || forall k :: start < k <= |s| ==> Depth(s[start..k]) > 0
    ensures Extract(s) == ""
  {
    var start := FirstBrace(s);
    if start < |s| {
      assert s[start..start] == "";
      ClosingIsFirstZero(s, start, start, 0);
    }
  }

  /** A string has at most one minimal object as a prefix, so the result is unique. */
  lemma MinimalObjectUnique(t: string, m: nat, n: nat)
    requires m <= |t| && n <= |t| && MinimalObject(t[..m]) && MinimalObject(t[..n])
    ensures m == n
  {
    var k := if m < n then m else n;
    assert t[..n][..k] == t[..k] && t[..m][..k] == t[..k];
  }

  /** Round trip: prose without an opening brace, an object, any tail. */
  lemma ExtractRecovers(pre: string, obj: string, post: string)
    requires '{' !in pre && MinimalObject(obj)
    ensures Extract(pre + obj + post) == obj
  {
    var s := pre + obj + post;
    var start := FirstBrace(s);
    assert s[|pre|] == '{';
    assert forall i :: 0 <= i < |pre| ==> s[i] == pre[i] && pre[i] in pre;
    assert forall i :: 0 <= i < start ==> s[i] == s[..start][i] && s[i] in s[..start];
    assert start == |pre|;
    var t := s[start..];
    assert t[..|obj|] == obj;
    assert s[start..start + |obj|] == obj;
    ExtractCharacterised(s);
    var r := Extract(s);
    assert r != "";
    assert t[..|r|] == r;
    MinimalObjectUnique(t, |r|, |obj|);
  }
}

/** The handful of functions of Go's `strings` package that the operator parses references with. */
module GoStrings {

  /** strings.Index for one character: the first position of `c`, or -1. */
  function IndexByte(s: string, c: char): (i: int)
    ensures -1 <= i < |s|
    ensures i >= 0 ==> s[i] == c && forall k :: 0 <= k < i ==> s[k] != c
    ensures i < 0 <==> c !in s
  {
    if s == "" then -1
    else if s[0] == c then 0
    else
      var rest := IndexByte(s[1..], c);
      if rest < 0 then -1 else rest + 1
  }

  /** strings.LastIndex for one character: the last position of `c`, or -1. */
  function LastIndexByte(s: string, c: char): (i: int)
    ensures -1 <= i < |s|
    ensures i >= 0 ==> s[i] == c
    ensures forall k :: i < k < |s| ==> s[k] != c
    ensures i < 0 <==> c !in s
  {
    if s == "" then -1
    else if s[|s| - 1] == c then |s| - 1
    else LastIndexByte(s[..|s| - 1], c)
  }

  /** strings.Index: the first position at which `sub` occurs in `s`, or -1. */
  function Index(s: string, sub: string): (i: int)
    ensures -1 <= i <= |s| - |sub| || i == -1
    ensures i >= 0 ==> sub <= s[i..] && forall k :: 0 <= k < i ==> !(sub <= s[k..])
    ensures i < 0 ==> forall k :: 0 <= k <= |s| ==> !(sub <= s[k..])
  {
    if sub <= s then 0
    else if s == "" then -1
    else
      var rest := Index(s[1..], sub);
      assert forall k :: 0 < k <= |s| ==> s[k..] == s[1..][k - 1..];
      if rest < 0 then -1 else rest + 1
  }

  /** strings.TrimPrefix. */
  function TrimPrefix(s: string, prefix: string): (r: string)
    ensures if prefix <= s then prefix + r == s else r == s
  {
    if prefix <= s then s[|prefix|..] else s
  }

  lemma AroundMark(a: string, c: char, b: string)
    ensures (a + [c] + b)[..|a|] == a && (a + [c] + b)[|a| + 1..] == b
  {
  }

  /** The first occurrence of `c` in `a + [c] + b` is at |a| when `a` has none. */
  lemma IndexAfter(a: string, c: char, b: string)
    requires c !in a
    ensures IndexByte(a + [c] + b, c) == |a|
    ensures (a + [c] + b)[..|a|] == a && (a + [c] + b)[|a| + 1..] == b
  {
    AroundMark(a, c, b);
    IndexIs(a + [c] + b, c, |a|);
  }

  lemma IndexIs(s: string, c: char, i: nat)
    requires i < |s| && s[i] == c && c !in s[..i]
    ensures IndexByte(s, c) == i
  {
    assert forall k :: 0 <= k < i ==> s[k] == s[..i][k];
  }

  /** The last occurrence of `c` in `a + [c] + b` is at |a| when `b` has none. */
  lemma LastIndexBefore(a: string, c: char, b: string)
    requires c !in b
    ensures LastIndexByte(a + [c] + b, c) == |a|
    ensures (a + [c] + b)[..|a|] == a && (a + [c] + b)[|a| + 1..] == b
  {
    AroundMark(a, c, b);
    LastIndexIs(a + [c] + b, c, |a|);
  }

  lemma LastIndexIs(s: string, c: char, i: nat)
    requires i < |s| && s[i] == c && c !in s[i + 1..]
    ensures LastIndexByte(s, c) == i
  {
    assert forall k :: i < k < |s| ==> s[k] == s[i + 1..][k - i - 1];
  }

  /** Appending text without `c` does not move the last occurrence of `c`. */
  lemma LastIndexAppend(a: string, c: char, b: string)
    requires c !in b
    ensures LastIndexByte(a + b, c) == LastIndexByte(a, c)
  {
    var s := a + b;
    assert forall k :: 0 <= k < |a| ==> s[k] == a[k];
    assert forall k :: |a| <= k < |s| ==> s[k] == b[k - |a|];
  }
}

/**
 The few string operations of the Go standard library that the command capture uses.  A Go string is
 a sequence of bytes: here one `char` stands for one byte.
 */
module Text {

  /** strings.IndexByte: the position of the first `c`, or -1. */
  function IndexOf(s: string, c: char): (k: int)
    ensures -1 <= k < |s|
    ensures k >= 0 ==> s[k] == c && c !in s[..k]
    ensures k < 0 ==> c !in s
  {
    if s == "" then -1
    else if s[0] == c then 0
    else
      var k := IndexOf(s[1..], c);
      if k < 0 then -1 else k + 1
  }

  /** The first occurrence is determined by the part before it. */
  lemma {:induction false} IndexOfUnique(s: string, c: char, k: nat)
    requires k < |s| && s[k] == c && c !in s[..k]
    ensures IndexOf(s, c) == k
  {
    if k > 0 {
      assert s[..k][0] == s[0];
      assert s[1..][..k - 1] == s[..k][1..];
      IndexOfUnique(s[1..], c, k - 1);
    }
  }

  /** strings.HasSuffix */
  predicate HasSuffix(s: string, suffix: string) {
    |s| >= |suffix| && s[|s| - |suffix|..] == suffix
  }

  lemma SuffixLast(s: string, suffix: string)
    requires HasSuffix(s, suffix) && suffix != ""
    ensures s[|s| - 1] == suffix[|suffix| - 1]
  {
    assert s[|s| - |suffix|..][|suffix| - 1] == s[|s| - 1];
  }

  /** strings.LastIndexAny: the position of the last character of `s` that occurs in `chars`, or -1. */
  function LastIndexAny(s: string, chars: string): (k: int)
    ensures -1 <= k < |s|
    ensures k >= 0 ==> s[k] in chars
    ensures forall j :: k < j < |s| ==> s[j] !in chars
  {
    if s == "" then -1
    else if s[|s| - 1] in chars then |s| - 1
    else LastIndexAny(s[..|s| - 1], chars)
  }
}

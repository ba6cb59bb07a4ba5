/** Cutting the command line at a UTF-8 boundary (signing_context.go, lines 47 and 151-160). */
module Truncation {

  const MAX_COMMAND_LEN: nat := 32767

  /** utf8.RuneStart: every byte but the continuation bytes 10xxxxxx. */
  predicate RuneStart(b: char) {
    !(0x80 <= b as int < 0xC0)
  }

  predicate In(b: char, lo: int, hi: int) {
    lo <= b as int <= hi
  }

  /**
   The length of the UTF-8 sequence that `s` starts with, 0 when there is none.
   The well-formed byte sequences are those of section 4 of RFC 3629.
   */
  function RuneLen(s: string): (n: nat)
    ensures n <= 4 && n <= |s|
  {
    if s == "" then 0
    else if In(s[0], 0x00, 0x7F) then 1
    else if |s| < 2 then 0
    else if In(s[0], 0xC2, 0xDF) && In(s[1], 0x80, 0xBF) then 2
    else if |s| < 3 || !In(s[2], 0x80, 0xBF) then 0
    else if || (In(s[0], 0xE0, 0xE0) && In(s[1], 0xA0, 0xBF))
            || (In(s[0], 0xE1, 0xEC) && In(s[1], 0x80, 0xBF))
            || (In(s[0], 0xED, 0xED) && In(s[1], 0x80, 0x9F))
            || (In(s[0], 0xEE, 0xEF) && In(s[1], 0x80, 0xBF)) then 3
    else if |s| < 4 || !In(s[3], 0x80, 0xBF) then 0
    else if || (In(s[0], 0xF0, 0xF0) && In(s[1], 0x90, 0xBF))
            || (In(s[0], 0xF1, 0xF3) && In(s[1], 0x80, 0xBF))
            || (In(s[0], 0xF4, 0xF4) && In(s[1], 0x80, 0x8F)) then 4
    else 0
  }

  predicate ValidUtf8(s: string) {
    s == "" || (RuneLen(s) > 0 && ValidUtf8(s[RuneLen(s)..]))
  }

  /** The position the loop of truncateCommand stops at when it starts from `cut`. */
  function CutFrom(s: string, cut: nat): (k: nat)
    requires cut < |s|
    ensures k <= cut
    ensures k == 0 || RuneStart(s[k])
    ensures forall j :: k < j <= cut ==> !RuneStart(s[j])
  {
    if cut > 0 && !RuneStart(s[cut]) then CutFrom(s, cut - 1) else cut
  }

  function Truncated(s: string): string {
    if |s| <= MAX_COMMAND_LEN then s else s[..CutFrom(s, MAX_COMMAND_LEN)]
  }

  method TruncateCommand(command: string) returns (r: string)
    ensures r == Truncated(command)
  {
    if |command| <= MAX_COMMAND_LEN {
      return command;
    }
    var cut := MAX_COMMAND_LEN;
    while cut > 0 && !RuneStart(command[cut])
      invariant 0 <= cut < |command|
      invariant CutFrom(command, MAX_COMMAND_LEN) == CutFrom(command, cut)
    {
      cut := cut - 1;
    }
    return command[..cut];
  }

  /** A rune decides its own length: what follows it does not matter, and it starts with its only start byte. */
  lemma RuneShape(s: string, k: nat)
    requires RuneLen(s) > 0 && k <= |s|
    ensures RuneStart(s[0])
    ensures 0 < k < RuneLen(s) ==> !RuneStart(s[k]) && RuneLen(s[..k]) == 0
    ensures RuneLen(s) <= k ==> RuneLen(s[..k]) == RuneLen(s)
  {
  }

  /** In valid UTF-8 the valid prefixes are exactly those that end before a start byte. */
  lemma {:induction false} ValidPrefix(s: string, k: nat)
    requires ValidUtf8(s) && k <= |s|
    ensures ValidUtf8(s[..k]) <==> k == |s| || RuneStart(s[k])
  {
    if s != "" {
      var n := RuneLen(s);
      RuneShape(s, k);
      if k >= n {
        ValidPrefix(s[n..], k - n);
        assert s[..k][n..] == s[n..][..k - n];
      } else if k > 0 {
        assert s[..k] != "" && RuneLen(s[..k]) == 0;
      }
    }
  }

  /** In valid UTF-8 every window of four bytes holds a start byte. */
  lemma {:induction false} StartNearby(s: string, k: nat) returns (j: nat)
    requires ValidUtf8(s) && k < |s|
    ensures k - 3 <= j <= k && RuneStart(s[j])
  {
    var n := RuneLen(s);
    if k < n {
      RuneShape(s, 0);
      j := 0;
    } else {
      j := StartNearby(s[n..], k - n);
      j := j + n;
    }
  }

  /** On valid UTF-8 the cut is the best possible: valid, within the limit, and no valid prefix is longer. */
  lemma TruncationIsMaximal(s: string)
    requires ValidUtf8(s)
    ensures var r := Truncated(s);
            && r <= s && ValidUtf8(r) && |r| <= 32767
            && (forall k :: |r| < k <= 32767 && k <= |s| ==> !ValidUtf8(s[..k]))
            && (|s| > 32767 ==> |r| >= 32767 - 3)
  {
    if |s| > MAX_COMMAND_LEN {
      var cut := CutFrom(s, MAX_COMMAND_LEN);
      var near := StartNearby(s, MAX_COMMAND_LEN);
      assert cut >= near;
      ValidPrefix(s, cut);
      forall k | cut < k <= MAX_COMMAND_LEN
        ensures !ValidUtf8(s[..k])
      {
        ValidPrefix(s, k);
      }
    }
  }

  /** On arbitrary bytes the result is still a prefix within the limit, and a short line is kept whole. */
  lemma TruncationIsBounded(s: string)
    ensures Truncated(s) <= s && |Truncated(s)| <= 32767
    ensures |s| <= 32767 <==> Truncated(s) == s
  {
    if |s| > MAX_COMMAND_LEN {
      assert |Truncated(s)| < |s|;
    }
  }
}

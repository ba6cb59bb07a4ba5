/**
 Recovering the argument list of the process from what the operating system reports
 (signing_context_darwin.go, lines 13-51; signing_context_linux.go, lines 11-22).
 `None` stands for falling back to os.Args, and a `None` input for a failed system call.
 */
module Argv {
  import opened Common
  import opened Text

  const NUL := '\0'

  // ------------------------------------------------------------------ Darwin: kern.procargs2

  /** binary.LittleEndian.Uint32 of the first four bytes. */
  function ArgCount(raw: string): nat
    requires |raw| >= 4
  {
    raw[0] as int + 0x100 * raw[1] as int + 0x1_0000 * raw[2] as int + 0x100_0000 * raw[3] as int
  }

  function SkipNuls(rest: string): string {
    if rest != "" && rest[0] == NUL then SkipNuls(rest[1..]) else rest
  }

  /** At most `n` NUL-terminated strings; a last one without terminator counts. */
  function TakeStrings(n: nat, rest: string): seq<string> {
    if n == 0 || rest == "" then []
    else
      var end := IndexOf(rest, NUL);
      if end < 0 then [rest] else [rest[..end]] + TakeStrings(n - 1, rest[end + 1..])
  }

  function DarwinArgs(sysctl: Option<string>): Option<seq<string>> {
    if sysctl.None? || |sysctl.value| < 4 || ArgCount(sysctl.value) == 0 then None
    else
      var rest := sysctl.value[4..];
      var execEnd := IndexOf(rest, NUL);
      if execEnd < 0 then None
      else
        var args := TakeStrings(ArgCount(sysctl.value), SkipNuls(rest[execEnd..]));
        if args == [] then None else Some(args)
  }

  method DarwinCommandLine(sysctl: Option<string>) returns (r: Option<seq<string>>)
    ensures r == DarwinArgs(sysctl)
  {
    if sysctl.None? || |sysctl.value| < 4 {
      return None;
    }
    var raw := sysctl.value;
    var argc := ArgCount(raw);
    if argc <= 0 {
      return None;
    }
    var rest := raw[4..];
    var execEnd := IndexOf(rest, NUL);
    if execEnd < 0 {
      return None;
    }
    rest := rest[execEnd..];
    ghost var padded := rest;
    while |rest| > 0 && rest[0] == NUL
      invariant SkipNuls(rest) == SkipNuls(padded)
    {
      rest := rest[1..];
    }
    ghost var strings := rest;
    var args: seq<string> := [];
    var i := 0;
    while i < argc && |rest| > 0
      invariant 0 <= i <= argc
      invariant args + TakeStrings(argc - i, rest) == TakeStrings(argc, strings)
      decreases |rest|
    {
      var end := IndexOf(rest, NUL);
      if end < 0 {
        args := args + [rest];
        break;
      }
      args := args + [rest[..end]];
      rest := rest[end + 1..];
      i := i + 1;
    }
    assert args == TakeStrings(argc, strings);
    return if |args| == 0 then None else Some(args);
  }

  // ------------------------------------------------------------------ Linux: /proc/self/cmdline

  /** strings.TrimRight(s, "\x00") */
  function TrimNuls(s: string): string {
    if s != "" && s[|s| - 1] == NUL then TrimNuls(s[..|s| - 1]) else s
  }

  /** strings.Split(s, "\x00") */
  function SplitAtNuls(s: string): seq<string> {
    var end := IndexOf(s, NUL);
    if end < 0 then [s] else [s[..end]] + SplitAtNuls(s[end + 1..])
  }

  function LinuxArgs(cmdline: Option<string>): Option<seq<string>> {
    if cmdline.None? || TrimNuls(cmdline.value) == "" then None
    else Some(SplitAtNuls(TrimNuls(cmdline.value)))
  }

  // ------------------------------------------------------------------ what the systems report

  predicate NulFree(args: seq<string>) {
    forall i :: 0 <= i < |args| ==> NUL !in args[i]
  }

  /** Each argument followed by a NUL: the whole of /proc/self/cmdline. */
  function CStrings(args: seq<string>): string {
    if args == [] then "" else args[0] + [NUL] + CStrings(args[1..])
  }

  function LittleEndian32(n: nat): (b: string)
    requires n < 0x1_0000_0000
    ensures |b| == 4 && ArgCount(b) == n
  {
    var n1 := n / 0x100;
    var n2 := n1 / 0x100;
    var n3 := n2 / 0x100;
    assert n == n % 0x100 + 0x100 * n1 && n1 == n1 % 0x100 + 0x100 * n2 && n2 == n2 % 0x100 + 0x100 * n3;
    [(n % 0x100) as char, (n1 % 0x100) as char, (n2 % 0x100) as char, n3 as char]
  }

  /** The count, the executable path, its padding, the arguments, then the environment. */
  function ProcArgs(args: seq<string>, exec: string, padding: nat, environ: string): string
    requires |args| < 0x1_0000_0000
  {
    LittleEndian32(|args|) + exec + seq(padding, _ => NUL) + CStrings(args) + environ
  }

  // ------------------------------------------------------------------ Darwin recovers argv

  lemma {:induction false} SkipPadding(n: nat, rest: string)
    ensures SkipNuls(seq(n, _ => NUL) + rest) == SkipNuls(rest)
  {
    var s := seq(n, _ => NUL) + rest;
    if n == 0 {
      assert s == rest;
    } else {
      assert s[1..] == seq(n - 1, _ => NUL) + rest;
      SkipPadding(n - 1, rest);
    }
  }

  lemma FirstString(arg: string, rest: string)
    requires NUL !in arg
    ensures IndexOf(arg + [NUL] + rest, NUL) == |arg|
  {
    var s := arg + [NUL] + rest;
    assert s[..|arg|] == arg;
    IndexOfUnique(s, NUL, |arg|);
  }

  lemma {:induction false} TakeAllStrings(args: seq<string>, environ: string)
    requires NulFree(args)
    ensures TakeStrings(|args|, CStrings(args) + environ) == args
  {
    hide IndexOf;
    if args != [] {
      var rest := CStrings(args[1..]) + environ;
      assert CStrings(args) + environ == args[0] + [NUL] + rest;
      FirstString(args[0], rest);
      assert (args[0] + [NUL] + rest)[..|args[0]|] == args[0];
      assert (args[0] + [NUL] + rest)[|args[0]| + 1..] == rest;
      TakeAllStrings(args[1..], environ);
    }
  }

  lemma SkipNulsStart(s: string)
    ensures SkipNuls(s) != "" ==> SkipNuls(s)[0] != NUL
  {
  }

  lemma FirstTaken(n: nat, s: string)
    requires s == "" || s[0] != NUL
    ensures TakeStrings(n, s) == [] || TakeStrings(n, s)[0] != ""
  {
  }

  /** What the Darwin decoder sees of a well-formed buffer. */
  lemma DarwinParts(args: seq<string>, exec: string, padding: nat, environ: string)
    requires 0 < |args| < 0x1_0000_0000 && NUL !in exec && padding > 0
    ensures DarwinArgs(Some(ProcArgs(args, exec, padding, environ))) ==
            var taken := TakeStrings(|args|, SkipNuls(CStrings(args) + environ));
            if taken == [] then None else Some(taken)
  {
    hide TakeStrings, CStrings, LittleEndian32;
    var raw := ProcArgs(args, exec, padding, environ);
    var n := |args|;
    assert raw[..4] == LittleEndian32(n);
    assert ArgCount(raw) == ArgCount(raw[..4]);
    var tail := CStrings(args) + environ;
    var nuls := seq(padding, _ => NUL);
    assert raw[4..] == exec + [NUL] + (nuls[1..] + tail);
    FirstString(exec, nuls[1..] + tail);
    assert raw[4..][|exec|..] == nuls + tail;
    SkipPadding(padding, tail);
  }

  /** The Darwin decoder returns argv exactly when its first argument is not empty. */
  lemma DarwinRecoversArgv(args: seq<string>, exec: string, padding: nat, environ: string)
    requires 0 < |args| < 0x1_0000_0000 && NulFree(args) && NUL !in exec && padding > 0
    ensures DarwinArgs(Some(ProcArgs(args, exec, padding, environ))) == Some(args) <==> args[0] != ""
  {
    var tail := CStrings(args) + environ;
    DarwinParts(args, exec, padding, environ);
    if args[0] != "" {
      assert tail[0] == args[0][0] && args[0][0] in args[0];
      TakeAllStrings(args, environ);
    } else {
      SkipNulsStart(tail);
      FirstTaken(|args|, SkipNuls(tail));
    }
  }

  // ------------------------------------------------------------------ Linux recovers argv

  lemma {:induction false} CStringsSnoc(args: seq<string>, last: string)
    ensures CStrings(args + [last]) == CStrings(args) + last + [NUL]
  {
    if args == [] {
      assert args + [last] == [last];
    } else {
      assert (args + [last])[1..] == args[1..] + [last];
      CStringsSnoc(args[1..], last);
    }
  }

  lemma {:induction false} SplitAll(args: seq<string>, last: string)
    requires NulFree(args) && NUL !in last
    ensures SplitAtNuls(CStrings(args) + last) == args + [last]
  {
    if args == [] {
      assert CStrings(args) + last == last;
    } else {
      var rest := CStrings(args[1..]) + last;
      assert CStrings(args) + last == args[0] + [NUL] + rest;
      FirstString(args[0], rest);
      assert (args[0] + [NUL] + rest)[..|args[0]|] == args[0];
      assert (args[0] + [NUL] + rest)[|args[0]| + 1..] == rest;
      SplitAll(args[1..], last);
    }
  }

  lemma LastSplit(s: string)
    requires s != "" && s[|s| - 1] != NUL
    ensures var parts := SplitAtNuls(s); |parts| > 0 && parts[|parts| - 1] != ""
    decreases |s|
  {
    var end := IndexOf(s, NUL);
    if end >= 0 {
      assert end < |s| - 1;
      var rest := s[end + 1..];
      assert rest[|rest| - 1] == s[|s| - 1];
      LastSplit(rest);
    }
  }

  lemma TrimNulsEnd(s: string)
    ensures TrimNuls(s) != "" ==> TrimNuls(s)[|TrimNuls(s)| - 1] != NUL
  {
  }

  lemma LinuxKeepsLast(init: seq<string>, last: string)
    requires NulFree(init) && NUL !in last && last != ""
    ensures LinuxArgs(Some(CStrings(init + [last]))) == Some(init + [last])
  {
    CStringsSnoc(init, last);
    var line := CStrings(init) + last;
    assert (line + [NUL])[..|line|] == line;
    assert line[|line| - 1] == last[|last| - 1] && last[|last| - 1] in last;
    assert TrimNuls(line + [NUL]) == line;
    SplitAll(init, last);
  }

  lemma LinuxNeverEndsEmpty(cmdline: Option<string>)
    ensures var r := LinuxArgs(cmdline); r.Some? ==> |r.value| > 0 && r.value[|r.value| - 1] != ""
  {
    if cmdline.Some? && TrimNuls(cmdline.value) != "" {
      TrimNulsEnd(cmdline.value);
      LastSplit(TrimNuls(cmdline.value));
    }
  }

  /** The Linux decoder returns argv exactly when its last argument is not empty. */
  lemma LinuxRecoversArgv(args: seq<string>)
    requires args != [] && NulFree(args)
    ensures LinuxArgs(Some(CStrings(args))) == Some(args) <==> args[|args| - 1] != ""
  {
    var init, last := args[..|args| - 1], args[|args| - 1];
    assert args == init + [last];
    if last != "" {
      LinuxKeepsLast(init, last);
    } else {
      LinuxNeverEndsEmpty(Some(CStrings(args)));
    }
  }

  /** When neither end of argv is empty the two systems report the same arguments. */
  lemma DecodersAgree(args: seq<string>, exec: string, padding: nat, environ: string)
    requires 0 < |args| < 0x1_0000_0000 && NulFree(args) && NUL !in exec && padding > 0
    requires args[0] != "" && args[|args| - 1] != ""
    ensures DarwinArgs(Some(ProcArgs(args, exec, padding, environ))) == LinuxArgs(Some(CStrings(args))) == Some(args)
  {
    DarwinRecoversArgv(args, exec, padding, environ);
    LinuxRecoversArgv(args);
  }
}

/** Rendering an argument list as one line, and reading it back (signing_context.go, lines 136-149). */
module CommandLine {

  predicate HasBlank(arg: string) {
    ' ' in arg || '\t' in arg
  }

  function Rendered(arg: string): string {
    if arg == "" then "\"\""
    else if HasBlank(arg) then "\"" + arg + "\""
    else arg
  }

  /** strings.Join(parts, " ") */
  function JoinWithSpaces(parts: seq<string>): string {
    if parts == [] then ""
    else if |parts| == 1 then parts[0]
    else parts[0] + " " + JoinWithSpaces(parts[1..])
  }

  function RenderedAll(args: seq<string>): seq<string> {
    seq(|args|, i requires 0 <= i < |args| => Rendered(args[i]))
  }

  function Joined(args: seq<string>): string {
    JoinWithSpaces(RenderedAll(args))
  }

  method JoinCommandArgs(args: seq<string>) returns (line: string)
    ensures line == Joined(args)
  {
    var rendered := new string[|args|];
    for i := 0 to |args|
      invariant forall j :: 0 <= j < i ==> rendered[j] == Rendered(args[j])
    {
      var arg := args[i];
      if arg == "" {
        rendered[i] := "\"\"";
      } else if ' ' in arg || '\t' in arg {
        rendered[i] := "\"" + arg + "\"";
      } else {
        rendered[i] := arg;
      }
    }
    assert rendered[..] == RenderedAll(args);
    line := JoinWithSpaces(rendered[..]);
  }

  // ------------------------------------------------------------------ reading a line back

  /**
   A shell-like reader: blanks outside quotes end a token, a quote switches quoting on or off.
   `token` is what has been read of the current token, `started` whether there is one.
   */
  function Tokens(line: string, token: string, started: bool, quoted: bool): seq<string> {
    if line == "" then
      if started then [token] else []
    else if line[0] == '"' then
      Tokens(line[1..], token, true, !quoted)
    else if (line[0] == ' ' || line[0] == '\t') && !quoted then
      (if started then [token] else []) + Tokens(line[1..], "", false, false)
    else
      Tokens(line[1..], token + [line[0]], true, quoted)
  }

  function Tokenised(line: string): seq<string> {
    Tokens(line, "", false, false)
  }

  predicate QuoteFree(args: seq<string>) {
    forall i :: 0 <= i < |args| ==> '"' !in args[i]
  }

  /** A run of ordinary characters is added to the current token. */
  lemma {:induction false} TokensOfRun(run: string, rest: string, token: string, started: bool, quoted: bool)
    requires '"' !in run && (quoted || !HasBlank(run))
    ensures Tokens(run + rest, token, started, quoted) == Tokens(rest, token + run, started || run != "", quoted)
  {
    if run == "" {
      assert run + rest == rest && token + run == token;
    } else {
      assert (run + rest)[0] == run[0] && (run + rest)[1..] == run[1..] + rest;
      assert token + [run[0]] + run[1..] == token + run;
      TokensOfRun(run[1..], rest, token + [run[0]], true, quoted);
    }
  }

  /** A rendered argument followed by the end of the line or a space reads back as that argument. */
  lemma TokensOfRendered(arg: string, rest: string)
    requires '"' !in arg && (rest == "" || rest[0] == ' ')
    ensures Tokens(Rendered(arg) + rest, "", false, false) ==
            [arg] + (if rest == "" then [] else Tokens(rest[1..], "", false, false))
  {
    hide HasBlank;
    assert "" + arg == arg;
    if arg == "" || HasBlank(arg) {
      TokensOfQuoted(arg, rest);
    } else {
      TokensOfRun(arg, rest, "", false, false);
    }
  }

  lemma TokensOfQuoted(arg: string, rest: string)
    requires '"' !in arg && (rest == "" || rest[0] == ' ')
    ensures Tokens("\"" + arg + "\"" + rest, "", false, false) ==
            [arg] + (if rest == "" then [] else Tokens(rest[1..], "", false, false))
  {
    hide HasBlank;
    var line := "\"" + arg + "\"" + rest;
    assert line[1..] == arg + ("\"" + rest);
    TokensOfRun(arg, "\"" + rest, "", true, true);
    assert ("\"" + rest)[1..] == rest && "" + arg == arg;
  }

  /** Reading the joined line gives back the arguments, empty and blank-bearing ones included. */
  lemma {:induction false} QuoteFreeReadsBack(args: seq<string>)
    requires QuoteFree(args)
    ensures Tokenised(Joined(args)) == args
  {
    if args != [] {
      var parts := RenderedAll(args);
      var tail := args[1..];
      QuoteFreeReadsBack(tail);
      assert parts[1..] == RenderedAll(tail);
      if |args| == 1 {
        assert Joined(args) == Rendered(args[0]) + "";
        TokensOfRendered(args[0], "");
      } else {
        var rest := " " + Joined(tail);
        assert Joined(args) == Rendered(args[0]) + rest;
        assert rest[1..] == Joined(tail);
        TokensOfRendered(args[0], rest);
      }
    }
  }

  /** A quote is never part of a token. */
  lemma {:induction false} TokensAreQuoteFree(line: string, token: string, started: bool, quoted: bool)
    requires '"' !in token
    ensures QuoteFree(Tokens(line, token, started, quoted))
    decreases |line|
  {
    if line != "" {
      if line[0] == '"' {
        TokensAreQuoteFree(line[1..], token, true, !quoted);
      } else if (line[0] == ' ' || line[0] == '\t') && !quoted {
        TokensAreQuoteFree(line[1..], "", false, false);
      } else {
        TokensAreQuoteFree(line[1..], token + [line[0]], true, quoted);
      }
    }
  }

  /** Every argument comes back as one token, the line as the whole list, exactly when no argument contains a quote. */
  lemma JoinThenTokenise(args: seq<string>)
    ensures Tokenised(Joined(args)) == args <==> QuoteFree(args)
  {
    TokensAreQuoteFree(Joined(args), "", false, false);
    if QuoteFree(args) {
      QuoteFreeReadsBack(args);
    }
  }

  /** Distinct quote-free argument lists are reported as distinct lines. */
  lemma JoinIsInjective(a: seq<string>, b: seq<string>)
    requires QuoteFree(a) && QuoteFree(b) && Joined(a) == Joined(b)
    ensures a == b
  {
    JoinThenTokenise(a);
    JoinThenTokenise(b);
  }

  /** Quotes are not escaped: no reader could tell these two lists apart. */
  lemma QuotesCollide()
    ensures Joined(["a b"]) == Joined(["\"a", "b\""])
  {
    var split := ["\"a", "b\""];
    assert RenderedAll(["a b"]) == [Rendered("a b")];
    assert RenderedAll(split) == [Rendered(split[0]), Rendered(split[1])];
    assert RenderedAll(split)[1..] == [split[1]];
    assert ' ' in "a b" by { assert "a b"[1] == ' '; }
  }
}

/** Removing credential values from a command line (signing_context.go, lines 49-134). */
module Redaction {
  import opened Text
  import opened Secrets

  const REDACTED_VALUE := "***"

  const SECRET_COMMAND_FLAGS: set<string> :=
    {"storepass", "keypass", "pass", "passin", "passout", "password", "passphrase", "pin", "p", "pw"}

  // strings.ToLower is the parameter `lower`: Unicode case mapping is not spelled out, and what is
  // proved holds for every such function (for some results, every one that keeps a "***" suffix).

  function FlagName(lower: string -> string, token: string): string {
    if "--" <= token then lower(token[2..])
    else if "-" <= token || "/" <= token then lower(token[1..])
    else ""
  }

  predicate HasSecretSuffix(name: string) {
    HasSuffix(name, "password") || HasSuffix(name, "passphrase") || HasSuffix(name, "passwd")
  }

  predicate IsSecretFlagName(name: string, hasInlineValue: bool) {
    if name == "" then false
    else if name in SECRET_COMMAND_FLAGS || HasSecretSuffix(name) then true
    else if !hasInlineValue then false
    else
      var subKey := name[LastIndexAny(name, ":._") + 1..];
      subKey in SECRET_COMMAND_FLAGS || HasSecretSuffix(subKey)
  }

  /** strings.Cut(arg, "="): whether there is a `=`, and what stands before it. */
  predicate HasInlineValue(arg: string) {
    IndexOf(arg, '=') >= 0
  }

  function KeyOf(arg: string): string {
    if HasInlineValue(arg) then arg[..IndexOf(arg, '=')] else arg
  }

  function NameOf(lower: string -> string, arg: string): string {
    var name := FlagName(lower, KeyOf(arg));
    if name == "" && HasInlineValue(arg) then lower(KeyOf(arg)) else name
  }

  predicate IsSecret(lower: string -> string, arg: string) {
    IsSecretFlagName(NameOf(lower, arg), HasInlineValue(arg))
  }

  /** A secret flag that carries no value of its own: the next argument is its value. */
  predicate AwaitsValue(lower: string -> string, arg: string) {
    IsSecret(lower, arg) && !HasInlineValue(arg)
  }

  /** "-pass:secret": a secret flag name before the first colon. */
  predicate HasSecretPrefix(lower: string -> string, arg: string) {
    var colon := IndexOf(arg, ':');
    colon > 0 && !HasInlineValue(arg) && IsSecretFlagName(FlagName(lower, arg[..colon]), false)
  }

  /** What one argument becomes, given only whether the argument before it awaits a value. */
  function RedactedArg(lower: string -> string, awaited: bool, arg: string): string {
    if IsSecret(lower, arg) then
      if HasInlineValue(arg) then KeyOf(arg) + "=" + REDACTED_VALUE else arg
    else if awaited then REDACTED_VALUE
    else if HasSecretPrefix(lower, arg) then arg[..IndexOf(arg, ':') + 1] + REDACTED_VALUE
    else arg
  }

  predicate Awaited(lower: string -> string, args: seq<string>, i: nat)
    requires i < |args|
  {
    i > 0 && AwaitsValue(lower, args[i - 1])
  }

  /** The stateless rule: output i is decided by inputs i-1 and i alone. */
  function Redacted(lower: string -> string, args: seq<string>): seq<string> {
    seq(|args|, i requires 0 <= i < |args| => RedactedArg(lower, Awaited(lower, args, i), args[i]))
  }

  /** The loop of the program, whose carried flag is here shown to be a function of one input. */
  method RedactCommandArgs(lower: string -> string, args: seq<string>) returns (redacted: seq<string>)
    ensures |redacted| == |args|
    ensures redacted == Redacted(lower, args)
  {
    hide IsSecretFlagName, FlagName;
    redacted := args;
    ghost var rule := Redacted(lower, args);
    var redactValue := false;
    for i := 0 to |redacted|
      invariant |redacted| == |args|
      invariant forall j :: i <= j < |args| ==> redacted[j] == args[j]
      invariant forall j :: 0 <= j < i ==> redacted[j] == rule[j]
      invariant redactValue == (i > 0 && AwaitsValue(lower, args[i - 1]))
    {
      var arg := redacted[i];
      assert rule[i] == RedactedArg(lower, redactValue, arg);
      var key, hasInlineValue := KeyOf(arg), HasInlineValue(arg);
      var name := FlagName(lower, key);
      if name == "" && hasInlineValue {
        name := lower(key);
      }
      var isSecret := IsSecretFlagName(name, hasInlineValue);
      if redactValue {
        redactValue := false;
        if !isSecret {
          redacted := redacted[i := REDACTED_VALUE];
          continue;
        }
      }
      if isSecret {
        if hasInlineValue {
          redacted := redacted[i := key + "=" + REDACTED_VALUE];
        } else {
          redactValue := true;
        }
        continue;
      }
      var colon := IndexOf(arg, ':');
      if colon > 0 && !hasInlineValue {
        var prefix := FlagName(lower, arg[..colon]);
        if IsSecretFlagName(prefix, false) {
          redacted := redacted[i := arg[..colon + 1] + REDACTED_VALUE];
        }
      }
    }
  }

  // ------------------------------------------------------------------ non-interference

  /** Two arguments that differ, if at all, only inside a part that the rule hides. */
  predicate ArgAlikeForRule(lower: string -> string, awaited: bool, a: string, b: string) {
    || a == b
    // a non-flag value right after a secret flag
    || (awaited && !IsSecret(lower, a) && !IsSecret(lower, b))
    // the text after '=' of a secret key
    || (HasInlineValue(a) && HasInlineValue(b) && KeyOf(a) == KeyOf(b) && IsSecret(lower, a))
    // the text after the first ':' of a secret prefix
    || (HasSecretPrefix(lower, a) && HasSecretPrefix(lower, b) && !IsSecret(lower, a) && !IsSecret(lower, b)
        && IndexOf(a, ':') == IndexOf(b, ':') && a[..IndexOf(a, ':')] == b[..IndexOf(b, ':')])
  }

  ghost predicate AlikeForRule(lower: string -> string, a: seq<string>, b: seq<string>) {
    |a| == |b| &&
    forall i :: 0 <= i < |a| ==> ArgAlikeForRule(lower, Awaited(lower, a, i), a[i], b[i])
  }

  /** Two arguments with `=` after the same key. */
  lemma SameKeyRedacts(lower: string -> string, awaited: bool, a: string, b: string)
    requires HasInlineValue(a) && HasInlineValue(b) && KeyOf(a) == KeyOf(b)
    ensures IsSecret(lower, a) == IsSecret(lower, b) && AwaitsValue(lower, a) == AwaitsValue(lower, b)
    ensures IsSecret(lower, a) ==> RedactedArg(lower, awaited, a) == RedactedArg(lower, awaited, b)
  {
    hide IsSecretFlagName, FlagName, HasInlineValue, KeyOf;
  }

  /** Two arguments with `:` after the same secret prefix. */
  lemma SamePrefixRedacts(lower: string -> string, awaited: bool, a: string, b: string)
    requires HasSecretPrefix(lower, a) && HasSecretPrefix(lower, b) && !IsSecret(lower, a) && !IsSecret(lower, b)
    requires IndexOf(a, ':') == IndexOf(b, ':') && a[..IndexOf(a, ':')] == b[..IndexOf(b, ':')]
    ensures RedactedArg(lower, awaited, a) == RedactedArg(lower, awaited, b)
  {
    hide IsSecretFlagName, FlagName, IsSecret, HasInlineValue, IndexOf;
    var colon := IndexOf(a, ':');
    assert a[..colon + 1] == a[..colon] + ":";
    assert b[..colon + 1] == b[..colon] + ":";
  }

  lemma SameArgRedacts(lower: string -> string, awaited: bool, a: string, b: string)
    requires ArgAlikeForRule(lower, awaited, a, b)
    ensures RedactedArg(lower, awaited, a) == RedactedArg(lower, awaited, b)
    ensures AwaitsValue(lower, a) == AwaitsValue(lower, b)
  {
    hide IsSecret, HasSecretPrefix, HasInlineValue, KeyOf, IndexOf;
    if a == b || (awaited && !IsSecret(lower, a) && !IsSecret(lower, b)) {
    } else if HasInlineValue(a) && HasInlineValue(b) && KeyOf(a) == KeyOf(b) && IsSecret(lower, a) {
      SameKeyRedacts(lower, awaited, a, b);
    } else {
      SamePrefixRedacts(lower, awaited, a, b);
    }
  }

  lemma AlikeAreRedactedAlike(lower: string -> string, a: seq<string>, b: seq<string>)
    requires AlikeForRule(lower, a, b)
    ensures Redacted(lower, a) == Redacted(lower, b)
  {
    hide RedactedArg, AwaitsValue, ArgAlikeForRule;
    forall i | 0 <= i < |a|
      ensures Redacted(lower, a)[i] == Redacted(lower, b)[i]
    {
      SameArgRedacts(lower, Awaited(lower, a, i), a[i], b[i]);
      if i > 0 {
        SameArgRedacts(lower, Awaited(lower, a, i - 1), a[i - 1], b[i - 1]);
      }
    }
  }

  // ------------------------------------------------------------------ idempotence

  /** Lower-casing never touches a trailing "***": it maps characters one by one. */
  ghost predicate KeepsStars(lower: string -> string) {
    forall x :: lower(x + REDACTED_VALUE) == lower(x) + REDACTED_VALUE
  }

  lemma StarredIsNotSecret(x: string)
    ensures !IsSecretFlagName(x + REDACTED_VALUE, false)
  {
    var name := x + REDACTED_VALUE;
    assert name[|name| - 1] == '*';
    assert forall f | f in SECRET_COMMAND_FLAGS :: f[|f| - 1] != '*';
    forall suffix | HasSuffix(name, suffix) && suffix != ""
      ensures suffix[|suffix| - 1] == '*'
    {
      SuffixLast(name, suffix);
    }
  }

  /** A flag-like token that ends in "***" names no secret flag. */
  lemma StarredFlagIsNotSecret(lower: string -> string, kept: string)
    requires KeepsStars(lower) && |kept| >= 2
    ensures !IsSecretFlagName(FlagName(lower, kept + REDACTED_VALUE), false)
  {
    hide IsSecretFlagName;
    var r := kept + REDACTED_VALUE;
    EmptyIsNotSecret();
    assert r[..2] == kept[..2];
    assert r[1..] == kept[1..] + REDACTED_VALUE && r[2..] == kept[2..] + REDACTED_VALUE;
    StarredIsNotSecret(lower(kept[1..]));
    StarredIsNotSecret(lower(kept[2..]));
  }

  lemma EmptyIsNotSecret()
    ensures !IsSecretFlagName("", false)
  {
  }

  lemma PrefixRedactionIsStable(lower: string -> string, arg: string)
    requires KeepsStars(lower)
    requires HasSecretPrefix(lower, arg)
    ensures var r := arg[..IndexOf(arg, ':') + 1] + REDACTED_VALUE;
            !IsSecret(lower, r) && HasSecretPrefix(lower, r) && IndexOf(r, ':') == IndexOf(arg, ':') &&
            r[..IndexOf(r, ':') + 1] == arg[..IndexOf(arg, ':') + 1]
  {
    hide IsSecretFlagName, FlagName;
    var colon := IndexOf(arg, ':');
    var kept := arg[..colon + 1];
    var r := kept + REDACTED_VALUE;
    assert r[..colon] == arg[..colon];
    IndexOfUnique(r, ':', colon);
    assert '=' !in r;
    StarredFlagIsNotSecret(lower, kept);
  }

  lemma InlineRedactionIsStable(lower: string -> string, arg: string)
    requires HasInlineValue(arg)
    ensures var r := KeyOf(arg) + "=" + REDACTED_VALUE;
            HasInlineValue(r) && KeyOf(r) == KeyOf(arg) && IsSecret(lower, r) == IsSecret(lower, arg)
  {
    var r := KeyOf(arg) + "=" + REDACTED_VALUE;
    assert r[..|KeyOf(arg)|] == KeyOf(arg);
    IndexOfUnique(r, '=', |KeyOf(arg)|);
  }

  lemma StarsAreNotSecret(lower: string -> string)
    ensures !IsSecret(lower, REDACTED_VALUE) && !HasSecretPrefix(lower, REDACTED_VALUE)
    ensures !HasInlineValue(REDACTED_VALUE)
  {
    assert '=' !in REDACTED_VALUE && ':' !in REDACTED_VALUE;
  }

  lemma RedactedArgIsStable(lower: string -> string, awaited: bool, arg: string)
    requires KeepsStars(lower)
    ensures var r := RedactedArg(lower, awaited, arg);
            RedactedArg(lower, awaited, r) == r && AwaitsValue(lower, r) == AwaitsValue(lower, arg)
  {
    StarsAreNotSecret(lower);
    if IsSecret(lower, arg) {
      if HasInlineValue(arg) {
        InlineRedactionIsStable(lower, arg);
      }
    } else if !awaited && HasSecretPrefix(lower, arg) {
      PrefixRedactionIsStable(lower, arg);
    }
  }

  /** Redacting a redacted command line changes nothing. */
  lemma RedactionIsIdempotent(lower: string -> string, args: seq<string>)
    requires KeepsStars(lower)
    ensures Redacted(lower, Redacted(lower, args)) == Redacted(lower, args)
  {
    hide RedactedArg, AwaitsValue;
    var once := Redacted(lower, args);
    forall i | 0 <= i < |args|
      ensures Redacted(lower, once)[i] == once[i]
    {
      RedactedArgIsStable(lower, Awaited(lower, args, i), args[i]);
      if i > 0 {
        RedactedArgIsStable(lower, Awaited(lower, args, i - 1), args[i - 1]);
      }
    }
  }

  // ------------------------------------------------------------------ nothing else is hidden

  /** What the reported argument still tells about the original one. */
  lemma RedactedArgTells(lower: string -> string, awaited: bool, arg: string)
    requires KeepsStars(lower)
    ensures var r := RedactedArg(lower, awaited, arg);
            && IsSecret(lower, r) == IsSecret(lower, arg)
            && (IsSecret(lower, arg) ==> HasInlineValue(r) == HasInlineValue(arg) && KeyOf(r) == KeyOf(arg))
            && (!IsSecret(lower, arg) && !awaited ==>
                  && HasSecretPrefix(lower, r) == HasSecretPrefix(lower, arg)
                  && if HasSecretPrefix(lower, arg) then
                       IndexOf(r, ':') == IndexOf(arg, ':') && r[..IndexOf(r, ':')] == arg[..IndexOf(arg, ':')]
                     else r == arg)
  {
    hide IsSecret, HasSecretPrefix, HasInlineValue, KeyOf, IndexOf;
    StarsAreNotSecret(lower);
    if IsSecret(lower, arg) {
      if HasInlineValue(arg) {
        InlineRedactionIsStable(lower, arg);
      }
    } else if !awaited && HasSecretPrefix(lower, arg) {
      PrefixRedactionIsStable(lower, arg);
      KeptPrefix(arg);
    }
  }

  lemma KeptPrefix(arg: string)
    requires IndexOf(arg, ':') >= 0
    ensures (arg[..IndexOf(arg, ':') + 1] + REDACTED_VALUE)[..IndexOf(arg, ':')] == arg[..IndexOf(arg, ':')]
  {
    hide IndexOf;
  }

  lemma SameRedactedArg(lower: string -> string, awaited: bool, a: string, b: string)
    requires KeepsStars(lower)
    requires RedactedArg(lower, awaited, a) == RedactedArg(lower, awaited, b)
    ensures ArgAlikeForRule(lower, awaited, a, b)
  {
    RedactedArgTells(lower, awaited, a);
    RedactedArgTells(lower, awaited, b);
  }

  lemma RedactedAlikeAreAlike(lower: string -> string, a: seq<string>, b: seq<string>)
    requires KeepsStars(lower)
    ensures Redacted(lower, a) == Redacted(lower, b) <==> AlikeForRule(lower, a, b)
  {
    hide RedactedArg, AwaitsValue, ArgAlikeForRule;
    if AlikeForRule(lower, a, b) {
      AlikeAreRedactedAlike(lower, a, b);
    }
    if Redacted(lower, a) == Redacted(lower, b) {
      assert |a| == |Redacted(lower, a)| == |b|;
      forall i | 0 <= i < |a|
        ensures ArgAlikeForRule(lower, Awaited(lower, a, i), a[i], b[i])
      {
        assert Redacted(lower, a)[i] == Redacted(lower, b)[i];
        if i > 0 {
          assert Redacted(lower, a)[i - 1] == Redacted(lower, b)[i - 1];
          SameAwaits(lower, Awaited(lower, a, i - 1), Awaited(lower, b, i - 1), a[i - 1], b[i - 1]);
        }
        SameRedactedArg(lower, Awaited(lower, a, i), a[i], b[i]);
      }
    }
  }

  lemma SameAwaits(lower: string -> string, p: bool, q: bool, a: string, b: string)
    requires KeepsStars(lower)
    requires RedactedArg(lower, p, a) == RedactedArg(lower, q, b)
    ensures AwaitsValue(lower, a) == AwaitsValue(lower, b)
  {
    hide RedactedArg, AwaitsValue;
    RedactedArgIsStable(lower, p, a);
    RedactedArgIsStable(lower, q, b);
  }

  // ------------------------------------------------------------------ the rule hides what is a secret by its text

  lemma SuffixIs(name: string, suffix: string)
    ensures HasSuffix(name, suffix) <==> exists front :: name == front + suffix
  {
    if HasSuffix(name, suffix) {
      assert name == name[..|name| - |suffix|] + suffix;
    }
  }

  lemma SecretNames(name: string)
    ensures IsSecretFlagName(name, false) <==> SecretName(name)
  {
    hide HasSuffix;
    SuffixIs(name, "password");
    SuffixIs(name, "passphrase");
    SuffixIs(name, "passwd");
    assert name == "" ==> name !in SECRET_COMMAND_FLAGS;
  }

  lemma Separators(c: char)
    ensures c in ":._" <==> c == ':' || c == '.' || c == '_'
  {
    assert ":._"[0] == ':' && ":._"[1] == '.' && ":._"[2] == '_';
  }

  /** The position `n` of a separator that no other follows is that of the last one. */
  lemma LastSeparator(name: string, n: nat)
    requires n < |name| && name[n] in ":._" && forall j :: n < j < |name| ==> name[j] !in ":._"
    ensures LastIndexAny(name, ":._") == n
  {
    hide LastIndexAny;
  }

  lemma LastPartIsLast(name: string, part: string)
    requires LastPart(name, part)
    ensures LastIndexAny(name, ":._") >= 0 && part == name[LastIndexAny(name, ":._") + 1..]
  {
    hide LastIndexAny;
    var n := |name| - |part| - 1;
    assert name[n + 1..] == part;
    Separators(name[n]);
    forall j | n < j < |name|
      ensures name[j] !in ":._"
    {
      assert name[j] == part[j - n - 1] && part[j - n - 1] in part;
      Separators(name[j]);
    }
    LastSeparator(name, n);
  }

  lemma LastIsLastPart(name: string)
    requires LastIndexAny(name, ":._") >= 0
    ensures LastPart(name, name[LastIndexAny(name, ":._") + 1..])
  {
    hide LastIndexAny;
    var k := LastIndexAny(name, ":._");
    var part := name[k + 1..];
    Separators(name[k]);
    Separators(':');
    Separators('.');
    Separators('_');
    assert name == name[..k] + [name[k]] + part;
  }

  /** The last part of a name that has one. */
  lemma LastParts(name: string, part: string)
    ensures LastPart(name, part) <==> LastIndexAny(name, ":._") >= 0 && part == name[LastIndexAny(name, ":._") + 1..]
  {
    hide LastIndexAny, LastPart;
    if LastPart(name, part) {
      LastPartIsLast(name, part);
    }
    if LastIndexAny(name, ":._") >= 0 {
      LastIsLastPart(name);
    }
  }

  /** With an inline value the last part counts as well. */
  lemma InlineNames(name: string)
    ensures IsSecretFlagName(name, true) <==>
            IsSecretFlagName(name, false) || IsSecretFlagName(name[LastIndexAny(name, ":._") + 1..], false)
  {
    hide HasSuffix, LastIndexAny;
    EmptyHasNoSuffix();
    assert "" !in SECRET_COMMAND_FLAGS;
  }

  lemma EmptyHasNoSuffix()
    ensures !HasSecretSuffix("")
  {
  }

  lemma SecretNamesInline(name: string)
    ensures IsSecretFlagName(name, true) <==>
            SecretName(name) || exists part :: LastPart(name, part) && SecretName(part)
  {
    hide SecretName, LastPart, IsSecretFlagName, LastIndexAny;
    SecretNames(name);
    InlineNames(name);
    var k := LastIndexAny(name, ":._");
    var sub := name[k + 1..];
    SecretNames(sub);
    LastParts(name, sub);
    if k < 0 {
      assert sub == name;
    }
    if part :| LastPart(name, part) && SecretName(part) {
      LastParts(name, part);
    }
  }

  lemma DashDash(token: string, f: string)
    requires token == "-" + f && "--" <= token
    ensures "-" <= f
  {
    assert f == token[1..];
  }

  lemma SecondDash(token: string)
    requires "-" <= token
    ensures "-" <= token[1..] ==> "--" <= token
  {
    if "-" <= token[1..] {
      assert token[..2] == "--";
    }
  }

  lemma FlagNames(lower: string -> string, token: string)
    ensures forall f :: IsFlag(token, f) ==> FlagName(lower, token) == lower(f)
    ensures (forall f :: !IsFlag(token, f)) ==> FlagName(lower, token) == ""
  {
    if "--" <= token {
      assert token == "--" + token[2..];
      assert IsFlag(token, token[2..]);
      forall f | IsFlag(token, f)
        ensures f == token[2..]
      {
        if token == "-" + f {
          DashDash(token, f);
        }
      }
    } else if "-" <= token {
      assert token == "-" + token[1..];
      SecondDash(token);
      assert IsFlag(token, token[1..]);
    } else if "/" <= token {
      assert token == "/" + token[1..];
      assert IsFlag(token, token[1..]);
    }
  }

  lemma SecretFlags(lower: string -> string, token: string)
    ensures IsSecretFlagName(FlagName(lower, token), false) <==> SecretFlag(lower, token)
  {
    hide SecretName, IsFlag, FlagName, IsSecretFlagName;
    FlagNames(lower, token);
    SecretNames(FlagName(lower, token));
    EmptyIsNotSecret();
  }

  lemma KeysNamed(lower: string -> string, key: string, name: string)
    ensures KeyNamed(lower, key, name) <==> name == (if FlagName(lower, key) == "" then lower(key) else FlagName(lower, key))
  {
    hide IsFlag, FlagName;
    FlagNames(lower, key);
  }

  lemma SecretKeys(lower: string -> string, key: string)
    ensures SecretKey(lower, key) <==> IsSecretFlagName(if FlagName(lower, key) == "" then lower(key) else FlagName(lower, key), true)
  {
    hide KeyNamed, FlagName, IsSecretFlagName, SecretName, LastPart;
    var name := if FlagName(lower, key) == "" then lower(key) else FlagName(lower, key);
    SecretNamesInline(name);
    forall n
      ensures KeyNamed(lower, key, n) <==> n == name
    {
      KeysNamed(lower, key, n);
    }
  }

  /** What stands before the first occurrence of a character. */
  lemma FirstCut(arg: string, c: char, key: string)
    ensures c !in key && key + [c] <= arg <==> IndexOf(arg, c) >= 0 && key == arg[..IndexOf(arg, c)]
  {
    var k := IndexOf(arg, c);
    if c !in key && key + [c] <= arg {
      assert arg[|key|] == c && arg[..|key|] == key;
      IndexOfUnique(arg, c, |key|);
    }
    if k >= 0 && key == arg[..k] {
      assert key + [c] == arg[..k + 1];
    }
  }

  /** The tests of the rule are the definitions by text. */
  lemma TestsAreExact(lower: string -> string, arg: string)
    ensures AwaitsValue(lower, arg) <==> AwaitsNext(lower, arg)
    ensures IsSecret(lower, arg) <==> NamesSecret(lower, arg)
    ensures forall key :: InlineSecret(lower, arg, key) <==> IsSecret(lower, arg) && HasInlineValue(arg) && key == KeyOf(arg)
    ensures forall prefix :: PrefixSecret(lower, arg, prefix) <==>
                             HasSecretPrefix(lower, arg) && prefix == arg[..IndexOf(arg, ':')]
  {
    hide SecretFlag, SecretKey, IsSecretFlagName, FlagName, IndexOf;
    SecretFlags(lower, arg);
    SecretKeys(lower, KeyOf(arg));
    assert HasInlineValue(arg) <==> '=' in arg;
    if !HasInlineValue(arg) {
      assert NameOf(lower, arg) == FlagName(lower, arg);
    }
    forall key
      ensures InlineSecret(lower, arg, key) <==> IsSecret(lower, arg) && HasInlineValue(arg) && key == KeyOf(arg)
    {
      FirstCut(arg, '=', key);
    }
    forall prefix
      ensures PrefixSecret(lower, arg, prefix) <==> HasSecretPrefix(lower, arg) && prefix == arg[..IndexOf(arg, ':')]
    {
      FirstCut(arg, ':', prefix);
      SecretFlags(lower, prefix);
      EmptyIsNoFlag(lower);
    }
    if IsSecret(lower, arg) && HasInlineValue(arg) {
      assert InlineSecret(lower, arg, KeyOf(arg));
    }
  }

  lemma EmptyIsNoFlag(lower: string -> string)
    ensures !SecretFlag(lower, "")
  {
  }

  lemma SameIsAlike(lower: string -> string, awaited: bool, a: string, b: string)
    ensures SameButForSecret(lower, awaited, a, b) <==> ArgAlikeForRule(lower, awaited, a, b)
  {
    hide IsSecret, IsSecretFlagName, FlagName, HasInlineValue, KeyOf, IndexOf, NamesSecret, InlineSecret, PrefixSecret, AwaitsNext;
    hide AwaitsValue;
    TestsAreExact(lower, a);
    TestsAreExact(lower, b);
    if HasInlineValue(a) && HasInlineValue(b) && KeyOf(a) == KeyOf(b) && IsSecret(lower, a) {
      SameKeyRedacts(lower, awaited, a, b);
      assert InlineSecret(lower, a, KeyOf(a)) && InlineSecret(lower, b, KeyOf(a));
    }
    if HasSecretPrefix(lower, a) && HasSecretPrefix(lower, b) && IndexOf(a, ':') == IndexOf(b, ':') &&
       a[..IndexOf(a, ':')] == b[..IndexOf(b, ':')] {
      assert PrefixSecret(lower, a, a[..IndexOf(a, ':')]) && PrefixSecret(lower, b, a[..IndexOf(a, ':')]);
    }
    if prefix :| PrefixSecret(lower, a, prefix) && PrefixSecret(lower, b, prefix) {
      PrefixEnds(lower, a, prefix);
      PrefixEnds(lower, b, prefix);
    }
  }

  lemma PrefixEnds(lower: string -> string, arg: string, prefix: string)
    requires PrefixSecret(lower, arg, prefix)
    ensures IndexOf(arg, ':') == |prefix|
  {
    FirstCut(arg, ':', prefix);
  }

  lemma SameAt(lower: string -> string, a: seq<string>, b: seq<string>, i: nat)
    requires |a| == |b| && i < |a|
    ensures SameButForSecret(lower, Expected(lower, a, i), a[i], b[i]) <==>
            ArgAlikeForRule(lower, Awaited(lower, a, i), a[i], b[i])
  {
    hide SameButForSecret, ArgAlikeForRule, AwaitsNext, AwaitsValue;
    if i > 0 {
      TestsAreExact(lower, a[i - 1]);
    }
    SameIsAlike(lower, Awaited(lower, a, i), a[i], b[i]);
  }

  lemma SameAreAlike(lower: string -> string, a: seq<string>, b: seq<string>)
    ensures SameButForSecrets(lower, a, b) <==> AlikeForRule(lower, a, b)
  {
    hide SameButForSecret, ArgAlikeForRule, AwaitsNext, AwaitsValue;
    if SameButForSecrets(lower, a, b) {
      forall i | 0 <= i < |a|
        ensures ArgAlikeForRule(lower, Awaited(lower, a, i), a[i], b[i])
      {
        SameAt(lower, a, b, i);
      }
    }
    if AlikeForRule(lower, a, b) {
      forall i | 0 <= i < |a|
        ensures SameButForSecret(lower, Expected(lower, a, i), a[i], b[i])
      {
        SameAt(lower, a, b, i);
      }
    }
  }

  // ------------------------------------------------------------------ the results

  /** The values of secrets do not influence what is reported. */
  lemma NonInterference(lower: string -> string, a: seq<string>, b: seq<string>)
    requires SameButForSecrets(lower, a, b)
    ensures Redacted(lower, a) == Redacted(lower, b)
  {
    hide SameButForSecrets, AlikeForRule, Redacted;
    SameAreAlike(lower, a, b);
    AlikeAreRedactedAlike(lower, a, b);
  }

  /** Two command lines are reported alike exactly when they differ only inside secrets' values. */
  lemma HidesExactlySecrets(lower: string -> string, a: seq<string>, b: seq<string>)
    requires KeepsStars(lower)
    ensures Redacted(lower, a) == Redacted(lower, b) <==> SameButForSecrets(lower, a, b)
  {
    hide SameButForSecrets, AlikeForRule, Redacted;
    SameAreAlike(lower, a, b);
    RedactedAlikeAreAlike(lower, a, b);
  }

  /** What is reported for one argument, by its text and that of the one before it. */
  ghost predicate Reported(lower: string -> string, awaited: bool, arg: string, out: string) {
    if NamesSecret(lower, arg) then
      if AwaitsNext(lower, arg) then out == arg else exists key :: InlineSecret(lower, arg, key) && out == key + "=***"
    else if awaited then out == "***"
    else if exists prefix :: PrefixSecret(lower, arg, prefix) then
      exists prefix :: PrefixSecret(lower, arg, prefix) && out == prefix + ":***"
    else out == arg
  }

  lemma ReportedArg(lower: string -> string, awaited: bool, arg: string)
    ensures Reported(lower, awaited, arg, RedactedArg(lower, awaited, arg))
  {
    hide IsSecret, IsSecretFlagName, FlagName, HasInlineValue, KeyOf, IndexOf, NamesSecret, InlineSecret, PrefixSecret, AwaitsNext;
    TestsAreExact(lower, arg);
    var out := RedactedArg(lower, awaited, arg);
    if IsSecret(lower, arg) && HasInlineValue(arg) {
      assert InlineSecret(lower, arg, KeyOf(arg));
      assert out == KeyOf(arg) + "=***";
    } else if !IsSecret(lower, arg) && !awaited && HasSecretPrefix(lower, arg) {
      var prefix := arg[..IndexOf(arg, ':')];
      assert PrefixSecret(lower, arg, prefix);
      PrefixEnds(lower, arg, prefix);
      assert arg[..IndexOf(arg, ':') + 1] == prefix + ":";
      assert out == prefix + ":***";
    }
  }

  /** Every argument is reported by its own text and that of the one before it; what is no secret is reported as it is. */
  lemma RedactionRule(lower: string -> string, args: seq<string>, i: nat)
    requires i < |args|
    ensures |Redacted(lower, args)| == |args|
    ensures Reported(lower, Expected(lower, args, i), args[i], Redacted(lower, args)[i])
  {
    hide RedactedArg, AwaitsNext, AwaitsValue, Reported;
    if i > 0 {
      TestsAreExact(lower, args[i - 1]);
    }
    ReportedArg(lower, Awaited(lower, args, i), args[i]);
  }
}

/**
 Which parts of a command line are credential values, said by their text alone (the documentation and the tests of
 signing_context.go promise that these do not survive).  `lower` is the lower-casing of names.
 */
module Secrets {

  /** The names of secrets. */
  ghost predicate SecretName(name: string) {
    || name in {"storepass", "keypass", "pass", "passin", "passout", "password", "passphrase", "pin", "p", "pw"}
    || (exists front :: name == front + "password")
    || (exists front :: name == front + "passphrase")
    || (exists front :: name == front + "passwd")
  }

  /** The token is flag `f`: "--f", "-f" or "/f". */
  ghost predicate IsFlag(token: string, f: string) {
    token == "--" + f || (token == "-" + f && !("-" <= f)) || token == "/" + f
  }

  ghost predicate SecretFlag(lower: string -> string, token: string) {
    exists f :: IsFlag(token, f) && SecretName(lower(f))
  }

  /** A secret flag without "=": the next argument is its value. */
  ghost predicate AwaitsNext(lower: string -> string, arg: string) {
    '=' !in arg && SecretFlag(lower, arg)
  }

  /** The name that a key before "=" stands for: that of the flag, or the key itself. */
  ghost predicate KeyNamed(lower: string -> string, key: string, name: string) {
    || (exists f :: IsFlag(key, f) && lower(f) != "" && name == lower(f))
    || ((forall f :: IsFlag(key, f) ==> lower(f) == "") && name == lower(key))
  }

  /** The part of a dotted name after its last separator. */
  ghost predicate LastPart(name: string, part: string) {
    ':' !in part && '.' !in part && '_' !in part &&
    exists front :: name == front + ":" + part || name == front + "." + part || name == front + "_" + part
  }

  /** A key that names a secret, as a whole or with its last part. */
  ghost predicate SecretKey(lower: string -> string, key: string) {
    exists name :: KeyNamed(lower, key, name) && (SecretName(name) || exists part :: LastPart(name, part) && SecretName(part))
  }

  /** "key=value" with a secret key. */
  ghost predicate InlineSecret(lower: string -> string, arg: string, key: string) {
    '=' !in key && key + "=" <= arg && SecretKey(lower, key)
  }

  ghost predicate NamesSecret(lower: string -> string, arg: string) {
    AwaitsNext(lower, arg) || exists key :: InlineSecret(lower, arg, key)
  }

  /** "-f:value" with a secret flag before the first colon. */
  ghost predicate PrefixSecret(lower: string -> string, arg: string, prefix: string) {
    '=' !in arg && ':' !in prefix && prefix + ":" <= arg && SecretFlag(lower, prefix)
  }

  /** Two arguments that differ, if at all, only inside the value of a secret; `awaited` says that a secret flag precedes. */
  ghost predicate SameButForSecret(lower: string -> string, awaited: bool, a: string, b: string) {
    || a == b
    || (awaited && !NamesSecret(lower, a) && !NamesSecret(lower, b))
    || (exists key :: InlineSecret(lower, a, key) && InlineSecret(lower, b, key))
    || (!NamesSecret(lower, a) && !NamesSecret(lower, b) &&
        exists prefix :: PrefixSecret(lower, a, prefix) && PrefixSecret(lower, b, prefix))
  }

  /** The argument before this one is a secret flag. */
  ghost predicate Expected(lower: string -> string, args: seq<string>, i: nat)
    requires i < |args|
  {
    i > 0 && AwaitsNext(lower, args[i - 1])
  }

  ghost predicate SameButForSecrets(lower: string -> string, a: seq<string>, b: seq<string>) {
    |a| == |b| &&
    forall i :: 0 <= i < |a| ==> SameButForSecret(lower, Expected(lower, a, i), a[i], b[i])
  }

  // ------------------------------------------------------------------ the usual forms

  /** "--f v", "-f v" and "/f v", for a name without "=" and leading dash: `v` is a secret. */
  lemma FlagThenValue(lower: string -> string, f: string, flag: string, before: seq<string>, v: string, w: string, after: seq<string>)
    requires flag in {"--" + f, "-" + f, "/" + f} && !("-" <= f) && '=' !in f && SecretName(lower(f))
    requires !NamesSecret(lower, v) && !NamesSecret(lower, w)
    ensures SameButForSecrets(lower, before + [flag, v] + after, before + [flag, w] + after)
  {
    hide SecretName, NamesSecret;
    assert AwaitsNext(lower, flag) by {
      assert IsFlag(flag, f);
      assert '=' !in flag;
    }
    hide AwaitsNext;
    var a, b := before + [flag, v] + after, before + [flag, w] + after;
    forall i | 0 <= i < |a|
      ensures SameButForSecret(lower, Expected(lower, a, i), a[i], b[i])
    {
      if i == |before| + 1 {
        assert a[i - 1] == flag && a[i] == v && b[i] == w;
      } else {
        assert a[i] == b[i];
      }
    }
  }

  /** "--f=v" and "f=v": `v` is a secret. */
  lemma InlineValue(lower: string -> string, f: string, key: string, before: seq<string>, v: string, w: string, after: seq<string>)
    requires key in {"--" + f, f} && !("-" <= f) && !("/" <= f) && '=' !in f && SecretName(lower(f)) && lower(f) != ""
    ensures SameButForSecrets(lower, before + [key + "=" + v] + after, before + [key + "=" + w] + after)
  {
    hide SecretName;
    assert KeyNamed(lower, key, lower(f)) by {
      if key == "--" + f {
        assert IsFlag(key, f);
      }
    }
    assert SecretKey(lower, key);
    assert '=' !in key;
    assert InlineSecret(lower, key + "=" + v, key) && InlineSecret(lower, key + "=" + w, key);
  }

  /** "-f:v", for a name without colon, unless the token as a whole names a secret: `v` is a secret. */
  lemma PrefixedValue(lower: string -> string, f: string, before: seq<string>, v: string, w: string, after: seq<string>)
    requires !("-" <= f) && ':' !in f && SecretName(lower(f)) && '=' !in f && '=' !in v && '=' !in w
    requires !NamesSecret(lower, "-" + f + ":" + v) && !NamesSecret(lower, "-" + f + ":" + w)
    ensures SameButForSecrets(lower, before + ["-" + f + ":" + v] + after, before + ["-" + f + ":" + w] + after)
  {
    hide SecretName;
    var prefix := "-" + f;
    assert IsFlag(prefix, f);
    assert PrefixSecret(lower, "-" + f + ":" + v, prefix) && PrefixSecret(lower, "-" + f + ":" + w, prefix);
    assert !AwaitsNext(lower, "-" + f + ":" + v) && !AwaitsNext(lower, "-" + f + ":" + w);
  }
}

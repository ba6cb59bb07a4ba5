/** The captured command line and the scope of an approval request (signing_context.go, lines 18-45 and 162-256). */
module Capture {
  import opened Text
  import opened Secrets
  import opened Redaction
  import opened CommandLine
  import opened Truncation

  function CapturedCommand(lower: string -> string, args: seq<string>): string {
    Truncated(Joined(Redacted(lower, args)))
  }

  method CaptureCommand(lower: string -> string, args: seq<string>) returns (command: string)
    ensures command == CapturedCommand(lower, args)
  {
    var redacted := RedactCommandArgs(lower, args);
    var line := JoinCommandArgs(redacted);
    command := TruncateCommand(line);
  }

  /** No part of a secret's value reaches the captured command, whatever its length. */
  lemma CaptureNonInterference(lower: string -> string, a: seq<string>, b: seq<string>)
    requires SameButForSecrets(lower, a, b)
    ensures CapturedCommand(lower, a) == CapturedCommand(lower, b)
  {
    NonInterference(lower, a, b);
  }

  /** "--f v", "-f v" and "/f v" are captured alike for every `v` that is no secret flag itself. */
  lemma FlagValueHidden(lower: string -> string, f: string, flag: string, before: seq<string>, v: string, w: string, after: seq<string>)
    requires flag in {"--" + f, "-" + f, "/" + f} && !("-" <= f) && '=' !in f && SecretName(lower(f))
    requires !NamesSecret(lower, v) && !NamesSecret(lower, w)
    ensures CapturedCommand(lower, before + [flag, v] + after) == CapturedCommand(lower, before + [flag, w] + after)
  {
    hide CapturedCommand, NamesSecret, SecretName, SameButForSecrets;
    FlagThenValue(lower, f, flag, before, v, w, after);
    CaptureNonInterference(lower, before + [flag, v] + after, before + [flag, w] + after);
  }

  /** "--f=v" and "f=v" are captured alike for every `v`. */
  lemma InlineValueHidden(lower: string -> string, f: string, key: string, before: seq<string>, v: string, w: string, after: seq<string>)
    requires key in {"--" + f, f} && !("-" <= f) && !("/" <= f) && '=' !in f && SecretName(lower(f)) && lower(f) != ""
    ensures CapturedCommand(lower, before + [key + "=" + v] + after) == CapturedCommand(lower, before + [key + "=" + w] + after)
  {
    hide CapturedCommand, SecretName, SameButForSecrets;
    InlineValue(lower, f, key, before, v, w, after);
    CaptureNonInterference(lower, before + [key + "=" + v] + after, before + [key + "=" + w] + after);
  }

  /** "-f:v" is captured alike for every `v`, unless the token as a whole names a secret. */
  lemma PrefixedValueHidden(lower: string -> string, f: string, before: seq<string>, v: string, w: string, after: seq<string>)
    requires !("-" <= f) && ':' !in f && SecretName(lower(f)) && '=' !in f && '=' !in v && '=' !in w
    requires !NamesSecret(lower, "-" + f + ":" + v) && !NamesSecret(lower, "-" + f + ":" + w)
    ensures CapturedCommand(lower, before + ["-" + f + ":" + v] + after) == CapturedCommand(lower, before + ["-" + f + ":" + w] + after)
  {
    hide CapturedCommand, NamesSecret, SecretName, SameButForSecrets;
    PrefixedValue(lower, f, before, v, w, after);
    CaptureNonInterference(lower, before + ["-" + f + ":" + v] + after, before + ["-" + f + ":" + w] + after);
  }

  lemma RedactedIsQuoteFree(lower: string -> string, args: seq<string>)
    requires QuoteFree(args)
    ensures QuoteFree(Redacted(lower, args))
  {
    hide IsSecret, HasSecretPrefix;
    forall i | 0 <= i < |args|
      ensures '"' !in Redacted(lower, args)[i]
    {
      assert '"' !in args[i];
    }
  }

  /** The server reads the redacted arguments back one by one exactly when no quote is left, as when there was none. */
  lemma RedactedRoundTrip(lower: string -> string, args: seq<string>)
    ensures Tokenised(Joined(Redacted(lower, args))) == Redacted(lower, args) <==> QuoteFree(Redacted(lower, args))
    ensures QuoteFree(args) ==> QuoteFree(Redacted(lower, args))
  {
    if QuoteFree(args) {
      RedactedIsQuoteFree(lower, args);
    }
    JoinThenTokenise(Redacted(lower, args));
  }

  /** Short quote-free command lines are captured alike exactly when they differ only inside secrets' values. */
  lemma CaptureHidesExactlySecrets(lower: string -> string, a: seq<string>, b: seq<string>)
    requires KeepsStars(lower) && QuoteFree(a) && QuoteFree(b)
    requires |Joined(Redacted(lower, a))| <= MAX_COMMAND_LEN && |Joined(Redacted(lower, b))| <= MAX_COMMAND_LEN
    ensures CapturedCommand(lower, a) == CapturedCommand(lower, b) <==> SameButForSecrets(lower, a, b)
  {
    HidesExactlySecrets(lower, a, b);
    RedactedRoundTrip(lower, a);
    RedactedRoundTrip(lower, b);
  }

  // ------------------------------------------------------------------ the approval scope

  datatype SigningContext = SigningContext(
    command: string, application: string, applicationHash: string, hostname: string, osUsername: string)

  /** `Omitted` leaves the address to the server, `Skipped` is the explicit JSON null. */
  datatype IPAddress = Omitted | Pinned(address: string) | Skipped

  datatype SigningScope = SigningScope(
    command: string, signingApplication: string, signingApplicationHash: string, hostname: string,
    osUsername: string, ipAddress: IPAddress, dataHash: string)

  function Keep(name: string, excluded: seq<string>, value: string): string {
    if name in excluded then "" else value
  }

  /** Each field is dropped exactly when its name is excluded, in whatever order and however often. */
  function RequestedScope(c: SigningContext, dataHash: string, excluded: seq<string>, pinnedIP: string): SigningScope {
    SigningScope(
      Keep("command", excluded, c.command),
      Keep("signing_application", excluded, c.application),
      Keep("signing_application_hash", excluded, c.applicationHash),
      Keep("hostname", excluded, c.hostname),
      Keep("os_username", excluded, c.osUsername),
      if "ip_address" in excluded then Skipped else if pinnedIP != "" then Pinned(pinnedIP) else Omitted,
      Keep("data_hash", excluded, dataHash))
  }

  method RequestScope(c: SigningContext, dataHash: string, excluded: seq<string>, pinnedIPAddress: string)
    returns (scope: SigningScope)
    ensures scope == RequestedScope(c, dataHash, excluded, pinnedIPAddress)
  {
    scope := SigningScope(c.command, c.application, c.applicationHash, c.hostname, c.osUsername, Omitted, dataHash);
    if pinnedIPAddress != "" {
      scope := scope.(ipAddress := Pinned(pinnedIPAddress));
    }
    for i := 0 to |excluded|
      invariant scope == RequestedScope(c, dataHash, excluded[..i], pinnedIPAddress)
    {
      assert excluded[..i + 1] == excluded[..i] + [excluded[i]];
      match excluded[i]
      case "command" => scope := scope.(command := "");
      case "signing_application" => scope := scope.(signingApplication := "");
      case "signing_application_hash" => scope := scope.(signingApplicationHash := "");
      case "hostname" => scope := scope.(hostname := "");
      case "os_username" => scope := scope.(osUsername := "");
      case "ip_address" => scope := scope.(ipAddress := Skipped);
      case "data_hash" => scope := scope.(dataHash := "");
      case _ =>
    }
    assert excluded[..|excluded|] == excluded;
  }
}

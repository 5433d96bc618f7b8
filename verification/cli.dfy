/** The command-line wrapper of the tool (cli.go): the check of a command's
    required options, the order in which a command can end the process, and
    the choice of AWS credentials made before any command runs. */
module Cli {
  import opened Outcomes
  import opened GoStrings
  import Formatting

  /** What the command-line library answers about the options: whether an
      option was given on the command line (`IsSet`, `GlobalIsSet`) and
      the values it reads. `str` and `slice` look the name up among the
      command's own options, `globalStr` and `globalSlice` among the
      application's; an option that is not declared reads as empty. */
  datatype Context = Context(
    isSet: string -> bool,
    globalIsSet: string -> bool,
    str: string -> string,
    globalStr: string -> string,
    slice: string -> seq<string>,
    globalSlice: string -> seq<string>)

  /** How handleCommand ends. `Returned` is the only way it returns (nil);
      every other outcome prints an error and exits the process with 1. */
  datatype Exit =
    | Returned
    | InternalError                    // a malformed option spec: the panic is recovered
    | MissingGlobal(name: string)
    | MissingOption(name: string)
    | BadFormat(format: string)
    | OperationFailed(error: string)

  function ExitCode(e: Exit): (code: int)
    ensures code == 0 <==> e == Returned
    ensures code == 0 || code == 1
  {
    if e == Returned then 0 else 1
  }

  // ---------------------------------------------------------------------
  // Required options: "SCOPE:NAME:TYPE"
  // ---------------------------------------------------------------------

  /** Whether a required option is missing. Type `s` is a string option and
      type `a` a list; any other type is never missing. Scope `g` asks
      whether the global option was given but reads the string value among
      the command's options; any other scope asks about the command's own
      option. */
  function Missing(cx: Context, scope: string, name: string, kind: string): (missing: bool)
    ensures kind != "s" && kind != "a" ==> !missing
    ensures kind == "s" ==> (missing <==> !(if scope == "g" then cx.globalIsSet(name) else cx.isSet(name)) && cx.str(name) == "")
    ensures kind == "a" && scope == "g" ==> (missing <==> !cx.globalIsSet(name) && cx.globalSlice(name) == [])
    ensures kind == "a" && scope != "g" ==> (missing <==> !cx.isSet(name) && cx.slice(name) == [])
    ensures missing ==> !(if scope == "g" then cx.globalIsSet(name) else cx.isSet(name))
  {
    if scope == "g" then
      if kind == "s" then !cx.globalIsSet(name) && cx.str(name) == ""
      else if kind == "a" then !cx.globalIsSet(name) && |cx.globalSlice(name)| == 0
      else false
    else
      if kind == "s" then !cx.isSet(name) && cx.str(name) == ""
      else if kind == "a" then !cx.isSet(name) && |cx.slice(name)| == 0
      else false
  }

  /** The check of one option spec: a spec that does not split on `:` into
      exactly three fields is an internal error; a missing option ends the
      process, naming the option and its scope. */
  function CheckOption(cx: Context, spec: string): (r: Option<Exit>)
    ensures |Split(spec, ':')| != 3 ==> r == Some(InternalError)
    ensures r.Some? && r != Some(InternalError) ==>
              var items := Split(spec, ':');
              && |items| == 3
              && Missing(cx, items[0], items[1], items[2])
              && r.value == (if items[0] == "g" then MissingGlobal(items[1]) else MissingOption(items[1]))
    ensures r.None? ==> |Split(spec, ':')| == 3 && !Missing(cx, Split(spec, ':')[0], Split(spec, ':')[1], Split(spec, ':')[2])
  {
    var items := Split(spec, ':');
    if |items| != 3 then Some(InternalError)
    else if !Missing(cx, items[0], items[1], items[2]) then None
    else if items[0] == "g" then Some(MissingGlobal(items[1]))
    else Some(MissingOption(items[1]))
  }

  /** The specs are checked in order and the first failing one ends the
      process: the outcome is that of the first spec that fails. */
  function CheckOptions(cx: Context, options: seq<string>): (r: Option<Exit>)
    ensures r.None? <==> forall k :: 0 <= k < |options| ==> CheckOption(cx, options[k]).None?
    ensures r.Some? ==> exists k :: 0 <= k < |options| && CheckOption(cx, options[k]) == r
                                    && forall j :: 0 <= j < k ==> CheckOption(cx, options[j]).None?
    decreases |options|
  {
    if options == [] then None
    else
      var first := CheckOption(cx, options[0]);
      if first.Some? then first
      else
        var rest := CheckOptions(cx, options[1..]);
        assert forall k :: 1 <= k < |options| ==> options[k] == options[1..][k - 1];
        if rest.Some? then
          var k :| 0 <= k < |options[1..]| && CheckOption(cx, options[1..][k]) == rest
                   && forall j :: 0 <= j < k ==> CheckOption(cx, options[1..][j]).None?;
          assert CheckOption(cx, options[k + 1]) == rest;
          rest
        else rest
  }

  /** handleCommand: the required options, then the output format, then
      the command itself, whose error (if any) is `failure`. */
  function Handle(cx: Context, options: seq<string>, failure: Option<string>): (e: Exit)
    ensures (e == Returned || e.OperationFailed?) <==>
              CheckOptions(cx, options).None? && Formatting.ValidFormat(cx.globalStr("format"))
    ensures e == Returned <==>
              CheckOptions(cx, options).None? && Formatting.ValidFormat(cx.globalStr("format")) && failure.None?
  {
    match CheckOptions(cx, options)
    case Some(exit) => exit
    case None =>
      if !Formatting.ValidFormat(cx.globalStr("format")) then BadFormat(cx.globalStr("format"))
      else if failure.Some? then OperationFailed(failure.value)
      else Returned
  }

  /** handleCommand, as the source runs it: the loop over the specs stops
      the process at the first one that fails. */
  method HandleCommand(cx: Context, options: seq<string>, failure: Option<string>) returns (e: Exit)
    ensures e == Handle(cx, options, failure)
  {
    var i := 0;
    assert options[i..] == options;
    while i < |options|
      invariant 0 <= i <= |options|
      invariant CheckOptions(cx, options) == CheckOptions(cx, options[i..])
    {
      assert options[i..][0] == options[i] && options[i..][1..] == options[i + 1..];
      var items := Split(options[i], ':');
      if |items| != 3 {
        return InternalError;
      }
      var name := items[1];
      var invalid := false;
      if items[0] == "g" {
        if items[2] == "s" {
          invalid := !cx.globalIsSet(name) && cx.str(name) == "";
        } else if items[2] == "a" {
          invalid := !cx.globalIsSet(name) && |cx.globalSlice(name)| == 0;
        }
        if invalid {
          return MissingGlobal(name);
        }
      } else {
        if items[2] == "s" {
          invalid := !cx.isSet(name) && cx.str(name) == "";
        } else if items[2] == "a" {
          invalid := !cx.isSet(name) && |cx.slice(name)| == 0;
        }
        if invalid {
          return MissingOption(name);
        }
      }
      i := i + 1;
    }
    var writer := Formatting.NewFormatter(cx.globalStr("format"));
    if writer.Err? {
      return BadFormat(cx.globalStr("format"));
    }
    if failure.Some? {
      return OperationFailed(failure.value);
    }
    return Returned;
  }

  /** A spec written as three `:`-free fields is read back as those fields. */
  lemma SpecFields(scope: string, name: string, kind: string)
    requires ':' !in scope && ':' !in name && ':' !in kind
    ensures Split(scope + ":" + name + ":" + kind, ':') == [scope, name, kind]
  {
    var parts := [scope, name, kind];
    assert Join(parts[2..], ':') == kind;
    assert Join(parts[1..], ':') == name + [':'] + kind;
    assert Join(parts, ':') == scope + ":" + name + ":" + kind;
    JoinThenSplit(parts, ':');
  }

  /** A required string option of the command itself, such as the
      "l:bucket:s" of the commands that need a bucket: the command ends with
      MissingOption exactly when the option was neither given nor read from
      its environment variable, and it never runs then. */
  lemma RequiredOption(cx: Context, scope: string, name: string, failure: Option<string>)
    requires scope != "g" && ':' !in scope && ':' !in name
    ensures var spec := scope + ":" + name + ":" + "s";
            Handle(cx, [spec], failure) == MissingOption(name) <==> !cx.isSet(name) && cx.str(name) == ""
  {
    var spec := scope + ":" + name + ":" + "s";
    SpecFields(scope, name, "s");
    assert [spec][0] == spec && [spec][1..] == [];
    assert CheckOptions(cx, [spec]) == CheckOption(cx, spec);
  }

  // ---------------------------------------------------------------------
  // Credentials
  // ---------------------------------------------------------------------

  /** The global options the application declares, under their long and
      short names. */
  const GlobalFlags: set<string> := {"p", "profile", "c", "credentials", "access-key", "secret-key",
                                     "session-token", "environment-file", "r", "region", "f", "format"}

  /** What the library answers for a global option nobody declared: "". */
  ghost predicate Undeclared(global: string -> string) {
    forall name :: name !in GlobalFlags ==> global(name) == ""
  }

  datatype Credentials =
    | StaticCredentials(accessKey: string, secretKey: string, sessionToken: string)
    | SharedCredentials(file: string, profile: string)
    | DefaultCredentials                          // the SDK's own chain

  datatype CredentialError = NoRegion | SecretKeyMissing | AccessKeyMissing

  /** The session every client is built from. */
  datatype Session = Session(region: string, credentials: Credentials)

  /** getCredentials as written: the static branch is entered when the
      access key is set or when the option "secret-ket" is. */
  function CredentialsAsWritten(global: string -> string): (r: Result<Session, CredentialError>) {
    if global("region") == "" then Err(NoRegion)
    else if global("access-key") != "" || global("secret-ket") != "" then
      if global("secret-key") == "" then Err(SecretKeyMissing)
      else if global("access-key") == "" then Err(AccessKeyMissing)
      else Ok(Session(global("region"), StaticCredentials(global("access-key"), global("secret-key"), global("session-token"))))
    else if global("profile") != "" then Ok(Session(global("region"), SharedCredentials(global("credentials"), global("profile"))))
    else Ok(Session(global("region"), DefaultCredentials))
  }

  /** "secret-ket" is no declared option, so it always reads as "": a
      secret key given without an access key is silently ignored (the
      profile or the default chain is used), and the error for a missing
      access key can never be returned. */
  lemma SecretKeyAloneIgnored(global: string -> string)
    requires Undeclared(global)
    ensures CredentialsAsWritten(global) != Err(AccessKeyMissing)
    ensures global("region") != "" && global("access-key") == "" && global("profile") == "" ==>
              CredentialsAsWritten(global) == Ok(Session(global("region"), DefaultCredentials))
  {
    assert "secret-ket" !in GlobalFlags;
  }

  /** getCredentials as intended: the static branch is entered when either
      key is set, and then both must be. */
  function CredentialsFor(global: string -> string): (r: Result<Session, CredentialError>)
    ensures r.Err? <==> global("region") == "" || ((global("access-key") == "") != (global("secret-key") == ""))
    ensures r.Ok? ==> r.value.region == global("region")
    ensures r.Ok? && r.value.credentials.StaticCredentials? <==>
              global("region") != "" && global("access-key") != "" && global("secret-key") != ""
    ensures global("region") != "" && global("access-key") == "" && global("secret-key") != "" ==> r == Err(AccessKeyMissing)
    ensures r.Ok? && r.value.credentials.SharedCredentials? <==>
              global("region") != "" && global("access-key") == "" && global("secret-key") == "" && global("profile") != ""
  {
    if global("region") == "" then Err(NoRegion)
    else if global("access-key") != "" || global("secret-key") != "" then
      if global("secret-key") == "" then Err(SecretKeyMissing)
      else if global("access-key") == "" then Err(AccessKeyMissing)
      else Ok(Session(global("region"), StaticCredentials(global("access-key"), global("secret-key"), global("session-token"))))
    else if global("profile") != "" then Ok(Session(global("region"), SharedCredentials(global("credentials"), global("profile"))))
    else Ok(Session(global("region"), DefaultCredentials))
  }

  /** The two readings agree except when only a secret key is given. */
  lemma CredentialsAgree(global: string -> string)
    requires Undeclared(global)
    requires !(global("access-key") == "" && global("secret-key") != "")
    ensures CredentialsAsWritten(global) == CredentialsFor(global)
  {
    assert "secret-ket" !in GlobalFlags;
  }

  /** The clients of a command: set up once, from one session, before the
      command runs. */
  class CliCommand {
    var session: Option<Session>

    constructor ()
      ensures session == None
    {
      session := None;
    }

    /** The hook run before any command, as written: a missing region, or a
        static branch entered without both keys, is an error and nothing is
        set up; otherwise the S3, KMS and upload clients are built from the
        chosen session. */
    method GetCredentials(global: string -> string) returns (err: Option<CredentialError>)
      modifies this
      ensures err.None? <==> CredentialsAsWritten(global).Ok?
      ensures err.Some? ==> err == Some(CredentialsAsWritten(global).error) && session == old(session)
      ensures err.None? ==> session == Some(CredentialsAsWritten(global).value)
    {
      var region := global("region");
      if region == "" {
        return Some(NoRegion);
      }
      var creds := DefaultCredentials;
      if global("access-key") != "" || global("secret-ket") != "" {
        if global("secret-key") == "" {
          return Some(SecretKeyMissing);
        }
        if global("access-key") == "" {
          return Some(AccessKeyMissing);
        }
        creds := StaticCredentials(global("access-key"), global("secret-key"), global("session-token"));
      } else if global("profile") != "" {
        creds := SharedCredentials(global("credentials"), global("profile"));
      }
      session := Some(Session(region, creds));
      return None;
    }
  }
}

/**
 * Where the Hugging Face token comes from: a non-empty `--token` argument,
 * else a non-empty `HF_TOKEN` environment variable, else the first
 * `HF_TOKEN=` line of a `.env` file in the working directory, else nothing.
 * The environment value and the `.env` lines are plain inputs here; `None`
 * for the `.env` lines means that the file does not exist.
 */
module Credentials {
  import opened Wrappers
  import opened PyStr

  /** The prefix the `.env` scan looks for, tested on the line as read. */
  const TokenLinePrefix: string := "HF_TOKEN="

  /** Python truthiness of an optional string: the only falsy values are `None` and `""`. */
  predicate Truthy(s: Option<string>)
    ensures Truthy(s) ==> s != None && s != Some("")
    ensures !Truthy(s) ==> s == None || s == Some("")
  {
    s.Some? && s.value != ""
  }

  /** The resolved token together with the source the log line names. */
  datatype Credential =
    | FromCommandLine(token: string)
    | FromEnvironment(token: string)
    | FromDotEnv(token: string)
    | Missing
  {
    /** The value `main` hands on as `hf_token`. */
    function Token(): Option<string> {
      if Missing? then None else Some(token)
    }
  }

  /**
   * `line.startswith("HF_TOKEN=")`, tested on the line as read: a line with
   * leading whitespace never matches.
   */
  predicate IsTokenLine(line: string)
    ensures |line| > 0 && IsSpace(line[0]) ==> !IsTokenLine(line)
  {
    TokenLinePrefix <= line
  }

  /** `line.strip().split("=", 1)[1]` on a line that starts with the prefix. */
  function TokenValue(line: string): (v: string)
    requires IsTokenLine(line)
    ensures Strip(line) == TokenLinePrefix + v
  {
    TokenLineStrips(line);
    var parts := SplitOnce(Strip(line), '=');
    FirstEqualsAfterKey(Strip(line), parts);
    parts[1]
  }

  /** Stripping a token line keeps its prefix: the prefix ends in `=`, which is not whitespace. */
  lemma TokenLineStrips(line: string)
    requires IsTokenLine(line)
    ensures TokenLinePrefix <= Strip(line)
  {
    var r := RStrip(line);
    assert !IsSpace(line[8]);
    assert |r| > 8;
    assert r[..9] == line[..9];
    assert !IsSpace(r[0]);
    assert LStrip(r) == r;
  }

  /** In a string that starts with the prefix, the first `=` is the prefix's own. */
  lemma FirstEqualsAfterKey(s: string, parts: seq<string>)
    requires TokenLinePrefix <= s
    requires parts == SplitOnce(s, '=')
    ensures |parts| == 2 && parts[0] == "HF_TOKEN" && s == TokenLinePrefix + parts[1]
  {
    assert s[8] == '=';
    assert |parts| == 2;
    var k := |parts[0]|;
    assert s[k] == '=';
    assert forall i :: 0 <= i < 8 ==> s[i] != '=';
    assert k == 8;
    assert parts[0] == s[..8];
  }

  /**
   * Writing `HF_TOKEN=<v>` followed by a line ending and reading it back gives
   * `v`, as long as `v` does not end in whitespace (`strip` would remove it).
   * `v` may contain `=` and may start with whitespace.
   */
  lemma {:induction false} TokenLineRoundTrip(v: string, eol: string)
    requires v == [] || !IsSpace(v[|v| - 1])
    requires forall i :: 0 <= i < |eol| ==> IsSpace(eol[i])
    ensures TokenValue(TokenLinePrefix + v + eol) == v
  {
    var body := TokenLinePrefix + v;
    RStripTrailing(body, eol);
    assert RStrip(body) == body;
    StripTrimmed(body);
    var line := body + eol;
    assert Strip(line) == body;
    assert (TokenLinePrefix + TokenValue(line))[9..] == TokenValue(line);
    assert body[9..] == v;
  }

  /** Index `i` holds the first line of `lines` that starts with the prefix. */
  ghost predicate FirstTokenLineAt(lines: seq<string>, i: int) {
    0 <= i < |lines| && IsTokenLine(lines[i]) && forall j :: 0 <= j < i ==> !IsTokenLine(lines[j])
  }

  /** The `.env` scan: the value of the first matching line; later lines are never read. */
  function DotEnvLookup(lines: seq<string>): (r: Option<string>)
    ensures r.None? <==> forall i :: 0 <= i < |lines| ==> !IsTokenLine(lines[i])
  {
    if lines == [] then None
    else if IsTokenLine(lines[0]) then Some(TokenValue(lines[0]))
    else DotEnvLookup(lines[1..])
  }

  /** The first matching line decides the lookup, whatever follows it. */
  lemma {:induction false} DotEnvLookupFirst(lines: seq<string>, i: int)
    requires FirstTokenLineAt(lines, i)
    ensures DotEnvLookup(lines) == Some(TokenValue(lines[i]))
  {
    if i > 0 {
      assert FirstTokenLineAt(lines[1..], i - 1);
      DotEnvLookupFirst(lines[1..], i - 1);
    }
  }

  /** A first line that does not match is skipped. */
  lemma DotEnvLookupSkip(lines: seq<string>)
    requires lines != [] && !IsTokenLine(lines[0])
    ensures DotEnvLookup(lines) == DotEnvLookup(lines[1..])
  {
  }

  /** Lines appended after a match do not change the lookup. */
  lemma {:induction false} DotEnvLaterLinesIgnored(lines: seq<string>, more: seq<string>)
    requires DotEnvLookup(lines).Some?
    ensures DotEnvLookup(lines + more) == DotEnvLookup(lines)
  {
    var all := lines + more;
    assert all[0] == lines[0];
    if !IsTokenLine(lines[0]) {
      DotEnvLookupSkip(lines);
      DotEnvLookupSkip(all);
      assert all[1..] == lines[1..] + more;
      DotEnvLaterLinesIgnored(lines[1..], more);
    }
  }

  /** `get_hf_token`: a non-empty environment value, else the `.env` lookup, else nothing. */
  function GetHfToken(env: Option<string>, dotEnv: Option<seq<string>>): (c: Credential)
    ensures !c.FromCommandLine?
    ensures c.FromEnvironment? <==> Truthy(env)
    ensures c.FromEnvironment? ==> c.token == env.value
    ensures c.FromDotEnv? <==> !Truthy(env) && dotEnv.Some? && DotEnvLookup(dotEnv.value).Some?
    ensures c.FromDotEnv? ==> Some(c.token) == DotEnvLookup(dotEnv.value)
  {
    if Truthy(env) then FromEnvironment(env.value)
    else if dotEnv.Some? then
      match DotEnvLookup(dotEnv.value)
      case Some(v) => FromDotEnv(v)
      case None => Missing
    else Missing
  }

  /** The token selection in `main`: a non-empty `--token` wins, otherwise `get_hf_token`. */
  function ResolveToken(cli: Option<string>, env: Option<string>, dotEnv: Option<seq<string>>): (c: Credential)
    ensures c.FromCommandLine? <==> Truthy(cli)
    ensures c.FromCommandLine? ==> c.token == cli.value
    ensures c.FromEnvironment? <==> !Truthy(cli) && Truthy(env)
    ensures c.FromEnvironment? ==> c.token == env.value
    ensures c.FromDotEnv? <==> !Truthy(cli) && !Truthy(env) && dotEnv.Some? && DotEnvLookup(dotEnv.value).Some?
    ensures c.FromDotEnv? ==> Some(c.token) == DotEnvLookup(dotEnv.value)
    ensures c.Missing? <==> !Truthy(cli) && !Truthy(env) && (dotEnv.None? || DotEnvLookup(dotEnv.value).None?)
  {
    if Truthy(cli) then FromCommandLine(cli.value) else GetHfToken(env, dotEnv)
  }

  /** A non-empty `--token` is the credential whatever the environment and `.env` hold. */
  lemma CommandLineTokenWins(t: string, env: Option<string>, dotEnv: Option<seq<string>>,
                             env': Option<string>, dotEnv': Option<seq<string>>)
    requires t != ""
    ensures ResolveToken(Some(t), env, dotEnv) == ResolveToken(Some(t), env', dotEnv') == FromCommandLine(t)
  {
  }

  /** An empty `--token` is treated as if none were given. */
  lemma EmptyCommandLineTokenFallsThrough(env: Option<string>, dotEnv: Option<seq<string>>)
    ensures ResolveToken(Some(""), env, dotEnv) == ResolveToken(None, env, dotEnv) == GetHfToken(env, dotEnv)
  {
  }

  /** A non-empty `HF_TOKEN` variable wins over any `.env` file; an empty one is ignored. */
  lemma EnvironmentWinsOverDotEnv(t: string, dotEnv: Option<seq<string>>, dotEnv': Option<seq<string>>)
    requires t != ""
    ensures GetHfToken(Some(t), dotEnv) == GetHfToken(Some(t), dotEnv') == FromEnvironment(t)
    ensures GetHfToken(Some(""), dotEnv) == GetHfToken(None, dotEnv)
  {
  }

  /** With no usable source the resolution yields no token (and no error). */
  lemma NoSourceNoToken(cli: Option<string>, env: Option<string>, dotEnv: Option<seq<string>>)
    requires !Truthy(cli) && !Truthy(env)
    requires dotEnv.None? || forall i :: 0 <= i < |dotEnv.value| ==> !IsTokenLine(dotEnv.value[i])
    ensures ResolveToken(cli, env, dotEnv) == Missing
    ensures ResolveToken(cli, env, dotEnv).Token() == None
  {
  }

  /** `token if token else None`: the credential actually passed to the hub. */
  function HubToken(token: Option<string>): (r: Option<string>)
    ensures r.None? <==> token.None? || token.value == ""
    ensures r.Some? ==> r == token
  {
    if Truthy(token) then token else None
  }

  /**
   * The hub receives no credential exactly when no source supplied a
   * non-empty one. An empty string can only come from a `HF_TOKEN=` line
   * with nothing after it (the `.env` step has no emptiness test).
   */
  lemma HubTokenNoneIff(cli: Option<string>, env: Option<string>, dotEnv: Option<seq<string>>)
    ensures HubToken(ResolveToken(cli, env, dotEnv).Token()).None? <==>
            !Truthy(cli) && !Truthy(env) && (dotEnv.None? || !Truthy(DotEnvLookup(dotEnv.value)))
    ensures ResolveToken(cli, env, dotEnv).Token() == Some("") ==> ResolveToken(cli, env, dotEnv).FromDotEnv?
  {
  }
}

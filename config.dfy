/** The process environment, as the configuration loader sees it. */
module Env {

  /** Environment variables by name. A variable that is not set is simply absent. */
  type Environment = map<string, string>

  /** The value of `key`, or the empty string when it is not set: an unset
      variable and one set to "" cannot be told apart. */
  function Getenv(env: Environment, key: string): (v: string)
    ensures key in env ==> v == env[key]
    ensures key !in env ==> v == ""
  {
    if key in env then env[key] else ""
  }
}

/** Loading and validating the gateway's settings from the environment. */
module Config {
  import opened Env

  // The eight variables the loader reads.
  const AppIdVar: string := "__app_id"
  const FirebaseConfigVar: string := "__firebase_config"
  const ClientIdVar: string := "MS_APP_ID"
  const ClientSecretVar: string := "MS_APP_SECRET"
  const RedirectUriVar: string := "MS_REDIRECT_URI"
  const ScopesVar: string := "MS_SCOPES"
  const TenantIdVar: string := "MS_TENANT_ID"
  const PortVar: string := "SERVER_PORT"

  /** The listen port used when `SERVER_PORT` is empty or unset. */
  const DefaultPort: string := "8080"

  /** Every load error is this prefix followed by the missing variable's name. */
  const MissingPrefix: string := "missing required env: "

  /** The variables that must be non-empty, in the order they are checked. */
  const RequiredVars: seq<string> := [AppIdVar, FirebaseConfigVar, ClientIdVar, ClientSecretVar, TenantIdVar]

  /** All the variables the loader reads. */
  const LoadedVars: set<string> :=
    {AppIdVar, FirebaseConfigVar, ClientIdVar, ClientSecretVar, RedirectUriVar, ScopesVar, TenantIdVar, PortVar}

  datatype Option<T> = None | Some(value: T)

  /** Either a loaded configuration or the error that stopped the load;
      a failed load carries no configuration at all. */
  datatype Result<T> = Success(value: T) | Failure(error: string)

  datatype Config = Config(
    appId: string,
    firebaseConfigJson: string,
    msClientId: string,
    msClientSecret: string,
    msRedirectUri: string,
    msScopes: string,
    msTenantId: string,
    port: string)

  /** The five settings the gateway cannot start without are all present:
      exactly when exporting the configuration leaves no required variable empty. */
  predicate HasRequired(c: Config)
    ensures HasRequired(c) <==>
      forall i :: 0 <= i < |RequiredVars| ==> Getenv(ToEnv(c), RequiredVars[i]) != ""
  {
    var exported := ToEnv(c);
    assert Getenv(exported, RequiredVars[0]) == c.appId && Getenv(exported, RequiredVars[1]) == c.firebaseConfigJson;
    assert Getenv(exported, RequiredVars[2]) == c.msClientId && Getenv(exported, RequiredVars[3]) == c.msClientSecret;
    assert Getenv(exported, RequiredVars[4]) == c.msTenantId;
    c.appId != "" && c.firebaseConfigJson != "" && c.msClientId != ""
    && c.msClientSecret != "" && c.msTenantId != ""
  }

  /** The error reported when the required variable `name` is empty. */
  function MissingEnvError(name: string): (r: string)
    ensures |r| == |MissingPrefix| + |name|
    ensures MissingPrefix <= r && r[|MissingPrefix|..] == name
  {
    MissingPrefix + name
  }

  /** Recovers the variable an error produced by MissingEnvError names. */
  function MissingVariable(error: string): (r: Option<string>)
    ensures r.Some? <==> MissingPrefix <= error
    ensures r.Some? ==> MissingEnvError(r.value) == error
  {
    if MissingPrefix <= error then
      var name := error[|MissingPrefix|..];
      assert MissingPrefix + name == error;
      Some(name)
    else
      None
  }

  /** The process's configuration: every field read verbatim from its variable,
      the port defaulted, then the required fields checked in a fixed order,
      the first empty one ending the load with an error naming it. */
  function Load(env: Environment): (r: Result<Config>)
    ensures r.Success? ==> HasRequired(r.value) && r.value.port != ""
    ensures r.Failure? ==> MissingPrefix <= r.error
  {
    var read := Config(
      Getenv(env, AppIdVar),
      Getenv(env, FirebaseConfigVar),
      Getenv(env, ClientIdVar),
      Getenv(env, ClientSecretVar),
      Getenv(env, RedirectUriVar),
      Getenv(env, ScopesVar),
      Getenv(env, TenantIdVar),
      Getenv(env, PortVar));
    var cfg := if read.port == "" then read.(port := DefaultPort) else read;
    if cfg.appId == "" then Failure(MissingEnvError(AppIdVar))
    else if cfg.firebaseConfigJson == "" then Failure(MissingEnvError(FirebaseConfigVar))
    else if cfg.msClientId == "" then Failure(MissingEnvError(ClientIdVar))
    else if cfg.msClientSecret == "" then Failure(MissingEnvError(ClientSecretVar))
    else if cfg.msTenantId == "" then Failure(MissingEnvError(TenantIdVar))
    else Success(cfg)
  }

  /** Reference definition of the validation order: the first of `names`
      whose variable is empty, if any. */
  function FirstMissing(env: Environment, names: seq<string>): (r: Option<string>)
    ensures r.Some? ==> r.value in names && Getenv(env, r.value) == ""
  {
    if names == [] then None
    else if Getenv(env, names[0]) == "" then Some(names[0])
    else FirstMissing(env, names[1..])
  }

  /** An environment holding exactly the given configuration's settings. */
  function ToEnv(c: Config): (env: Environment)
    ensures env.Keys == LoadedVars
  {
    map[AppIdVar := c.appId, FirebaseConfigVar := c.firebaseConfigJson,
        ClientIdVar := c.msClientId, ClientSecretVar := c.msClientSecret,
        RedirectUriVar := c.msRedirectUri, ScopesVar := c.msScopes,
        TenantIdVar := c.msTenantId, PortVar := c.port]
  }

  // ---------------------------------------------------------------------
  // The reference definition of the check order

  lemma {:induction false} FirstMissingNoneIff(env: Environment, names: seq<string>)
    ensures FirstMissing(env, names).None? <==> forall i :: 0 <= i < |names| ==> Getenv(env, names[i]) != ""
  {
    if names != [] {
      FirstMissingNoneIff(env, names[1..]);
      assert forall i :: 1 <= i < |names| ==> names[i] == names[1..][i - 1];
    }
  }

  lemma {:induction false} FirstMissingAt(env: Environment, names: seq<string>, i: nat)
    requires i < |names| && Getenv(env, names[i]) == ""
    requires forall j :: 0 <= j < i ==> Getenv(env, names[j]) != ""
    ensures FirstMissing(env, names) == Some(names[i])
  {
    if i > 0 {
      assert Getenv(env, names[0]) != "";
      assert forall j :: 0 <= j < i - 1 ==> names[1..][j] == names[j + 1];
      FirstMissingAt(env, names[1..], i - 1);
    }
  }

  lemma {:induction false} FirstMissingIsEarliest(env: Environment, names: seq<string>)
    requires FirstMissing(env, names).Some?
    ensures exists i :: 0 <= i < |names| && names[i] == FirstMissing(env, names).value
                        && forall j :: 0 <= j < i ==> Getenv(env, names[j]) != ""
  {
    if Getenv(env, names[0]) == "" {
      assert names[0] == FirstMissing(env, names).value;
    } else {
      FirstMissingIsEarliest(env, names[1..]);
      var i :| 0 <= i < |names[1..]| && names[1..][i] == FirstMissing(env, names[1..]).value
               && forall j :: 0 <= j < i ==> Getenv(env, names[1..][j]) != "";
      assert names[i + 1] == FirstMissing(env, names).value;
      assert forall j :: 1 <= j < i + 1 ==> names[j] == names[1..][j - 1];
    }
  }

  // ---------------------------------------------------------------------
  // Properties of Load

  /** Load fails exactly when some required variable is empty, and then its
      error names the first such variable in check order. */
  lemma LoadFailsOnFirstMissing(env: Environment)
    ensures Load(env).Failure? <==> FirstMissing(env, RequiredVars).Some?
    ensures Load(env).Failure? ==> Load(env).error == MissingEnvError(FirstMissing(env, RequiredVars).value)
  {
    if Getenv(env, AppIdVar) == "" {
      FirstMissingAt(env, RequiredVars, 0);
    } else if Getenv(env, FirebaseConfigVar) == "" {
      FirstMissingAt(env, RequiredVars, 1);
    } else if Getenv(env, ClientIdVar) == "" {
      FirstMissingAt(env, RequiredVars, 2);
    } else if Getenv(env, ClientSecretVar) == "" {
      FirstMissingAt(env, RequiredVars, 3);
    } else if Getenv(env, TenantIdVar) == "" {
      FirstMissingAt(env, RequiredVars, 4);
    } else {
      FirstMissingNoneIff(env, RequiredVars);
    }
  }

  /** Load succeeds if and only if the five required variables are non-empty;
      the port and the two unchecked variables play no part. */
  lemma LoadSucceedsIff(env: Environment)
    ensures Load(env).Success? <==>
      Getenv(env, AppIdVar) != "" && Getenv(env, FirebaseConfigVar) != ""
      && Getenv(env, ClientIdVar) != "" && Getenv(env, ClientSecretVar) != ""
      && Getenv(env, TenantIdVar) != ""
  {
  }

  /** The same, against the reference order: success iff no required variable is empty. */
  lemma LoadSucceedsIffNoneMissing(env: Environment)
    ensures Load(env).Success? <==> forall i :: 0 <= i < |RequiredVars| ==> Getenv(env, RequiredVars[i]) != ""
  {
    LoadFailsOnFirstMissing(env);
    FirstMissingNoneIff(env, RequiredVars);
  }

  /** The error names the required variable at position `i` of the check order
      whenever it is empty and every earlier one is set, whatever the later ones hold. */
  lemma LoadReportsEarliestMissing(env: Environment, i: nat)
    requires i < |RequiredVars| && Getenv(env, RequiredVars[i]) == ""
    requires forall j :: 0 <= j < i ==> Getenv(env, RequiredVars[j]) != ""
    ensures Load(env) == Failure(MissingEnvError(RequiredVars[i]))
  {
    FirstMissingAt(env, RequiredVars, i);
    LoadFailsOnFirstMissing(env);
  }

  /** An empty or unset `SERVER_PORT` yields the default port; a non-empty one is kept as is. */
  lemma LoadPort(env: Environment)
    requires Load(env).Success?
    ensures Getenv(env, PortVar) == "" ==> Load(env).value.port == DefaultPort
    ensures Getenv(env, PortVar) != "" ==> Load(env).value.port == Getenv(env, PortVar)
  {
  }

  /** Every field but the port is its variable's value, unaltered. */
  lemma LoadCopiesVerbatim(env: Environment)
    requires Load(env).Success?
    ensures Load(env).value.appId == Getenv(env, AppIdVar)
    ensures Load(env).value.firebaseConfigJson == Getenv(env, FirebaseConfigVar)
    ensures Load(env).value.msClientId == Getenv(env, ClientIdVar)
    ensures Load(env).value.msClientSecret == Getenv(env, ClientSecretVar)
    ensures Load(env).value.msRedirectUri == Getenv(env, RedirectUriVar)
    ensures Load(env).value.msScopes == Getenv(env, ScopesVar)
    ensures Load(env).value.msTenantId == Getenv(env, TenantIdVar)
  {
  }

  /** The port, redirect URI and scopes are never validated: changing them
      to anything, the empty string included, never decides success. */
  lemma LoadIgnoresUncheckedVars(env: Environment, redirectUri: string, scopes: string, port: string)
    ensures Load(env).Success? ==
      Load(env[RedirectUriVar := redirectUri][ScopesVar := scopes][PortVar := port]).Success?
    ensures Load(env).Failure? ==>
      Load(env[RedirectUriVar := redirectUri][ScopesVar := scopes][PortVar := port]) == Load(env)
  {
  }

  /** With the required variables set, empty redirect URI and scopes still load, as empty fields. */
  lemma LoadAcceptsEmptyUnchecked(env: Environment)
    requires Getenv(env, AppIdVar) != "" && Getenv(env, FirebaseConfigVar) != ""
    requires Getenv(env, ClientIdVar) != "" && Getenv(env, ClientSecretVar) != ""
    requires Getenv(env, TenantIdVar) != ""
    requires Getenv(env, RedirectUriVar) == "" && Getenv(env, ScopesVar) == ""
    ensures Load(env).Success?
    ensures Load(env).value.msRedirectUri == "" && Load(env).value.msScopes == ""
  {
  }

  /** Load reads nothing but its eight variables. */
  lemma LoadReadsOnlyItsVars(env1: Environment, env2: Environment)
    requires forall k :: k in LoadedVars ==> Getenv(env1, k) == Getenv(env2, k)
    ensures Load(env1) == Load(env2)
  {
  }

  /** Exporting a complete configuration and loading it back gives it unchanged. */
  lemma LoadToEnvRoundTrip(c: Config)
    requires HasRequired(c) && c.port != ""
    ensures Load(ToEnv(c)) == Success(c)
  {
  }

  /** Exporting what Load produced and loading it again is a fixed point. */
  lemma LoadIsStable(env: Environment)
    requires Load(env).Success?
    ensures Load(ToEnv(Load(env).value)) == Load(env)
  {
  }

  /** Exporting what Load produced gives back every variable but the port
      exactly; the port comes back as the loaded (possibly defaulted) value. */
  lemma ToEnvAfterLoad(env: Environment)
    requires Load(env).Success?
    ensures forall k :: k in LoadedVars - {PortVar} ==> Getenv(ToEnv(Load(env).value), k) == Getenv(env, k)
    ensures Getenv(ToEnv(Load(env).value), PortVar) == Load(env).value.port
  {
  }

  /** An error names its variable and nothing else. */
  lemma MissingEnvErrorRoundTrip(name: string)
    ensures MissingVariable(MissingEnvError(name)) == Some(name)
  {
  }

  /** Distinct missing variables give distinct errors. */
  lemma RequiredErrorsDistinct(i: nat, j: nat)
    requires i < |RequiredVars| && j < |RequiredVars| && i != j
    ensures MissingEnvError(RequiredVars[i]) != MissingEnvError(RequiredVars[j])
  {
  }
}

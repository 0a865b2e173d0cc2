# Gateway configuration loader

This project models the configuration loader of a small web gateway. The gateway signs users in with Microsoft's identity platform, reads their profile through Microsoft Graph and stores a user record in Firestore. At start-up, `config.Load` reads eight environment variables into a `Config` record:

- the application ID;
- the base64-encoded Firestore credentials;
- the Microsoft client ID, client secret, redirect URI, scopes and tenant ID;
- the listen port.

If the port is empty, `Load` uses `"8080"`. It then checks five required settings in a fixed order. The first empty one stops the load with the error `missing required env: <NAME>`.

`config.dfy` holds the model:

- Module `Env` stands in for `os.Getenv`. The environment is a `map<string, string>`, and a variable that is not set reads as `""`.
- Module `Config` holds the `Config` record, a `Result` type and `Load` as a pure function. A failed load carries only the error string and no configuration.
- `RequiredVars` lists the required variables in check order. `FirstMissing` is an independent definition of "the first required variable that is empty". The lemmas prove that `Load` agrees with it.
- `ToEnv` turns a configuration back into an environment.
  - Exporting a complete configuration with a port and loading it gives back the same configuration.
  - Exporting a loaded configuration gives back every variable except the port unchanged. An unset `SERVER_PORT` comes back as `"8080"`, so the environment itself is not recovered.
- `MissingVariable` recovers the variable name from an error message, so each error names exactly one variable.

`internal/auth/token.go:31` and `:53` read `cfg.JWTSecret`, but `Config` (`internal/config/config.go:9-20`) has no such field, and `Load` neither reads nor checks a signing secret. The model follows `config.go`.

## Model

| member | source | states |
|---|---|---|
| Env.Getenv | internal/config/config.go:26-35 | A variable that is set reads as its value. An unset variable reads as "", just like one set to "". |
| Config.MissingEnvError | internal/config/config.go:44-56 | The error for a missing variable is the prefix "missing required env: " followed by exactly that variable's name. |
| Config.HasRequired | internal/config/config.go:43-57 | A configuration has its required settings exactly when none of the five checked variables is empty in its exported environment. |
| Config.Load | internal/config/config.go:22-63 | On success, all five required fields and the port are non-empty. On failure, the error is a "missing required env: " message. |
| Config.FirstMissing | internal/config/config.go:43-57 | The variable it returns is one of the checked names, and that variable is empty in the environment. |
| Config.FirstMissingNoneIff | internal/config/config.go:43-57 | No checked variable is reported missing exactly when every checked variable is non-empty. |
| Config.FirstMissingAt | internal/config/config.go:43-57 | If the variable at position i is empty and all earlier ones are set, that variable is the one reported, whatever the later ones hold. |
| Config.FirstMissingIsEarliest | internal/config/config.go:43-57 | The variable reported is at a position before which every checked variable is non-empty. |
| Config.LoadFailsOnFirstMissing | internal/config/config.go:43-57 | Load fails exactly when some required variable is empty. Its error then names the first empty one in the order __app_id, __firebase_config, MS_APP_ID, MS_APP_SECRET, MS_TENANT_ID. |
| Config.LoadSucceedsIff | internal/config/config.go:38-61 | Load succeeds if and only if __app_id, __firebase_config, MS_APP_ID, MS_APP_SECRET and MS_TENANT_ID are all non-empty. The port default never causes a failure. |
| Config.LoadSucceedsIffNoneMissing | internal/config/config.go:42-61 | Load succeeds if and only if every variable in the check order is non-empty. |
| Config.LoadReportsEarliestMissing | internal/config/config.go:43-57 | If the i-th required variable is empty and all earlier ones are set, Load fails with the error naming that variable, even when later ones are also missing. |
| Config.LoadPort | internal/config/config.go:35-40 | An empty or unset SERVER_PORT gives port "8080". A non-empty one is used unchanged. |
| Config.LoadCopiesVerbatim | internal/config/config.go:25-36 | On success, every field except the port equals its variable's value exactly. |
| Config.LoadIgnoresUncheckedVars | internal/config/config.go:31-40 | Changing MS_REDIRECT_URI, MS_SCOPES or SERVER_PORT to any value, including "", never changes whether Load succeeds. A failing load keeps the same error. |
| Config.LoadAcceptsEmptyUnchecked | internal/config/config.go:31-32 | When the five required variables are set, empty MS_REDIRECT_URI and MS_SCOPES still load, and those fields are empty. |
| Config.LoadReadsOnlyItsVars | internal/config/config.go:25-36 | Two environments that agree on the eight variables Load reads give the same result. |
| Config.LoadToEnvRoundTrip | internal/config/config.go:25-61 | Exporting a configuration with all required fields and a port set, then loading it, gives back the same configuration. |
| Config.ToEnvAfterLoad | internal/config/config.go:25-40 | Exporting a loaded configuration gives back every variable except SERVER_PORT unchanged. SERVER_PORT comes back as the loaded port, which may be the default. |
| Config.LoadIsStable | internal/config/config.go:25-61 | Exporting a loaded configuration and loading it again gives the same result. |
| Config.MissingVariable | internal/config/config.go:44-56 | Any error message with the "missing required env: " prefix is the error for exactly the variable name that follows the prefix. |
| Config.MissingEnvErrorRoundTrip | internal/config/config.go:44-56 | The error for a variable names that variable and nothing else. |
| Config.RequiredErrorsDistinct | internal/config/config.go:43-57 | Different missing required variables give different error messages. |

## Left out

- Reading the real process environment with `os.Getenv`: the environment is a parameter of `Load`.
- The `log.Println` and `println` messages in `Load`: they print progress and do not affect the result.
- Go's `*Config` pointer and `error` interface: a successful load returns the record as a value, and a failed one returns the error text.
- The rest of the repository is outside this model because it only calls external libraries and services: the OAuth2 handlers, the Graph client, JWT minting, Firestore setup, routing and the server's lifecycle.

# tunc: configuration merge and connection supervisor

This project models the core of `tunc`, the client of the tun reverse tunnel. The model has two parts.

- **Configuration loading.** `parse` and `loadConfig` build the client configuration from two sources: the INI file's sections and the command-line overrides. The server address comes from the reserved `tunc` section. Every other section becomes a proxy entry, but only if both its `token` and its `addr` are non-empty. After that, a non-empty `-server` replaces the server. A non-empty pair of `-id` and `-addr` inserts or overwrites one proxy, and its `-token` is taken as it is, even when empty. A file that cannot be stat'ed is not an error. An error from loading the file is returned before any override is applied.
- **Connection supervision.** Here `main` dials the server and registers every proxy on the new session. It then runs the session. A session that ends with nil or with the session-closed sentinel leads to a new dial and a full re-registration. A failed dial is retried forever, with a one-second pause, and the `idx` counter counts the failures. The counter is reset after every proxy has registered. A failed registration ends the client, and so does any other error from the session run.

The files:

- `results.dfy` (module `Results`): `Option` and `Result`.
- `config.dfy` (module `TuncConfig`): the `proxy` and `config` types. `Config` is a class, because `parse` and `loadConfig` update its two fields in place. The pure functions `ParseSections`, `ApplyOverrides` and `Load` specify the methods `Parse` and `LoadConfig`, and lemmas prove the properties of these functions.
- `supervisor.dfy` (module `TuncSupervisor`): the supervision loop. The collaborators are replaced by a scripted trace of replies, one reply per collaborator call: `Ok` for nil, `Closed` for `ErrSessionClosed`, and `Failed` for any other error. `Step` says what one call and its reply do to the state. The state holds the phase, the counter `idx` and the event log. `Run` applies `Step` to a whole trace. `Supervise` is written as `main`'s nested loops and is proved equal to `Run`. Lemmas state what happens in one cycle. Go leaves the map's iteration order unspecified, so the registration order is an input sequence `order`. `Enumerates` requires that it lists every proxy id exactly once.

Three points of the code that the model keeps:

- The retry counter is reset to 0 only after all proxies have registered (`cmd/tunc/main.go:127`), not when the dial succeeds. `Valid` states this point: the counter is 0 whenever a session is about to run.
- Any `os.Stat` failure counts as "no file" (`cmd/tunc/main.go:35-38`), not only a missing file.
- A dial that returns the session-closed sentinel is a failed dial, like any other dial error. A registration that returns it is fatal, like any other registration error.

## Model

| member | source | states |
|---|---|---|
| `TuncConfig.Config.constructor` | cmd/tunc/main.go:71-73 | A new configuration has an empty server and no proxies. |
| `TuncConfig.Parse` | cmd/tunc/main.go:34-68 | If the file cannot be stat'ed: no error and `cfg` unchanged. If the load fails: that error, with `cfg` unchanged. Otherwise: no error, and `cfg` becomes `ParseSections` of its old value and the sections, applied in file order (the loop's invariant). |
| `TuncConfig.ApplyOverrides` | cmd/tunc/main.go:80-89 | A non-empty `-server` replaces the server, and an empty one keeps it. If `-id` and `-addr` are both non-empty, the id set gains exactly `-id`, `-id` maps to `{addr, token}` even when the token is empty, and every other entry is unchanged. Otherwise the proxies are unchanged. |
| `TuncConfig.LoadConfig` | cmd/tunc/main.go:70-91 | Returns a fresh configuration. When the file exists but fails to load, it returns exactly that error, and the configuration is still empty: no override was applied. It fails only then. Otherwise the configuration equals `Load`'s value. |
| `TuncConfig.ParseServerLastTunc` | cmd/tunc/main.go:45-50 | After parsing, the server is the `server` value of the last `tunc` section, even when that value is empty. |
| `TuncConfig.ParseServerNoTunc` | cmd/tunc/main.go:45-50 | Without a `tunc` section, parsing leaves the server as it was. |
| `TuncConfig.ParseProxyIds` | cmd/tunc/main.go:52-65 | After parsing, the proxy ids are the earlier ids plus the names of the qualifying sections. A section qualifies when it is not `tunc` and its token and addr are both non-empty. |
| `TuncConfig.ParseNeverTuncProxy` | cmd/tunc/main.go:46-50 | A `tunc` section never becomes a proxy. |
| `TuncConfig.ParseLastSectionWins` | cmd/tunc/main.go:62-65 | A qualifying section that no later qualifying section of the same name follows gives exactly `{addr, token}` under its name. |
| `TuncConfig.ParseKeepsUnnamed` | cmd/tunc/main.go:52-65 | An entry that no qualifying section names keeps its earlier value. |
| `TuncConfig.ParseEntriesComplete` | cmd/tunc/main.go:52-61 | Parsing never creates an entry with an empty addr or an empty token. |
| `TuncConfig.ParseSectionSelected` | cmd/tunc/main.go:52-65 | When section names are distinct, a section other than `tunc` is a proxy if and only if its token and addr are both non-empty, and then its entry is exactly `{addr, token}`. |
| `TuncConfig.LoadAbsentFile` | cmd/tunc/main.go:35-38 | A file that cannot be stat'ed is no error. The server is the `-server` value, and the proxies are either the single override entry or none. |
| `TuncConfig.LoadServerPrecedence` | cmd/tunc/main.go:80-82 | A non-empty `-server` wins. Otherwise the server is the last `tunc` section's value, or empty when the file has no `tunc` section. |
| `TuncConfig.LoadProxyPrecedence` | cmd/tunc/main.go:84-89 | With `-id` and `-addr` both non-empty: the ids are the file's ids plus `-id`, `-id` maps to the override's `{addr, token}` and replaces any file entry, and the other entries are the file's. Otherwise the proxies are exactly the file's. |
| `TuncConfig.LoadIncompleteOnlyFromOverride` | cmd/tunc/main.go:84-89 | An entry with an empty token can only be the override entry, made with an empty `-token`. |
| `TuncSupervisor.Step` | cmd/tunc/main.go:108-135 | One collaborator call keeps `Valid`: the counter is never negative, a registration position is inside the order, and the counter is 0 whenever a session is about to run. |
| `TuncSupervisor.Run` | cmd/tunc/main.go:104-135 | Every state reached from a valid state by any finite trace of replies is valid. |
| `TuncSupervisor.Supervise` | cmd/tunc/main.go:104-135 | The nested dial, register and run loops end, with early returns on fatal outcomes, in exactly the state `Run` gives for the same replies. This includes the counter and the full event log. |
| `TuncSupervisor.Launch` | cmd/tunc/main.go:98-135 | A configuration load error ends the client before any dial. Otherwise the client is supervised with the loaded configuration. |
| `TuncSupervisor.StoppedIsFinal` | cmd/tunc/main.go:119-133 | After a fatal outcome no further call is made, whatever replies follow: no later registration and no further dial. |
| `TuncSupervisor.DialFailuresRetry` | cmd/tunc/main.go:109-115 | After `n` failed dials, for any `n`, the supervisor is still dialing. The counter has grown by exactly `n`, and each failure logged a dial, a pause and the new count. |
| `TuncSupervisor.RegistersInOrder` | cmd/tunc/main.go:118-127 | After a successful dial, proxies are registered one at a time in the given order. The counter keeps its value until the last proxy has registered, and then it is 0. |
| `TuncSupervisor.ConnectResetsCounter` | cmd/tunc/main.go:118-128 | A successful dial followed by a full registration leaves the supervisor about to run the session, with the counter at 0. |
| `TuncSupervisor.RegistrationsOncePerProxy` | cmd/tunc/main.go:118-125 | One pass makes one registration per id, in order, each with that proxy's token and addr, and no two are the same. |
| `TuncSupervisor.FullPassCoversProxies` | cmd/tunc/main.go:118-125 | Every configured proxy is registered in a full pass. |
| `TuncSupervisor.RegistrationFailureIsFatal` | cmd/tunc/main.go:118-123 | The first failed registration stops the client. It reports that proxy, no later proxy is attempted, and no further dial is made, whatever replies follow. |
| `TuncSupervisor.SessionEndReconnects` | cmd/tunc/main.go:128-135 | A run that ends with nil or session-closed is followed by a new dial and a full re-registration of every proxy, and the counter is back at 0. |
| `TuncSupervisor.RunErrorIsFatal` | cmd/tunc/main.go:129-133 | Any other run error stops the client, and no call follows it. |
| `TuncSupervisor.ReachedCycleLog` | cmd/tunc/main.go:108-127 | In every reachable state, the current cycle's registrations follow the latest dial directly, one proxy at a time in the given order. While a session runs, every proxy has been registered once since the latest dial. |

## Left out

- INI text parsing (`ini.Load`, `sec.Key(...).String()`) belongs to a library. The model takes the parsed sections as input, and an absent key reads as an empty string. The library's implicit `DEFAULT` section and its key inheritance are not modelled. The model allows duplicate section names and handles them as the loop in `parse` does: the last qualifying section of a name gives its entry, and a later section of that name that does not qualify leaves the entry in place.
- `os.Stat` becomes the `Absent` case of the file input. Line 35 stats `*conf` rather than `filename`, but both are the same value at the only call site.
- Flag parsing becomes the `Overrides` parameter, because the values are fixed at startup.
- `client.Dial`, `c.Proxy` and `c.Run` are network I/O. They are replaced by the scripted replies. Sessions have no identity of their own in the model: each registration and run applies to the session of the latest successful dial.
- `time.Sleep` and the retry log line are recorded as the `Sleep` and `ReportRetry` events. The other log lines, `log.Use`, `version.Version` and `context.Background()` carry no logic and are left out.
- The supervision loop never ends by itself. The model runs it over a finite trace of replies, and the final state says where the loop stood when the trace ran out.
- Supervise: `idx` is an `int64` in the source, and the model leaves out its wrap-around. It would need 2^63 consecutive failed dials at one per second.
- Supervise: uses one registration order for every cycle. Go may enumerate the map in a different order on each pass. The per-cycle lemmas hold for any order that lists each proxy once.

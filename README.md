# camino-network-runner helpers, modelled in Dafny

This project models two helper files of the camino-network-runner, the tool
that starts and orchestrates local Camino node networks.

- `utils/utils.go` (module `Utils`, file `utils.dfy`) reads the network ID
  from a genesis document. It checks that the node executable, the plugin
  executable and the plugin genesis exist. It turns a VM name into a 32-byte
  VM identifier. It builds the name of a timestamped directory.
- `local/utils.go` (module `Local`, file `local.dfy`) picks a free TCP port
  for a node. It draws random ports in [10000, 65535] and tries to bind each
  one, until a bind succeeds or a three-second deadline passes.

`wrappers.dfy` (module `Wrappers`) holds `Option` and `Outcome`. A Go `error`
result becomes `Outcome<Error>`: `Pass` is a nil error and `Fail(e)` a
non-nil one. A Go `(value, error)` pair becomes a pair as well, so the zero
value returned with an error is part of the model: `ids.Empty`, `0`, or port
`0`.

The outside world is replaced by inputs:

- `os.Stat` is a function `stat: string -> StatResult`. It says whether the
  stat succeeded, failed with a not-exist error, or failed otherwise.
- `json.Unmarshal` into a `map[string]interface{}` is a `Decoded` value: a
  decoding error, the literal `null`, or an object. `null` is a separate case
  because Go decodes it into a nil map without an error. The lookup then
  reports a missing key.
- `time.Now().Format(...)` is a timestamp string, and `os.MkdirAll` is a
  function from a path to an outcome.
- In `getFreePort`, the random source is a stream of draws `draw(k)`, one per
  attempt. Each draw lies in [0, 55536), as `rand.Intn` promises. Binding is
  an oracle `bind(k, port)` indexed by the attempt, so a port may be busy at
  one attempt and free at a later one. The context deadline is `budget`: the
  number of times the loop finds the context not yet done.

`NetworkIDFromGenesis` only checks that the decoded value is a float64
(utils/utils.go:45-48). It then converts it with `uint32(...)` without a range
check (utils/utils.go:49).

`ids.ToID` is not part of this model. `VMID` assumes that it accepts every
32-byte buffer and wraps it unchanged, so `VMID` fails only for a name longer
than 32 bytes.

## Model

| member | source | states |
|---|---|---|
| `Utils.NetworkIDFromGenesis` | utils/utils.go:36-50 | Errors are reported in a fixed order: a decoding error first, then a missing "networkID" key, then a value that is not a number. That last error names the value's dynamic type, which is never float64. The call succeeds exactly when a number is stored under the key, and it returns that number. On every error it returns 0 and no sentinel error. |
| `Utils.Members` | utils/utils.go:37-41 | A document that decodes as `null` leaves a nil map, and a lookup in it finds no key. An object's entries are the decoded ones. |
| `Utils.NetworkIDReadsOnlyKey` | utils/utils.go:41-49 | Two decodable documents that agree on the "networkID" entry give the same result, whatever their other keys hold. |
| `Utils.TypeName` | utils/utils.go:47 | The type name in the wrong-type error is "float64" exactly for a number. |
| `Utils.ClassifyStat` | utils/utils.go:63-69 | After a stat: success gives nil, and a not-exist error gives the caller's sentinel. Any other error gives a wrapping error that names the path and cause and is not a sentinel. |
| `Utils.ExecProbes` | utils/utils.go:60-63 | `CheckExecPath` calls stat on nothing for the empty path. Otherwise it calls stat on that one path. |
| `Utils.CheckExecPath` | utils/utils.go:59-71 | `ErrInvalidExecPath` comes back exactly for the empty path. The result is nil exactly when a non-empty path stats successfully, and `ErrNotExists` exactly when it does not exist. Any other stat failure gives a non-sentinel wrapping error. |
| `Utils.CheckExecPathReadsOnlyProbes` | utils/utils.go:60-63 | The empty path is rejected without consulting stat. Otherwise the result depends only on the stat of that one path. |
| `Utils.PluginProbes` | utils/utils.go:75-81 | Stat is always applied to the plugin executable first. |
| `Utils.CheckPluginPaths` | utils/utils.go:73-89 | The plugin executable is checked first. If its stat fails, that failure decides the result. `ErrNotExistsPlugin` comes back exactly when the executable does not exist. `ErrNotExistsPluginGenesis` comes back exactly when the executable exists and the genesis file does not. The result is nil exactly when both stats succeed. |
| `Utils.CheckPluginPathsReadsOnlyProbes` | utils/utils.go:75-86 | The result depends only on the stats of the probed paths. When the executable stat fails, the genesis path is never examined. |
| `Utils.PaddedName` | utils/utils.go:95-96 | The padded identifier starts with the name's bytes and holds zero bytes from there up to 32. |
| `Utils.Copy` | utils/utils.go:96 | The builtin `copy` copies `min(len(dst), len(src))` bytes to the front of the destination and leaves the rest unchanged. |
| `Utils.VMID` | utils/utils.go:91-98 | It fails exactly when the name is longer than 32 bytes, with the name-too-long error carrying the length, and then returns `ids.Empty`. On success the 32-byte ID starts with the name and every later byte is zero. |
| `Utils.VMIDDeterministic` | utils/utils.go:95-97 | VMID's success contract allows exactly one ID for a name, so VMID is deterministic. |
| `Utils.FullNameNotPadded` | utils/utils.go:95-96 | A name of exactly 32 bytes maps to its own bytes, with no padding. |
| `Utils.EmptyNameIsEmptyID` | utils/utils.go:95-97 | The empty name maps to the same bytes as `ids.Empty`. |
| `Utils.PaddedNameInjective` | utils/utils.go:95-96 | Two names that do not end in a zero byte and share an ID are equal. |
| `Utils.TrailingZeroCollides` | utils/utils.go:95-96 | The names "a" and "a\x00" share an ID, so VMID is not injective. |
| `Utils.DirName` | utils/utils.go:102 | The directory name is the prefix, then "_", then the timestamp, and the two parts can be read back from it. |
| `Utils.DirNameDistinct` | utils/utils.go:101-102 | With one prefix, different timestamps give different directory names. |
| `Utils.MkDirWithTimestamp` | utils/utils.go:100-104 | The directory name is returned whether or not the directory could be created. It starts with the prefix and "_". The error is exactly what creating that name produced. |
| `Local.ToUint16` | local/utils.go:48 | The `uint16` conversion leaves every value in [0, 65535] unchanged. |
| `Local.Candidate` | local/utils.go:48 | For every draw r in [0, 55536), the candidate `uint16(r + minPort)` equals `r + 10000` with no truncation, and lies in [10000, 65535]. |
| `Local.IsFreePort` | local/utils.go:23-33 | A port is reported not free exactly when the bind fails. |
| `Local.FirstFree` | local/utils.go:42-55 | An attempt is accepted (`Accepted`, local/utils.go:48-49) when its draw's candidate binds. The index found is an attempt before the deadline whose candidate bound, and every earlier attempt's candidate failed to bind. If nothing is found, no attempt before the deadline bound. |
| `Local.GetFreePort` | local/utils.go:39-56 | On success the error is nil and the port is the candidate of the first attempt that bound. That is the latest draw, it lies in [10000, 65535], and every earlier candidate was rejected. Once the deadline passes, the result is port 0 with the deadline error, and no attempt before the deadline bound. A deadline that has already passed gives this result at once. |
| `Local.FirstFreeLaterDeadline` | local/utils.go:40-45 | A later deadline does not change a success: the same attempt is still the first to bind. |

## Left out

- `ToNodeID` (utils/utils.go:22-33) is not modelled. It parses a TLS key and certificate and derives the node ID through cryptographic library code that is not part of this model.
- `NetworkIDFromGenesis`: on success it returns the decoded float64 (as a `real`), not `uint32(networkID)`. The float64-to-uint32 conversion is floating-point behaviour and is not modelled.
- The JSON decoder itself is not modelled: its result is an input. Duplicate keys and number syntax are therefore out of scope.
- `CheckPluginPaths` takes each path's stat result as fixed for the whole call. The two `os.Stat` calls are separate in time, so a file could change between them. The model does not capture that: it would matter only if both arguments named the same path.
- The filesystem effects of `os.Stat` and `os.MkdirAll` are not modelled. Only the classification of their results is. A stat error counts as "not exist" exactly when `errors.Is(err, fs.ErrNotExist)` holds, and the model takes that classification as given.
- Error messages are modelled by their parts (subject, path, cause, key, type name, length), not as formatted text.
- The layout `20060102_150405` of the timestamp is not modelled: the timestamp is an opaque string.
- Socket I/O in `isFreePort` is not modelled. The result of `net.Listen` is an input, and closing the listener (whose error is ignored) has no effect in the model.
- Seeding the random source in `init` and the distribution of `rand.Intn` are not modelled. Only the range of each draw is.
- The three-second wall-clock timeout is modelled as a count of attempts that start before the context is done. Time spent inside an attempt is not modelled.
- No port is reserved. A port found free may be taken by another process before use, and two calls may return the same port. The model promises nothing about either.

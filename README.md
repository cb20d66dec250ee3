# Model backend: server lifecycle manager and backend installer

This project models in Dafny the two layers of logic in the nanocoder
model-backend package that sit under its shell and process calls:

- **The server manager**. A module-wide registry maps process ids to
  tracked servers. A launcher probes the port, then either spawns a model
  server (`mlx-lm`, `llama-cpp`) or makes sure the system-wide `ollama`
  service runs. Output and exit handlers rewrite a tracked server's status
  in place. A terminator sends SIGTERM, waits, sends SIGKILL and forgets
  the server. There are also configuration helpers (default ports,
  recommended configuration) and the port-probe verdict.
- **The installer**. Backend detection, installation and model download are
  decisions over the outcomes of the shell commands they run. Installation
  instructions are a total function with an unknown-backend fallback.

Every outside effect is an input to the model:

- the outcome of a shell command, as `Types.ExecOutcome`: `Rejected(message)` or `Ok(stdout, stderr)`;
- the pid the OS hands the spawned child;
- whether SIGTERM throws;
- what the child reports while the manager sleeps, as a sequence of
  `ServerManager.ChildEvent` (`Stdout(chunk)`, `Stderr(chunk)`, `Exit`).
  These events are delivered in order by `Registry.Deliver`.

Files:

- `types.dfy` (module `Types`): the backend, status, configuration and
  installation types.
- `text.dfy` (module `Text`): the JavaScript string operations the code
  relies on, namely `includes`, `toLowerCase`, `trim`, `/Version: (.+)/`
  and `String(n)`. Each is given a specification of its own.
- `installer.dfy` (module `Installer`): pure functions.
- `server_manager.dfy` (module `ServerManager`): pure helpers, plus two
  classes. `ServerProcess` is a tracked server whose `status` is updated
  in place. `Registry` holds the registry as `servers: map<int,
  ServerProcess>`, together with `order`, the keys in insertion order; a key
  deleted and set again goes last, as a JavaScript `Map` iterates them.

`Registry.Valid()` is the registry invariant and every method preserves it:

- every entry is stored under its own pid;
- the ollama service entry, and only it, sits under the sentinel `-1`;
- every other key is a positive pid;
- `order` lists each key exactly once.

Behaviours of the code that the contracts state, with the lines they come
from in `source/model-backend/server-manager.ts`:

- Only stdout chunks carry the `ready`/`listening` signal (line 113). A
  stderr chunk can only set `error` (line 121).
- `startServer` for ollama fails, and registers nothing, when `ollama serve &`
  is rejected (lines 77-82).
- The port probe runs before the backend is looked at (line 20). Asking
  ollama for port 11434 while the service already listens is therefore
  refused as "port in use".
- `stopServer` marks the entry `stopping` before the sentinel check (lines
  176-185). So the sentinel entry stays registered, in `stopping`.
- When SIGTERM throws (line 188), the catch at line 206 reports failure and
  the entry stays, in `stopping`. Hence `stopAllServers` leaves the sentinel
  and every SIGTERM-failed entry in place. It does not empty the registry.

Edge cases that the contracts of `StartServer` state explicitly:

- The final probe overrides any status a handler set during the settle wait.
- A child that exits during the settle wait is no longer registered. If the
  final probe still finds the port busy, the call reports success with that
  unregistered process.

## Model

| member | source | states |
|---|---|---|
| Types.ParseBackend | source/model-backend/types.ts:1 | a name that reads as a backend is that backend's name |
| Types.ParseBackendName | source/model-backend/types.ts:1 | a name reads as backend `b` exactly when it is `b`'s name (the enum is closed) |
| Text.Contains | source/model-backend/server-manager.ts:113 | `includes` is true exactly when the substring occurs at some position |
| Text.ToLower | source/model-backend/server-manager.ts:121 | same length; each character is folded to lower case |
| Text.LoweredSearchIgnoresCase | source/model-backend/server-manager.ts:121 | searching lowered text for a lower-case word is the same as a case-insensitive occurrence of the word |
| Text.Trim | source/model-backend/installer.ts:35 | the result is a slice of the input with only whitespace cut from either end; its end characters are not whitespace; it is empty exactly when the input is all whitespace |
| Text.VersionStart | source/model-backend/installer.ts:18 | the leftmost position at which `Version: ` starts a match, or the string length when there is none |
| Text.VersionMatch | source/model-backend/installer.ts:18 | none exactly when no position matches; otherwise the capture from the leftmost match to the end of its line, non-empty and free of line terminators |
| Text.NatToDecimal | source/model-backend/server-manager.ts:40 | a non-empty string of digits without a leading zero |
| Text.ToDecimal | source/model-backend/server-manager.ts:40 | `String(n)`: a minus sign exactly when `n` is negative, followed by the digits of its magnitude without leading zeros |
| Text.DecimalRoundTrip | source/model-backend/server-manager.ts:51 | `String(n)` of an integer reads back as that integer |
| Text.CanonicalRendersItself | source/model-backend/server-manager.ts:40 | a digit string with no leading zero is exactly `String` of its value |
| Text.DecimalCanonical | source/model-backend/server-manager.ts:40 | a numeral that reads back is exactly `String` of its value: leading zeros and `-0` are not accepted |
| Installer.CheckBackendInstallation | source/model-backend/installer.ts:10-84 | the report names the backend asked about; installed iff detection succeeded; a failed detection has no version or path; mlx-lm's version is the `Version:` capture; llama-cpp's path is the trimmed `which` output and its version the trimmed `--version` output, absent when that call fails; ollama's version is the trimmed output |
| Installer.VersionQueryOnlyForLlama | source/model-backend/installer.ts:37-43 | the `--version` call matters only for a detected llama-cpp |
| Installer.InstallRefused | source/model-backend/installer.ts:154 | fails iff stderr is non-empty and lacks `Successfully installed` for pip, or lacks `success` in any case for Homebrew |
| Installer.InstallBackend | source/model-backend/installer.ts:143-233 | success iff every command reached succeeded and stderr passes the backend's test; success messages; a rejected pip reports its error; any rejected Homebrew step gives the fixed "Homebrew not found" message; a refused stderr is echoed |
| Installer.DownloadRefused | source/model-backend/installer.ts:251-268 | mlx-lm refuses a non-empty stderr lacking `Loading`; ollama refuses a stderr containing `error` in any case |
| Installer.DownloadModel | source/model-backend/installer.ts:238-302 | success iff a model path is returned, which is the model name; llama-cpp always gives the manual-download refusal; the mlx-lm and ollama success conditions and their `MLX model <name> is ready` / `Ollama model <name> is ready` messages; a rejected command and a refused stderr give `Download failed: ` with the message or stderr |
| Installer.GetInstallationInstructions | source/model-backend/installer.ts:89-137 | total: a guide exactly for the three backend names, for the backend so named; `Unknown backend: <name>` otherwise |
| ServerManager.GetDefaultPort | source/model-backend/server-manager.ts:264-275 | 11434 for ollama, 8080 for the other two |
| ServerManager.GetRecommendedConfig | source/model-backend/server-manager.ts:246-259 | the backend's default port, context size 8192, GPU layers 999, the given backend and model path |
| ServerManager.IsPortInUse | source/model-backend/server-manager.ts:232-241 | in use iff the probe succeeded and printed a non-whitespace character; a failed probe counts as free |
| ServerManager.ResolveLaunch | source/model-backend/server-manager.ts:31-83 | exactly ollama, and only ollama, spawns nothing |
| ServerManager.LaunchRoundTrip | source/model-backend/server-manager.ts:17-58 | a spawned command line has the backend's fixed layout and carries the configured model path and port; llama-cpp also carries context size and GPU layers, 8192 and 999 when absent |
| ServerManager.LaunchReadBack | source/model-backend/server-manager.ts:31-57 | a command line that reads back as a configuration is exactly the one that configuration resolves to, token for token |
| ServerManager.RecommendedConfigBindsDefaultPort | source/model-backend/server-manager.ts:246-259 | the recommended configuration's command line carries the default port, 8192 and 999; ollama's default port is the service port |
| ServerManager.Effect | source/model-backend/server-manager.ts:110-132 | stdout with case-sensitive `ready` or `listening` sets running; stderr with `error` in any case sets error; exit sets stopped; other chunks set nothing |
| ServerManager.StreamsCarryOwnSignals | source/model-backend/server-manager.ts:113-121 | `error` on stdout and `ready` on stderr change nothing; `ready` on stdout and `ERROR` on stderr do |
| ServerManager.StreamsNeverCross | source/model-backend/server-manager.ts:110-124 | for every chunk: stdout never sets error or stopped, stderr never sets running or stopped |
| ServerManager.LastEventWins | source/model-backend/server-manager.ts:110-132 | after a run of events, the status is the one assigned by the last event that assigns one |
| ServerManager.QuietEventsKeepStatus | source/model-backend/server-manager.ts:110-124 | events that assign nothing leave the status as it was |
| ServerManager.ServerProcess.constructor | source/model-backend/server-manager.ts:99-105 | the new server carries the given backend, pid, port, model path and status |
| ServerManager.ServerProcess.OnStdout | source/model-backend/server-manager.ts:110-116 | the stdout handler moves the status by that chunk's effect |
| ServerManager.ServerProcess.OnStderr | source/model-backend/server-manager.ts:118-124 | the stderr handler moves the status by that chunk's effect |
| ServerManager.WithoutKeeps | source/model-backend/server-manager.ts:128 | `Map.delete` on the key order (`Without`, which drops keys and keeps the rest in order): exactly the keys not dropped remain, still distinct |
| ServerManager.WithoutTwice | source/model-backend/server-manager.ts:200 | dropping keys twice drops the union, the survivors in their order; a key deleted twice is deleted once |
| ServerManager.Registry.constructor | source/model-backend/server-manager.ts:7 | the registry starts empty and valid |
| ServerManager.Registry.Put | source/model-backend/server-manager.ts:107 | `Map.set`: the entry is stored under its pid, replacing any earlier one; a new key goes last in the order, a known key keeps its place; validity kept |
| ServerManager.Registry.Remove | source/model-backend/server-manager.ts:200 | `Map.delete`: only that key is gone; validity kept |
| ServerManager.Registry.GetRunningServers | source/model-backend/server-manager.ts:217-219 | the tracked servers in key order, one per key, each exactly once |
| ServerManager.Registry.OnExit | source/model-backend/server-manager.ts:126-132 | the exit handler marks the server stopped and removes its pid; the other keys keep their order |
| ServerManager.Registry.Handle | source/model-backend/server-manager.ts:110-132 | one event runs its handler: the status takes that event's step; an exit also removes the pid, the other keys keeping their order |
| ServerManager.Registry.Deliver | source/model-backend/server-manager.ts:109-135 | after the wait the status is the fold of the events over the old status; the pid is gone iff an exit was among them, the other keys keeping their order; nothing else changes |
| ServerManager.Registry.StartServer | source/model-backend/server-manager.ts:12-159 | busy port: failure naming the port, nothing spawned, registry unchanged; ollama: a rejected `serve` fails with nothing registered, otherwise a fresh running entry under -1 on port 11434 replaces any earlier one; spawning backends: the resolved command line is spawned and one entry registered under the pid, whose final status is running iff the second probe finds the port busy, with success iff so; the entry is gone if the child exited during the wait; a new key goes last in the order, a replaced one keeps its place |
| ServerManager.Registry.Terminate | source/model-backend/server-manager.ts:190-200 | the grace wait's events fold over the status, then the pid is gone and the other keys keep their order |
| ServerManager.Registry.StopServer | source/model-backend/server-manager.ts:164-212 | the signals sent: none for an unknown pid or the sentinel, SIGTERM alone when it throws, SIGTERM then SIGKILL otherwise; unknown pid: failure naming it, nothing changes; sentinel: success with the system-wide message, entry kept in stopping; SIGTERM threw: failure with its message, entry kept in stopping; otherwise success, the entry is removed with the other keys keeping their order, and its status is the grace-wait events folded over stopping |
| ServerManager.Registry.StopAllServers | source/model-backend/server-manager.ts:224-227 | exactly the sentinel and the SIGTERM-failed entries remain, each the same object in stopping; each removed server ends in the status its grace-wait events give it; the remaining keys keep their order |
| ServerManager.Registry.StopNext | source/model-backend/server-manager.ts:226 | one pid of the snapshot stopped: the survivors, the statuses and the key order move on by that pid alone |

## Left out

- Running commands (`exec`, `spawn`, `process.kill`): their outcomes are parameters.
- The probe's shell command (`lsof ... || netstat ... | grep LISTEN`): only the verdict on its output is modelled.
- The two-second sleeps: each one is a point at which the child's events are delivered.
- `Promise.all` in `stopAllServers`: the model stops the snapshot's pids one after another.
  - The concurrent stops touch different keys.
  - Deleting an absent key is a no-op.
  - So the final registry is the same.
  - Events of one child delivered during another's wait are not modelled.
- Other calls that interleave with a manager call during its sleeps: concurrency is not modelled.
- The `onOutput` and `onProgress` callbacks are not modelled. Their text is only logged; what a callback that throws does depends on where it is called, and none of this is modelled:
  - in `installBackend`, a throw from `onProgress` at installer.ts lines 148, 152, 160, 169 and 196 reaches the outer catch and becomes `Installation failed: …` (line 227); at line 160 this turns a completed mlx-lm install into a failure;
  - in `installBackend`, a throw at lines 172 and 180 is caught by the inner catch at line 185, and at lines 199 and 207 by the one at line 212; both return the fixed "Homebrew not found…" refusal, so at lines 180 and 207 a completed install is reported as Homebrew missing;
  - in `downloadModel` (lines 246-274) it becomes `Download failed: …` (line 296), which at lines 257 and 274 turns a successful download into a failure;
  - in `startServer` a throw from the `onOutput` call at server-manager.ts line 92 lands in the `Failed to start server:` catch (line 153);
  - the `onOutput` calls at server-manager.ts lines 112, 120 and 129 run inside the stream and exit listeners, outside the try of lines 16-153, so nothing in `startServer` catches their throws; at lines 112 and 120 a throw also skips the status update that follows (lines 113-115 and 121-123).
  - The exit code appears only in the exit log line, so `Exit` carries no code.
- The prose of the installation guides: `Installer.Instructions` names the guide without its text.
- `index.ts`: it only re-exports.
- The `default` branches of the switches over the backend type: they are unreachable, because the enum is closed.
  - The same holds for the "Unknown backend type" throw in detection.
  - `GetInstallationInstructions` keeps its fallback, because it is modelled over any name.
- The catch-all `Failed to start server:` path of `startServer` (lines 153-158) is not modelled. It is reached when spawn itself throws, or when the `onOutput` callback at line 92 throws, after the first probe and before any spawn.
- ServerManager.Registry.StartServer: requires a positive pid for the spawning backends. When spawn cannot start the command, `childProcess.pid` is undefined and the code stores the entry under `undefined` (lines 101, 107). The child then has no `'error'` listener (lines 94-132), so Node would raise that error as uncaught. None of this is modelled.
- Text.ToLower: folds only the ASCII letters, not the full Unicode case mapping of `toLowerCase`.
- Text.ToDecimal: renders integers only; `String(n)` of a fractional or exponent-form number is not modelled.
- ServerManager.Registry.StopServer: the SIGKILL outcome `sigkillFails` is accepted and ignored, because it is swallowed.
  - Whether the process is really gone is not modelled.

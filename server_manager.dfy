/** The server lifecycle manager: the process registry, the launcher with its
    output and exit handlers, the terminator, and the configuration helpers.

    Every outside effect is an input: each port probe is the outcome of the
    probe command, the spawned process id is a parameter, the outcome of the
    SIGTERM is a parameter, and what the child process reports while the
    manager sleeps (the settle wait after spawning, the grace wait after
    SIGTERM) is a sequence of events delivered in order. */
module ServerManager {
  import opened Types
  import opened Text

  const DefaultContextSize := 8192
  const DefaultGpuLayers := 999
  /** The key and pid of the ollama service entry: a system service no manager owns. */
  const OllamaPid := -1
  const OllamaPort := 11434

  // ------------------------------------------------------------ configuration

  /** getDefaultPort. */
  function GetDefaultPort(backend: BackendType): (port: int)
    ensures backend == Ollama ==> port == OllamaPort
    ensures backend != Ollama ==> port == 8080
  {
    match backend
    case MlxLm => 8080
    case LlamaCpp => 8080
    case Ollama => 11434
  }

  /** getRecommendedConfig. */
  function GetRecommendedConfig(backend: BackendType, modelPath: string): (c: ServerConfig)
    ensures c.backend == backend && c.modelPath == modelPath
    ensures c.port == GetDefaultPort(backend)
    ensures c.contextSize == Some(DefaultContextSize) && c.gpuLayers == Some(DefaultGpuLayers)
  {
    ServerConfig(backend, modelPath, GetDefaultPort(backend), Some(8192), Some(999))
  }

  // --------------------------------------------------------------- port probe

  /** isPortInUse's verdict on the outcome of its probe command: in use when
      the command succeeded and printed something besides whitespace; a
      failed probe counts as free. */
  function IsPortInUse(probe: ExecOutcome): (inUse: bool)
    ensures inUse <==> probe.Ok? && exists k :: 0 <= k < |probe.stdout| && !IsWhitespace(probe.stdout[k])
  {
    probe.Ok? && |Trim(probe.stdout)| > 0
  }

  // ---------------------------------------------------------- command lines

  /** How startServer brings a backend up: by spawning a child process with
      a command line, or (ollama) by making sure the system service runs. */
  datatype Launch = Spawn(command: string, args: seq<string>) | EnsureService

  /** The per-backend command resolution of startServer. */
  function ResolveLaunch(config: ServerConfig): (l: Launch)
    ensures l.EnsureService? <==> config.backend == Ollama
  {
    match config.backend
    case MlxLm =>
      Spawn("python3", ["-m", "mlx_lm.server", "--model", config.modelPath, "--port", ToDecimal(config.port)])
    case LlamaCpp =>
      Spawn("llama-server",
        ["-m", config.modelPath, "--port", ToDecimal(config.port),
         "--ctx-size", ToDecimal(config.contextSize.GetOr(DefaultContextSize)),
         "--n-gpu-layers", ToDecimal(config.gpuLayers.GetOr(DefaultGpuLayers))])
    case Ollama => EnsureService
  }

  /** Reads a server command line back as the configuration it starts: the
      mlx-lm layout `python3 -m mlx_lm.server --model P --port N`, or the
      llama-cpp layout `llama-server -m P --port N --ctx-size C --n-gpu-layers G`. */
  function ParseLaunch(l: Launch): Option<ServerConfig> {
    match l
    case EnsureService => None
    case Spawn(cmd, a) =>
      if cmd == "python3" && |a| == 6 && a[0] == "-m" && a[1] == "mlx_lm.server"
         && a[2] == "--model" && a[4] == "--port" && ParseDecimal(a[5]).Some? then
        Some(ServerConfig(MlxLm, a[3], ParseDecimal(a[5]).value, None, None))
      else if cmd == "llama-server" && |a| == 8 && a[0] == "-m" && a[2] == "--port"
         && a[4] == "--ctx-size" && a[6] == "--n-gpu-layers"
         && ParseDecimal(a[3]).Some? && ParseDecimal(a[5]).Some? && ParseDecimal(a[7]).Some? then
        Some(ServerConfig(LlamaCpp, a[1], ParseDecimal(a[3]).value, ParseDecimal(a[5]), ParseDecimal(a[7])))
      else
        None
  }

  /** The command line of a spawning backend has its fixed layout and carries
      the model path and port of the configuration; llama-cpp also carries
      the context size and GPU layer count, 8192 and 999 when absent, and
      mlx-lm carries neither. */
  lemma LaunchRoundTrip(config: ServerConfig)
    requires config.backend != Ollama
    ensures var p := ParseLaunch(ResolveLaunch(config));
      p.Some? && p.value.backend == config.backend && p.value.modelPath == config.modelPath
      && p.value.port == config.port
      && (config.backend == MlxLm ==> p.value.contextSize == None && p.value.gpuLayers == None)
      && (config.backend == LlamaCpp ==>
            p.value.contextSize == Some(config.contextSize.GetOr(DefaultContextSize))
            && p.value.gpuLayers == Some(config.gpuLayers.GetOr(DefaultGpuLayers)))
  {
    DecimalRoundTrip(config.port);
    DecimalRoundTrip(config.contextSize.GetOr(DefaultContextSize));
    DecimalRoundTrip(config.gpuLayers.GetOr(DefaultGpuLayers));
  }

  /** A command line that reads back as a configuration is exactly the one
      that configuration resolves to: every accepted token is the rendering
      `startServer` writes, so no other spelling of a port, context size or
      layer count is read as the same launch. */
  lemma LaunchReadBack(l: Launch, config: ServerConfig)
    requires ParseLaunch(l) == Some(config)
    ensures ResolveLaunch(config) == l
  {
    var a := l.args;
    if l.command == "python3" {
      DecimalCanonical(a[5], config.port);
      assert ResolveLaunch(config).args == a;
    } else {
      DecimalCanonical(a[3], config.port);
      DecimalCanonical(a[5], config.contextSize.value);
      DecimalCanonical(a[7], config.gpuLayers.value);
      assert ResolveLaunch(config).args == a;
    }
  }

  /** A server started from the recommended configuration binds the
      backend's default port: a spawned server gets it on its command line,
      and the ollama entry is registered with it. */
  lemma RecommendedConfigBindsDefaultPort(backend: BackendType, modelPath: string)
    ensures backend != Ollama ==>
      ParseLaunch(ResolveLaunch(GetRecommendedConfig(backend, modelPath))) ==
        Some(ServerConfig(backend, modelPath, GetDefaultPort(backend),
          if backend == LlamaCpp then Some(DefaultContextSize) else None,
          if backend == LlamaCpp then Some(DefaultGpuLayers) else None))
    ensures backend == Ollama ==> GetDefaultPort(backend) == OllamaPort
  {
    if backend != Ollama {
      LaunchRoundTrip(GetRecommendedConfig(backend, modelPath));
    }
  }

  // ---------------------------------------------------------- output events

  /** What a spawned child reports while the manager waits: a chunk of
      standard output, a chunk of standard error, or its exit (with any code). */
  datatype ChildEvent = Stdout(chunk: string) | Stderr(chunk: string) | Exit

  predicate ReportsReady(chunk: string) {
    Contains(chunk, "ready") || Contains(chunk, "listening")
  }

  predicate ReportsError(chunk: string) {
    Contains(ToLower(chunk), "error")
  }

  /** The status an event's handler assigns, if it assigns one: a stdout
      chunk with `ready` or `listening` (case-sensitive) sets running, a
      stderr chunk with `error` in any case sets error, an exit sets stopped;
      any other chunk leaves the status alone. */
  function Effect(e: ChildEvent): (r: Option<Status>)
    ensures e.Stdout? ==>
      r == if Contains(e.chunk, "ready") || Contains(e.chunk, "listening") then Some(Running) else None
    ensures e.Stderr? ==>
      r == if exists i: nat :: OccursAtIgnoringCase(e.chunk, "error", i) then Some(Error) else None
    ensures e.Exit? ==> r == Some(Stopped)
  {
    match e
    case Stdout(c) => if ReportsReady(c) then Some(Running) else None
    case Stderr(c) =>
      LoweredSearchIgnoresCase(c, "error");
      if ReportsError(c) then Some(Error) else None
    case Exit => Some(Stopped)
  }

  /** Each stream carries only its own signal: `error` on stdout and `ready`
      on stderr change nothing, while `ready` on stdout and `ERROR` on stderr do. */
  lemma StreamsCarryOwnSignals()
    ensures Effect(Stdout("error")) == None && Effect(Stderr("ready")) == None
    ensures Effect(Stdout("ready")) == Some(Running) && Effect(Stderr("ERROR")) == Some(Error)
  {
    assert OccursAt("ready", "ready", 0);
    assert OccursAtIgnoringCase("ERROR", "error", 0);
    forall i: nat ensures !OccursAt("error", "ready", i) && !OccursAt("error", "listening", i) {
      if i == 0 {
        assert "error"[0..5][0] != "ready"[0];
      }
    }
    forall i: nat ensures !OccursAtIgnoringCase("ready", "error", i) {
      if i == 0 {
        assert !SameIgnoringCase("ready"[0], "error"[0]);
      }
    }
  }

  /** No stdout chunk ever sets error and no stderr chunk ever sets running. */
  lemma StreamsNeverCross(c: string)
    ensures Effect(Stdout(c)) != Some(Error) && Effect(Stdout(c)) != Some(Stopped)
    ensures Effect(Stderr(c)) != Some(Running) && Effect(Stderr(c)) != Some(Stopped)
  {
  }

  function Step(s: Status, e: ChildEvent): Status {
    Effect(e).GetOr(s)
  }

  /** The status after the handlers have seen `events` in order, starting from `s`. */
  ghost function AfterEvents(s: Status, events: seq<ChildEvent>): Status
    decreases |events|
  {
    if events == [] then s else Step(AfterEvents(s, events[..|events| - 1]), events[|events| - 1])
  }

  /** One more event of a run: the status takes one more step, and an exit
      is among the events seen exactly when it was already or this one is. */
  lemma PrefixStep(s: Status, events: seq<ChildEvent>, i: nat)
    requires i < |events|
    ensures AfterEvents(s, events[..i + 1]) == Step(AfterEvents(s, events[..i]), events[i])
    ensures (Exit in events[..i + 1]) <==> (Exit in events[..i] || events[i] == Exit)
  {
    assert events[..i + 1] == events[..i] + [events[i]];
  }

  /** The last event that assigns a status decides the status. */
  lemma {:induction false} LastEventWins(s: Status, events: seq<ChildEvent>, k: nat)
    requires k < |events| && Effect(events[k]).Some?
    requires forall j :: k < j < |events| ==> Effect(events[j]).None?
    ensures AfterEvents(s, events) == Effect(events[k]).value
  {
    var n := |events| - 1;
    if k < n {
      var front := events[..n];
      assert front[k] == events[k];
      forall j | k < j < |front| ensures Effect(front[j]).None? {
        assert front[j] == events[j];
      }
      LastEventWins(s, front, k);
    }
  }

  /** Events that assign no status leave it as it was. */
  lemma {:induction false} QuietEventsKeepStatus(s: Status, events: seq<ChildEvent>)
    requires forall j :: 0 <= j < |events| ==> Effect(events[j]).None?
    ensures AfterEvents(s, events) == s
  {
    if events != [] {
      var front := events[..|events| - 1];
      forall j | 0 <= j < |front| ensures Effect(front[j]).None? {
        assert front[j] == events[j];
      }
      QuietEventsKeepStatus(s, front);
    }
  }

  // --------------------------------------------------------------- registry

  /** A snapshot of one tracked server, as getRunningServers' caller sees it. */
  datatype Entry = Entry(backend: BackendType, pid: int, port: int, modelPath: string, status: Status)

  /** A tracked server. The handlers, the launcher and the terminator all
      update the one shared object. */
  class ServerProcess {
    const backend: BackendType
    const pid: int
    const port: int
    const modelPath: string
    var status: Status

    constructor (backend: BackendType, pid: int, port: int, modelPath: string, status: Status)
      ensures Snapshot() == Entry(backend, pid, port, modelPath, status)
    {
      this.backend := backend;
      this.pid := pid;
      this.port := port;
      this.modelPath := modelPath;
      this.status := status;
    }

    function Snapshot(): Entry
      reads this
    {
      Entry(backend, pid, port, modelPath, status)
    }

    /** The stdout data handler. */
    method OnStdout(chunk: string)
      modifies this
      ensures status == Step(old(status), Stdout(chunk))
    {
      if ReportsReady(chunk) {
        status := Running;
      }
    }

    /** The stderr data handler. */
    method OnStderr(chunk: string)
      modifies this
      ensures status == Step(old(status), Stderr(chunk))
    {
      if ReportsError(chunk) {
        status := Error;
      }
    }
  }

  /** No key appears twice. */
  ghost predicate Distinct(s: seq<int>) {
    forall i, j :: 0 <= i < j < |s| ==> s[i] != s[j]
  }

  /** `s` with the keys in `gone` dropped and the others kept in their order. */
  function Without(s: seq<int>, gone: set<int>): seq<int>
    decreases |s|
  {
    if s == [] then []
    else if s[|s| - 1] in gone then Without(s[..|s| - 1], gone)
    else Without(s[..|s| - 1], gone) + [s[|s| - 1]]
  }

  /** Dropping keys leaves exactly the others, and keeps distinct keys distinct. */
  lemma {:induction false} WithoutKeeps(s: seq<int>, gone: set<int>)
    ensures forall y :: y in Without(s, gone) <==> y in s && y !in gone
    ensures Distinct(s) ==> Distinct(Without(s, gone))
    decreases |s|
  {
    if s != [] {
      var front, last := s[..|s| - 1], s[|s| - 1];
      var rest := Without(front, gone);
      WithoutKeeps(front, gone);
      assert s == front + [last];
      assert Distinct(s) ==> Distinct(front) && last !in front by {
        if Distinct(s) {
          forall i, j | 0 <= i < j < |front| ensures front[i] != front[j] {
            assert front[i] == s[i] && front[j] == s[j];
          }
          forall j | 0 <= j < |front| ensures front[j] != last {
            assert front[j] == s[j];
          }
        }
      }
      if last !in gone && Distinct(s) {
        forall i, j | 0 <= i < j < |rest + [last]| ensures (rest + [last])[i] != (rest + [last])[j] {
          assert (rest + [last])[i] == rest[i];
          if j < |rest| {
            assert (rest + [last])[j] == rest[j];
          }
        }
      }
    }
  }

  /** Dropping nothing keeps the keys as they are. */
  lemma {:induction false} WithoutNothing(s: seq<int>)
    ensures Without(s, {}) == s
  {
    if s != [] {
      WithoutNothing(s[..|s| - 1]);
      assert s == s[..|s| - 1] + [s[|s| - 1]];
    }
  }

  /** Dropping the keys of `a` and then those of `b` drops the keys of both,
      the survivors still in their order. */
  lemma {:induction false} WithoutTwice(s: seq<int>, a: set<int>, b: set<int>)
    ensures Without(Without(s, a), b) == Without(s, a + b)
    decreases |s|
  {
    if s != [] {
      var front, last := s[..|s| - 1], s[|s| - 1];
      WithoutTwice(front, a, b);
      if last !in a {
        var rest := Without(front, a);
        assert (rest + [last])[..|rest + [last]| - 1] == rest;
      }
    }
  }

  /** Dropping a key a second time changes nothing. */
  lemma WithoutAgain(s: seq<int>, x: int)
    ensures Without(Without(s, {x}), {x}) == Without(s, {x})
  {
    WithoutTwice(s, {x}, {x});
    assert {x} + {x} == {x};
  }

  /** A key appended and then dropped leaves no trace. */
  lemma AppendThenDrop(s: seq<int>, x: int)
    ensures Without(s + [x], {x}) == Without(s, {x})
  {
    assert (s + [x])[..|s|] == s;
  }

  /** Going one key further along a list of distinct keys meets a new key. */
  lemma NextKey(s: seq<int>, i: nat)
    requires Distinct(s) && i < |s|
    ensures s[i] !in s[..i]
    ensures forall k :: k in s[..i + 1] <==> k in s[..i] || k == s[i]
  {
    assert s[..i + 1] == s[..i] + [s[i]];
  }

  /** The entries `stopAllServers` leaves once the pids in `done` have been
      stopped: all others, and of those stopped only the ollama service and
      the ones whose SIGTERM threw. */
  ghost function Survivors(before: map<int, ServerProcess>, done: set<int>, sigterm: int -> SignalResult)
    : map<int, ServerProcess>
  {
    map k | k in before && (k !in done || k == OllamaPid || sigterm(k).Threw?) :: before[k]
  }

  /** The pids in `done` whose stop removed them from the registry. */
  ghost function Removed(done: set<int>, sigterm: int -> SignalResult): set<int> {
    set k | k in done && k != OllamaPid && sigterm(k).Delivered?
  }

  /** The status a stopped pid's server is left in. */
  ghost function StoppedStatus(k: int, sigterm: int -> SignalResult, grace: int -> seq<ChildEvent>): Status {
    if k == OllamaPid || sigterm(k).Threw? then Stopping else AfterEvents(Stopping, grace(k))
  }

  /** Stopping one more pid removes it from the survivors exactly when its SIGTERM was delivered to a real process. */
  lemma SurvivorsStep(before: map<int, ServerProcess>, done: set<int>, pid: int, sigterm: int -> SignalResult)
    requires pid in before
    ensures Survivors(before, done + {pid}, sigterm) ==
      if pid !in done && pid != OllamaPid && sigterm(pid).Delivered? then Survivors(before, done, sigterm) - {pid}
      else Survivors(before, done, sigterm)
  {
  }

  /** Once every pid is stopped, the survivors are the ollama service and the
      SIGTERM failures, and the removed pids are all the others. */
  lemma AllStopped(before: map<int, ServerProcess>, sigterm: int -> SignalResult)
    ensures Survivors(before, before.Keys, sigterm).Keys == set k | k in before && (k == OllamaPid || sigterm(k).Threw?)
    ensures before.Keys - Survivors(before, before.Keys, sigterm).Keys == Removed(before.Keys, sigterm)
  {
  }

  /** Removing one more pid from the key order drops it from the filtered keys. */
  lemma RemovedStep(pids: seq<int>, done: set<int>, pid: int, sigterm: int -> SignalResult)
    ensures pid != OllamaPid && sigterm(pid).Delivered? ==>
      Without(Without(pids, Removed(done, sigterm)), {pid}) == Without(pids, Removed(done + {pid}, sigterm))
    ensures !(pid != OllamaPid && sigterm(pid).Delivered?) ==>
      Removed(done + {pid}, sigterm) == Removed(done, sigterm)
  {
    WithoutTwice(pids, Removed(done, sigterm), {pid});
    if pid != OllamaPid && sigterm(pid).Delivered? {
      assert Removed(done + {pid}, sigterm) == Removed(done, sigterm) + {pid};
    }
  }

  datatype StartResult = StartResult(success: bool, message: string, process: Option<ServerProcess>)

  /** What process.kill(pid, 'SIGTERM') did. */
  datatype SignalResult = Delivered | Threw(message: string)

  /** A signal stopServer sends with process.kill to the pid it was given. */
  datatype Signal = SigTerm | SigKill

  const OllamaSystemWideMessage := "Ollama service is system-wide. Use \"ollama stop\" manually if needed."

  /** The process-wide registry of running servers, keyed by pid. Like a
      JavaScript Map it remembers the order in which its keys were first
      set; `order` holds the keys in that order. */
  class Registry {
    var servers: map<int, ServerProcess>
    var order: seq<int>

    /** `order` lists each key once; every entry is stored under its own
        pid; the ollama service entry, and only it, sits under the sentinel
        -1; every other key is a real (positive) process id. */
    ghost predicate Valid()
      reads this
    {
      && Distinct(order)
      && (forall k :: k in servers ==> k in order)
      && (forall j :: 0 <= j < |order| ==> order[j] in servers)
      && (forall k :: k in servers ==>
            servers[k].pid == k && (servers[k].backend == Ollama <==> k == OllamaPid) && (k == OllamaPid || k > 0))
    }

    constructor ()
      ensures Valid() && servers == map[] && order == []
    {
      servers := map[];
      order := [];
    }

    /** Map.set: a new key goes to the end of the order, a known key keeps its place. */
    method Put(sp: ServerProcess)
      requires Valid()
      requires (sp.backend == Ollama <==> sp.pid == OllamaPid) && (sp.pid == OllamaPid || sp.pid > 0)
      modifies this
      ensures Valid()
      ensures servers == old(servers)[sp.pid := sp]
      ensures order == if sp.pid in old(servers) then old(order) else old(order) + [sp.pid]
    {
      if sp.pid !in servers {
        order := order + [sp.pid];
      }
      servers := servers[sp.pid := sp];
    }

    /** Map.delete: deleting a key that is not there changes nothing. */
    method Remove(pid: int)
      requires Valid()
      modifies this
      ensures Valid()
      ensures servers == old(servers) - {pid}
      ensures order == Without(old(order), {pid})
    {
      WithoutKeeps(order, {pid});
      servers := servers - {pid};
      order := Without(order, {pid});
      forall j | 0 <= j < |order| ensures order[j] in servers {
        assert order[j] in order;
      }
    }

    /** getRunningServers: the tracked servers in the order their pids were
        first registered, each exactly once. */
    method GetRunningServers() returns (r: seq<ServerProcess>)
      requires Valid()
      ensures |r| == |order|
      ensures forall j :: 0 <= j < |order| ==> order[j] in servers && r[j] == servers[order[j]]
      ensures forall j :: 0 <= j < |r| ==> r[j] in servers.Values
      ensures forall i, j :: 0 <= i < j < |r| ==> r[i] != r[j]
    {
      r := [];
      var i := 0;
      while i < |order|
        invariant 0 <= i <= |order|
        invariant forall j :: 0 <= j < |order| ==> order[j] in servers
        invariant |r| == i
        invariant forall j :: 0 <= j < i ==> r[j] == servers[order[j]]
      {
        r := r + [servers[order[i]]];
        i := i + 1;
      }
      forall i, j | 0 <= i < j < |r| ensures r[i] != r[j] {
        assert r[i].pid == order[i] && r[j].pid == order[j];
      }
    }

    /** The exit handler: the tracked server is stopped and its pid leaves
        the registry, whatever is stored under it. */
    method OnExit(sp: ServerProcess)
      requires Valid()
      modifies this, sp
      ensures Valid()
      ensures sp.status == Stopped && servers == old(servers) - {sp.pid}
      ensures order == Without(old(order), {sp.pid})
    {
      sp.status := Stopped;
      Remove(sp.pid);
    }

    /** Runs the handler `sp`'s child has registered for one event. */
    method Handle(sp: ServerProcess, e: ChildEvent)
      requires Valid()
      modifies this, sp
      ensures Valid()
      ensures sp.status == Step(old(sp.status), e)
      ensures servers == if e == Exit then old(servers) - {sp.pid} else old(servers)
      ensures order == if e == Exit then Without(old(order), {sp.pid}) else old(order)
    {
      match e {
        case Stdout(c) => sp.OnStdout(c);
        case Stderr(c) => sp.OnStderr(c);
        case Exit => OnExit(sp);
      }
    }

    /** Delivers, in order, the events `sp`'s child reports while the
        manager waits. */
    method Deliver(sp: ServerProcess, events: seq<ChildEvent>)
      requires Valid()
      modifies this, sp
      ensures Valid()
      ensures sp.status == AfterEvents(old(sp.status), events)
      ensures servers == if Exit in events then old(servers) - {sp.pid} else old(servers)
      ensures order == if Exit in events then Without(old(order), {sp.pid}) else old(order)
    {
      ghost var s0, m0, o0, p := sp.status, servers, order, sp.pid;
      var i := 0;
      ghost var exited := false;
      while i < |events|
        invariant 0 <= i <= |events|
        invariant Valid()
        invariant exited == (Exit in events[..i])
        invariant sp.status == AfterEvents(s0, events[..i])
        invariant servers == if exited then m0 - {p} else m0
        invariant order == if exited then Without(o0, {p}) else o0
      {
        if events[i] == Exit {
          WithoutAgain(o0, p);
          exited := true;
        }
        Handle(sp, events[i]);
        PrefixStep(s0, events, i);
        i := i + 1;
      }
      assert events[..i] == events;
    }

    /** startServer. `firstProbe` and `secondProbe` are the outcomes of the
        port probe for `config.port` before and after the settle wait,
        `serve` that of `ollama serve &`, `pid` the id the OS gives the
        spawned child and `settle` what the child reports during the settle
        wait. `spawned` is the command line that was spawned, if any. */
    method StartServer(config: ServerConfig, firstProbe: ExecOutcome, serve: ExecOutcome,
                       pid: int, settle: seq<ChildEvent>, secondProbe: ExecOutcome)
      returns (r: StartResult, spawned: Option<Launch>, ghost sp: ServerProcess?)
      requires Valid()
      requires config.backend != Ollama ==> pid > 0
      modifies this
      ensures Valid()
      // a port already in use: nothing is spawned and nothing registered
      ensures IsPortInUse(firstProbe) ==>
        r == StartResult(false, "Port " + ToDecimal(config.port)
          + " is already in use. Please choose a different port or stop the existing server.", None)
        && spawned == None && servers == old(servers) && order == old(order)
      // ollama: the service entry under -1 on port 11434, whatever port was asked for
      ensures !IsPortInUse(firstProbe) && config.backend == Ollama ==>
        spawned == None
        && (serve.Rejected? ==>
              r == StartResult(false, "Failed to start Ollama: " + serve.message, None)
              && servers == old(servers) && order == old(order))
        && (serve.Ok? ==>
              sp != null && fresh(sp) && r == StartResult(true, "Ollama service is running", Some(sp))
              && sp.Snapshot() == Entry(Ollama, OllamaPid, OllamaPort, config.modelPath, Running)
              && servers == old(servers)[OllamaPid := sp]
              && order == if OllamaPid in old(servers) then old(order) else old(order) + [OllamaPid])
      // spawning backends: one entry under the pid; the final probe decides its status
      ensures !IsPortInUse(firstProbe) && config.backend != Ollama ==>
        spawned == Some(ResolveLaunch(config))
        && sp != null && fresh(sp)
        && sp.Snapshot() == Entry(config.backend, pid, config.port, config.modelPath,
                                  if IsPortInUse(secondProbe) then Running else Error)
        && r == (if IsPortInUse(secondProbe)
                 then StartResult(true, BackendName(config.backend) + " server started successfully on port "
                                          + ToDecimal(config.port), Some(sp))
                 else StartResult(false, "Server failed to start. Check the logs for details.", None))
        && servers == (if Exit in settle then old(servers) - {pid} else old(servers)[pid := sp])
        && order == (if Exit in settle then Without(old(order), {pid})
                     else if pid in old(servers) then old(order) else old(order) + [pid])
    {
      spawned := None;
      sp := null;
      if IsPortInUse(firstProbe) {
        r := StartResult(false, "Port " + ToDecimal(config.port)
          + " is already in use. Please choose a different port or stop the existing server.", None);
        return;
      }
      var launch := ResolveLaunch(config);
      if launch.EnsureService? {
        if serve.Rejected? {
          r := StartResult(false, "Failed to start Ollama: " + serve.message, None);
          return;
        }
        var service := new ServerProcess(Ollama, OllamaPid, OllamaPort, config.modelPath, Running);
        Put(service);
        sp := service;
        r := StartResult(true, "Ollama service is running", Some(service));
        return;
      }
      spawned := Some(launch);
      var child := new ServerProcess(config.backend, pid, config.port, config.modelPath, Starting);
      sp := child;
      Put(child);
      ghost var registered := servers;
      Deliver(child, settle);
      assert registered - {pid} == old(servers) - {pid};
      if pid !in old(servers) {
        AppendThenDrop(old(order), pid);
      }
      if IsPortInUse(secondProbe) {
        child.status := Running;
        r := StartResult(true, BackendName(config.backend) + " server started successfully on port "
                                 + ToDecimal(config.port), Some(child));
      } else {
        child.status := Error;
        r := StartResult(false, "Server failed to start. Check the logs for details.", None);
      }
    }

    /** The part of stopServer after a delivered SIGTERM: the grace wait,
        during which `sp`'s child reports `grace`, then the deletion of its pid. */
    method Terminate(sp: ServerProcess, grace: seq<ChildEvent>)
      requires Valid()
      modifies this, sp
      ensures Valid()
      ensures sp.status == AfterEvents(old(sp.status), grace)
      ensures servers == old(servers) - {sp.pid}
      ensures order == Without(old(order), {sp.pid})
    {
      Deliver(sp, grace);
      Remove(sp.pid);
      if Exit in grace {
        WithoutAgain(old(order), sp.pid);
      }
    }

    /** stopServer, which returns the signals it sent to `pid`, in order. `sigterm` is what sending SIGTERM did, `grace` what the
        child reports during the grace wait, and `sigkillFails` whether the
        following SIGKILL throws (it is swallowed either way). */
    method StopServer(pid: int, sigterm: SignalResult, grace: seq<ChildEvent>, sigkillFails: bool)
      returns (r: OpResult, signals: seq<Signal>)
      requires Valid()
      modifies this, if pid in servers then {servers[pid]} else {}
      ensures Valid()
      // an unknown pid is not signalled
      ensures pid !in old(servers) ==>
        r == OpResult(false, "No server found with PID " + ToDecimal(pid)) && signals == []
        && servers == old(servers) && order == old(order)
      // the ollama service is never signalled and stays registered, marked stopping
      ensures pid in old(servers) && pid == OllamaPid ==>
        r == OpResult(true, OllamaSystemWideMessage) && signals == []
        && servers == old(servers) && order == old(order) && servers[pid].status == Stopping
      // SIGTERM threw: no SIGKILL follows; failure, and the entry stays, marked stopping
      ensures pid in old(servers) && pid != OllamaPid && sigterm.Threw? ==>
        r == OpResult(false, "Failed to stop server: " + sigterm.message) && signals == [SigTerm]
        && servers == old(servers) && order == old(order) && servers[pid].status == Stopping
      // SIGTERM delivered: SIGKILL follows whether or not it fails; success, and the entry is gone
      ensures pid in old(servers) && pid != OllamaPid && sigterm.Delivered? ==>
        r == OpResult(true, "Server stopped successfully") && signals == [SigTerm, SigKill]
        && servers == old(servers) - {pid}
        && order == Without(old(order), {pid})
        && old(servers)[pid].status == AfterEvents(Stopping, grace)
    {
      signals := [];
      if pid !in servers {
        r := OpResult(false, "No server found with PID " + ToDecimal(pid));
        return;
      }
      var sp := servers[pid];
      sp.status := Stopping;
      if sp.backend == Ollama && pid == OllamaPid {
        r := OpResult(true, OllamaSystemWideMessage);
        return;
      }
      signals := [SigTerm];
      if sigterm.Threw? {
        r := OpResult(false, "Failed to stop server: " + sigterm.message);
        return;
      }
      Terminate(sp, grace);
      signals := signals + [SigKill];
      r := OpResult(true, "Server stopped successfully");
    }

    /** One round of stopAllServers: stops the `i`-th pid of the snapshot
        `pids` of the registry `before`, the pids in `done` (the ones before
        it) having been stopped already. */
    method StopNext(pids: seq<int>, i: nat, ghost before: map<int, ServerProcess>, ghost done: set<int>,
                    sigterm: int -> SignalResult, grace: int -> seq<ChildEvent>, sigkillFails: int -> bool)
      requires Valid()
      requires i < |pids| && Distinct(pids) && forall j :: 0 <= j < |pids| ==> pids[j] in before
      requires forall k :: k in done <==> k in pids[..i]
      requires done <= before.Keys && forall k :: k in before ==> before[k].pid == k
      requires servers == Survivors(before, done, sigterm)
      requires forall k :: k in done ==> before[k].status == StoppedStatus(k, sigterm, grace)
      requires order == Without(pids, Removed(done, sigterm))
      modifies this, before[pids[i]]
      ensures Valid()
      ensures forall k :: k in done + {pids[i]} <==> k in pids[..i + 1]
      ensures servers == Survivors(before, done + {pids[i]}, sigterm)
      ensures forall k :: k in done + {pids[i]} ==> before[k].status == StoppedStatus(k, sigterm, grace)
      ensures order == Without(pids, Removed(done + {pids[i]}, sigterm))
    {
      var pid := pids[i];
      NextKey(pids, i);
      SurvivorsStep(before, done, pid, sigterm);
      RemovedStep(pids, done, pid, sigterm);
      var _, _ := StopServer(pid, sigterm(pid), grace(pid), sigkillFails(pid));
    }

    /** stopAllServers: stops, one after another, every server tracked when
        it is called. `sigterm`, `grace` and `sigkillFails` give each pid's
        stop its outside effects. Only the ollama service entry and the
        entries whose SIGTERM threw remain, each marked stopping. */
    method StopAllServers(sigterm: int -> SignalResult, grace: int -> seq<ChildEvent>, sigkillFails: int -> bool)
      requires Valid()
      modifies this, servers.Values
      ensures Valid()
      ensures servers.Keys == set k | k in old(servers) && (k == OllamaPid || sigterm(k).Threw?)
      ensures forall k :: k in servers ==> servers[k] == old(servers)[k] && servers[k].status == Stopping
      ensures forall k :: k in old(servers) && k !in servers ==> old(servers)[k].status == AfterEvents(Stopping, grace(k))
      // the remaining keys keep their order
      ensures order == Without(old(order), old(servers).Keys - servers.Keys)
    {
      ghost var before := servers;
      var pids := order;
      ghost var done: set<int> := {};
      WithoutNothing(pids);
      assert Removed(done, sigterm) == {};
      var i := 0;
      while i < |pids|
        invariant 0 <= i <= |pids|
        invariant Valid()
        invariant forall k :: k in done <==> k in pids[..i]
        invariant done <= before.Keys
        invariant servers == Survivors(before, done, sigterm)
        invariant forall k :: k in done ==> before[k].status == StoppedStatus(k, sigterm, grace)
        invariant order == Without(pids, Removed(done, sigterm))
      {
        StopNext(pids, i, before, done, sigterm, grace, sigkillFails);
        done := done + {pids[i]};
        i := i + 1;
      }
      assert pids[..i] == pids;
      forall k | k in before ensures k in done {
        assert k in old(order);
      }
      assert done == before.Keys;
      AllStopped(before, sigterm);
    }
  }
}

/** The shared vocabulary of the model-backend package: backend kinds, server
    configuration, tracked-server status and installation reports, plus the
    outcome of one shell command as the rest of the model sees it. */
module Types {

  datatype Option<+T> = None | Some(value: T) {
    function GetOr(default: T): T {
      match this
      case Some(v) => v
      case None => default
    }
  }

  /** The three supported backends; the set is closed. */
  datatype BackendType = MlxLm | LlamaCpp | Ollama

  /** The name a backend goes by at the interface and in messages. */
  function BackendName(b: BackendType): string {
    match b
    case MlxLm => "mlx-lm"
    case LlamaCpp => "llama-cpp"
    case Ollama => "ollama"
  }

  /** Reads a backend name back; any other text names no backend. */
  function ParseBackend(name: string): (r: Option<BackendType>)
    ensures r.Some? ==> BackendName(r.value) == name
  {
    if name == "mlx-lm" then Some(MlxLm)
    else if name == "llama-cpp" then Some(LlamaCpp)
    else if name == "ollama" then Some(Ollama)
    else None
  }

  /** Every backend name reads back as its own backend, and only it does. */
  lemma ParseBackendName(b: BackendType, name: string)
    ensures ParseBackend(name) == Some(b) <==> name == BackendName(b)
  {
    match b
    case MlxLm => assert BackendName(b) == "mlx-lm";
    case LlamaCpp => assert BackendName(b) == "llama-cpp";
    case Ollama => assert BackendName(b) == "ollama";
  }

  /** Lifecycle status of a tracked server. */
  datatype Status = Starting | Running | Stopping | Stopped | Error

  /** What a caller asks a server to be started with; absent sizes take defaults. */
  datatype ServerConfig = ServerConfig(
    backend: BackendType,
    modelPath: string,
    port: int,
    contextSize: Option<int>,
    gpuLayers: Option<int>)

  /** What detection reports about one backend. */
  datatype BackendInstallation = BackendInstallation(
    backendType: BackendType,
    installed: bool,
    version: Option<string>,
    path: Option<string>)

  /** The outcome of running one shell command: it either rejects (non-zero
      exit, command not found, ...) with an error message, or resolves with
      the text it wrote to its two output streams. */
  datatype ExecOutcome = Rejected(message: string) | Ok(stdout: string, stderr: string)

  /** The `{success, message}` result most operations hand back. */
  datatype OpResult = OpResult(success: bool, message: string)
}

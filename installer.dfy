/** Backend detection, installation and model download, as pure
    classifications of the outcomes of the shell commands they run. Each
    command's outcome is a parameter; a parameter the code path never reaches
    is ignored. */
module Installer {
  import opened Types
  import opened Text

  /** checkBackendInstallation. `detect` is the outcome of the backend's
      detection command (`python3 -m pip show mlx-lm`, `which llama-server`,
      `ollama --version`); `versionQuery` is the outcome of
      `llama-server --version`, which only llama-cpp runs, and only after
      detection succeeded. Never fails: a rejected detection reports the
      backend as not installed. */
  function CheckBackendInstallation(backend: BackendType, detect: ExecOutcome, versionQuery: ExecOutcome)
    : (r: BackendInstallation)
    ensures r.backendType == backend
    ensures r.installed <==> detect.Ok?
    ensures detect.Rejected? ==> r.version == None && r.path == None
    ensures backend == MlxLm && detect.Ok? ==>
      r.path == None && r.version == VersionMatch(detect.stdout)
    ensures backend == LlamaCpp && detect.Ok? ==>
      r.path == Some(Trim(detect.stdout))
      && r.version == (if versionQuery.Ok? then Some(Trim(versionQuery.stdout)) else None)
    ensures backend == Ollama && detect.Ok? ==>
      r.path == None && r.version == Some(Trim(detect.stdout))
  {
    match detect
    case Rejected(_) => BackendInstallation(backend, false, None, None)
    case Ok(out, _) =>
      match backend
      case MlxLm => BackendInstallation(MlxLm, true, VersionMatch(out), None)
      case LlamaCpp =>
        var version := if versionQuery.Ok? then Some(Trim(versionQuery.stdout)) else None;
        BackendInstallation(LlamaCpp, true, version, Some(Trim(out)))
      case Ollama => BackendInstallation(Ollama, true, Some(Trim(out)), None)
  }

  /** Detection never consults the version query except for a detected llama-cpp. */
  lemma VersionQueryOnlyForLlama(backend: BackendType, detect: ExecOutcome, q1: ExecOutcome, q2: ExecOutcome)
    requires backend != LlamaCpp || detect.Rejected?
    ensures CheckBackendInstallation(backend, detect, q1) == CheckBackendInstallation(backend, detect, q2)
  {
  }

  // --------------------------------------------------------------- install

  /** The install command's stderr that `installBackend` takes as a failure:
      non-empty and without the backend's success marker (`Successfully
      installed` exactly for pip, `success` in any case for Homebrew). */
  function InstallRefused(backend: BackendType, stderr: string): (refused: bool)
    ensures backend == MlxLm ==> (refused <==> stderr != [] && !Contains(stderr, "Successfully installed"))
    ensures backend != MlxLm ==>
      (refused <==> stderr != [] && !exists i: nat :: OccursAtIgnoringCase(stderr, "success", i))
  {
    LoweredSearchIgnoresCase(stderr, "success");
    match backend
    case MlxLm => stderr != [] && !Contains(stderr, "Successfully installed")
    case _ => stderr != [] && !Contains(ToLower(stderr), "success")
  }

  function HomebrewMissingMessage(backend: BackendType): string
    requires backend != MlxLm
  {
    if backend == LlamaCpp then
      "Homebrew not found. Please install llama.cpp manually or install Homebrew first."
    else
      "Homebrew not found. Please install Ollama manually from https://ollama.ai"
  }

  function InstalledMessage(backend: BackendType): string {
    match backend
    case MlxLm => "MLX-LM installed successfully"
    case LlamaCpp => "llama.cpp installed successfully"
    case Ollama => "Ollama installed successfully"
  }

  /** installBackend. For mlx-lm `install` is the outcome of `pip install
      mlx-lm` and `whichBrew` is not consulted; for the other two `whichBrew`
      is the outcome of `which brew` and `install` that of `brew install ...`,
      which only runs when `which brew` succeeded. */
  function InstallBackend(backend: BackendType, whichBrew: ExecOutcome, install: ExecOutcome): (r: OpResult)
    ensures backend == MlxLm ==>
      (r.success <==> install.Ok? && (install.stderr == [] || Contains(install.stderr, "Successfully installed")))
    ensures backend != MlxLm ==>
      (r.success <==>
        (whichBrew.Ok? && install.Ok?
         && (install.stderr == [] || exists i: nat :: OccursAtIgnoringCase(install.stderr, "success", i))))
    ensures r.success ==> r.message == InstalledMessage(backend)
    ensures backend == MlxLm && install.Rejected? ==> r.message == "Installation failed: " + install.message
    ensures backend != MlxLm && (whichBrew.Rejected? || install.Rejected?) ==>
      r.message == HomebrewMissingMessage(backend)
    ensures (backend == MlxLm || whichBrew.Ok?) && install.Ok? && !r.success ==>
      r.message == "Installation failed: " + install.stderr
  {
    if backend != MlxLm && whichBrew.Rejected? then
      OpResult(false, HomebrewMissingMessage(backend))
    else
      match install
      case Rejected(m) =>
        if backend == MlxLm then OpResult(false, "Installation failed: " + m)
        else OpResult(false, HomebrewMissingMessage(backend))
      case Ok(_, err) =>
        if InstallRefused(backend, err) then OpResult(false, "Installation failed: " + err)
        else OpResult(true, InstalledMessage(backend))
  }

  // --------------------------------------------------------------- download

  datatype DownloadResult = DownloadResult(success: bool, message: string, modelPath: Option<string>)

  const ManualDownloadMessage :=
    "llama.cpp requires manual model download. Please download GGUF models from Hugging Face."

  /** The download command's stderr that `downloadModel` takes as a failure:
      for mlx-lm non-empty without `Loading`, for ollama containing `error`
      in any case. */
  function DownloadRefused(backend: BackendType, stderr: string): (refused: bool)
    requires backend != LlamaCpp
    ensures backend == MlxLm ==> (refused <==> stderr != [] && !Contains(stderr, "Loading"))
    ensures backend == Ollama ==> (refused <==> exists i: nat :: OccursAtIgnoringCase(stderr, "error", i))
  {
    LoweredSearchIgnoresCase(stderr, "error");
    if backend == MlxLm then stderr != [] && !Contains(stderr, "Loading")
    else stderr != [] && Contains(ToLower(stderr), "error")
  }

  /** downloadModel. `pull` is the outcome of the backend's download command
      (a Python `mlx_lm.load` of the model for mlx-lm, `ollama pull` for
      ollama); llama-cpp runs no command and always refuses. */
  function DownloadModel(backend: BackendType, modelName: string, pull: ExecOutcome): (r: DownloadResult)
    ensures r.success <==> r.modelPath.Some?
    ensures r.success ==> r.modelPath == Some(modelName)
    ensures r.success && backend == MlxLm ==> r.message == "MLX model " + modelName + " is ready"
    ensures r.success && backend == Ollama ==> r.message == "Ollama model " + modelName + " is ready"
    ensures backend == LlamaCpp ==> r == DownloadResult(false, ManualDownloadMessage, None)
    ensures backend == MlxLm ==>
      (r.success <==> pull.Ok? && (pull.stderr == [] || Contains(pull.stderr, "Loading")))
    ensures backend == Ollama ==>
      (r.success <==> pull.Ok? && !exists i: nat :: OccursAtIgnoringCase(pull.stderr, "error", i))
    ensures backend != LlamaCpp && pull.Rejected? ==> r.message == "Download failed: " + pull.message
    ensures backend != LlamaCpp && pull.Ok? && !r.success ==> r.message == "Download failed: " + pull.stderr
  {
    if backend == LlamaCpp then
      DownloadResult(false, ManualDownloadMessage, None)
    else
      match pull
      case Rejected(m) => DownloadResult(false, "Download failed: " + m, None)
      case Ok(_, err) =>
        if DownloadRefused(backend, err) then
          DownloadResult(false, "Download failed: " + err, None)
        else if backend == MlxLm then
          DownloadResult(true, "MLX model " + modelName + " is ready", Some(modelName))
        else
          DownloadResult(true, "Ollama model " + modelName + " is ready", Some(modelName))
  }

  // ----------------------------------------------------- instructions

  /** What getInstallationInstructions returns: the fixed installation guide
      of a known backend, or the fallback text for any other name. */
  datatype Instructions = Guide(backend: BackendType) | UnknownBackend(text: string)

  /** getInstallationInstructions, total over every name a caller can pass. */
  function GetInstallationInstructions(name: string): (r: Instructions)
    ensures r.Guide? <==> ParseBackend(name).Some?
    ensures r.Guide? ==> BackendName(r.backend) == name
    ensures r.UnknownBackend? ==> r.text == "Unknown backend: " + name
  {
    match ParseBackend(name)
    case Some(b) => Guide(b)
    case None => UnknownBackend("Unknown backend: " + name)
  }
}

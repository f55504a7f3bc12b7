/** The control flow of `main` (launcher.py): the stages that abandon the launch when
    they fail (directories, manifest, version JSON, client JAR, asset index, main
    class, arguments) and the concurrent stages whose failures are only reported
    (library downloads, native extraction, asset downloads). */
module Launcher {
  import opened Common
  import opened Text
  import opened Fetch
  import opened Planning
  import opened Aggregation
  import opened Command

  /** One entry of the manifest's `versions` list. */
  datatype ManifestVersion = ManifestVersion(id: Option<string>, url: Option<string>)

  /** `downloads.client` of the version JSON; a key that is absent is None. */
  datatype ClientInfo = ClientInfo(url: Option<string>, sha1: Option<string>)

  /** `assetIndex` of the version JSON; a key that is absent is None. */
  datatype AssetIndexInfo = AssetIndexInfo(id: Option<string>, url: Option<string>, sha1: Option<string>)

  /** The parts of the version JSON the launcher reads. */
  datatype VersionData = VersionData(
    client: Option<ClientInfo>,
    assetIndex: Option<AssetIndexInfo>,
    mainClass: Option<string>,
    versionType: Option<string>,
    arguments: Arguments,
    libraries: seq<Library>)

  /** Everything `main` consults that is not in the version JSON: the fetch
      environment and the disk, the host, the game directory (absolute), the run's
      random UUID, whether the directories could be created, the manifest (None when
      the request or its JSON failed), how the two JSON files on disk decode (None when
      they do not), and what each task submitted to a worker pool comes to. */
  datatype Environment = Environment(
    world: World,
    files: map<Path, Bytes>,
    host: Host,
    minecraftDir: Path,
    uuid: string,
    dirsCreated: bool,
    manifest: Option<seq<ManifestVersion>>,
    decodeVersion: Bytes -> Option<VersionData>,
    decodeAssetIndex: Bytes -> Option<seq<(string, AssetObject)>>,
    libOutcome: Required -> FetchOutcome,
    extractOutcome: Path -> ExtractOutcome,
    assetOutcome: RequiredAsset -> FetchOutcome)

  /** The stage at which `main` gives up. */
  datatype Stage =
    | Directories | Manifest | VersionNotFound | VersionJsonDownload | VersionJsonRead
    | ClientInfoMissing | ClientJarDownload | AssetIndexInfoMissing | AssetIndexDownload
    | AssetIndexRead | MainClassMissing | ArgumentsMissing

  /** How a run of `main` ends before the game is started. */
  datatype RunResult = Aborted(stage: Stage) | Ready(command: seq<string>)

  /** The files and directories under the game directory. */
  datatype Layout = Layout(
    root: Path, libs: Path, assets: Path, objects: Path, indexes: Path,
    versionJson: Path, clientJar: Path, natives: Path)

  function LayoutOf(root: Path): Layout
  {
    var versionDir := JoinPath(JoinPath(root, "versions"), TargetVersion);
    var assets := JoinPath(root, "assets");
    Layout(root, JoinPath(root, "libraries"), assets, JoinPath(assets, "objects"), JoinPath(assets, "indexes"),
           JoinPath(versionDir, TargetVersion + ".json"), JoinPath(versionDir, TargetVersion + ".jar"),
           JoinPath(versionDir, TargetVersion + "-natives"))
  }

  /** The `url` of the first manifest entry whose `id` is `target` (None when there is
      no such entry or it has no `url`). */
  function VersionUrl(versions: seq<ManifestVersion>, target: string): (r: Option<string>)
    ensures (forall i :: 0 <= i < |versions| ==> versions[i].id != Some(target)) ==> r.None?
    ensures forall i :: 0 <= i < |versions| && versions[i].id == Some(target) &&
                        (forall j :: 0 <= j < i ==> versions[j].id != Some(target)) ==>
                        r == versions[i].url
  {
    if versions == [] then None
    else if versions[0].id == Some(target) then versions[0].url
    else
      var r := VersionUrl(versions[1..], target);
      assert forall i :: 1 <= i < |versions| ==> versions[i] == versions[1..][i - 1];
      r
  }

  /** The manifest loop: stops at the first entry whose `id` is the target. */
  method FindVersionUrl(versions: seq<ManifestVersion>, target: string) returns (versionUrl: Option<string>)
    ensures versionUrl == VersionUrl(versions, target)
  {
    versionUrl := None;
    var i := 0;
    while i < |versions|
      invariant 0 <= i <= |versions|
      invariant versionUrl.None? && VersionUrl(versions, target) == VersionUrl(versions[i..], target)
    {
      if versions[i].id == Some(target) {
        versionUrl := versions[i].url;
        return;
      }
      assert versions[i..][1..] == versions[i + 1..];
      i := i + 1;
    }
  }

  /** Reading a JSON file that the preceding download put in place. */
  function ReadJson<T>(files: map<Path, Bytes>, path: Path, decode: Bytes -> Option<T>): Option<T>
  {
    if path in files then decode(files[path]) else None
  }

  /** `if not info or 'url' not in info or 'sha1' not in info`. */
  predicate ClientUsable(c: Option<ClientInfo>)
  {
    c.Some? && c.value.url.Some? && c.value.sha1.Some?
  }

  /** `if not info or 'id' not in info or 'url' not in info or 'sha1' not in info`. */
  predicate IndexUsable(a: Option<AssetIndexInfo>)
  {
    a.Some? && a.value.id.Some? && a.value.url.Some? && a.value.sha1.Some?
  }

  /** The library downloads in submission order with their outcomes. */
  function LibraryCompletions(required: seq<Required>, outcome: Required -> FetchOutcome): seq<LibraryCompletion>
  {
    seq(|required|, i requires 0 <= i < |required| => LibraryCompletion(required[i], outcome(required[i])))
  }

  function ExtractCompletions(jars: seq<Path>, outcome: Path -> ExtractOutcome): seq<ExtractCompletion>
  {
    seq(|jars|, i requires 0 <= i < |jars| => ExtractCompletion(jars[i], outcome(jars[i])))
  }

  function AssetCompletions(assets: seq<RequiredAsset>, outcome: RequiredAsset -> FetchOutcome): seq<AssetCompletion>
  {
    seq(|assets|, i requires 0 <= i < |assets| => AssetCompletion(assets[i], outcome(assets[i])))
  }

  /** The classpath entries after the library stage: cached libraries, then those whose
      download delivered a path. */
  function ClasspathEntries(plan: LibraryPlan, outcome: Required -> FetchOutcome): seq<Path>
  {
    plan.classpath +
      (if plan.required == [] then [] else Harvest(LibraryCompletions(plan.required, outcome), DeliveredPath(false)))
  }

  /** The launch command once every input is at hand. */
  function Compose(env: Environment, d: Layout, data: VersionData, clientJar: Path,
                   entries: seq<Path>, indexId: string): RunResult
  {
    if !Given(data.mainClass) then Aborted(MainClassMissing)
    else
      var sep := ClasspathSeparator(env.host.system);
      var classpath := Join(sep, [clientJar] + entries);
      match ArgumentTemplates(data.arguments, env.host.system)
      case None => Aborted(ArgumentsMissing)
      case Some((jvmTemplates, gameTemplates)) =>
        var ctx := LaunchContext(env.uuid, d.root, d.assets, indexId, data.versionType, d.natives,
                                 classpath, d.libs, sep);
        var pairs := Replacements(ctx);
    ReplacementKeys(ctx);
        ReplacementKeys(ctx);
        Ready(LaunchCommand(Substituted(jvmTemplates, pairs), data.mainClass.value,
                            Substituted(gameTemplates, pairs) + AuthCompletion(gameTemplates, env.uuid)))
  }

  /** From the asset-index stage on. */
  function FromAssetIndex(env: Environment, d: Layout, files: map<Path, Bytes>, data: VersionData,
                          clientJar: Path, entries: seq<Path>): RunResult
  {
    if !IndexUsable(data.assetIndex) then Aborted(AssetIndexInfoMissing)
    else
      var info := data.assetIndex.value;
      var indexPath := JoinPath(d.indexes, info.id.value + ".json");
      var a := Download(env.world, files, info.url.value, indexPath, info.sha1, 3);
      if !a.ok then Aborted(AssetIndexDownload)
      else if ReadJson(a.files, indexPath, env.decodeAssetIndex).None? then Aborted(AssetIndexRead)
      else Compose(env, d, data, clientJar, entries, info.id.value)
  }

  /** From the client-JAR stage on. */
  function FromClient(env: Environment, d: Layout, files: map<Path, Bytes>, data: VersionData): RunResult
  {
    if !ClientUsable(data.client) then Aborted(ClientInfoMissing)
    else
      var c := Download(env.world, files, data.client.value.url.value, d.clientJar, data.client.value.sha1, 3);
      if !c.ok then Aborted(ClientJarDownload)
      else
        var plan := PlanFrom(FatesOf(data.libraries, env.host, d.libs, c.files, env.world.sha1));
        FromAssetIndex(env, d, c.files, data, d.clientJar, ClasspathEntries(plan, env.libOutcome))
  }

  /** A run of `main` up to the start of the game. */
  function Run(env: Environment): RunResult
  {
    if !env.dirsCreated then Aborted(Directories)
    else if env.manifest.None? then Aborted(Manifest)
    else
      var url := VersionUrl(env.manifest.value, TargetVersion);
      if !Given(url) then Aborted(VersionNotFound)
      else
        var d := LayoutOf(env.minecraftDir);
        var v := Download(env.world, env.files, url.value, d.versionJson, None, 3);
        if !v.ok then Aborted(VersionJsonDownload)
        else match ReadJson(v.files, d.versionJson, env.decodeVersion)
          case None => Aborted(VersionJsonRead)
          case Some(data) => FromClient(env, d, v.files, data)
  }

  /** The launch-command stage: `mainClass`, the classpath, the templates, the
      substitutions and the authentication arguments, then the removal of `--demo`. */
  method ComposeCommand(env: Environment, d: Layout, data: VersionData, clientJarPath: Path,
                        libraryPaths: seq<Path>, indexId: string) returns (result: RunResult)
    ensures result == Compose(env, d, data, clientJarPath, libraryPaths, indexId)
  {
    if !Given(data.mainClass) {
      return Aborted(MainClassMissing);
    }
    var sep := ClasspathSeparator(env.host.system);
    var classpath := Join(sep, [clientJarPath] + libraryPaths);
    var found, jvmTemplates, gameTemplates := CollectArgumentTemplates(data.arguments, env.host.system);
    if !found {
      return Aborted(ArgumentsMissing);
    }
    var ctx := LaunchContext(env.uuid, d.root, d.assets, indexId, data.versionType, d.natives,
                             classpath, d.libs, sep);
    var pairs := Replacements(ctx);
    ReplacementKeys(ctx);
    var jvmArgs := ProcessJvmArgs(jvmTemplates, pairs);
    var gameArgs := ProcessGameArgs(gameTemplates, pairs, env.uuid);
    var command := [JavaExecutable] + jvmArgs + [data.mainClass.value] + gameArgs;
    if "--demo" in command {
      command := RemoveFirst(command, "--demo");
    }
    return Ready(command);
  }

  /** The asset stage: the index must be described, downloaded and readable; the
      asset downloads themselves only report failures. */
  method AssetStage(env: Environment, d: Layout, files: map<Path, Bytes>, data: VersionData,
                    clientJarPath: Path, libraryPaths: seq<Path>) returns (result: RunResult)
    ensures result == FromAssetIndex(env, d, files, data, clientJarPath, libraryPaths)
  {
    if !IndexUsable(data.assetIndex) {
      return Aborted(AssetIndexInfoMissing);
    }
    var info := data.assetIndex.value;
    var indexPath := JoinPath(d.indexes, info.id.value + ".json");
    var success, indexResult, after, gets := DownloadFile(env.world, files, info.url.value, indexPath, info.sha1, 3);
    if !success {
      return Aborted(AssetIndexDownload);
    }
    var assetIndex := ReadJson(after, indexPath, env.decodeAssetIndex);
    if assetIndex.None? {
      return Aborted(AssetIndexRead);
    }
    var requiredAssets := PlanAssets(assetIndex.value, d.objects, after, env.world.sha1);
    if requiredAssets != [] {
      var downloadCount, failedAssets := CountAssets(AssetCompletions(requiredAssets, env.assetOutcome));
    }
    result := ComposeCommand(env, d, data, clientJarPath, libraryPaths, info.id.value);
  }

  /** The client JAR, the libraries and the natives. */
  method ClientStage(env: Environment, d: Layout, files: map<Path, Bytes>, data: VersionData)
    returns (result: RunResult)
    ensures result == FromClient(env, d, files, data)
  {
    if !ClientUsable(data.client) {
      return Aborted(ClientInfoMissing);
    }
    var url := data.client.value.url.value;
    var success, clientResult, after, gets := DownloadFile(env.world, files, url, d.clientJar, data.client.value.sha1, 3);
    if !success {
      return Aborted(ClientJarDownload);
    }
    SuccessIsVerified(env.world, files, url, d.clientJar, data.client.value.sha1, 3);
    var clientJarPath := clientResult.value;

    var libraryPaths, nativeLibInfo, requiredLibs := PlanLibraries(data.libraries, env.host, d.libs, after, env.world.sha1);
    ghost var plan := LibraryPlan(libraryPaths, nativeLibInfo, requiredLibs);
    if requiredLibs != [] {
      var reported;
      libraryPaths, nativeLibInfo, reported :=
        CollectLibraries(libraryPaths, nativeLibInfo, LibraryCompletions(requiredLibs, env.libOutcome));
    }
    assert libraryPaths == ClasspathEntries(plan, env.libOutcome);

    if nativeLibInfo != [] {
      var extractedNativePaths, failedJars := CollectExtractions(ExtractCompletions(nativeLibInfo, env.extractOutcome));
    }
    result := AssetStage(env, d, after, data, clientJarPath, libraryPaths);
  }

  /** `main` up to the start of the game: each stage in turn, returning at the first
      critical failure; library, extraction and asset failures are reported, never
      fatal. */
  method PrepareLaunch(env: Environment) returns (result: RunResult)
    ensures result == Run(env)
  {
    if !env.dirsCreated {
      return Aborted(Directories);
    }
    if env.manifest.None? {
      return Aborted(Manifest);
    }
    var versionUrl := FindVersionUrl(env.manifest.value, TargetVersion);
    if !Given(versionUrl) {
      return Aborted(VersionNotFound);
    }
    var d := LayoutOf(env.minecraftDir);
    var success, jsonResult, files, gets := DownloadFile(env.world, env.files, versionUrl.value, d.versionJson, None, 3);
    if !success {
      return Aborted(VersionJsonDownload);
    }
    var versionData := ReadJson(files, d.versionJson, env.decodeVersion);
    if versionData.None? {
      return Aborted(VersionJsonRead);
    }
    result := ClientStage(env, d, files, versionData.value);
  }

  /** Two runs end alike as far as aborting goes: both abort at the same stage, or
      both produce a command. */
  predicate SameFate(a: RunResult, b: RunResult)
  {
    (a.Aborted? <==> b.Aborted?) && (a.Aborted? ==> a == b)
  }

  /** The same environment with other outcomes of the pool tasks. */
  function WithOutcomes(env: Environment, o: Outcomes): Environment
  {
    env.(libOutcome := o.lib, extractOutcome := o.extract, assetOutcome := o.asset)
  }

  /** What the library downloads, native extractions and asset downloads come to. */
  datatype Outcomes = Outcomes(lib: Required -> FetchOutcome, extract: Path -> ExtractOutcome,
                               asset: RequiredAsset -> FetchOutcome)

  lemma ComposeFate(env: Environment, o: Outcomes, d: Layout, data: VersionData, clientJar: Path,
                    entries: seq<Path>, entries': seq<Path>, indexId: string)
    ensures SameFate(Compose(env, d, data, clientJar, entries, indexId),
                     Compose(WithOutcomes(env, o), d, data, clientJar, entries', indexId))
  {
  }

  lemma FromAssetIndexFate(env: Environment, o: Outcomes, d: Layout, files: map<Path, Bytes>,
                           data: VersionData, clientJar: Path, entries: seq<Path>, entries': seq<Path>)
    ensures SameFate(FromAssetIndex(env, d, files, data, clientJar, entries),
                     FromAssetIndex(WithOutcomes(env, o), d, files, data, clientJar, entries'))
  {
    if IndexUsable(data.assetIndex) {
      var info := data.assetIndex.value;
      ComposeFate(env, o, d, data, clientJar, entries, entries', info.id.value);
    }
  }

  lemma FromClientFate(env: Environment, o: Outcomes, d: Layout, files: map<Path, Bytes>, data: VersionData)
    ensures SameFate(FromClient(env, d, files, data), FromClient(WithOutcomes(env, o), d, files, data))
  {
    if ClientUsable(data.client) {
      var c := Download(env.world, files, data.client.value.url.value, d.clientJar, data.client.value.sha1, 3);
      if c.ok {
        var plan := PlanFrom(FatesOf(data.libraries, env.host, d.libs, c.files, env.world.sha1));
        FromAssetIndexFate(env, o, d, c.files, data, d.clientJar,
                           ClasspathEntries(plan, env.libOutcome), ClasspathEntries(plan, o.lib));
      }
    }
  }

  /** Failures of library downloads, native extractions and asset downloads never end
      the run: with any other outcomes of those tasks the run aborts at the same stage
      or is ready as well. */
  lemma SoftFailuresNeverAbort(env: Environment, o: Outcomes)
    ensures SameFate(Run(env), Run(WithOutcomes(env, o)))
  {
    if env.dirsCreated && env.manifest.Some? {
      var url := VersionUrl(env.manifest.value, TargetVersion);
      if Given(url) {
        var d := LayoutOf(env.minecraftDir);
        var v := Download(env.world, env.files, url.value, d.versionJson, None, 3);
        if v.ok && ReadJson(v.files, d.versionJson, env.decodeVersion).Some? {
          FromClientFate(env, o, d, v.files, ReadJson(v.files, d.versionJson, env.decodeVersion).value);
        }
      }
    }
  }

  /** A manifest without the target version abandons the run before any download. */
  lemma MissingVersionAborts(env: Environment)
    requires env.dirsCreated && env.manifest.Some?
    requires forall i :: 0 <= i < |env.manifest.value| ==> env.manifest.value[i].id != Some(TargetVersion)
    ensures Run(env) == Aborted(VersionNotFound)
  {
  }

  /** A launch command the offline launcher can use: the Java executable first, and
      `--username`, `--uuid` and `--accessToken` present. */
  predicate OfflineCommand(cmd: seq<string>)
  {
    cmd != [] && cmd[0] == JavaExecutable &&
    "--username" in cmd && "--uuid" in cmd && "--accessToken" in cmd
  }

  /** A game argument other than `--demo` survives into the final command. */
  lemma GameArgumentKept(jvmArgs: seq<string>, mainClass: string, gameArgs: seq<string>, f: string)
    requires f in gameArgs && f != "--demo"
    ensures f in LaunchCommand(jvmArgs, mainClass, gameArgs)
  {
    var full := [JavaExecutable] + jvmArgs + [mainClass] + gameArgs;
    assert f in full;
    assert multiset(LaunchCommand(jvmArgs, mainClass, gameArgs))[f] == multiset(full)[f];
  }

  lemma ComposeShape(env: Environment, d: Layout, data: VersionData, clientJar: Path,
                     entries: seq<Path>, indexId: string)
    requires Compose(env, d, data, clientJar, entries, indexId).Ready?
    ensures OfflineCommand(Compose(env, d, data, clientJar, entries, indexId).command)
  {
    var sep := ClasspathSeparator(env.host.system);
    var templates := ArgumentTemplates(data.arguments, env.host.system).value;
    var ctx := LaunchContext(env.uuid, d.root, d.assets, indexId, data.versionType, d.natives,
                             Join(sep, [clientJar] + entries), d.libs, sep);
    var pairs := Replacements(ctx);
    ReplacementKeys(ctx);
    var jvmArgs := Substituted(templates.0, pairs);
    var gameArgs := Substituted(templates.1, pairs) + AuthCompletion(templates.1, env.uuid);
    var cmd := LaunchCommand(jvmArgs, data.mainClass.value, gameArgs);
    assert Compose(env, d, data, clientJar, entries, indexId).command == cmd;
    AuthFlagsPresent(templates.1, pairs, env.uuid);
    GameArgumentKept(jvmArgs, data.mainClass.value, gameArgs, "--username");
    GameArgumentKept(jvmArgs, data.mainClass.value, gameArgs, "--uuid");
    GameArgumentKept(jvmArgs, data.mainClass.value, gameArgs, "--accessToken");
  }

  /** Whenever a run gets as far as a command, that command starts with the Java
      executable and carries `--username`, `--uuid` and `--accessToken`, whatever the
      version's templates hold. */
  lemma ReadyCommandIsOffline(env: Environment)
    requires Run(env).Ready?
    ensures OfflineCommand(Run(env).command)
  {
    var d := LayoutOf(env.minecraftDir);
    var v := Download(env.world, env.files, VersionUrl(env.manifest.value, TargetVersion).value, d.versionJson, None, 3);
    var data := ReadJson(v.files, d.versionJson, env.decodeVersion).value;
    assert Run(env) == FromClient(env, d, v.files, data);
    var c := Download(env.world, v.files, data.client.value.url.value, d.clientJar, data.client.value.sha1, 3);
    var plan := PlanFrom(FatesOf(data.libraries, env.host, d.libs, c.files, env.world.sha1));
    var entries := ClasspathEntries(plan, env.libOutcome);
    assert Run(env) == FromAssetIndex(env, d, c.files, data, d.clientJar, entries);
    assert Run(env) == Compose(env, d, data, d.clientJar, entries, data.assetIndex.value.id.value);
    ComposeShape(env, d, data, d.clientJar, entries, data.assetIndex.value.id.value);
  }
}

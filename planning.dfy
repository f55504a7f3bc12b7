/** The read-only planning passes of `main` (launcher.py): the library pass decides,
    library by library, whether it applies, which artifact it stands for, and whether
    the cache already holds it; the asset pass derives each object's path and URL from
    its hash and queues those the cache lacks. */
module Planning {
  import opened Common
  import opened Text
  import opened Rules

  /** A download entry of a library: a JSON object whose keys may be missing.
      `unrecorded` says whether the object holds some key the other fields do not
      record: a key other than these four, or one of them set to `null`. */
  datatype Artifact = Artifact(path: Option<string>, url: Option<string>, sha1: Option<string>, size: Option<int>,
                               unrecorded: bool)

  /** A JSON object without any key is empty, hence falsy in Python; an object with any
      key at all, whatever its value, is truthy. */
  predicate EmptyArtifact(a: Artifact)
  {
    a.path.None? && a.url.None? && a.sha1.None? && a.size.None? && !a.unrecorded
  }

  /** A library's `downloads` object. */
  datatype Downloads = Downloads(artifact: Option<Artifact>, classifiers: Option<map<string, Artifact>>)

  /** One entry of the version JSON's `libraries` list. */
  datatype Library = Library(rules: Option<seq<Rule>>, natives: Option<map<string, string>>, downloads: Option<Downloads>)

  /** The host as the launcher sees it: `platform.system()` and `platform.machine()`. */
  datatype Host = Host(system: string, machine: string)

  /** The value substituted for `${arch}`: `machine.replace('AMD64', '64').replace('x86_64', '64')`. */
  function ArchTag(machine: string): (r: string)
    ensures machine == "AMD64" ==> r == "64"
    ensures machine == "x86_64" ==> r == "64"
    ensures !Occurs("AMD64", machine) && !Occurs("x86_64", machine) ==> r == machine
  {
    AmdTagReplaced();
    IntelTagReplaced();
    Replace(Replace(machine, "AMD64", "64"), "x86_64", "64")
  }

  /** `'AMD64'` becomes `'64'`, which the second replacement leaves alone. */
  lemma AmdTagReplaced()
    ensures Replace(Replace("AMD64", "AMD64", "64"), "x86_64", "64") == "64"
  {
    assert Replace("AMD64", "AMD64", "64") == "64" by {
      assert StartsWith("AMD64", "AMD64") && "AMD64"[5..] == [];
    }
    assert Replace("64", "x86_64", "64") == "64";
  }

  /** `'x86_64'` does not contain `'AMD64'` and then becomes `'64'`. */
  lemma IntelTagReplaced()
    ensures Replace(Replace("x86_64", "AMD64", "64"), "x86_64", "64") == "64"
  {
    assert Replace("x86_64", "AMD64", "64") == "x86_64" by {
      FirstCharAbsent("AMD64", "x86_64");
    }
    assert Replace("x86_64", "x86_64", "64") == "64" by {
      assert StartsWith("x86_64", "x86_64") && "x86_64"[6..] == [];
    }
  }

  /** The native classifier's artifact, when the library lists natives for this OS. */
  function NativeCandidate(lib: Library, os: Option<string>, arch: string): (r: Option<Artifact>)
    ensures r.Some? ==> lib.natives.Some? && os.Some? && os.value in lib.natives.value
    ensures lib.downloads.None? || lib.downloads.value.classifiers.None? ==> r.None?
    ensures lib.natives.Some? && os.Some? && os.value in lib.natives.value &&
            lib.downloads.Some? && lib.downloads.value.classifiers.Some? ==>
              var key := Replace(lib.natives.value[os.value], "${arch}", arch);
              && (r.Some? <==> key in lib.downloads.value.classifiers.value)
              && (r.Some? ==> r.value == lib.downloads.value.classifiers.value[key])
  {
    if lib.natives.Some? && os.Some? && os.value in lib.natives.value then
      var classifier := Replace(lib.natives.value[os.value], "${arch}", arch);
      if lib.downloads.Some? && lib.downloads.value.classifiers.Some? &&
         classifier in lib.downloads.value.classifiers.value
      then Some(lib.downloads.value.classifiers.value[classifier])
      else None
    else None
  }

  /** The artifact a library stands for, and whether it is native: a non-empty native
      classifier artifact wins; otherwise the plain artifact, if the library has one. */
  function Select(lib: Library, os: Option<string>, arch: string): (r: (Option<Artifact>, bool))
    ensures r.1 <==> NativeCandidate(lib, os, arch).Some? && !EmptyArtifact(NativeCandidate(lib, os, arch).value)
    ensures r.1 ==> r.0 == NativeCandidate(lib, os, arch)
    ensures !r.1 && lib.downloads.Some? && lib.downloads.value.artifact.Some? ==> r.0 == lib.downloads.value.artifact
    ensures r.0.Some? && !EmptyArtifact(r.0.value) && !r.1 ==> lib.downloads.Some? && lib.downloads.value.artifact == r.0
  {
    var native := NativeCandidate(lib, os, arch);
    if native.Some? && !EmptyArtifact(native.value) then (native, true)
    else if lib.downloads.Some? && lib.downloads.value.artifact.Some? then (lib.downloads.value.artifact, false)
    else (native, false)
  }

  /** An artifact with a path, a URL and a digest (each a non-empty string). */
  predicate Complete(a: Option<Artifact>)
  {
    a.Some? && Given(a.value.path) && Given(a.value.url) && Given(a.value.sha1)
  }

  /** An entry of `required_libs`. */
  datatype Required = Required(isNative: bool, path: Path, url: string, sha1: Digest)

  /** What the library pass does with one library. */
  datatype Fate = NotApplicable | Incomplete | Cached(isNative: bool, path: Path) | Fetch(req: Required)

  /** The verdict on one library: its rules must allow it, its selected artifact must be
      complete, and it is cached exactly when a file at its path has its digest. */
  function Classify(lib: Library, host: Host, libsDir: Path, files: map<Path, Bytes>, sha1: Bytes -> Digest): (r: Fate)
    ensures r == NotApplicable <==> !Allowed(lib.rules, host.system)
    ensures r == Incomplete <==>
              Allowed(lib.rules, host.system) && !Complete(Select(lib, LauncherOs(Lower(host.system)), ArchTag(host.machine)).0)
    ensures (r.Cached? || r.Fetch?) ==>
              var (a, native) := Select(lib, LauncherOs(Lower(host.system)), ArchTag(host.machine));
              var path := JoinPath(libsDir, a.value.path.value);
              && Complete(a)
              && (r.Cached? <==> path in files && sha1(files[path]) == a.value.sha1.value)
              && (r.Cached? ==> r == Cached(native, path))
              && (r.Fetch? ==> r.req == Required(native, path, a.value.url.value, a.value.sha1.value))
  {
    if !Allowed(lib.rules, host.system) then NotApplicable
    else
      var (a, native) := Select(lib, LauncherOs(Lower(host.system)), ArchTag(host.machine));
      if !Complete(a) then Incomplete
      else
        var path := JoinPath(libsDir, a.value.path.value);
        if path in files && sha1(files[path]) == a.value.sha1.value then Cached(native, path)
        else Fetch(Required(native, path, a.value.url.value, a.value.sha1.value))
  }

  /** A native classifier object that holds a key but no path is truthy: the plain
      artifact is not consulted, and the library is skipped as incomplete, however
      complete its plain artifact is. */
  lemma KeyedClassifierWithoutPathSkipped(plain: Artifact, classifier: string, host: Host,
                                          libsDir: Path, files: map<Path, Bytes>, sha1: Bytes -> Digest)
    requires LauncherOs(Lower(host.system)).Some? && '$' !in classifier
    ensures var keyed := Artifact(None, None, None, None, true);
            var lib := Library(None, Some(map[LauncherOs(Lower(host.system)).value := classifier]),
                               Some(Downloads(Some(plain), Some(map[classifier := keyed]))));
            Classify(lib, host, libsDir, files, sha1) == Incomplete
  {
    var keyed := Artifact(None, None, None, None, true);
    var os := LauncherOs(Lower(host.system));
    var lib := Library(None, Some(map[os.value := classifier]),
                       Some(Downloads(Some(plain), Some(map[classifier := keyed]))));
    FirstCharAbsent("${arch}", classifier);
    assert NativeCandidate(lib, os, ArchTag(host.machine)) == Some(keyed);
  }

  /** The lists the library pass produces: `library_paths` and `native_lib_info` hold the
      cached ordinary and native libraries, `required_libs` the ones to download. */
  datatype LibraryPlan = LibraryPlan(classpath: seq<Path>, natives: seq<Path>, required: seq<Required>)

  /** The verdicts on a list of libraries, in list order. */
  function FatesOf(libs: seq<Library>, host: Host, libsDir: Path, files: map<Path, Bytes>, sha1: Bytes -> Digest): (r: seq<Fate>)
    ensures |r| == |libs| && forall i :: 0 <= i < |libs| ==> r[i] == Classify(libs[i], host, libsDir, files, sha1)
  {
    seq(|libs|, i requires 0 <= i < |libs| => Classify(libs[i], host, libsDir, files, sha1))
  }

  /** The library pass given the verdicts, appending in list order. */
  function PlanFrom(fates: seq<Fate>): LibraryPlan
  {
    if fates == [] then LibraryPlan([], [], [])
    else
      var p := PlanFrom(fates[..|fates| - 1]);
      match fates[|fates| - 1]
      case Cached(native, path) =>
        if native then p.(natives := p.natives + [path]) else p.(classpath := p.classpath + [path])
      case Fetch(req) => p.(required := p.required + [req])
      case _ => p
  }

  /** The number of verdicts that keep their library (cached or to fetch). */
  function KeptCount(fates: seq<Fate>): nat
  {
    if fates == [] then 0
    else KeptCount(fates[..|fates| - 1]) + (if fates[|fates| - 1].Cached? || fates[|fates| - 1].Fetch? then 1 else 0)
  }

  /** Planning is a partition of the verdicts: each kept library lands in exactly one
      of the three lists, according to its verdict, and nothing else does. */
  lemma {:induction false} PlanFromIsPartition(fates: seq<Fate>)
    ensures var p := PlanFrom(fates);
      && |p.classpath| + |p.natives| + |p.required| == KeptCount(fates)
      && (forall path :: path in p.classpath <==> Cached(false, path) in fates)
      && (forall path :: path in p.natives <==> Cached(true, path) in fates)
      && (forall req :: req in p.required <==> Fetch(req) in fates)
    decreases |fates|
  {
    if fates != [] {
      var n := |fates| - 1;
      PlanFromIsPartition(fates[..n]);
      assert fates == fates[..n] + [fates[n]];
    }
  }

  /** The library pass: every applicable library with a path, a URL and a digest lands
      in exactly one of the classpath, the natives list or `required_libs`; libraries
      whose rules forbid them or whose artifact is incomplete land in none. */
  lemma PlanIsPartition(libs: seq<Library>, host: Host, libsDir: Path, files: map<Path, Bytes>, sha1: Bytes -> Digest)
    ensures var fates := FatesOf(libs, host, libsDir, files, sha1);
      var p := PlanFrom(fates);
      && |p.classpath| + |p.natives| + |p.required| == KeptCount(fates)
      && (forall path :: path in p.classpath <==>
            exists i :: 0 <= i < |libs| && Classify(libs[i], host, libsDir, files, sha1) == Cached(false, path))
      && (forall path :: path in p.natives <==>
            exists i :: 0 <= i < |libs| && Classify(libs[i], host, libsDir, files, sha1) == Cached(true, path))
      && (forall req :: req in p.required <==>
            exists i :: 0 <= i < |libs| && Classify(libs[i], host, libsDir, files, sha1) == Fetch(req))
  {
    var fates := FatesOf(libs, host, libsDir, files, sha1);
    PlanFromIsPartition(fates);
  }

  /** The first pass over `version_data['libraries']`: skips libraries whose rules
      forbid them or whose artifact is incomplete, adds cached ones to the classpath or
      the natives list, and queues the rest for download. */
  method PlanLibraries(libs: seq<Library>, host: Host, libsDir: Path, files: map<Path, Bytes>, sha1: Bytes -> Digest)
    returns (libraryPaths: seq<Path>, nativeLibInfo: seq<Path>, requiredLibs: seq<Required>)
    ensures LibraryPlan(libraryPaths, nativeLibInfo, requiredLibs) == PlanFrom(FatesOf(libs, host, libsDir, files, sha1))
  {
    ghost var fates := FatesOf(libs, host, libsDir, files, sha1);
    libraryPaths, nativeLibInfo, requiredLibs := [], [], [];
    var os := LauncherOs(Lower(host.system));
    var arch := ArchTag(host.machine);
    for i := 0 to |libs|
      invariant LibraryPlan(libraryPaths, nativeLibInfo, requiredLibs) == PlanFrom(fates[..i])
    {
      var lib := libs[i];
      assert fates[..i + 1][..i] == fates[..i];
      var allowed := CheckRules(lib.rules, host.system);
      if !allowed {
        continue;
      }
      var (artifact, isNative) := Select(lib, os, arch);
      if !Complete(artifact) {
        continue;
      }
      var libPath := JoinPath(libsDir, artifact.value.path.value);
      var url := artifact.value.url.value;
      var sha1Val := artifact.value.sha1.value;
      var needsDownload := true;
      if libPath in files && sha1Val != "" {
        if sha1(files[libPath]) == sha1Val {
          needsDownload := false;
          if isNative {
            nativeLibInfo := nativeLibInfo + [libPath];
          } else {
            libraryPaths := libraryPaths + [libPath];
          }
        }
      }
      if needsDownload {
        requiredLibs := requiredLibs + [Required(isNative, libPath, url, sha1Val)];
      }
    }
    assert fates[..|libs|] == fates;
  }

  /** An entry of the asset index's `objects`: its `hash` may be missing. */
  datatype AssetObject = AssetObject(hash: Option<string>)

  /** An entry of `required_assets`. */
  datatype RequiredAsset = RequiredAsset(name: string, path: Path, url: string, hash: Digest)

  const AssetBaseUrl: string := "https://resources.download.minecraft.net/"

  /** `os.path.join(os.path.join(objects_dir, hash[:2]), hash)`. */
  function AssetPath(objectsDir: Path, hash: string): Path
    requires |hash| >= 2
  {
    JoinPath(JoinPath(objectsDir, hash[..2]), hash)
  }

  /** `ASSET_BASE_URL + hash[:2] + "/" + hash`. */
  function AssetUrl(hash: string): string
    requires |hash| >= 2
  {
    AssetBaseUrl + hash[..2] + "/" + hash
  }

  /** An object is stored at `<objects>/<hash[:2]>/<hash>` whenever neither the objects
      directory ends in `/` nor the hash starts with one; the URL splits on `/` back
      into the base, the two-character directory and the hash. */
  lemma AssetLocation(objectsDir: Path, hash: string)
    requires |hash| >= 2 && objectsDir != [] && objectsDir[|objectsDir| - 1] != '/' && '/' !in hash
    ensures AssetPath(objectsDir, hash) == objectsDir + "/" + hash[..2] + "/" + hash
    ensures AssetUrl(hash)[|AssetBaseUrl|..] == hash[..2] + "/" + hash
    ensures Split(AssetUrl(hash)[|AssetBaseUrl|..], "/") == [hash[..2], hash]
  {
    var dir := objectsDir + "/" + hash[..2];
    assert hash[0] != '/';
    assert !StartsWith(hash[..2], "/");
    assert !StartsWith(hash, "/");
    assert dir[|dir| - 1] == hash[1] != '/';
    var tail := AssetUrl(hash)[|AssetBaseUrl|..];
    assert tail == hash[..2] + "/" + hash;
    assert forall i :: 0 <= i < 2 ==> "/"[0] != hash[..2][i] by {
      assert forall i :: 0 <= i < 2 ==> hash[..2][i] == hash[i];
    }
    SplitOfJoin([hash[..2], hash], "/");
    assert Join("/", [hash[..2], hash]) == hash[..2] + "/" + hash by {
      assert [hash[..2], hash][1..] == [hash];
    }
  }

  /** What the asset pass does with one object. */
  datatype AssetFate = NoHash | UpToDate | Queue(asset: RequiredAsset)

  /** The verdict on one object: a missing hash or one shorter than two characters is
      skipped; otherwise it is queued unless a file at its path has that digest. */
  function ClassifyAsset(name: string, obj: AssetObject, objectsDir: Path, files: map<Path, Bytes>, sha1: Bytes -> Digest): (r: AssetFate)
    ensures r == NoHash <==> obj.hash.None? || |obj.hash.value| < 2
    ensures r.UpToDate? ==> var h := obj.hash.value; AssetPath(objectsDir, h) in files && sha1(files[AssetPath(objectsDir, h)]) == h
    ensures r.Queue? ==>
              var h := obj.hash.value;
              && |h| >= 2
              && r.asset == RequiredAsset(name, AssetPath(objectsDir, h), AssetUrl(h), h)
              && !(AssetPath(objectsDir, h) in files && sha1(files[AssetPath(objectsDir, h)]) == h)
  {
    if obj.hash.None? || |obj.hash.value| < 2 then NoHash
    else
      var h := obj.hash.value;
      var path := AssetPath(objectsDir, h);
      if path in files && sha1(files[path]) == h then UpToDate
      else Queue(RequiredAsset(name, path, AssetUrl(h), h))
  }

  /** The verdicts on the index's objects, in index order. */
  function AssetFatesOf(objects: seq<(string, AssetObject)>, objectsDir: Path, files: map<Path, Bytes>, sha1: Bytes -> Digest): (r: seq<AssetFate>)
    ensures |r| == |objects| &&
      forall i :: 0 <= i < |objects| ==> r[i] == ClassifyAsset(objects[i].0, objects[i].1, objectsDir, files, sha1)
  {
    seq(|objects|, i requires 0 <= i < |objects| => ClassifyAsset(objects[i].0, objects[i].1, objectsDir, files, sha1))
  }

  /** The asset pass given the verdicts, appending in index order. */
  function QueuedFrom(fates: seq<AssetFate>): seq<RequiredAsset>
  {
    if fates == [] then []
    else
      var rest := QueuedFrom(fates[..|fates| - 1]);
      match fates[|fates| - 1]
      case Queue(a) => rest + [a]
      case _ => rest
  }

  lemma {:induction false} QueuedFromExactly(fates: seq<AssetFate>)
    ensures |QueuedFrom(fates)| <= |fates|
    ensures forall a :: a in QueuedFrom(fates) <==> Queue(a) in fates
    decreases |fates|
  {
    if fates != [] {
      var n := |fates| - 1;
      QueuedFromExactly(fates[..n]);
      assert fates == fates[..n] + [fates[n]];
    }
  }

  /** One more verdict appends its queued asset, if any. */
  lemma QueuedFromStep(fates: seq<AssetFate>, i: nat)
    requires i < |fates|
    ensures QueuedFrom(fates[..i + 1]) == QueuedFrom(fates[..i]) + (if fates[i].Queue? then [fates[i].asset] else [])
  {
    assert fates[..i + 1][..i] == fates[..i];
  }

  /** The asset pass queues exactly the objects with a usable hash whose file is
      missing or corrupt, each at most once per index entry. */
  lemma AssetsQueuedExactly(objects: seq<(string, AssetObject)>, objectsDir: Path,
                            files: map<Path, Bytes>, sha1: Bytes -> Digest)
    ensures var q := QueuedFrom(AssetFatesOf(objects, objectsDir, files, sha1));
      && |q| <= |objects|
      && forall a :: a in q <==>
           exists i :: 0 <= i < |objects| && ClassifyAsset(objects[i].0, objects[i].1, objectsDir, files, sha1) == Queue(a)
  {
    QueuedFromExactly(AssetFatesOf(objects, objectsDir, files, sha1));
  }

  /** The first pass over `asset_index['objects']`. */
  method PlanAssets(objects: seq<(string, AssetObject)>, objectsDir: Path, files: map<Path, Bytes>, sha1: Bytes -> Digest)
    returns (requiredAssets: seq<RequiredAsset>)
    ensures requiredAssets == QueuedFrom(AssetFatesOf(objects, objectsDir, files, sha1))
  {
    ghost var fates := AssetFatesOf(objects, objectsDir, files, sha1);
    requiredAssets := [];
    for i := 0 to |objects|
      invariant requiredAssets == QueuedFrom(fates[..i])
    {
      var (assetName, assetData) := objects[i];
      QueuedFromStep(fates, i);
      assert fates[i] == ClassifyAsset(assetName, assetData, objectsDir, files, sha1);
      var assetHash := assetData.hash;
      if assetHash.None? || |assetHash.value| < 2 {
        continue;
      }
      var hash := assetHash.value;
      var assetSubDir := hash[..2];
      var assetFileDir := JoinPath(objectsDir, assetSubDir);
      var assetFilePath := JoinPath(assetFileDir, hash);
      var assetUrl := AssetBaseUrl + assetSubDir + "/" + hash;
      assert assetFilePath == AssetPath(objectsDir, hash) && assetUrl == AssetUrl(hash);
      var needsDownload := true;
      if assetFilePath in files {
        if sha1(files[assetFilePath]) == hash {
          needsDownload := false;
        }
      }
      if needsDownload {
        assert fates[i] == Queue(RequiredAsset(assetName, assetFilePath, assetUrl, hash));
        requiredAssets := requiredAssets + [RequiredAsset(assetName, assetFilePath, assetUrl, hash)];
      } else {
        assert fates[i] == UpToDate;
      }
    }
    assert fates[..|objects|] == fates;
  }
}

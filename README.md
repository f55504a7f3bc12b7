# ObsidianGate launcher core in Dafny

ObsidianGate is an offline Minecraft launcher. It runs once through these steps:

1. Fetch the version manifest.
2. Fetch the target version's JSON (1.17.1).
3. Fetch the client JAR, verifying its SHA-1.
4. Plan the libraries, fetch the missing ones and extract the native archives.
5. Fetch the asset index and the missing assets.
6. Build the Java command line, filling in the placeholders and the offline authentication arguments.

Every fetch goes through one function, `download_file`. It checks the cache, makes a bounded number of attempts and cleans up after a failure. Some failures end the run and others are only reported. The metadata records (`VersionMeta`, `JREAvailability`, `JRE`) check their fields when they are built.

The model treats the launcher's environment as parameters:
- the disk is a `map<Path, Bytes>` that each operation threads through;
- each HTTP GET is answered by an oracle indexed by URL and attempt number;
- `os.remove` success is a predicate on paths;
- SHA-1 is an arbitrary function on contents;
- the JSON files on disk decode through given functions;
- each task submitted to a worker pool comes to an outcome given by an oracle.

Modules, one per file:
- `Common`: `Option`, `Result`, and Python truthiness of an optional string.
- `Text`: the `str` operations the launcher uses and POSIX `os.path.join`.
- `Records`: `versionmeta.py`, `JRE.py` and `enums.py`.
- `Rules`: `check_rules`.
- `Fetch`: `download_file`.
- `Natives`: `extract_natives`.
- `Planning`: the library and asset passes.
- `Aggregation`: the `as_completed` loops.
- `Command`: the launch arguments.
- `Launcher`: `main`.

## Model

| member | source | states |
|---|---|---|
| Text.ReplaceIsJoinOfSplit | launcher.py:676-681 | `s.replace(k, v)` equals the pieces of `s` between occurrences of `k` joined with `v` |
| Text.SplitOfJoin | launcher.py:599-600 | splitting a join on a one-character separator that no part contains gives the parts back |
| Text.JoinOfSplit | launcher.py:627 | joining the pieces of a split with the separator gives the string back |
| Text.Replace | launcher.py:678-680 | `s.replace(k, v)` leaves a string in which `k` does not occur unchanged |
| Text.Split | launcher.py:631 | `s.split(sep)` never returns an empty list |
| Text.SplitPieces | launcher.py:631 | no piece of `s.split(sep)` contains `sep`, and the first piece is the start of `s` |
| Text.JoinEnds | launcher.py:600 | `sep.join(parts)` is empty for no parts; otherwise it starts with the first part and ends with the last |
| Text.Strip | launcher/types/versionmeta.py:27-29 | `s.strip()` is a stretch of `s` with only whitespace before and after it, and it neither starts nor ends with whitespace |
| Text.StripLeft | launcher/types/versionmeta.py:27-29 | the result is a suffix, what is cut is all whitespace, and the result does not start with whitespace |
| Text.StripRight | launcher/types/versionmeta.py:27-29 | the result is a prefix, what is cut is all whitespace, and the result does not end with whitespace |
| Text.StripEmptyIffBlank | launcher/types/versionmeta.py:27-29 | `s.strip()` is empty exactly when every character of `s` is whitespace |
| Text.Lower | launcher.py:196 | `lower()` keeps the length, leaves no ASCII capital, keeps every other character, and turns each capital into the small letter at the same place in the alphabet |
| Text.LowerIdempotent | launcher.py:196 | lower-casing twice gives the same string as lower-casing once |
| Text.JoinPath | launcher.py:260-262 | `os.path.join(a, b)` is `b` when `b` is absolute; otherwise it starts with `a` and ends with `b` |
| Records.NewVersionMeta | launcher/types/versionmeta.py:19-30 | succeeds with the record unchanged exactly when id, url and sha1 are not blank and complianceLevel >= 0; on failure it reports the first failed assertion in source order |
| Records.NewJreAvailability | launcher/types/JRE.py:6-15 | as written: succeeds exactly when progress >= 0 and group >= 0; a negative progress is reported before a negative group |
| Records.ProgressAboveHundredAccepted | launcher/types/JRE.py:14 | the as-written check accepts progress 150 |
| Records.NewJreAvailabilityBounded | launcher/types/JRE.py:14 | corrected: succeeds exactly when 0 <= progress <= 100 and group >= 0, and every value it accepts the as-written check accepts too |
| Records.NewJre | launcher/types/JRE.py:17-46 | a JRE can be built exactly when its availability is valid; the manifest, version and arch are stored as given |
| Rules.LauncherOs | launcher.py:197-198 | only windows, linux and darwin map to a launcher OS; windows and linux map to themselves and darwin maps to osx |
| Rules.PlatformNamesMapped | launcher.py:196-198 | `Windows`, `Linux` and `Darwin`, lower-cased, map to `windows`, `linux` and `osx` |
| Rules.Allowed | launcher.py:191-211 | absent or empty rules and an unmapped OS allow; otherwise the rules allow exactly when some applicable rule allows and no later rule applies |
| Rules.DecisionIsLastApplicable | launcher.py:201-210 | a non-empty rule list allows exactly when some applicable rule allows and no later rule applies |
| Rules.ArchAndVersionIgnored | launcher.py:204-207 | rules that differ only in their `arch` and `version` conditions give the same decision |
| Rules.CheckRules | launcher.py:191-211 | the loop returns `Allowed`: true for absent or empty rules and for an unmapped OS, else the last applicable rule's action |
| Fetch.CheckCached | launcher.py:67-94 | a cached file that passes the digest check (or with no digest given) is a hit; a mismatched file that cannot be removed is a failure; otherwise the path is gone |
| Fetch.Discard | launcher.py:170-173 | cleanup removes the path when removal succeeds and touches no other path |
| Fetch.RunAttempts | launcher.py:102-188 | the attempt loop succeeds exactly when it returns the requested path, never counts fewer attempts than it started from, and touches no path but the target |
| Fetch.RunAttemptsFacts | launcher.py:102-188 | a success is the first good attempt and leaves its body at the path; a failure made every remaining attempt and none was good; when removal works, the path exists afterwards exactly when the fetch succeeded |
| Fetch.Download | launcher.py:61-188 | a valid cached file returns `(True, path)` with no request; an unremovable mismatched file returns `(False, None)` with no request |
| Fetch.RetryBound | launcher.py:102-188 | at most `retries` GETs are issued; a failed fetch past the cache issued exactly `retries`, none acceptable |
| Fetch.AlwaysFailingSource | launcher.py:102-188 | a source that never delivers an acceptable body makes the fetch fail after exactly `retries` attempts |
| Fetch.SuccessIsVerified | launcher.py:125-155 | success returns the requested path, whose contents match the digest; they come from the cache, or from the first good attempt after failed ones |
| Fetch.NoPartialArtifact | launcher.py:127-131 | other paths are never touched; when removal succeeds the path exists after the fetch exactly when the fetch succeeded |
| Fetch.CorruptCacheIsRefetched | launcher.py:78-87 | a corrupt, removable cached file is replaced by the first good download, with one GET |
| Fetch.PartialFileSurvivesFailedRemoval | launcher.py:170-173 | a stream failure whose cleanup cannot remove the file leaves the partial file on disk |
| Fetch.DownloadFile | launcher.py:61-188 | the imperative pre-check and retry loop compute exactly `Download` |
| Natives.FirstCorrupt | launcher.py:226-227 | `testzip()` finds nothing exactly when every member's CRC is good; otherwise it names a corrupt member |
| Natives.MembersToExtract | launcher.py:229 | a name is extracted exactly when it is in the archive and does not start with `META-INF/` |
| Natives.Member | launcher.py:232 | the contents extracted for a name are those of the last entry with that name |
| Natives.ExtractAll | launcher.py:232 | extraction adds exactly the members, each with its contents, and keeps the other files |
| Natives.ExtractNatives | launcher.py:214-252 | returns True exactly for a readable zip with no corrupt member; on failure the directory is unchanged; on success every non-`META-INF/` member is written and nothing else changes |
| Planning.ArchTag | launcher.py:392 | `AMD64` and `x86_64` become `64`; a machine name with neither is kept |
| Planning.NativeCandidate | launcher.py:391-394 | a native candidate exists only when the library lists natives for the host OS; when it does and the library has `classifiers`, the candidate is present exactly when the classifier name with `${arch}` replaced is a key, and is the object stored under it; without `downloads` or `classifiers` there is none |
| Planning.Select | launcher.py:391-398 | a native classifier object that is truthy (has any key at all) is chosen and marks the library native; otherwise the plain `artifact` is used when present |
| Planning.KeyedClassifierWithoutPathSkipped | launcher.py:391-402 | a native classifier object with a key but no `path` is not replaced by the plain artifact, so the library is skipped as incomplete |
| Planning.Classify | launcher.py:378-427 | a library is skipped when its rules forbid it or its artifact lacks path, url or sha1; it is cached exactly when the file at its path has its digest, otherwise it is queued with native flag, path, url and digest |
| Planning.PlanIsPartition | launcher.py:378-427 | each kept library lands in exactly one of classpath, natives or `required_libs`, according to its verdict, and nothing else does |
| Planning.PlanLibraries | launcher.py:376-427 | the library loop computes exactly the plan of the verdicts |
| Planning.AssetLocation | launcher.py:543-546 | an asset lives at `objects/<first two hex digits>/<hash>`, and its URL tail splits into those two parts |
| Planning.ClassifyAsset | launcher.py:540-558 | an object with a missing or short hash is skipped; it is queued at its path and URL exactly when the file there lacks its digest |
| Planning.AssetsQueuedExactly | launcher.py:536-561 | the queued assets are exactly those whose verdict is to queue, at most one per index entry |
| Planning.PlanAssets | launcher.py:536-561 | the asset loop computes exactly the queued list of the verdicts |
| Aggregation.HarvestMembers | launcher.py:441-454 | a fold collects exactly what it picks out of some completion, and no more items than completions |
| Aggregation.HarvestOrderIndependent | launcher.py:441 | two completion orders of the same outcomes fold to the same multiset |
| Aggregation.LibraryOutcomesAccounted | launcher.py:441-454 | every library completion adds one classpath entry, adds one natives entry or is reported |
| Aggregation.CollectLibraries | launcher.py:441-454 | delivered paths are appended to classpath or natives by kind; failures and exceptions are only reported |
| Aggregation.CollectExtractions | launcher.py:484-494 | successful extractions are recorded and failures reported, one each per completion |
| Aggregation.CountAssets | launcher.py:574-584 | `download_count` counts successful asset downloads; the rest are reported |
| Aggregation.LibraryFoldOrderIndependent | launcher.py:441-454 | the classpath, natives and failure lists do not depend on completion order, up to order |
| Aggregation.AssetCountOrderIndependent | launcher.py:574-584 | `download_count` does not depend on completion order |
| Command.TemplatesMembers | launcher.py:606-625 | a template is collected exactly when a plain entry is that string, or an allowed entry carries it as its value |
| Command.LiteralsVerbatim | launcher.py:608-609 | plain string entries are taken over in order |
| Command.CollectTemplates | launcher.py:607-616 | the argument loop computes exactly `Templates` |
| Command.LegacyGameTemplatesRejoin | launcher.py:627-633 | legacy game templates are the space-separated pieces of `minecraftArguments` |
| Command.CollectArgumentTemplates | launcher.py:605-637 | templates are found exactly when `arguments` or `minecraftArguments` is present |
| Command.PlaceholderValues | launcher.py:655-673 | the 15 values in dictionary order: the offline user name, version, directories, index name, uuid, token `0`, user type `legacy`, version type (default `release`), natives directory, launcher name and version, classpath, library directory and separator |
| Command.Replacements | launcher.py:655-673 | entry `i` pairs the `i`-th key of `PlaceholderNames` (in dictionary order) with the `i`-th value |
| Command.PlaceholderResolvedAt | launcher.py:676-681 | with distinct `${name}` keys, a template equal to the `i`-th key becomes the `i`-th value when that value holds no `$` |
| Command.PlaceholderResolved | launcher.py:655-681 | every placeholder of the launch resolves to its value when the value holds no `$`; in particular `${natives_directory}` to the natives directory and `${classpath}` to the classpath |
| Command.Substitute | launcher.py:676-681 | a template without `$` holds no key and passes through the replacement loop unchanged |
| Command.FirstPlaceholderResolved | launcher.py:676-681 | a template equal to the first key becomes its value when that value holds no `$` |
| Command.UsernamePlaceholderResolved | launcher.py:656 | `${auth_player_name}` becomes the offline user name |
| Command.SubstituteOne | launcher.py:678-680 | the inner loop applies every replacement in order |
| Command.ProcessJvmArgs | launcher.py:675-681 | each JVM template is substituted, in order |
| Command.ScanGameArgs | launcher.py:684-718 | the `skip_next` loop gives every template substituted, in order, and records `--username`, `--uuid` and `--accessToken` exactly when a template is that flag |
| Command.ProcessGameArgs | launcher.py:683-733 | the look-ahead loop gives each template substituted in order; then `--username`, `--uuid` and `--accessToken` are appended with their values exactly when the templates lack them |
| Command.AuthFlagsPresent | launcher.py:720-729 | the game arguments always contain `--username`, `--uuid` and `--accessToken` |
| Command.ClasspathSeparator | launcher.py:599 | the separator is `;` exactly on Windows and `:` otherwise |
| Command.ClasspathRoundTrip | launcher.py:599-600 | when no path contains the separator, splitting the classpath gives the client JAR and the library paths in order |
| Command.IndexOf | launcher.py:742-743 | the position of the first occurrence |
| Command.RemoveFirst | launcher.py:742-743 | `list.remove(x)` deletes the first `x` and keeps the other elements in order; without `x` the list is unchanged |
| Command.LaunchCommand | launcher.py:736-743 | the command is java, the JVM args, the main class and the game args in that order, with the first `--demo` deleted and nothing else changed; it starts with `java` |
| Command.DemoRemovalKeepsJava | launcher.py:742-743 | the `--demo` that is removed is never the leading `java`, so the command still starts with it |
| Launcher.VersionUrl | launcher.py:314-318 | the URL of the first manifest entry whose id is the target, and None when there is none |
| Launcher.FindVersionUrl | launcher.py:314-318 | the manifest loop with `break` computes `VersionUrl` |
| Launcher.ComposeCommand | launcher.py:593-743 | the command stage computes `Compose`: abort on a missing main class or missing arguments, otherwise the command |
| Launcher.AssetStage | launcher.py:511-584 | the asset stage computes `FromAssetIndex` |
| Launcher.ClientStage | launcher.py:341-496 | the client, library and natives stages compute `FromClient` |
| Launcher.PrepareLaunch | launcher.py:256-743 | `main` up to the launch computes `Run`, aborting at the first critical failure |
| Launcher.SoftFailuresNeverAbort | launcher.py:441-584 | other outcomes of library, extraction and asset tasks never change whether, or where, the run aborts |
| Launcher.MissingVersionAborts | launcher.py:314-322 | a manifest without the target version aborts the run before any download |
| Launcher.GameArgumentKept | launcher.py:736-743 | a game argument other than `--demo` survives into the final command |
| Launcher.ReadyCommandIsOffline | launcher.py:720-743 | every command the run reaches starts with `java` and carries `--username`, `--uuid` and `--accessToken` |

## Left out

- HTTP details are not modelled; the per-attempt oracle stands for the response. This covers timeouts, status codes, `content-length` and chunked streaming.
- The retry backoff (`time.sleep`) is not modelled; it only delays.
- Rich progress bars and console messages are not modelled; they are display only. This includes the `lib_name` label.
- Thread pools are not modelled as threads. Completions are folded in submission order, and `Aggregation.HarvestOrderIndependent` shows any other order gives the same multisets.
- Concurrent downloads do not thread the disk. `extract_natives` reads the native JARs that the library downloads put under `libraries/`, but the model does not connect the two.
- `Launcher.Environment`: `libOutcome`, `extractOutcome` and `assetOutcome` are unconstrained oracles. `Natives.ExtractNatives` and `Fetch.Download` are therefore not connected to `Launcher.Run`, and an oracle may report a success that `download_file` would never produce (compare `Fetch.SuccessIsVerified`).
- JSON decoding is given as functions on bytes. Python `.get` on values of the wrong JSON type is not modelled (it raises). So are non-string argument values inside a `value` list.
- `uuid.uuid4().hex` is an input of the run.
- `os.path.abspath` is not modelled; the game directory is taken as already absolute and normalised.
- `subprocess.Popen` and the wait for the game are not modelled; the model stops at the prepared command.
- `Launcher.Run`: `os.makedirs` and its `OSError` are one boolean input, `dirsCreated`. The `makedirs` of the version directory at launcher.py:326, which sits outside any `try` so that its `OSError` would end `main` with an exception, and the `makedirs` inside `download_file` and `extract_natives` are assumed to succeed.
- `Fetch.Download`: `get_sha1` returning None for a file that vanishes between the existence check and the read is not modelled.
- `Fetch.World`: removal success is fixed per path for the whole run.
- `Natives.ExtractNatives`: zip path sanitisation, directory entries and I/O errors during `extractall` are not modelled. Archive parsing is represented by `JarFile`.
- The wipe of the natives directory before extraction is not modelled. `extracted_native_paths` is collected but never used afterwards.
- `Text.Replace`: only non-empty keys are modelled. Every key the launcher passes is a non-empty constant.
- `Text.Lower` covers ASCII only; the platform names it sees are ASCII.
- `Text.JoinPath` is POSIX `os.path.join`; Windows drive and separator rules are not modelled.
- `Records.NewVersionMeta`: the `type_ in VersionType` and `isinstance` assertions hold by typing, so they are not modelled as run-time checks.
- `Records.NewJre`: `JRE` has no `__post_init__`. The nested `JREAvailability` is assumed to be built just before it, so only that construction can fail.
- The modules `downloader.py`, `runtime_downloader.py`, `console_progress.py` and `progressbar.py` are not modelled; they lie outside the launcher core.

## Findings

| source | as written | input that shows it | evidently intended | confidence | as-written member | corrected member |
|---|---|---|---|---|---|---|
| launcher/types/JRE.py:14 | `self.progress >= 0 <= 100` is a Python chained comparison, `progress >= 0 and 0 <= 100`; the upper bound compares two constants | `JREAvailability(group=0, progress=150)` is accepted | `0 <= progress <= 100`, as the message "Progress must be between 0 and 100" states | high, not executed | Records.NewJreAvailability, Records.ProgressAboveHundredAccepted | Records.NewJreAvailabilityBounded |

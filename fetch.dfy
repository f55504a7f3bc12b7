/** Verified fetch of one file with bounded retries (launcher.py, `download_file`).
    The network, the disk and SHA-1 are the launcher's environment: the filesystem is a
    map from path to contents that the fetch threads through, each GET is answered by
    an oracle indexed by URL and attempt number, and the digest is an arbitrary function
    of the contents. */
module Fetch {
  import opened Common

  /** What one download attempt amounts to. */
  datatype Attempt =
    | RequestFailed           // the GET, its status check or its headers raised before the file was opened
    | StreamFailed(partial: Bytes)  // the file was opened and `partial` written before a read or write error
    | Received(body: Bytes)   // the whole body was written to the file

  /** The environment a fetch runs in. */
  datatype World = World(
    net: (string, nat) -> Attempt,  // the outcome of the GET of a URL on a given attempt
    removable: Path -> bool,        // whether `os.remove` of a path succeeds
    sha1: Bytes -> Digest)          // `get_sha1` of a file with these contents

  /** The result `(success, path)` of download_file, the filesystem afterwards and the
      number of GET requests it issued. */
  datatype Fetched = Fetched(ok: bool, path: Option<Path>, files: map<Path, Bytes>, gets: nat)

  /** Contents are acceptable for `expected`: no digest was given (None or empty),
      or the contents hash to it. */
  predicate Matches(w: World, expected: Option<Digest>, content: Bytes)
  {
    !Given(expected) || w.sha1(content) == expected.value
  }

  /** An attempt that ends the fetch successfully. */
  predicate Good(w: World, expected: Option<Digest>, a: Attempt)
  {
    a.Received? && Matches(w, expected, a.body)
  }

  /** The pre-download check's verdict. */
  datatype PreCheck = Hit | RemovalFailed | Miss(files: map<Path, Bytes>)

  /** The pre-download check: an existing file is a hit when no digest is given or its
      digest matches; a mismatching file is removed (a failed removal ends the fetch). */
  function CheckCached(w: World, files: map<Path, Bytes>, path: Path, expected: Option<Digest>): (r: PreCheck)
    ensures r == Hit <==> path in files && Matches(w, expected, files[path])
    ensures r == RemovalFailed <==> path in files && !Matches(w, expected, files[path]) && !w.removable(path)
    ensures r.Miss? ==> path !in r.files && r.files == files - {path}
  {
    if path in files && Given(expected) then
      if w.sha1(files[path]) == expected.value then Hit
      else if w.removable(path) then Miss(files - {path})
      else RemovalFailed
    else if path in files then Hit
    else Miss(files)
  }

  /** The clean-up after a failed attempt: remove the file if it exists, ignoring a
      failed removal. */
  function Discard(w: World, files: map<Path, Bytes>, path: Path): (r: map<Path, Bytes>)
    ensures r - {path} == files - {path}
    ensures path in r <==> path in files && !w.removable(path)
  {
    if path in files && w.removable(path) then files - {path} else files
  }

  /** The filesystem after one attempt that did not succeed. */
  function AfterFailure(w: World, files: map<Path, Bytes>, path: Path, a: Attempt): map<Path, Bytes>
  {
    match a
    case RequestFailed => Discard(w, files, path)
    case StreamFailed(partial) => Discard(w, files[path := partial], path)
    case Received(body) => Discard(w, files[path := body], path)
  }

  /** Attempts `attempt`, `attempt + 1`, ... up to `retries - 1`: the first good
      attempt returns `(True, path)` with the body in place; when none is left the
      fetch returns `(False, None)`. */
  function RunAttempts(w: World, files: map<Path, Bytes>, url: string, path: Path,
                       expected: Option<Digest>, retries: int, attempt: nat): (r: Fetched)
    ensures attempt <= r.gets
    ensures r.ok <==> r.path == Some(path)
    ensures !r.ok ==> r.path.None?
    ensures r.files - {path} == files - {path}
    decreases retries - attempt
  {
    if attempt >= retries then Fetched(false, None, files, attempt)
    else
      var a := w.net(url, attempt);
      if Good(w, expected, a) then
        assert files[path := a.body] - {path} == files - {path};
        Fetched(true, Some(path), files[path := a.body], attempt + 1)
      else
        var next := AfterFailure(w, files, path, a);
        assert next - {path} == files - {path};
        RunAttempts(w, next, url, path, expected, retries, attempt + 1)
  }

  /** `download_file(url, path, expected_sha1, retries)`. */
  function Download(w: World, files: map<Path, Bytes>, url: string, path: Path,
                    expected: Option<Digest>, retries: int): (r: Fetched)
    ensures path in files && Matches(w, expected, files[path]) ==> r == Fetched(true, Some(path), files, 0)
    ensures path in files && !Matches(w, expected, files[path]) && !w.removable(path) ==>
              r == Fetched(false, None, files, 0)
  {
    match CheckCached(w, files, path, expected)
    case Hit => Fetched(true, Some(path), files, 0)
    case RemovalFailed => Fetched(false, None, files, 0)
    case Miss(clean) => RunAttempts(w, clean, url, path, expected, retries, 0)
  }

  /** The attempt loop, attempt by attempt. */
  lemma {:induction false} RunAttemptsFacts(w: World, files: map<Path, Bytes>, url: string, path: Path,
                                            expected: Option<Digest>, retries: int, attempt: nat)
    ensures var r := RunAttempts(w, files, url, path, expected, retries, attempt);
      && (r.ok ==> path in r.files && Matches(w, expected, r.files[path]))
      && (r.ok ==> attempt < r.gets <= retries && Good(w, expected, w.net(url, r.gets - 1)) &&
                   r.files[path] == w.net(url, r.gets - 1).body)
      && (forall k :: attempt <= k < r.gets - 1 ==> !Good(w, expected, w.net(url, k)))
      && (!r.ok ==> r.gets == (if attempt < retries then retries else attempt))
      && (!r.ok ==> forall k :: attempt <= k < r.gets ==> !Good(w, expected, w.net(url, k)))
      && (path !in files && w.removable(path) ==> (path in r.files <==> r.ok))
    decreases retries - attempt
  {
    if attempt < retries {
      var a := w.net(url, attempt);
      if !Good(w, expected, a) {
        var next := AfterFailure(w, files, path, a);
        RunAttemptsFacts(w, next, url, path, expected, retries, attempt + 1);
      }
    }
  }

  /** Retry bound: a fetch that gets past the cache check issues at most `retries`
      GET requests (none when `retries <= 0`); when it fails it has issued exactly
      `max(retries, 0)` of them, every one of which failed or was corrupt. */
  lemma RetryBound(w: World, files: map<Path, Bytes>, url: string, path: Path,
                   expected: Option<Digest>, retries: int)
    ensures var r := Download(w, files, url, path, expected, retries);
      && r.gets <= (if retries < 0 then 0 else retries)
      && (CheckCached(w, files, path, expected).Miss? && !r.ok ==>
            r.gets == (if retries < 0 then 0 else retries) &&
            forall k :: 0 <= k < r.gets ==> !Good(w, expected, w.net(url, k)))
  {
    match CheckCached(w, files, path, expected)
    case Hit =>
    case RemovalFailed =>
    case Miss(clean) => RunAttemptsFacts(w, clean, url, path, expected, retries, 0);
  }

  /** A source that never delivers an acceptable body: the fetch fails after exactly
      `retries` attempts, unless the cache already holds an acceptable file. */
  lemma AlwaysFailingSource(w: World, files: map<Path, Bytes>, url: string, path: Path,
                            expected: Option<Digest>, retries: int)
    requires forall k: nat :: !Good(w, expected, w.net(url, k))
    requires !(path in files && Matches(w, expected, files[path]))
    ensures var r := Download(w, files, url, path, expected, retries);
      !r.ok && r.path.None? &&
      r.gets == (if (path in files && !w.removable(path)) || retries < 0 then 0 else retries)
  {
    var pre := CheckCached(w, files, path, expected);
    if pre.Miss? {
      RunAttemptsFacts(w, pre.files, url, path, expected, retries, 0);
    }
  }

  /** Success is verified: `(True, path)` is returned only with a file at `path`
      whose digest matches `expected` (when one is given), and it comes either from
      the cache with no request or from the first good attempt, every earlier
      attempt having failed. */
  lemma SuccessIsVerified(w: World, files: map<Path, Bytes>, url: string, path: Path,
                          expected: Option<Digest>, retries: int)
    ensures var r := Download(w, files, url, path, expected, retries);
      && (r.ok <==> r.path == Some(path))
      && (r.ok ==> path in r.files && Matches(w, expected, r.files[path]))
      && (r.ok && r.gets == 0 ==> r.files == files)
      && (r.ok && r.gets > 0 ==>
            (Good(w, expected, w.net(url, r.gets - 1)) &&
             r.files[path] == w.net(url, r.gets - 1).body &&
             forall k :: 0 <= k < r.gets - 1 ==> !Good(w, expected, w.net(url, k))))
  {
    match CheckCached(w, files, path, expected)
    case Hit =>
    case RemovalFailed =>
    case Miss(clean) => RunAttemptsFacts(w, clean, url, path, expected, retries, 0);
  }

  /** No partial artifacts: when removals succeed, after the fetch `path` either holds
      a verified file (and the fetch succeeded) or does not exist. Other paths are
      never touched. */
  lemma NoPartialArtifact(w: World, files: map<Path, Bytes>, url: string, path: Path,
                          expected: Option<Digest>, retries: int)
    ensures var r := Download(w, files, url, path, expected, retries);
      && r.files - {path} == files - {path}
      && (w.removable(path) ==> (path in r.files <==> r.ok))
      && (path in r.files && r.ok ==> Matches(w, expected, r.files[path]))
  {
    match CheckCached(w, files, path, expected)
    case Hit =>
    case RemovalFailed =>
    case Miss(clean) => RunAttemptsFacts(w, clean, url, path, expected, retries, 0);
  }

  /** Corruption self-heal: a cached file with the wrong digest is replaced by the
      first good download. */
  lemma {:induction false} CorruptCacheIsRefetched(w: World, files: map<Path, Bytes>, url: string, path: Path,
                                                   expected: Option<Digest>, retries: int, good: Bytes)
    requires path in files && !Matches(w, expected, files[path]) && w.removable(path)
    requires retries >= 1 && w.net(url, 0) == Received(good) && Matches(w, expected, good)
    ensures Download(w, files, url, path, expected, retries) ==
              Fetched(true, Some(path), files[path := good], 1)
  {
    assert (files - {path})[path := good] == files[path := good];
  }

  /** When the clean-up removal fails, a partly written file survives a failed fetch:
      the "no partial artifacts" guarantee rests on `os.remove` succeeding. */
  lemma PartialFileSurvivesFailedRemoval(w: World, url: string, path: Path, expected: Option<Digest>, partial: Bytes)
    requires !w.removable(path) && w.net(url, 0) == StreamFailed(partial)
    ensures Download(w, map[], url, path, expected, 1) == Fetched(false, None, map[path := partial], 1)
  {
  }

  /** `download_file`: the pre-download check, then the `for attempt in range(retries)`
      loop with its early returns. */
  method DownloadFile(w: World, files: map<Path, Bytes>, url: string, path: Path,
                      expected: Option<Digest>, retries: int)
    returns (ok: bool, result: Option<Path>, after: map<Path, Bytes>, gets: nat)
    ensures Fetched(ok, result, after, gets) == Download(w, files, url, path, expected, retries)
  {
    var fs := files;
    // Pre-download check
    if path in fs && Given(expected) {
      if w.sha1(fs[path]) == expected.value {
        return true, Some(path), fs, 0;
      }
      if !w.removable(path) {
        return false, None, fs, 0;
      }
      fs := fs - {path};
    } else if path in fs {
      return true, Some(path), fs, 0;
    }
    ghost var clean := fs;
    var attempt: nat := 0;
    while attempt < retries
      invariant attempt == 0 || attempt <= retries
      invariant RunAttempts(w, fs, url, path, expected, retries, attempt) ==
                RunAttempts(w, clean, url, path, expected, retries, 0)
      decreases retries - attempt
    {
      var response := w.net(url, attempt);
      match response {
        case RequestFailed =>
        case StreamFailed(partial) =>
          fs := fs[path := partial];
        case Received(body) =>
          fs := fs[path := body];
          if Given(expected) {
            if w.sha1(fs[path]) != expected.value {
              // A failed removal here raises OSError, whose handler retries the removal.
              if path in fs && w.removable(path) {
                fs := fs - {path};
              }
              if attempt < retries - 1 {
                attempt := attempt + 1;
                continue;
              }
              return false, None, fs, attempt + 1;
            }
            return true, Some(path), fs, attempt + 1;
          }
          return true, Some(path), fs, attempt + 1;
      }
      // Common handling after an exception: remove the file, ignoring a failure.
      if path in fs && w.removable(path) {
        fs := fs - {path};
      }
      if attempt >= retries - 1 {
        return false, None, fs, attempt + 1;
      }
      attempt := attempt + 1;
    }
    return false, None, fs, attempt;
  }
}

/** The `as_completed` loops of `main` (launcher.py): outcomes of the library downloads,
    the native extractions and the asset downloads are folded, one at a time and in
    whatever order the worker pool finishes them, into the lists the launch needs.
    Failures are only reported. */
module Aggregation {
  import opened Common
  import opened Planning

  /** The values `f` picks out of `s`, in order: the common shape of every fold below. */
  function Harvest<T, U>(s: seq<T>, f: T -> Option<U>): seq<U>
  {
    if s == [] then []
    else
      var rest := Harvest(s[..|s| - 1], f);
      match f(s[|s| - 1])
      case Some(u) => rest + [u]
      case None => rest
  }

  lemma {:induction false} HarvestAppend<T, U>(a: seq<T>, b: seq<T>, f: T -> Option<U>)
    ensures Harvest(a + b, f) == Harvest(a, f) + Harvest(b, f)
    decreases |b|
  {
    if b == [] {
      assert a + b == a;
    } else {
      var n := |b| - 1;
      assert (a + b)[..|a + b| - 1] == a + b[..n];
      HarvestAppend(a, b[..n], f);
    }
  }

  /** What a fold collects is exactly what `f` picks out of some element. */
  lemma {:induction false} HarvestMembers<T, U>(s: seq<T>, f: T -> Option<U>)
    ensures |Harvest(s, f)| <= |s|
    ensures forall u :: u in Harvest(s, f) <==> exists i :: 0 <= i < |s| && f(s[i]) == Some(u)
    decreases |s|
  {
    if s != [] {
      var n := |s| - 1;
      HarvestMembers(s[..n], f);
      assert forall i :: 0 <= i < n ==> s[..n][i] == s[i];
      forall u | exists i :: 0 <= i < |s| && f(s[i]) == Some(u)
        ensures u in Harvest(s, f)
      {
        var i :| 0 <= i < |s| && f(s[i]) == Some(u);
        if i < n {
          assert f(s[..n][i]) == Some(u);
        }
      }
    }
  }

  /** A sequence is its part before `j`, its element at `j` and its part after. */
  lemma Around<T>(b: seq<T>, j: nat)
    requires j < |b|
    ensures b == b[..j] + [b[j]] + b[j + 1..]
  {
  }

  /** Deleting the element at `j` takes exactly that element out of the multiset. */
  lemma DeleteAt<T>(b: seq<T>, j: nat)
    requires j < |b|
    ensures multiset(b[..j] + b[j + 1..]) == multiset(b) - multiset{b[j]}
  {
    Around(b, j);
    assert multiset(b) == multiset(b[..j]) + multiset{b[j]} + multiset(b[j + 1..]);
  }

  /** The fold of three consecutive pieces. */
  lemma HarvestThree<T, U>(p: seq<T>, q: seq<T>, t: seq<T>, f: T -> Option<U>)
    ensures Harvest(p + q + t, f) == Harvest(p, f) + Harvest(q, f) + Harvest(t, f)
  {
    HarvestAppend(p, q, f);
    HarvestAppend(p + q, t, f);
  }

  /** Completion order does not matter: two orders of the same outcomes fold to the
      same multiset of values. */
  lemma {:induction false} HarvestOrderIndependent<T, U>(a: seq<T>, b: seq<T>, f: T -> Option<U>)
    requires multiset(a) == multiset(b)
    ensures multiset(Harvest(a, f)) == multiset(Harvest(b, f))
    decreases |a|
  {
    if a != [] {
      var n := |a| - 1;
      var x := a[n];
      assert x in multiset(b);
      var j :| 0 <= j < |b| && b[j] == x;
      var b' := b[..j] + b[j + 1..];
      assert multiset(a[..n]) == multiset(b') by {
        Around(a, n);
        assert a[n + 1..] == [];
        DeleteAt(a, n);
        DeleteAt(b, j);
      }
      HarvestOrderIndependent(a[..n], b', f);
      var front, back, hx := Harvest(b[..j], f), Harvest(b[j + 1..], f), Harvest([x], f);
      assert Harvest(a, f) == Harvest(a[..n], f) + hx by {
        Around(a, n);
        assert a[n + 1..] == [];
        HarvestThree(a[..n], [x], [], f);
      }
      assert Harvest(b, f) == front + hx + back by {
        Around(b, j);
        HarvestThree(b[..j], [x], b[j + 1..], f);
      }
      assert Harvest(b', f) == front + back by {
        HarvestAppend(b[..j], b[j + 1..], f);
      }
      assert multiset(front + hx + back) == multiset(front + back) + multiset(hx);
    }
  }

  /** What `future.result()` gives for a download_file task. */
  datatype FetchOutcome = Returned(success: bool, path: Option<Path>) | Raised

  /** A finished library download: the `required_libs` entry and its outcome. */
  datatype LibraryCompletion = LibraryCompletion(req: Required, outcome: FetchOutcome)

  /** `success and result_path`. */
  predicate Delivered(c: LibraryCompletion)
  {
    c.outcome.Returned? && c.outcome.success && Given(c.outcome.path)
  }

  /** The path a completion adds to `library_paths` (native = false) or
      `native_lib_info` (native = true). */
  function DeliveredPath(native: bool): LibraryCompletion -> Option<Path>
  {
    c => if Delivered(c) && c.req.isNative == native then Some(c.outcome.path.value) else None
  }

  /** The library a completion reports as failed. */
  function FailedLibrary(c: LibraryCompletion): Option<Required>
  {
    if Delivered(c) then None else Some(c.req)
  }

  /** Every completion is accounted for exactly once: it adds a path to one of the two
      lists or it is reported as failed. */
  lemma {:induction false} LibraryOutcomesAccounted(cs: seq<LibraryCompletion>)
    ensures |Harvest(cs, DeliveredPath(false))| + |Harvest(cs, DeliveredPath(true))| +
            |Harvest(cs, FailedLibrary)| == |cs|
    decreases |cs|
  {
    if cs != [] {
      LibraryOutcomesAccounted(cs[..|cs| - 1]);
    }
  }

  /** The `as_completed` loop over library downloads: a successful download appends its
      path to `library_paths` or `native_lib_info`; a failed one is reported and the
      run goes on. */
  method CollectLibraries(libraryPaths: seq<Path>, nativeLibInfo: seq<Path>, completions: seq<LibraryCompletion>)
    returns (libraryPaths': seq<Path>, nativeLibInfo': seq<Path>, reported: seq<Required>)
    ensures libraryPaths' == libraryPaths + Harvest(completions, DeliveredPath(false))
    ensures nativeLibInfo' == nativeLibInfo + Harvest(completions, DeliveredPath(true))
    ensures reported == Harvest(completions, FailedLibrary)
  {
    libraryPaths', nativeLibInfo', reported := libraryPaths, nativeLibInfo, [];
    for i := 0 to |completions|
      invariant libraryPaths' == libraryPaths + Harvest(completions[..i], DeliveredPath(false))
      invariant nativeLibInfo' == nativeLibInfo + Harvest(completions[..i], DeliveredPath(true))
      invariant reported == Harvest(completions[..i], FailedLibrary)
    {
      var c := completions[i];
      assert completions[..i + 1][..i] == completions[..i];
      match c.outcome {
        case Returned(success, resultPath) =>
          if success && Given(resultPath) {
            if c.req.isNative {
              nativeLibInfo' := nativeLibInfo' + [resultPath.value];
            } else {
              libraryPaths' := libraryPaths' + [resultPath.value];
            }
          } else {
            reported := reported + [c.req];
          }
        case Raised =>
          reported := reported + [c.req];
      }
    }
    assert completions[..|completions|] == completions;
  }

  /** What `future.result()` gives for an extract_natives task. */
  datatype ExtractOutcome = ExtractReturned(success: bool) | ExtractRaised

  /** A finished extraction: the native jar and its outcome. */
  datatype ExtractCompletion = ExtractCompletion(jar: Path, outcome: ExtractOutcome)

  function ExtractedJar(c: ExtractCompletion): Option<Path>
  {
    if c.outcome == ExtractReturned(true) then Some(c.jar) else None
  }

  function FailedJar(c: ExtractCompletion): Option<Path>
  {
    if c.outcome == ExtractReturned(true) then None else Some(c.jar)
  }

  /** The `as_completed` loop over extractions: successes are recorded in
      `extracted_native_paths`, failures only reported. */
  method CollectExtractions(completions: seq<ExtractCompletion>)
    returns (extractedNativePaths: seq<Path>, reported: seq<Path>)
    ensures extractedNativePaths == Harvest(completions, ExtractedJar)
    ensures reported == Harvest(completions, FailedJar)
    ensures |extractedNativePaths| + |reported| == |completions|
  {
    extractedNativePaths, reported := [], [];
    for i := 0 to |completions|
      invariant extractedNativePaths == Harvest(completions[..i], ExtractedJar)
      invariant reported == Harvest(completions[..i], FailedJar)
      invariant |extractedNativePaths| + |reported| == i
    {
      var c := completions[i];
      assert completions[..i + 1][..i] == completions[..i];
      match c.outcome {
        case ExtractReturned(success) =>
          if !success {
            reported := reported + [c.jar];
          } else {
            extractedNativePaths := extractedNativePaths + [c.jar];
          }
        case ExtractRaised =>
          reported := reported + [c.jar];
      }
    }
    assert completions[..|completions|] == completions;
  }

  /** A finished asset download: the `required_assets` entry and its outcome. */
  datatype AssetCompletion = AssetCompletion(asset: RequiredAsset, outcome: FetchOutcome)

  function DownloadedAsset(c: AssetCompletion): Option<RequiredAsset>
  {
    if c.outcome.Returned? && c.outcome.success then Some(c.asset) else None
  }

  function FailedAsset(c: AssetCompletion): Option<RequiredAsset>
  {
    if c.outcome.Returned? && c.outcome.success then None else Some(c.asset)
  }

  /** The `as_completed` loop over asset downloads: successes are counted in
      `download_count`, failures only reported. */
  method CountAssets(completions: seq<AssetCompletion>)
    returns (downloadCount: nat, reported: seq<RequiredAsset>)
    ensures downloadCount == |Harvest(completions, DownloadedAsset)|
    ensures reported == Harvest(completions, FailedAsset)
    ensures downloadCount + |reported| == |completions|
  {
    downloadCount, reported := 0, [];
    for i := 0 to |completions|
      invariant downloadCount == |Harvest(completions[..i], DownloadedAsset)|
      invariant reported == Harvest(completions[..i], FailedAsset)
      invariant downloadCount + |reported| == i
    {
      var c := completions[i];
      assert completions[..i + 1][..i] == completions[..i];
      match c.outcome {
        case Returned(success, _) =>
          if success {
            downloadCount := downloadCount + 1;
          } else {
            reported := reported + [c.asset];
          }
        case Raised =>
          reported := reported + [c.asset];
      }
    }
    assert completions[..|completions|] == completions;
  }

  /** The pool may finish tasks in any order: any two completion orders of the same
      library outcomes give the same classpath and natives entries, up to order. */
  lemma LibraryFoldOrderIndependent(a: seq<LibraryCompletion>, b: seq<LibraryCompletion>)
    requires multiset(a) == multiset(b)
    ensures multiset(Harvest(a, DeliveredPath(false))) == multiset(Harvest(b, DeliveredPath(false)))
    ensures multiset(Harvest(a, DeliveredPath(true))) == multiset(Harvest(b, DeliveredPath(true)))
    ensures multiset(Harvest(a, FailedLibrary)) == multiset(Harvest(b, FailedLibrary))
  {
    HarvestOrderIndependent(a, b, DeliveredPath(false));
    HarvestOrderIndependent(a, b, DeliveredPath(true));
    HarvestOrderIndependent(a, b, FailedLibrary);
  }

  /** Any two completion orders of the same asset outcomes give the same
      `download_count`. */
  lemma AssetCountOrderIndependent(a: seq<AssetCompletion>, b: seq<AssetCompletion>)
    requires multiset(a) == multiset(b)
    ensures |Harvest(a, DownloadedAsset)| == |Harvest(b, DownloadedAsset)|
  {
    HarvestOrderIndependent(a, b, DownloadedAsset);
    assert |multiset(Harvest(a, DownloadedAsset))| == |multiset(Harvest(b, DownloadedAsset))|;
  }
}

/** Extraction of a native-library archive (launcher.py, `extract_natives`). An archive
    is read as its list of entries; the output directory is a map from member name to
    contents. */
module Natives {
  import opened Common
  import opened Text

  /** One archive member: its name, its contents and whether its CRC checks out. */
  datatype Entry = Entry(name: string, data: Bytes, crcOk: bool)

  /** What `zipfile.ZipFile(path)` finds: not a readable zip archive, or its entries. */
  datatype JarFile = NotAZip | Zip(entries: seq<Entry>)

  /** Members under this prefix are never extracted. */
  const MetadataPrefix: string := "META-INF/"

  /** `jar.namelist()`. */
  function Names(entries: seq<Entry>): (r: seq<string>)
    ensures |r| == |entries| && forall i :: 0 <= i < |entries| ==> r[i] == entries[i].name
  {
    seq(|entries|, i requires 0 <= i < |entries| => entries[i].name)
  }

  /** `jar.testzip()`: the name of the first member whose CRC fails, if any. */
  function FirstCorrupt(entries: seq<Entry>): (r: Option<string>)
    ensures r.None? <==> forall i :: 0 <= i < |entries| ==> entries[i].crcOk
    ensures r.Some? ==> exists i :: 0 <= i < |entries| && !entries[i].crcOk && entries[i].name == r.value
  {
    if entries == [] then None
    else if !entries[0].crcOk then Some(entries[0].name)
    else
      var r := FirstCorrupt(entries[1..]);
      assert forall i :: 1 <= i < |entries| ==> entries[i] == entries[1..][i - 1];
      r
  }

  /** `[m for m in names if not m.startswith('META-INF/')]`: the names to extract,
      in archive order. */
  function MembersToExtract(names: seq<string>): (r: seq<string>)
    ensures forall x :: x in r <==> x in names && !StartsWith(x, MetadataPrefix)
    ensures |r| <= |names|
  {
    if names == [] then []
    else if StartsWith(names[0], MetadataPrefix) then MembersToExtract(names[1..])
    else [names[0]] + MembersToExtract(names[1..])
  }

  /** A name that the last entry does not carry is carried by an earlier one. */
  lemma NameInPrefix(entries: seq<Entry>, name: string)
    requires name in Names(entries) && entries[|entries| - 1].name != name
    ensures name in Names(entries[..|entries| - 1])
  {
    var k :| 0 <= k < |entries| && Names(entries)[k] == name;
    assert Names(entries[..|entries| - 1])[k] == name;
  }

  /** The contents extracted for `name`: those of the last entry with that name, the
      one `ZipFile.getinfo` resolves. */
  function Member(entries: seq<Entry>, name: string): (r: Bytes)
    requires name in Names(entries)
    ensures exists i ::
              && 0 <= i < |entries| && entries[i].name == name && entries[i].data == r
              && forall j :: i < j < |entries| ==> entries[j].name != name
  {
    var n := |entries| - 1;
    if entries[n].name == name then entries[n].data
    else
      NameInPrefix(entries, name);
      var r := Member(entries[..n], name);
      assert forall j :: 0 <= j < n ==> entries[..n][j] == entries[j];
      r
  }

  /** `jar.extractall(dir, members=members)`: each member written in turn. */
  function ExtractAll(dir: map<string, Bytes>, entries: seq<Entry>, members: seq<string>): (r: map<string, Bytes>)
    requires forall m :: m in members ==> m in Names(entries)
    ensures r.Keys == dir.Keys + set m | m in members
    ensures forall m :: m in members ==> r[m] == Member(entries, m)
    ensures forall k :: k in dir && k !in members ==> r[k] == dir[k]
    decreases |members|
  {
    if members == [] then dir
    else
      var r := ExtractAll(dir[members[0] := Member(entries, members[0])], entries, members[1..]);
      assert forall m :: m in members ==> m == members[0] || m in members[1..];
      r
  }

  /** The result of extract_natives and the output directory afterwards. */
  datatype Extraction = Extraction(ok: bool, dir: map<string, Bytes>)

  /** `extract_natives(jar, dir)`: a file that is not a zip archive, or one with a
      corrupt member, returns False and extracts nothing; otherwise every member
      except those under `META-INF/` is extracted and True is returned. */
  function ExtractNatives(jar: JarFile, dir: map<string, Bytes>): (r: Extraction)
    ensures r.ok <==> jar.Zip? && FirstCorrupt(jar.entries).None?
    ensures !r.ok ==> r.dir == dir
    ensures r.ok ==>
              r.dir.Keys == dir.Keys + set n | n in Names(jar.entries) && !StartsWith(n, MetadataPrefix)
    ensures r.ok ==> forall n :: n in Names(jar.entries) && !StartsWith(n, MetadataPrefix) ==>
      r.dir[n] == Member(jar.entries, n)
    ensures r.ok ==> forall n :: n in dir && !(n in Names(jar.entries) && !StartsWith(n, MetadataPrefix)) ==>
      r.dir[n] == dir[n]
  {
    match jar
    case NotAZip => Extraction(false, dir)
    case Zip(entries) =>
      if FirstCorrupt(entries).Some? then Extraction(false, dir)
      else
        var members := MembersToExtract(Names(entries));
        var out := ExtractAll(dir, entries, members);
        assert (set m | m in members) == set n | n in Names(entries) && !StartsWith(n, MetadataPrefix);
        Extraction(true, out)
  }
}

/** Construction of the launch command at the end of `main` (launcher.py): argument
    templates gathered from the version JSON, placeholder substitution, the offline
    authentication arguments, the classpath, and the removal of `--demo`. */
module Command {
  import opened Common
  import opened Text
  import opened Rules

  /** The `value` of a conditional argument: a string, a list of strings, or anything
      else (which contributes nothing). */
  datatype ArgValue = Single(s: string) | Several(items: seq<string>) | NoValue

  /** One element of `arguments.jvm` or `arguments.game`: a plain string, or an object
      with optional `rules` and a `value`. */
  datatype ArgEntry = Literal(s: string) | Conditional(rules: Option<seq<Rule>>, value: ArgValue)

  /** How the version JSON describes its arguments: the modern `arguments` object (each
      list optional), the legacy `minecraftArguments` string, or neither. */
  datatype Arguments =
    | Modern(jvm: Option<seq<ArgEntry>>, game: Option<seq<ArgEntry>>)
    | Legacy(minecraftArguments: string)
    | NoArguments

  /** The templates one entry adds on a host whose `platform.system()` is `system`. */
  function Contribution(e: ArgEntry, system: string): seq<string>
  {
    match e
    case Literal(s) => [s]
    case Conditional(rules, value) =>
      if !Allowed(rules, system) then []
      else match value
        case Single(s) => [s]
        case Several(items) => items
        case NoValue => []
  }

  /** The templates a list of entries yields, in order. */
  function Templates(entries: seq<ArgEntry>, system: string): seq<string>
  {
    if entries == [] then []
    else Templates(entries[..|entries| - 1], system) + Contribution(entries[|entries| - 1], system)
  }

  /** Whether entry `e` contributes template `t`. */
  predicate Contributes(e: ArgEntry, t: string, system: string)
  {
    || e == Literal(t)
    || (e.Conditional? && Allowed(e.rules, system) &&
        (e.value == Single(t) || (e.value.Several? && t in e.value.items)))
  }

  /** A template is collected exactly when some plain entry is that string or some
      entry whose rules allow the host carries it as its value. */
  lemma {:induction false} TemplatesMembers(entries: seq<ArgEntry>, system: string)
    ensures forall t :: t in Templates(entries, system) <==>
      exists i :: 0 <= i < |entries| && Contributes(entries[i], t, system)
    decreases |entries|
  {
    if entries != [] {
      var n := |entries| - 1;
      TemplatesMembers(entries[..n], system);
      assert forall i :: 0 <= i < n ==> entries[..n][i] == entries[i];
      forall t | exists i :: 0 <= i < |entries| && Contributes(entries[i], t, system)
        ensures t in Templates(entries, system)
      {
        var i :| 0 <= i < |entries| && Contributes(entries[i], t, system);
        if i < n {
          assert Contributes(entries[..n][i], t, system);
        }
      }
    }
  }

  /** Entries made of plain strings only are taken over verbatim. */
  lemma {:induction false} LiteralsVerbatim(entries: seq<ArgEntry>, system: string)
    requires forall i :: 0 <= i < |entries| ==> entries[i].Literal?
    ensures Templates(entries, system) == seq(|entries|, i requires 0 <= i < |entries| => entries[i].s)
    decreases |entries|
  {
    if entries != [] {
      LiteralsVerbatim(entries[..|entries| - 1], system);
    }
  }

  /** The loop over `arguments.jvm` or `arguments.game`: plain strings are appended;
      an object whose rules allow the host appends its string value or extends with
      its list value. */
  method CollectTemplates(entries: seq<ArgEntry>, system: string) returns (templates: seq<string>)
    ensures templates == Templates(entries, system)
  {
    templates := [];
    for i := 0 to |entries|
      invariant templates == Templates(entries[..i], system)
    {
      assert entries[..i + 1][..i] == entries[..i];
      match entries[i] {
        case Literal(s) =>
          templates := templates + [s];
        case Conditional(rules, value) =>
          var allow := CheckRules(rules, system);
          if allow {
            match value {
              case Single(s) => templates := templates + [s];
              case Several(items) => templates := templates + items;
              case NoValue =>
            }
          }
      }
    }
    assert entries[..|entries|] == entries;
  }

  /** The JVM templates used with legacy `minecraftArguments`. */
  const LegacyJvmTemplates: seq<string> := ["-Djava.library.path=${natives_directory}", "-cp", "${classpath}"]

  /** The JVM and game templates of a version, or None when it has neither `arguments`
      nor `minecraftArguments` (the launch is abandoned). */
  function ArgumentTemplates(args: Arguments, system: string): Option<(seq<string>, seq<string>)>
  {
    match args
    case Modern(jvm, game) =>
      Some((if jvm.Some? then Templates(jvm.value, system) else [],
            if game.Some? then Templates(game.value, system) else []))
    case Legacy(m) => Some((LegacyJvmTemplates, Split(m, " ")))
    case NoArguments => None
  }

  /** Legacy game templates are the pieces of `minecraftArguments` between single
      spaces: joining them back with spaces gives the string again. */
  lemma LegacyGameTemplatesRejoin(m: string, system: string)
    ensures ArgumentTemplates(Legacy(m), system).Some?
    ensures Join(" ", ArgumentTemplates(Legacy(m), system).value.1) == m
  {
    JoinOfSplit(m, " ");
  }

  /** The argument-collection step of `main`: `found` is false when neither form of
      arguments is present. */
  method CollectArgumentTemplates(args: Arguments, system: string)
    returns (found: bool, jvmTemplates: seq<string>, gameTemplates: seq<string>)
    ensures found <==> !args.NoArguments?
    ensures found ==> ArgumentTemplates(args, system) == Some((jvmTemplates, gameTemplates))
  {
    jvmTemplates, gameTemplates := [], [];
    match args {
      case Modern(jvm, game) =>
        if jvm.Some? {
          jvmTemplates := CollectTemplates(jvm.value, system);
        }
        if game.Some? {
          gameTemplates := CollectTemplates(game.value, system);
        }
        found := true;
      case Legacy(m) =>
        gameTemplates := Split(m, " ");
        jvmTemplates := LegacyJvmTemplates;
        found := true;
      case NoArguments =>
        found := false;
    }
  }

  const OfflineUsername: string := "Player"
  const TargetVersion: string := "1.17.1"
  const OfflineAccessToken: string := "0"
  const OfflineUserType: string := "legacy"
  const LauncherName: string := "PyLauncherRichMT"
  const LauncherVersion: string := "0.3"
  const JavaExecutable: string := "java"

  /** The values the placeholders stand for. `uuid` is the random `uuid4().hex` of the
      run; the directories are already absolute; `versionType` is the version's `type`. */
  datatype LaunchContext = LaunchContext(
    uuid: string,
    gameDir: Path,
    assetsRoot: Path,
    assetIndexName: string,
    versionType: Option<string>,
    nativesDir: Path,
    classpath: string,
    libraryDir: Path,
    classpathSeparator: string)

  /** The keys of the `replacements` dictionary, in its insertion order. */
  const PlaceholderNames: seq<string> := [
    "${auth_player_name}", "${version_name}", "${game_directory}", "${assets_root}",
    "${assets_index_name}", "${auth_uuid}", "${auth_access_token}", "${user_type}",
    "${version_type}", "${natives_directory}", "${launcher_name}", "${launcher_version}",
    "${classpath}", "${library_directory}", "${classpath_separator}"]

  /** A placeholder such as `${name}`: `$` first and nowhere else, `}` last and
      nowhere else. */
  predicate Braced(k: string)
  {
    |k| >= 3 && k[0] == '$' && k[|k| - 1] == '}' &&
    (forall j :: 1 <= j < |k| ==> k[j] != '$') && '}' !in k[..|k| - 1]
  }

  /** Every key has the form `${name}`. */
  lemma PlaceholderNamesShape()
    ensures |PlaceholderNames| == 15
    ensures forall i :: 0 <= i < 15 ==> Braced(PlaceholderNames[i])
  {
    BracedKeys0To4();
    BracedKeys5To9();
    BracedKeys10To14();
  }

  /** The keys at indices 0 to 4 are placeholders. */
  lemma BracedKeys0To4()
    ensures Braced(PlaceholderNames[0]) && Braced(PlaceholderNames[1]) && Braced(PlaceholderNames[2])
    ensures Braced(PlaceholderNames[3]) && Braced(PlaceholderNames[4])
  {
  }

  /** The keys at indices 5 to 9 are placeholders. */
  lemma BracedKeys5To9()
    ensures Braced(PlaceholderNames[5]) && Braced(PlaceholderNames[6]) && Braced(PlaceholderNames[7])
    ensures Braced(PlaceholderNames[8]) && Braced(PlaceholderNames[9])
  {
  }

  /** The keys at indices 10 to 14 are placeholders. */
  lemma BracedKeys10To14()
    ensures Braced(PlaceholderNames[10]) && Braced(PlaceholderNames[11]) && Braced(PlaceholderNames[12])
    ensures Braced(PlaceholderNames[13]) && Braced(PlaceholderNames[14])
  {
  }

  /** No key is listed twice. */
  lemma PlaceholderNamesDistinct()
    ensures forall i, j :: 0 <= i < j < |PlaceholderNames| ==> PlaceholderNames[i] != PlaceholderNames[j]
  {
  }

  /** The values of the `replacements` dictionary, in its insertion order: the offline
      identity, the launcher's constants, and the run's directories and classpath. */
  function PlaceholderValues(ctx: LaunchContext): (r: seq<string>)
    ensures |r| == 15
    ensures r[0] == OfflineUsername && r[1] == TargetVersion
    ensures r[2] == ctx.gameDir && r[3] == ctx.assetsRoot && r[4] == ctx.assetIndexName
    ensures r[5] == ctx.uuid && r[6] == OfflineAccessToken && r[7] == OfflineUserType
    ensures r[8] == (if ctx.versionType.Some? then ctx.versionType.value else "release")
    ensures r[9] == ctx.nativesDir && r[10] == LauncherName && r[11] == LauncherVersion
    ensures r[12] == ctx.classpath && r[13] == ctx.libraryDir && r[14] == ctx.classpathSeparator
  {
    [OfflineUsername, TargetVersion, ctx.gameDir, ctx.assetsRoot,
     ctx.assetIndexName, ctx.uuid, OfflineAccessToken, OfflineUserType,
     if ctx.versionType.Some? then ctx.versionType.value else "release", ctx.nativesDir, LauncherName, LauncherVersion,
     ctx.classpath, ctx.libraryDir, ctx.classpathSeparator]
  }

  /** The `replacements` dictionary, in its insertion order: each key paired with its value. */
  function Replacements(ctx: LaunchContext): (r: seq<(string, string)>)
    ensures |r| == 15
    ensures forall i :: 0 <= i < 15 ==> r[i] == (PlaceholderNames[i], PlaceholderValues(ctx)[i])
  {
    assert |PlaceholderNames| == 15;
    Zip(PlaceholderNames, PlaceholderValues(ctx))
  }

  /** Keys paired with values, position by position. */
  function Zip<K, V>(keys: seq<K>, values: seq<V>): (r: seq<(K, V)>)
    requires |keys| == |values|
    ensures |r| == |keys| && forall i :: 0 <= i < |r| ==> r[i] == (keys[i], values[i])
  {
    seq(|keys|, i requires 0 <= i < |keys| => (keys[i], values[i]))
  }

  /** Replacement pairs whose keys are placeholders `${...}`. */
  predicate PlaceholderKeys(pairs: seq<(string, string)>)
  {
    forall i :: 0 <= i < |pairs| ==> pairs[i].0 != [] && pairs[i].0[0] == '$'
  }

  /** Every key of the launch's replacements is a placeholder. */
  lemma ReplacementKeys(ctx: LaunchContext)
    ensures PlaceholderKeys(Replacements(ctx))
  {
    PlaceholderNamesShape();
  }

  /** `for key, value in replacements.items(): arg = arg.replace(key, value)`: the
      pairs applied one after another, each to the result of the previous one. A
      template without `$` holds no key and passes through unchanged. */
  function Substitute(s: string, pairs: seq<(string, string)>): (r: string)
    requires PlaceholderKeys(pairs)
    ensures '$' !in s ==> r == s
    decreases |pairs|
  {
    if pairs == [] then s
    else
      FirstCharAbsent(pairs[0].0, s);
      Substitute(Replace(s, pairs[0].0, pairs[0].1), pairs[1..])
  }

  /** A template that is exactly the first key becomes its value, provided the value
      holds no further placeholder. */
  lemma FirstPlaceholderResolved(pairs: seq<(string, string)>)
    requires PlaceholderKeys(pairs) && pairs != [] && '$' !in pairs[0].1
    ensures Substitute(pairs[0].0, pairs) == pairs[0].1
  {
    var (k, v) := pairs[0];
    assert StartsWith(k, k);
    assert k[|k|..] == [];
    assert Replace([], k, v) == [];
    assert Replace(k, k, v) == v + Replace([], k, v) == v;
    assert Substitute(k, pairs) == Substitute(Replace(k, k, v), pairs[1..]);
    assert PlaceholderKeys(pairs[1..]);
  }

  /** `${auth_player_name}` resolves to the offline user name. */
  lemma UsernamePlaceholderResolved(ctx: LaunchContext)
    ensures PlaceholderKeys(Replacements(ctx))
    ensures Substitute("${auth_player_name}", Replacements(ctx)) == OfflineUsername
  {
    ReplacementKeys(ctx);
    FirstPlaceholderResolved(Replacements(ctx));
  }

  /** A placeholder that begins another one is that one: its `}` can only match the
      other's last character. */
  lemma BracedPrefix(a: string, b: string)
    requires Braced(a) && Braced(b)
    ensures StartsWith(b, a) ==> a == b
  {
    assert forall j :: 0 <= j < |b| - 1 ==> b[j] == b[..|b| - 1][j] != '}';
  }

  /** One placeholder does not occur inside a different one: its `$` could only match
      the other's first character. */
  lemma BracedApart(a: string, b: string)
    requires Braced(a) && Braced(b) && a != b
    ensures !Occurs(a, b)
  {
    assert forall j :: 0 <= j < |b[1..]| ==> b[1..][j] == b[j + 1] != '$';
    FirstCharAbsent(a, b[1..]);
    BracedPrefix(a, b);
  }

  /** A template that is exactly one of several distinct `${name}` keys becomes that
      key's value, provided the value holds no further placeholder: the keys before it
      leave it alone, and the ones after it find nothing in the value. */
  lemma {:induction false} PlaceholderResolvedAt(pairs: seq<(string, string)>, i: nat)
    requires forall j :: 0 <= j < |pairs| ==> Braced(pairs[j].0)
    requires forall j, k :: 0 <= j < k < |pairs| ==> pairs[j].0 != pairs[k].0
    requires i < |pairs| && '$' !in pairs[i].1
    ensures PlaceholderKeys(pairs)
    ensures Substitute(pairs[i].0, pairs) == pairs[i].1
    decreases i
  {
    if i == 0 {
      FirstPlaceholderResolved(pairs);
    } else {
      BracedApart(pairs[0].0, pairs[i].0);
      assert Replace(pairs[i].0, pairs[0].0, pairs[0].1) == pairs[i].0;
      PlaceholderResolvedAt(pairs[1..], i - 1);
      assert pairs[1..][i - 1] == pairs[i];
    }
  }

  /** Every placeholder of the launch resolves to its value when that value holds no
      `$`; in particular `${natives_directory}` and `${classpath}`. */
  lemma PlaceholderResolved(ctx: LaunchContext, i: nat)
    requires i < 15 && '$' !in Replacements(ctx)[i].1
    ensures PlaceholderKeys(Replacements(ctx))
    ensures Substitute(PlaceholderNames[i], Replacements(ctx)) == Replacements(ctx)[i].1
    ensures '$' !in ctx.nativesDir ==> Substitute("${natives_directory}", Replacements(ctx)) == ctx.nativesDir
    ensures '$' !in ctx.classpath ==> Substitute("${classpath}", Replacements(ctx)) == ctx.classpath
  {
    var r := Replacements(ctx);
    PlaceholderNamesShape();
    PlaceholderNamesDistinct();
    PlaceholderResolvedAt(r, i);
    if '$' !in ctx.nativesDir {
      PlaceholderResolvedAt(r, 9);
    }
    if '$' !in ctx.classpath {
      PlaceholderResolvedAt(r, 12);
    }
  }

  /** The inner loop: every replacement applied to one template. */
  method SubstituteOne(template: string, pairs: seq<(string, string)>) returns (arg: string)
    requires PlaceholderKeys(pairs)
    ensures arg == Substitute(template, pairs)
  {
    arg := template;
    for k := 0 to |pairs|
      invariant PlaceholderKeys(pairs[k..])
      invariant Substitute(arg, pairs[k..]) == Substitute(template, pairs)
    {
      assert pairs[k..][1..] == pairs[k + 1..];
      arg := Replace(arg, pairs[k].0, pairs[k].1);
    }
  }

  /** Every template substituted, in order. */
  function Substituted(templates: seq<string>, pairs: seq<(string, string)>): (r: seq<string>)
    requires PlaceholderKeys(pairs)
    ensures |r| == |templates|
  {
    seq(|templates|, i requires 0 <= i < |templates| => Substitute(templates[i], pairs))
  }

  /** The JVM-argument loop: each template substituted, in order. */
  method ProcessJvmArgs(templates: seq<string>, pairs: seq<(string, string)>) returns (args: seq<string>)
    requires PlaceholderKeys(pairs)
    ensures args == Substituted(templates, pairs)
  {
    args := [];
    for i := 0 to |templates|
      invariant args == Substituted(templates[..i], pairs)
    {
      var arg := SubstituteOne(templates[i], pairs);
      args := args + [arg];
    }
    assert templates[..|templates|] == templates;
  }

  /** The authentication placeholders the game-argument loop looks ahead for. */
  const AuthPlaceholders: seq<string> := ["${auth_player_name}", "${auth_uuid}", "${auth_access_token}", "${user_type}"]

  /** The flags the launcher adds, with their values, when the templates lack them. */
  function AuthCompletion(templates: seq<string>, uuid: string): seq<string>
  {
    (if "--username" in templates then [] else ["--username", OfflineUsername]) +
    (if "--uuid" in templates then [] else ["--uuid", uuid]) +
    (if "--accessToken" in templates then [] else ["--accessToken", OfflineAccessToken])
  }

  lemma SubstitutedSnoc(templates: seq<string>, i: nat, pairs: seq<(string, string)>)
    requires PlaceholderKeys(pairs) && i < |templates|
    ensures Substituted(templates[..i + 1], pairs) == Substituted(templates[..i], pairs) + [Substitute(templates[i], pairs)]
  {
  }

  /** The flags the scan looks for are not authentication placeholders. */
  lemma FlagsAreNotPlaceholders()
    ensures "--username" !in AuthPlaceholders && "--uuid" !in AuthPlaceholders
    ensures "--accessToken" !in AuthPlaceholders
  {
  }

  /** A template is in a one-longer prefix exactly when it is in the prefix or is the
      next template. */
  lemma PrefixStep(templates: seq<string>, i: nat)
    requires i < |templates|
    ensures forall f :: f in templates[..i + 1] <==> f in templates[..i] || f == templates[i]
  {
    assert templates[..i + 1] == templates[..i] + [templates[i]];
  }

  /** The loop over the game templates, without the completion that follows it. */
  method ScanGameArgs(templates: seq<string>, pairs: seq<(string, string)>)
    returns (args: seq<string>, foundUsername: bool, foundUuid: bool, foundAccessToken: bool)
    requires PlaceholderKeys(pairs)
    ensures args == Substituted(templates, pairs)
    ensures foundUsername <==> "--username" in templates
    ensures foundUuid <==> "--uuid" in templates
    ensures foundAccessToken <==> "--accessToken" in templates
  {
    args := [];
    foundUsername, foundUuid, foundAccessToken := false, false, false;
    var foundUserType := false;
    var skipNext := false;
    FlagsAreNotPlaceholders();
    for i := 0 to |templates|
      invariant skipNext ==> i < |templates| && templates[i] in AuthPlaceholders
      invariant args == Substituted(templates[..i], pairs) + (if skipNext then [Substitute(templates[i], pairs)] else [])
      invariant foundUsername <==> "--username" in templates[..i]
      invariant foundUuid <==> "--uuid" in templates[..i]
      invariant foundAccessToken <==> "--accessToken" in templates[..i]
    {
      var template := templates[i];
      PrefixStep(templates, i);
      SubstitutedSnoc(templates, i, pairs);
      if skipNext {
        skipNext := false;
        continue;
      }
      if template == "--username" {
        foundUsername := true;
      } else if template == "--uuid" {
        foundUuid := true;
      } else if template == "--accessToken" {
        foundAccessToken := true;
      } else if template == "--userType" {
        foundUserType := true;
      }
      var arg := SubstituteOne(template, pairs);
      args := args + [arg];
      if i + 1 < |templates| {
        var next := templates[i + 1];
        if next in AuthPlaceholders {
          var nextArg := SubstituteOne(next, pairs);
          args := args + [nextArg];
          skipNext := true;
        }
      }
    }
    assert templates[..|templates|] == templates;
  }

  /** The game-argument step: each template substituted, an authentication placeholder
      right after a processed template being handled together with it; then
      `--username`, `--uuid` and `--accessToken` are added with their values when the
      templates lack them. The look-ahead changes neither order nor contents. */
  method ProcessGameArgs(templates: seq<string>, pairs: seq<(string, string)>, uuid: string)
    returns (args: seq<string>)
    requires PlaceholderKeys(pairs)
    ensures args == Substituted(templates, pairs) + AuthCompletion(templates, uuid)
  {
    var foundUsername, foundUuid, foundAccessToken;
    args, foundUsername, foundUuid, foundAccessToken := ScanGameArgs(templates, pairs);
    if !foundUsername {
      args := args + ["--username", OfflineUsername];
    }
    if !foundUuid {
      args := args + ["--uuid", uuid];
    }
    if !foundAccessToken {
      args := args + ["--accessToken", OfflineAccessToken];
    }
  }

  /** Whatever the templates, the game arguments carry `--username`, `--uuid` and
      `--accessToken`. */
  lemma AuthFlagsPresent(templates: seq<string>, pairs: seq<(string, string)>, uuid: string)
    requires PlaceholderKeys(pairs)
    ensures var args := Substituted(templates, pairs) + AuthCompletion(templates, uuid);
      "--username" in args && "--uuid" in args && "--accessToken" in args
  {
    var sub := Substituted(templates, pairs);
    var flags := ["--username", "--uuid", "--accessToken"];
    forall f | f in flags && f in templates
      ensures f in sub
    {
      var i :| 0 <= i < |templates| && templates[i] == f;
      assert '$' !in f;
      assert sub[i] == Substitute(f, pairs) == f;
    }
  }

  /** `';' if platform.system() == "Windows" else ':'`. */
  function ClasspathSeparator(system: string): (r: string)
    ensures |r| == 1
    ensures system == "Windows" ==> r == ";"
    ensures system != "Windows" ==> r == ":"
  {
    if system == "Windows" then ";" else ":"
  }

  /** The classpath: the client JAR followed by the library paths, joined by the
      separator. */
  function Classpath(clientJar: Path, libraryPaths: seq<Path>, system: string): string
  {
    Join(ClasspathSeparator(system), [clientJar] + libraryPaths)
  }

  /** When no path contains the separator, splitting the classpath on it gives back
      the client JAR and the library paths in order. */
  lemma ClasspathRoundTrip(clientJar: Path, libraryPaths: seq<Path>, system: string)
    requires ClasspathSeparator(system)[0] !in clientJar
    requires forall i :: 0 <= i < |libraryPaths| ==> ClasspathSeparator(system)[0] !in libraryPaths[i]
    ensures Split(Classpath(clientJar, libraryPaths, system), ClasspathSeparator(system)) == [clientJar] + libraryPaths
  {
    var parts := [clientJar] + libraryPaths;
    assert forall i :: 1 <= i < |parts| ==> parts[i] == libraryPaths[i - 1];
    SplitOfJoin(parts, ClasspathSeparator(system));
  }

  /** `command.index(x)`: the position of the first `x`. */
  function IndexOf(s: seq<string>, x: string): (r: nat)
    requires x in s
    ensures r < |s| && s[r] == x && x !in s[..r]
  {
    if s[0] == x then 0
    else
      assert x in s[1..];
      var j := IndexOf(s[1..], x);
      assert s[..j + 1] == [s[0]] + s[1..][..j];
      j + 1
  }

  /** `if x in command: command.remove(x)`: the first `x` is deleted, so exactly one
      occurrence goes and nothing else changes; without `x` the command is left as
      it is. */
  function RemoveFirst(s: seq<string>, x: string): (r: seq<string>)
    ensures x !in s ==> r == s
    ensures x in s ==> |r| == |s| - 1
    ensures multiset(r) == multiset(s) - multiset{x}
    ensures x in s ==> exists i :: 0 <= i < |s| && s[i] == x && x !in s[..i] && r == s[..i] + s[i + 1..]
  {
    if x !in s then s
    else
      var i := IndexOf(s, x);
      assert s == s[..i] + [x] + s[i + 1..];
      s[..i] + s[i + 1..]
  }

  /** The final command: the Java executable, the JVM arguments, the main class and the
      game arguments, with the first `--demo` removed. */
  function LaunchCommand(jvmArgs: seq<string>, mainClass: string, gameArgs: seq<string>): (r: seq<string>)
    ensures r != [] && r[0] == JavaExecutable
    ensures multiset(r) == multiset([JavaExecutable] + jvmArgs + [mainClass] + gameArgs) - multiset{"--demo"}
    ensures "--demo" !in jvmArgs + [mainClass] + gameArgs ==> r == [JavaExecutable] + jvmArgs + [mainClass] + gameArgs
    ensures var command := [JavaExecutable] + jvmArgs + [mainClass] + gameArgs;
      "--demo" in command ==>
        exists i :: 0 < i < |command| && command[i] == "--demo" && "--demo" !in command[..i] &&
          r == command[..i] + command[i + 1..]
  {
    var command := [JavaExecutable] + jvmArgs + [mainClass] + gameArgs;
    assert command == [JavaExecutable] + (jvmArgs + [mainClass] + gameArgs);
    var r := RemoveFirst(command, "--demo");
    DemoRemovalKeepsJava(command, r);
    r
  }

  /** The Java executable is never the `--demo` removed from the command, so it stays
      first. */
  lemma DemoRemovalKeepsJava(command: seq<string>, r: seq<string>)
    requires command != [] && command[0] == JavaExecutable
    requires r == RemoveFirst(command, "--demo")
    ensures r != [] && r[0] == JavaExecutable
    ensures "--demo" in command ==>
      exists i :: 0 < i < |command| && command[i] == "--demo" && "--demo" !in command[..i] &&
        r == command[..i] + command[i + 1..]
  {
    if "--demo" in command {
      var i :| 0 <= i < |command| && command[i] == "--demo" && "--demo" !in command[..i] &&
        r == command[..i] + command[i + 1..];
      assert i != 0;
      assert r[0] == command[..i][0];
    }
  }
}

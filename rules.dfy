/** Platform rules of library and argument entries (launcher.py, `check_rules`). */
module Rules {
  import opened Common
  import opened Text

  /** The `os` object of a rule. Only `name` is consulted; `arch` and `version` are
      carried so that their irrelevance can be stated. */
  datatype OsCondition = OsCondition(name: Option<string>, arch: Option<string>, version: Option<string>)

  /** One rule: its `action` string and its optional `os` object. */
  datatype Rule = Rule(action: string, os: Option<OsCondition>)

  /** The launcher's OS name for the lower-cased `platform.system()`: the table
      {"windows": "windows", "linux": "linux", "darwin": "osx"}. */
  function LauncherOs(system: string): (r: Option<string>)
    ensures r.Some? <==> system in {"windows", "linux", "darwin"}
    ensures r.Some? ==> r.value in {"windows", "linux", "osx"}
    ensures system in {"windows", "linux"} ==> r == Some(system)
    ensures system == "darwin" ==> r == Some("osx")
  {
    if system == "windows" then Some("windows")
    else if system == "linux" then Some("linux")
    else if system == "darwin" then Some("osx")
    else None
  }

  /** What `platform.system()` reports on the three supported hosts is lower-cased
      onto the launcher's names. */
  lemma PlatformNamesMapped()
    ensures LauncherOs(Lower("Windows")) == Some("windows")
    ensures LauncherOs(Lower("Linux")) == Some("linux")
    ensures LauncherOs(Lower("Darwin")) == Some("osx")
  {
    assert Lower("Windows") == "windows";
    assert Lower("Linux") == "linux";
    assert Lower("Darwin") == "darwin";
  }

  /** A rule applies unless it names an OS (a non-empty `os.name`) other than `os`. */
  predicate Applies(rule: Rule, os: string)
  {
    !(rule.os.Some? && Given(rule.os.value.name) && os != rule.os.value.name.value)
  }

  /** Whether the rule's action is `allow`. */
  predicate Allows(rule: Rule)
  {
    rule.action == "allow"
  }

  /** The decision of a rule list on `os`: the action of the last rule that applies,
      `false` when none applies. */
  function Decision(rules: seq<Rule>, os: string): bool
  {
    if rules == [] then false
    else if Applies(rules[|rules| - 1], os) then Allows(rules[|rules| - 1])
    else Decision(rules[..|rules| - 1], os)
  }

  /** `check_rules(rules)` on a host whose `platform.system()` is `system`: no rules
      (absent or empty) and an unmapped OS both allow. */
  function Allowed(rules: Option<seq<Rule>>, system: string): (r: bool)
    ensures rules.None? || rules.value == [] ==> r
    ensures LauncherOs(Lower(system)).None? ==> r
    ensures rules.Some? && LauncherOs(Lower(system)).Some? && rules.value != [] ==>
      var rs, os := rules.value, LauncherOs(Lower(system)).value;
      (r <==> exists k :: 0 <= k < |rs| && Applies(rs[k], os) && Allows(rs[k]) &&
                          forall j :: k < j < |rs| ==> !Applies(rs[j], os))
  {
    if rules.None? || rules.value == [] then true
    else match LauncherOs(Lower(system))
      case None => true
      case Some(os) =>
        DecisionIsLastApplicable(rules.value, os);
        Decision(rules.value, os)
  }

  /** The decision is `allow` exactly when some applicable rule allows and no later
      rule applies. */
  lemma {:induction false} DecisionIsLastApplicable(rules: seq<Rule>, os: string)
    ensures Decision(rules, os) <==>
      exists k :: 0 <= k < |rules| && Applies(rules[k], os) && Allows(rules[k]) &&
        forall j :: k < j < |rules| ==> !Applies(rules[j], os)
    decreases |rules|
  {
    if rules != [] {
      var n := |rules| - 1;
      var init := rules[..n];
      DecisionIsLastApplicable(init, os);
      if Applies(rules[n], os) {
        if Allows(rules[n]) {
          assert Applies(rules[n], os) && Allows(rules[n]);
        } else {
          forall k | 0 <= k < |rules| && Applies(rules[k], os) && Allows(rules[k])
            ensures exists j :: k < j < |rules| && Applies(rules[j], os)
          {
            assert k != n && Applies(rules[n], os);
          }
        }
      } else {
        if Decision(rules, os) {
          var k :| 0 <= k < |init| && Applies(init[k], os) && Allows(init[k]) &&
            forall j :: k < j < |init| ==> !Applies(init[j], os);
          assert rules[k] == init[k];
          forall j | k < j < |rules| ensures !Applies(rules[j], os) {
            if j < n { assert rules[j] == init[j]; }
          }
        } else {
          forall k | 0 <= k < |rules| && Applies(rules[k], os) && Allows(rules[k])
            ensures exists j :: k < j < |rules| && Applies(rules[j], os)
          {
            assert k < n && init[k] == rules[k];
            var j :| k < j < |init| && Applies(init[j], os);
            assert rules[j] == init[j];
          }
        }
      }
    }
  }

  /** The same rules with different (or no) `arch` and `version` conditions. */
  predicate SameButArchAndVersion(a: seq<Rule>, b: seq<Rule>)
  {
    |a| == |b| &&
    forall i :: 0 <= i < |a| ==>
      a[i].action == b[i].action && a[i].os.Some? == b[i].os.Some? &&
      (a[i].os.Some? ==> a[i].os.value.name == b[i].os.value.name)
  }

  /** `arch` and `version` conditions never change a decision. */
  lemma {:induction false} ArchAndVersionIgnored(a: seq<Rule>, b: seq<Rule>, os: string)
    requires SameButArchAndVersion(a, b)
    ensures Decision(a, os) == Decision(b, os)
    decreases |a|
  {
    if a != [] {
      var n := |a| - 1;
      assert SameButArchAndVersion(a[..n], b[..n]);
      ArchAndVersionIgnored(a[..n], b[..n], os);
    }
  }

  /** `check_rules`: walks the rules in order, letting every applicable rule
      overwrite `allow` with its action. */
  method CheckRules(rules: Option<seq<Rule>>, system: string) returns (allow: bool)
    ensures allow == Allowed(rules, system)
  {
    if rules.None? || rules.value == [] {
      return true;
    }
    allow := false;
    var currentOs := Lower(system);
    var os := LauncherOs(currentOs);
    if os.None? {
      return true;
    }
    var rs := rules.value;
    var i := 0;
    while i < |rs|
      invariant 0 <= i <= |rs|
      invariant allow == Decision(rs[..i], os.value)
    {
      var rule := rs[i];
      var action := rule.action == "allow";
      var applies := true;
      if rule.os.Some? {
        var ruleOs := rule.os.value.name;
        if Given(ruleOs) && os.value != ruleOs.value {
          applies := false;
        }
      }
      if applies {
        allow := action;
      }
      assert rs[..i + 1][..i] == rs[..i];
      i := i + 1;
    }
    assert rs[..i] == rs;
  }
}

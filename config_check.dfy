/** Reading and checking the configuration (lines 35-79 of the setup
    script): the file must be readable, hold the sections `Paths`,
    `Permissions` and `GPIO`, name three paths that exist, and name a group
    that occurs in the text of `/etc/group`. */
module ConfigCheck {
  import opened Wrappers
  import opened Text

  /** One section of the INI file: its options in file order. */
  type Section = seq<(string, string)>

  /** A parsed configuration: each section by name. */
  datatype Config = Config(sections: map<string, Section>)

  /** `section[key]`; `None` stands for the `KeyError` it raises. */
  function Lookup(sec: Section, key: string): (r: Option<string>)
    ensures r.Some? ==> (key, r.value) in sec
    ensures r.None? <==> forall k :: 0 <= k < |sec| ==> sec[k].0 != key
  {
    if |sec| == 0 then None
    else if sec[0].0 == key then Some(sec[0].1)
    else Lookup(sec[1..], key)
  }

  /** No option occurs twice in a section: configparser refuses to read a
      file where one does. */
  predicate DistinctKeys(sec: Section) {
    forall i, j :: 0 <= i < j < |sec| ==> sec[i].0 != sec[j].0
  }

  /** Every section of the configuration has distinct option names. */
  predicate WellFormed(c: Config) {
    forall name :: name in c.sections ==> DistinctKeys(c.sections[name])
  }

  /** The sections checked at lines 43-47, in that order. */
  const RequiredSections: seq<string> := ["Paths", "Permissions", "GPIO"]

  /** The path options checked at lines 58-66, in that order. */
  const PathKeys: seq<string> := ["GPIO_Path", "GPIO_Export", "GPIO_Unexport"]

  /** Why the script stops before touching any pin. */
  datatype ConfigError =
    | Unreadable                                   // `config.read` read nothing (lines 37-39)
    | MissingSection(section: string)              // `config[section]` raises KeyError (lines 49-51)
    | MissingKey(section: string, key: string)     // an option lookup raises KeyError
    | BadPath(key: string, path: string)           // `os.path.exists` is false (lines 58-66)
    | GroupNotListed(group: string)                // the group is not in `/etc/group` (lines 71-73)

  /** What a clean configuration hands to the pin loop. */
  datatype Settings = Settings(paths: Section, group: string, pins: Section)

  /** The first of `names` that is not a section of `c`. */
  function FirstMissing(c: Config, names: seq<string>): (r: Option<string>)
    ensures r.None? <==> forall k :: 0 <= k < |names| ==> names[k] in c.sections
    ensures r.Some? ==> exists k :: 0 <= k < |names| && names[k] == r.value && r.value !in c.sections &&
                                   (forall j :: 0 <= j < k ==> names[j] in c.sections)
  {
    if |names| == 0 then None
    else if names[0] !in c.sections then Some(names[0])
    else
      var r := FirstMissing(c, names[1..]);
      assert r.Some? ==> exists k :: 0 <= k < |names| && names[k] == r.value && r.value !in c.sections &&
                                     (forall j :: 0 <= j < k ==> names[j] in c.sections) by {
        if r.Some? {
          var k :| 0 <= k < |names[1..]| && names[1..][k] == r.value && r.value !in c.sections &&
            forall j :: 0 <= j < k ==> names[1..][j] in c.sections;
          assert names[k + 1] == r.value;
          assert forall j :: 0 <= j < k + 1 ==> names[j] in c.sections by {
            forall j | 0 <= j < k + 1 ensures names[j] in c.sections {
              if j > 0 {
                assert names[j] == names[1..][j - 1];
              }
            }
          }
        }
      }
      r
  }

  /** Lines 42-47: the loop over the required sections, which reports the
      first missing one only, as `err` silences the rest. */
  method FirstMissingSection(c: Config, names: seq<string>) returns (missing: Option<string>)
    ensures missing == FirstMissing(c, names)
  {
    var err := false;
    missing := None;
    for k := 0 to |names|
      invariant err <==> missing.Some?
      invariant missing == FirstMissing(c, names[..k])
    {
      if !err && names[k] !in c.sections {
        missing := Some(names[k]);
        err := true;
      }
      FirstMissingExtend(c, names[..k], names[k]);
      assert names[..k + 1] == names[..k] + [names[k]];
    }
    assert names[..|names|] == names;
  }

  /** Looking one section further changes the answer only when none was
      missing so far. */
  lemma {:induction false} FirstMissingExtend(c: Config, names: seq<string>, name: string)
    ensures FirstMissing(c, names + [name]) ==
      if FirstMissing(c, names).Some? then FirstMissing(c, names)
      else if name !in c.sections then Some(name) else None
  {
    if |names| > 0 {
      assert (names + [name])[1..] == names[1..] + [name];
      FirstMissingExtend(c, names[1..], name);
    }
  }

  /** The check of one path option: a missing option raises KeyError, a
      path that does not exist is reported. `existing` is the set of paths
      that exist on the machine. */
  function PathProblem(paths: Section, existing: set<string>, key: string): (r: Option<ConfigError>)
    ensures r.None? <==> Lookup(paths, key).Some? && Lookup(paths, key).value in existing
    ensures r.Some? ==> r.value == MissingKey("Paths", key) || r.value.BadPath?
  {
    match Lookup(paths, key)
    case None => Some(MissingKey("Paths", key))
    case Some(p) => if p in existing then None else Some(BadPath(key, p))
  }

  /** The problem with the first of `keys` that has one. */
  function FirstPathProblem(paths: Section, existing: set<string>, keys: seq<string>): (r: Option<ConfigError>)
    ensures r.None? <==> forall k :: 0 <= k < |keys| ==> PathProblem(paths, existing, keys[k]).None?
    ensures r.Some? ==> exists k :: 0 <= k < |keys| && r == PathProblem(paths, existing, keys[k]) &&
                                   (forall j :: 0 <= j < k ==> PathProblem(paths, existing, keys[j]).None?)
  {
    if |keys| == 0 then None
    else match PathProblem(paths, existing, keys[0])
      case Some(e) => Some(e)
      case None =>
        var r := FirstPathProblem(paths, existing, keys[1..]);
        assert r.Some? ==> exists k :: 0 <= k < |keys| && r == PathProblem(paths, existing, keys[k]) &&
                                       (forall j :: 0 <= j < k ==> PathProblem(paths, existing, keys[j]).None?) by {
          if r.Some? {
            var k :| 0 <= k < |keys[1..]| && r == PathProblem(paths, existing, keys[1..][k]) &&
              forall j :: 0 <= j < k ==> PathProblem(paths, existing, keys[1..][j]).None?;
            assert keys[k + 1] == keys[1..][k];
            forall j | 0 <= j < k + 1 ensures PathProblem(paths, existing, keys[j]).None? {
              if j > 0 {
                assert keys[j] == keys[1..][j - 1];
              }
            }
          }
        }
        r
  }

  /** All three required sections are present. */
  predicate HasSections(c: Config) {
    "Paths" in c.sections && "Permissions" in c.sections && "GPIO" in c.sections
  }

  /** The section loop finds nothing missing exactly when all three
      sections are present. */
  lemma NoneMissing(c: Config)
    ensures FirstMissing(c, RequiredSections).None? <==> HasSections(c)
  {
    assert RequiredSections[0] == "Paths" && RequiredSections[1] == "Permissions" && RequiredSections[2] == "GPIO";
  }

  /** The path option `key` is present and names an existing path. */
  predicate PathOk(paths: Section, existing: set<string>, key: string) {
    Lookup(paths, key).Some? && Lookup(paths, key).value in existing
  }

  /** The three path checks pass exactly when every path option is present
      and names an existing path. */
  lemma NoPathProblem(paths: Section, existing: set<string>)
    ensures FirstPathProblem(paths, existing, PathKeys).None? <==>
      PathOk(paths, existing, "GPIO_Path") && PathOk(paths, existing, "GPIO_Export") &&
      PathOk(paths, existing, "GPIO_Unexport")
  {
    assert PathKeys[0] == "GPIO_Path" && PathKeys[1] == "GPIO_Export" && PathKeys[2] == "GPIO_Unexport";
  }

  /** The three path checks, one after the other, stopping at the first
      problem. */
  lemma PathChecksInOrder(paths: Section, existing: set<string>)
    ensures FirstPathProblem(paths, existing, PathKeys) ==
      if PathProblem(paths, existing, "GPIO_Path").Some? then PathProblem(paths, existing, "GPIO_Path")
      else if PathProblem(paths, existing, "GPIO_Export").Some? then PathProblem(paths, existing, "GPIO_Export")
      else PathProblem(paths, existing, "GPIO_Unexport")
  {
    var last := FirstPathProblem(paths, existing, ["GPIO_Unexport"]);
    assert ["GPIO_Unexport"][1..] == [];
    assert last == PathProblem(paths, existing, "GPIO_Unexport");
    var tail := FirstPathProblem(paths, existing, ["GPIO_Export", "GPIO_Unexport"]);
    assert ["GPIO_Export", "GPIO_Unexport"][1..] == ["GPIO_Unexport"];
    assert tail == if PathProblem(paths, existing, "GPIO_Export").Some? then PathProblem(paths, existing, "GPIO_Export") else last;
    assert PathKeys[1..] == ["GPIO_Export", "GPIO_Unexport"];
  }

  /** A configuration the script accepts, stated without the order of the
      checks: readable, all three sections present, every path option
      present and naming an existing path, and the group option present and
      occurring in the text of `/etc/group`. */
  predicate Accepted(cfg: Option<Config>, existing: set<string>, groupText: string) {
    && cfg.Some?
    && HasSections(cfg.value)
    && PathOk(cfg.value.sections["Paths"], existing, "GPIO_Path")
    && PathOk(cfg.value.sections["Paths"], existing, "GPIO_Export")
    && PathOk(cfg.value.sections["Paths"], existing, "GPIO_Unexport")
    && Lookup(cfg.value.sections["Permissions"], "GPIO_Group").Some?
    && Contains(groupText, Lookup(cfg.value.sections["Permissions"], "GPIO_Group").value)
  }

  /** Lines 37-79: the outcome of reading and checking the configuration.
      `cfg` is `None` when the file cannot be read, `existing` the paths that
      exist, `groupText` the contents of `/etc/group`. */
  function Validate(cfg: Option<Config>, existing: set<string>, groupText: string): (r: Result<Settings, ConfigError>)
    ensures r.Success? <==> Accepted(cfg, existing, groupText)
    ensures r == Failure(Unreadable) <==> cfg.None?
    ensures r.Success? ==> HasSections(cfg.value) && r.value.pins == cfg.value.sections["GPIO"]
    ensures r.Success? ==> r.value.group == Lookup(cfg.value.sections["Permissions"], "GPIO_Group").value
    ensures r.Failure? && r.error.MissingSection? ==>
      r.error.section in RequiredSections && r.error.section !in cfg.value.sections
    ensures r.Failure? && r.error.GroupNotListed? ==> !Contains(groupText, r.error.group)
  {
    match cfg
    case None => Failure(Unreadable)
    case Some(c) =>
      match FirstMissing(c, RequiredSections)
      case Some(name) => Failure(MissingSection(name))
      case None =>
        NoneMissing(c);
        var paths := c.sections["Paths"];
        match FirstPathProblem(paths, existing, PathKeys)
        case Some(e) => Failure(e)
        case None =>
          NoPathProblem(paths, existing);
          match Lookup(c.sections["Permissions"], "GPIO_Group")
          case None => Failure(MissingKey("Permissions", "GPIO_Group"))
          case Some(group) =>
            if Contains(groupText, group) then Success(Settings(paths, group, c.sections["GPIO"]))
            else Failure(GroupNotListed(group))
  }

  /** Lines 42-51: whatever else is wrong, a missing section is what stops
      the script, and it is the first missing one in the order `Paths`,
      `Permissions`, `GPIO`. */
  lemma MissingSectionFirst(c: Config, existing: set<string>, groupText: string, k: nat)
    requires k < |RequiredSections| && RequiredSections[k] !in c.sections
    requires forall j :: 0 <= j < k ==> RequiredSections[j] in c.sections
    ensures Validate(Some(c), existing, groupText) == Failure(MissingSection(RequiredSections[k]))
  {
    var m := FirstMissing(c, RequiredSections);
    var i :| 0 <= i < |RequiredSections| && RequiredSections[i] == m.value && m.value !in c.sections &&
      forall j :: 0 <= j < i ==> RequiredSections[j] in c.sections;
    assert i == k;
  }

  /** Lines 57-73: once a path check fails, `GPIO_Group` is never looked
      up, so neither the `Permissions` section nor `/etc/group` can change
      the outcome. */
  lemma PathErrorHidesGroup(c: Config, existing: set<string>, groupText: string, perms: Section, groupText': string)
    requires HasSections(c)
    requires FirstPathProblem(c.sections["Paths"], existing, PathKeys).Some?
    ensures Validate(Some(c), existing, groupText) ==
            Validate(Some(c.(sections := c.sections["Permissions" := perms])), existing, groupText')
    ensures Validate(Some(c), existing, groupText) == Failure(FirstPathProblem(c.sections["Paths"], existing, PathKeys).value)
  {
    var c' := c.(sections := c.sections["Permissions" := perms]);
    NoneMissing(c);
    NoneMissing(c');
  }

  /** Lines 58-66: the path reported is the first of `GPIO_Path`,
      `GPIO_Export`, `GPIO_Unexport` that is missing or does not exist. */
  lemma FirstBadPathReported(c: Config, existing: set<string>, groupText: string, k: nat)
    requires HasSections(c)
    requires k < |PathKeys| && PathProblem(c.sections["Paths"], existing, PathKeys[k]).Some?
    requires forall j :: 0 <= j < k ==> PathProblem(c.sections["Paths"], existing, PathKeys[j]).None?
    ensures Validate(Some(c), existing, groupText) ==
            Failure(PathProblem(c.sections["Paths"], existing, PathKeys[k]).value)
  {
    NoneMissing(c);
    var paths := c.sections["Paths"];
    var r := FirstPathProblem(paths, existing, PathKeys);
    var i :| 0 <= i < |PathKeys| && r == PathProblem(paths, existing, PathKeys[i]) &&
      forall j :: 0 <= j < i ==> PathProblem(paths, existing, PathKeys[j]).None?;
    assert i == k;
  }

  /** Lines 37-79 as the script runs them: read, check the sections, then
      the three paths, then the group, each check skipped once `err` is set. */
  method CheckConfig(cfg: Option<Config>, existing: set<string>, groupText: string)
    returns (r: Result<Settings, ConfigError>)
    ensures r == Validate(cfg, existing, groupText)
  {
    if cfg.None? {
      return Failure(Unreadable);
    }
    var c := cfg.value;
    var missing := FirstMissingSection(c, RequiredSections);
    if missing.Some? {
      return Failure(MissingSection(missing.value));
    }
    NoneMissing(c);
    var paths := c.sections["Paths"];
    var permissions := c.sections["Permissions"];
    var gpio := c.sections["GPIO"];
    var err := false;
    var problem: Option<ConfigError> := None;
    if !err {
      problem := PathProblem(paths, existing, "GPIO_Path");
      err := problem.Some?;
    }
    if !err {
      problem := PathProblem(paths, existing, "GPIO_Export");
      err := problem.Some?;
    }
    if !err {
      problem := PathProblem(paths, existing, "GPIO_Unexport");
      err := problem.Some?;
    }
    PathChecksInOrder(paths, existing);
    if !err {
      var group := Lookup(permissions, "GPIO_Group");
      if group.None? {
        return Failure(MissingKey("Permissions", "GPIO_Group"));
      }
      if !Contains(groupText, group.value) {
        problem := Some(GroupNotListed(group.value));
        err := true;
      } else {
        r := Success(Settings(paths, group.value, gpio));
      }
    }
    if err {
      return Failure(problem.value);
    }
  }
}

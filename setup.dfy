/** The whole of `main` (lines 25-160): check the configuration, then
    reconcile every pin of the `GPIO` section against sysfs. */
module Setup {
  import opened Wrappers
  import opened Text
  import opened GpioName
  import opened Groups
  import opened Sysfs
  import opened ConfigCheck
  import opened Reconcile
  import opened StepProperties
  import opened Convergence

  /** How the script ends: after the last pin, by exiting on a bad
      configuration before any pin, or by an exception raised for a pin. */
  datatype Outcome =
    | Completed
    | Rejected(reason: ConfigError)
    | Aborted(pin: string, cause: PinError)

  /** The final sysfs state together with how the script ended. */
  datatype Finish = Finish(sys: Sys, outcome: Outcome)

  /** `main` on sysfs state `s`: `cfg` is the parsed configuration file
      (`None` when it cannot be read), `existing` the paths that exist,
      `groupText` the text of `/etc/group`, `db` the group database and
      `kernel` what the kernel creates on export. */
  function RunSetup(s: Sys, cfg: Option<Config>, existing: set<string>, groupText: string,
                    db: seq<Group>, kernel: map<string, PinDir>): (r: Finish)
    ensures r.outcome.Rejected? <==> !Accepted(cfg, existing, groupText)
    ensures r.outcome.Rejected? ==> r.sys == s
  {
    match Validate(cfg, existing, groupText)
    case Failure(e) => Finish(s, Rejected(e))
    case Success(st) =>
      var run := RunPins(s, Env(st.group, db, kernel), st.pins);
      match run.failure
      case None => Finish(run.sys, Completed)
      case Some((pin, cause)) => Finish(run.sys, Aborted(pin, cause))
  }

  /** `main`, changing sysfs in place. */
  method SetUp(fs: GpioClass, cfg: Option<Config>, existing: set<string>, groupText: string,
               db: seq<Group>, kernel: map<string, PinDir>) returns (outcome: Outcome)
    modifies fs
    ensures Finish(fs.Model(), outcome) == RunSetup(old(fs.Model()), cfg, existing, groupText, db, kernel)
  {
    var checked := CheckConfig(cfg, existing, groupText);
    if checked.Failure? {
      return Rejected(checked.error);
    }
    var settings := checked.value;
    var failure := ReconcileAll(fs, Env(settings.group, db, kernel), settings.pins);
    if failure.Some? {
      return Aborted(failure.value.0, failure.value.1);
    }
    return Completed;
  }

  /** Whatever the configuration, the script only adds effects on pins it
      names, never changes a file's user, and leaves the directory of every
      pin it does not name as it was. */
  lemma SetupTouchesOnlyConfigured(s: Sys, cfg: Option<Config>, existing: set<string>, groupText: string,
                                   db: seq<Group>, kernel: map<string, PinDir>)
    requires KernelSound(kernel)
    ensures var r := RunSetup(s, cfg, existing, groupText, db, kernel);
      && Extends(s, r.sys)
      && (Accepted(cfg, existing, groupText) ==> ConfinedTo(s, r.sys, cfg.value.sections["GPIO"]))
  {
    var v := Validate(cfg, existing, groupText);
    if v.Success? {
      RunTouchesOnlyConfigured(s, Env(v.value.group, db, kernel), v.value.pins);
    } else {
      assert s.trace[..|s.trace|] == s.trace;
    }
  }

  /** Running the script a second time with the same configuration, after
      a run that completed, completes again and changes nothing: no export,
      no write, no ownership change. This needs the configured texts to
      read back unchanged, pin numbers without `_`, and a group that owns
      its gid. */
  lemma SetupIdempotent(s: Sys, cfg: Option<Config>, existing: set<string>, groupText: string,
                        db: seq<Group>, kernel: map<string, PinDir>)
    requires RunSetup(s, cfg, existing, groupText, db, kernel).outcome == Completed
    requires KernelSound(kernel) && WellFormed(cfg.value)
    requires PlainPins(cfg.value.sections["GPIO"]) && CleanPins(cfg.value.sections["GPIO"])
    requires OwnsGid(db, Lookup(cfg.value.sections["Permissions"], "GPIO_Group").value)
    ensures var first := RunSetup(s, cfg, existing, groupText, db, kernel);
      RunSetup(first.sys, cfg, existing, groupText, db, kernel) == first
  {
    var st := Validate(cfg, existing, groupText).value;
    var env := Env(st.group, db, kernel);
    assert DistinctKeys(st.pins);
    SecondRunIsNoOp(s, env, st.pins);
  }

  /** An example configuration for pin 17 whose group name `gpi` is only
      part of the line of the real group `gpio`. */
  const GapPaths: Section := [("GPIO_Path", "/sys/class/gpio"), ("GPIO_Export", "/sys/class/gpio/export"),
                              ("GPIO_Unexport", "/sys/class/gpio/unexport")]
  const GapPins: Section := [("17", "out,1")]
  const GapConfig: Config := Config(map["Paths" := GapPaths, "Permissions" := [("GPIO_Group", "gpi")], "GPIO" := GapPins])
  const GapExisting: set<string> := {"/sys/class/gpio", "/sys/class/gpio/export", "/sys/class/gpio/unexport"}
  const GapGroupText: string := "gpio:x:997:\n"
  const GapDb: seq<Group> := [Group("gpio", 997)]
  const Root: Owner := Owner(0, 0)
  const GapKernel: map<string, PinDir> := map["17" := PinDir("gpio17_pa17", "in", "0", Root, Root, Root)]

  /** The example configuration passes every check of lines 42-79. */
  lemma GapConfigAccepted()
    ensures Validate(Some(GapConfig), GapExisting, GapGroupText) == Success(Settings(GapPaths, "gpi", GapPins))
  {
    ContainsAt(GapGroupText, "gpi", 0);
    assert Lookup(GapPaths, "GPIO_Path") == Some("/sys/class/gpio");
    assert Lookup(GapPaths, "GPIO_Export") == Some("/sys/class/gpio/export");
    assert Lookup(GapPaths, "GPIO_Unexport") == Some("/sys/class/gpio/unexport");
    assert Lookup([("GPIO_Group", "gpi")], "GPIO_Group") == Some("gpi");
    assert HasSections(GapConfig);
    NoneMissing(GapConfig);
    NoPathProblem(GapPaths, GapExisting);
  }

  /** The directory pin 17 of the example ends with, and the effects
      that lead to it. */
  const GapDir: PinDir := PinDir("gpio17_pa17", "out", "1", Root, Root, Root)
  const GapTrace: seq<Effect> :=
    [ExportWrite("17"), DirectionWrite("gpio17_pa17", "out"), ValueWrite("gpio17_pa17", "1")]

  /** Pin 17 of the example on a sysfs with nothing exported: it is
      exported and written, then `getgrnam("gpi")` raises. */
  lemma GapPinStep()
    ensures PinStep(Sys([], []), Env("gpi", GapDb, GapKernel), "17", "out,1") ==
      Step(Sys([GapDir], GapTrace), Some(NoSuchGroup))
  {
    var env := Env("gpi", GapDb, GapKernel);
    GapSplit();
    assert PinStep(Sys([], []), env, "17", "out,1") == UnexportedStep(Sys([], []), env, "17", "out", "1");
    var s1 := GapExport();
    GapWrites(s1);
    assert GetGrNam(GapDb, "gpi").None?;
  }

  /** The configured text of pin 17 splits into `out` and `1`. */
  lemma GapSplit()
    ensures Split("out,1", ',') == ["out", "1"]
  {
    SplitJoin(["out", "1"], ',');
    assert Join(["out", "1"], ',') == "out,1";
  }

  /** Exporting pin 17 adds its directory, which then resolves. */
  lemma GapExport() returns (s1: Sys)
    ensures s1 == Sys([], []).Export("17", GapKernel)
    ensures s1 == Sys([GapKernel["17"]], [ExportWrite("17")])
    ensures FirstMatch(s1.Names(), "17") == Some(0)
  {
    s1 := Sys([], []).Export("17", GapKernel);
    assert s1.Names() == ["gpio17_pa17"];
    assert Matches("gpio17_pa17", "17");
  }

  /** The direction and value writes on the freshly exported pin 17. */
  lemma GapWrites(s1: Sys)
    requires s1 == Sys([GapKernel["17"]], [ExportWrite("17")])
    ensures ApplyWrites(s1, 0, Flags(true, true, true), "out", "1") == Sys([GapDir], GapTrace)
  {
  }

  /** The loop over the example's single pin aborts at pin 17. */
  lemma GapRun()
    ensures RunPins(Sys([], []), Env("gpi", GapDb, GapKernel), GapPins) ==
      Run(Sys([GapDir], GapTrace), Some(("17", NoSuchGroup)))
  {
    GapPinStep();
    assert GapPins[0] == ("17", "out,1");
  }

  /** The group check of line 71 looks for the configured name anywhere in
      the text of `/etc/group`, so a name that is only part of a real
      group's line passes it. With group `gpi` and a database holding only
      `gpio`, the configuration is accepted, pin 17 is exported and
      written, and only then does `getgrnam` raise, leaving pin 17 with its
      direction and value set but its group unchanged. */
  lemma GroupSubstringAccepted()
    ensures var r := RunSetup(Sys([], []), Some(GapConfig), GapExisting, GapGroupText, GapDb, GapKernel);
      && Accepted(Some(GapConfig), GapExisting, GapGroupText)
      && GetGrNam(GapDb, "gpi").None?
      && r.outcome == Aborted("17", NoSuchGroup)
      && r.sys.entries == [PinDir("gpio17_pa17", "out", "1", Root, Root, Root)]
      && r.sys.trace == [ExportWrite("17"), DirectionWrite("gpio17_pa17", "out"), ValueWrite("gpio17_pa17", "1")]
  {
    GapSetup();
    assert GetGrNam(GapDb, "gpi").None?;
  }

  /** The whole script on the example: accepted, then aborted at pin 17. */
  lemma GapSetup()
    ensures RunSetup(Sys([], []), Some(GapConfig), GapExisting, GapGroupText, GapDb, GapKernel) ==
      Finish(Sys([GapDir], GapTrace), Aborted("17", NoSuchGroup))
  {
    GapConfigAccepted();
    GapRun();
  }
}

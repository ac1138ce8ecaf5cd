/** The per-pin loop of the setup script (lines 84-157): resolve the pin's
    directory, export it when it is missing, decide which of direction,
    value and group need fixing, and apply those fixes. */
module Reconcile {
  import opened Wrappers
  import opened Text
  import opened GpioName
  import opened Groups
  import opened Sysfs

  /** The exception that ends the processing of a pin, and with it the run. */
  datatype PinError =
    | Malformed      // the configured value is not `dir,val`: the tuple assignment raises ValueError
    | ExportIgnored  // the pin still does not resolve after the export write: opening `False/direction` fails
    | NoSuchGroup    // `grp.getgrnam(GPIO_Group)` raises KeyError
    | UnknownGid     // `grp.getgrgid(st_gid)` raises KeyError

  /** What the loop reads besides sysfs: the configured group name, the
      group database, and the directory the kernel creates for each pin
      it is asked to export. */
  datatype Env = Env(group: string, db: seq<Group>, kernel: map<string, PinDir>)

  /** The per-pin flags `dir_set`, `val_set` and `grp_set`. */
  datatype Flags = Flags(dirSet: bool, valSet: bool, grpSet: bool)

  /** The state after one pin, and the exception it raised, if any. */
  datatype Step = Step(sys: Sys, error: Option<PinError>)

  /** Lines 135-136: an input pin never has its value written. */
  function InputExempt(f: Flags, dir: string): (r: Flags)
    ensures r.dirSet == f.dirSet && r.grpSet == f.grpSet
    ensures r.valSet <==> f.valSet && dir != "in"
  {
    if dir == "in" then f.(valSet := false) else f
  }

  /** Lines 138-147: the direction write, then the value write. */
  function ApplyWrites(s: Sys, i: nat, f: Flags, dir: string, val: string): (r: Sys)
    requires i < |s.entries|
    ensures |r.entries| == |s.entries| && r.Names() == s.Names()
  {
    var t := if f.dirSet then s.WriteDirection(i, dir) else s;
    if f.valSet then t.WriteValue(i, val) else t
  }

  /** Lines 138-157 for a pin whose group lookup succeeds: the writes, then
      the ownership changes to `gid`. */
  function Apply(s: Sys, i: nat, f: Flags, dir: string, val: string, gid: int): (r: Sys)
    requires i < |s.entries|
    ensures |r.entries| == |s.entries| && r.Names() == s.Names()
  {
    var t := ApplyWrites(s, i, f, dir, val);
    if f.grpSet then t.ChangeGroup(i, gid) else t
  }

  /** One iteration of the loop for `pin` with configured text `raw`. */
  function PinStep(s: Sys, env: Env, pin: string, raw: string): (r: Step)
    ensures r.error == Some(Malformed) <==> |Split(raw, ',')| != 2
    ensures r.error.None? ==> FirstMatch(r.sys.Names(), pin).Some?
    ensures FirstMatch(s.Names(), pin).Some? && r.error.Some? ==> r.sys == s
  {
    var parts := Split(raw, ',');
    if |parts| != 2 then Step(s, Some(Malformed))
    else
      match FirstMatch(s.Names(), pin)
      case Some(i) => ExportedStep(s, env, i, parts[0], parts[1])
      case None => UnexportedStep(s, env, pin, parts[0], parts[1])
  }

  /** Lines 96-122 and 135-157 for a pin whose directory is entry `i`:
      compare group, direction and (for outputs) value, then fix. */
  function ExportedStep(s: Sys, env: Env, i: nat, dir: string, val: string): (r: Step)
    requires i < |s.entries|
    ensures r.error.None? <==>
      GetGrNam(env.db, env.group).Some? && GetGrGid(env.db, s.entries[i].dirOwner.gid).Some?
    ensures r.error.Some? ==> r.sys == s && r.error != Some(Malformed) && r.error != Some(ExportIgnored)
    ensures r.sys.Names() == s.Names()
  {
    match GetGrNam(env.db, env.group)
    case None => Step(s, Some(NoSuchGroup))
    case Some(g) =>
      match GetGrGid(env.db, s.entries[i].dirOwner.gid)
      case None => Step(s, Some(UnknownGid))
      case Some(h) =>
        var e := s.entries[i];
        var f := InputExempt(Flags(Strip(e.direction) != dir,
                                   dir == "out" && Strip(e.value) != val,
                                   g != h), dir);
        Step(Apply(s, i, f, dir, val, g.gid), None)
  }

  /** Lines 123-157 for a pin without a directory: export it, resolve it
      again and fix everything. */
  function UnexportedStep(s: Sys, env: Env, pin: string, dir: string, val: string): (r: Step)
    ensures r.error.None? || r.error == Some(ExportIgnored) || r.error == Some(NoSuchGroup)
    ensures |r.sys.trace| > |s.trace| && r.sys.trace[..|s.trace| + 1] == s.trace + [ExportWrite(pin)]
    ensures r.error == Some(ExportIgnored) ==> r.sys == s.Export(pin, env.kernel)
    ensures r.error.None? ==> FirstMatch(r.sys.Names(), pin).Some?
  {
    var s1 := s.Export(pin, env.kernel);
    match FirstMatch(s1.Names(), pin)
    case None => Step(s1, Some(ExportIgnored))
    case Some(i) =>
      var t := ApplyWrites(s1, i, InputExempt(Flags(true, true, true), dir), dir, val);
      match GetGrNam(env.db, env.group)
      case None => Step(t, Some(NoSuchGroup))
      case Some(g) => Step(t.ChangeGroup(i, g.gid), None)
  }

  /** The outcome of the loop: the final state and, when a pin raised,
      that pin and its exception. */
  datatype Run = Run(sys: Sys, failure: Option<(string, PinError)>)

  /** The loop over the `GPIO` section in file order; an exception in one
      pin abandons the pins after it. */
  function RunPins(s: Sys, env: Env, pins: seq<(string, string)>): Run
    decreases |pins|
  {
    if |pins| == 0 then Run(s, None)
    else
      var step := PinStep(s, env, pins[0].0, pins[0].1);
      if step.error.Some? then Run(step.sys, Some((pins[0].0, step.error.value)))
      else RunPins(step.sys, env, pins[1..])
  }

  /** The pin a loop reports with an exception is one of its pins. */
  lemma {:induction false} FailingPinConfigured(s: Sys, env: Env, pins: seq<(string, string)>)
    ensures var r := RunPins(s, env, pins);
      r.failure.Some? ==> exists k :: 0 <= k < |pins| && pins[k].0 == r.failure.value.0
    decreases |pins|
  {
    if |pins| > 0 {
      var step := PinStep(s, env, pins[0].0, pins[0].1);
      if step.error.None? {
        FailingPinConfigured(step.sys, env, pins[1..]);
        var r := RunPins(step.sys, env, pins[1..]);
        if r.failure.Some? {
          var k :| 0 <= k < |pins| - 1 && pins[1..][k].0 == r.failure.value.0;
          assert pins[k + 1].0 == r.failure.value.0;
        }
      }
    }
  }

  /** The body of `for pin in gpio:` (lines 85-157), changing sysfs in place. */
  method ReconcilePin(fs: GpioClass, env: Env, pin: string, raw: string) returns (error: Option<PinError>)
    modifies fs
    ensures Step(fs.Model(), error) == PinStep(old(fs.Model()), env, pin, raw)
  {
    ghost var s0 := fs.Model();
    var parts := Split(raw, ',');
    if |parts| != 2 {
      return Some(Malformed);
    }
    var dir, val := parts[0], parts[1];
    var found := FirstMatch(fs.Model().Names(), pin);
    var dirSet, valSet, grpSet := false, false, false;
    var i: nat;
    if found.Some? {
      i := found.value;
      assert PinStep(s0, env, pin, raw) == ExportedStep(s0, env, i, dir, val);
      var g := GetGrNam(env.db, env.group);
      if g.None? {
        return Some(NoSuchGroup);
      }
      var h := GetGrGid(env.db, fs.entries[i].dirOwner.gid);
      if h.None? {
        return Some(UnknownGid);
      }
      if g != h {
        grpSet := true;
      }
      if Strip(fs.entries[i].direction) != dir {
        dirSet := true;
      }
      if dir == "out" && Strip(fs.entries[i].value) != val {
        valSet := true;
      }
    } else {
      assert PinStep(s0, env, pin, raw) == UnexportedStep(s0, env, pin, dir, val);
      fs.Export(pin, env.kernel);
      found := FirstMatch(fs.Model().Names(), pin);
      if found.None? {
        return Some(ExportIgnored);
      }
      i := found.value;
      dirSet, valSet, grpSet := true, true, true;
    }
    if dir == "in" {
      valSet := false;
    }
    ghost var base := fs.Model();
    ghost var f := Flags(dirSet, valSet, grpSet);
    if dirSet {
      fs.WriteDirection(i, dir);
    }
    if valSet {
      fs.WriteValue(i, val);
    }
    assert fs.Model() == ApplyWrites(base, i, f, dir, val);
    if grpSet {
      var g := GetGrNam(env.db, env.group);
      if g.None? {
        return Some(NoSuchGroup);
      }
      fs.ChangeGroup(i, g.value.gid);
      assert fs.Model() == Apply(base, i, f, dir, val, g.value.gid);
    } else {
      assert fs.Model() == Apply(base, i, f, dir, val, 0);
    }
    return None;
  }

  /** The loop `for pin in gpio:` (lines 84-157). */
  method ReconcileAll(fs: GpioClass, env: Env, pins: seq<(string, string)>)
    returns (failure: Option<(string, PinError)>)
    modifies fs
    ensures Run(fs.Model(), failure) == RunPins(old(fs.Model()), env, pins)
  {
    var k := 0;
    while k < |pins|
      invariant 0 <= k <= |pins|
      invariant RunPins(fs.Model(), env, pins[k..]) == RunPins(old(fs.Model()), env, pins)
    {
      var error := ReconcilePin(fs, env, pins[k].0, pins[k].1);
      if error.Some? {
        return Some((pins[k].0, error.value));
      }
      assert pins[k..][1..] == pins[k + 1..];
      k := k + 1;
    }
    return None;
  }
}

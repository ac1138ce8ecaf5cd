/** What one iteration of the per-pin loop does to the outside world:
    which effects it produces for an exported and for an unexported pin,
    that an input pin never has its value written, and that nothing but
    the pin's own directory is touched. */
module StepProperties {
  import opened Wrappers
  import opened Text
  import opened GpioName
  import opened Groups
  import opened Sysfs
  import opened Reconcile

  /** `t` carries on from `s`: the trace only grows. */
  predicate Extends(s: Sys, t: Sys) {
    |s.trace| <= |t.trace| && t.trace[..|s.trace|] == s.trace
  }

  /** The effects `t` added to those of `s`. */
  function NewEffects(s: Sys, t: Sys): seq<Effect>
    requires |s.trace| <= |t.trace|
  {
    t.trace[|s.trace|..]
  }

  /** The three ownership changes of lines 152-157 for directory `name`. */
  function Chowns(name: string, gid: int): (r: seq<Effect>)
    ensures forall x :: x in r ==> x.GroupChange? && x.dir == name && x.gid == gid
  {
    [GroupChange(name, Directory, gid), GroupChange(name, DirectionFile, gid), GroupChange(name, ValueFile, gid)]
  }

  /** The effects of lines 138-157 on directory `name` for flags `f`: the
      direction write, the value write and the three ownership changes,
      each only when its flag is set. */
  function FixEffects(name: string, f: Flags, dir: string, val: string, gid: int): seq<Effect> {
    (if f.dirSet then [DirectionWrite(name, dir)] else [])
    + (if f.valSet then [ValueWrite(name, val)] else [])
    + (if f.grpSet then Chowns(name, gid) else [])
  }

  /** The fixes for a directory of `pin` all concern `pin`, and include no
      value write unless the value flag is set. */
  lemma FixEffectsConcern(name: string, f: Flags, dir: string, val: string, gid: int, pin: string)
    ensures Matches(name, pin) ==> forall x :: x in FixEffects(name, f, dir, val, gid) ==> Concerns(x, pin)
    ensures !f.valSet ==> forall x :: x in FixEffects(name, f, dir, val, gid) ==> !x.ValueWrite?
  {
    var D: seq<Effect> := if f.dirSet then [DirectionWrite(name, dir)] else [];
    var V: seq<Effect> := if f.valSet then [ValueWrite(name, val)] else [];
    var C: seq<Effect> := if f.grpSet then Chowns(name, gid) else [];
    assert FixEffects(name, f, dir, val, gid) == D + V + C;
    assert forall x :: x in D ==> x.DirectionWrite? && x.dir == name;
    assert forall x :: x in V ==> x.ValueWrite? && x.dir == name;
    assert forall x :: x in C ==> x.GroupChange? && x.dir == name;
  }

  /** An effect concerns `pin`: the export write of that pin, or a write or
      ownership change inside a directory matching `gpio<pin>_*`. */
  predicate Concerns(x: Effect, pin: string) {
    match x
    case ExportWrite(p) => p == pin
    case DirectionWrite(d, _) => Matches(d, pin)
    case ValueWrite(d, _) => Matches(d, pin)
    case GroupChange(d, _, _) => Matches(d, pin)
  }

  /** `t` differs from `s` only in directories matching `gpio<pin>_*`:
      no directory is renamed or removed, every other one is left as it
      was, and any directory added belongs to `pin`. */
  predicate OnlyTouches(s: Sys, t: Sys, pin: string) {
    && |s.entries| <= |t.entries|
    && (forall k :: 0 <= k < |s.entries| ==> t.entries[k].name == s.entries[k].name)
    && (forall k :: 0 <= k < |s.entries| && !Matches(s.entries[k].name, pin) ==> t.entries[k] == s.entries[k])
    && (forall k :: |s.entries| <= k < |t.entries| ==> Matches(t.entries[k].name, pin))
  }

  /** No file changes its owning user. */
  predicate SameUsers(s: Sys, t: Sys)
    requires |s.entries| <= |t.entries|
  {
    forall k :: 0 <= k < |s.entries| ==>
      && t.entries[k].dirOwner.uid == s.entries[k].dirOwner.uid
      && t.entries[k].directionOwner.uid == s.entries[k].directionOwner.uid
      && t.entries[k].valueOwner.uid == s.entries[k].valueOwner.uid
  }

  /** Lines 138-147: the direction is written exactly when `dir_set`, the
      value exactly when `val_set`, in that order, and nothing else. */
  lemma ApplyWritesFacts(s: Sys, i: nat, f: Flags, dir: string, val: string)
    requires i < |s.entries|
    ensures var t := ApplyWrites(s, i, f, dir, val);
      && t.Names() == s.Names()
      && (forall k :: 0 <= k < |s.entries| && k != i ==> t.entries[k] == s.entries[k])
      && t.entries[i] == s.entries[i].(direction := if f.dirSet then dir else s.entries[i].direction,
                                        value := if f.valSet then val else s.entries[i].value)
      && Extends(s, t)
      && NewEffects(s, t) == (if f.dirSet then [DirectionWrite(s.entries[i].name, dir)] else [])
                           + (if f.valSet then [ValueWrite(s.entries[i].name, val)] else [])
  {
    var t := ApplyWrites(s, i, f, dir, val);
    assert t.Names() == s.Names();
  }

  /** Lines 138-157: the writes, then the ownership changes exactly when
      `grp_set`; no name and no user changes. */
  lemma ApplyFacts(s: Sys, i: nat, f: Flags, dir: string, val: string, gid: int)
    requires i < |s.entries|
    ensures var r := Apply(s, i, f, dir, val, gid);
      && |r.entries| == |s.entries|
      && (forall k :: 0 <= k < |s.entries| && k != i ==> r.entries[k] == s.entries[k])
      && r.Names() == s.Names()
      && r.entries[i].name == s.entries[i].name
      && r.entries[i].direction == (if f.dirSet then dir else s.entries[i].direction)
      && r.entries[i].value == (if f.valSet then val else s.entries[i].value)
      && r.entries[i].dirOwner.gid == (if f.grpSet then gid else s.entries[i].dirOwner.gid)
      && r.entries[i].dirOwner.uid == s.entries[i].dirOwner.uid
      && r.entries[i].directionOwner.uid == s.entries[i].directionOwner.uid
      && r.entries[i].valueOwner.uid == s.entries[i].valueOwner.uid
      && Extends(s, r)
      && NewEffects(s, r) == FixEffects(s.entries[i].name, f, dir, val, gid)
  {
    var t := ApplyWrites(s, i, f, dir, val);
    ApplyWritesFacts(s, i, f, dir, val);
    if f.grpSet {
      ChangeGroupFacts(t, i, gid);
      var u := t.ChangeGroup(i, gid);
      assert NewEffects(s, u) == NewEffects(s, t) + NewEffects(t, u);
    }
  }

  lemma ChangeGroupFacts(s: Sys, i: nat, gid: int)
    requires i < |s.entries|
    ensures var t := s.ChangeGroup(i, gid);
      && t.Names() == s.Names()
      && Extends(s, t)
      && NewEffects(s, t) == Chowns(s.entries[i].name, gid)
  {
    var t := s.ChangeGroup(i, gid);
    assert t.Names() == s.Names();
  }

  lemma ExportFacts(s: Sys, pin: string, kernel: map<string, PinDir>)
    requires KernelSound(kernel) && FirstMatch(s.Names(), pin).None?
    ensures var t := s.Export(pin, kernel);
      && Extends(s, t)
      && NewEffects(s, t) == [ExportWrite(pin)]
      && FirstMatch(t.Names(), pin) == (if pin in kernel then Some(|s.entries|) else None)
  {
    var t := s.Export(pin, kernel);
    if pin in kernel {
      assert t.Names() == s.Names() + [kernel[pin].name];
      FirstMatchAppend(s.Names(), kernel[pin].name, pin);
    } else {
      assert t.Names() == s.Names();
    }
  }

  /** Appending an entry to a listing without a match for `pin` makes that
      entry the first match exactly when it matches. */
  lemma {:induction false} FirstMatchAppend(names: seq<string>, name: string, pin: string)
    requires FirstMatch(names, pin).None?
    ensures FirstMatch(names + [name], pin) == if Matches(name, pin) then Some(|names|) else None
  {
    if |names| == 0 {
      assert names + [name] == [name];
    } else {
      assert (names + [name])[0] == names[0];
      assert (names + [name])[1..] == names[1..] + [name];
      FirstMatchAppend(names[1..], name, pin);
    }
  }

  /** For a pin whose directory already exists (lines 96-122): the export
      file is not written; the direction file is written exactly when its
      stripped text differs from the configured direction; the value file
      exactly when the direction is `out` and its stripped text differs
      from the configured value; the group is changed exactly when the
      directory's group entry is not the configured group's, which, when
      that group owns its gid, is exactly when the gids differ. */
  lemma ExportedPinEffects(s: Sys, env: Env, pin: string, raw: string, dir: string, val: string)
    requires Split(raw, ',') == [dir, val]
    requires FirstMatch(s.Names(), pin).Some?
    requires GetGrNam(env.db, env.group).Some?
    requires GetGrGid(env.db, s.entries[FirstMatch(s.Names(), pin).value].dirOwner.gid).Some?
    ensures var r := PinStep(s, env, pin, raw);
      var e := s.entries[FirstMatch(s.Names(), pin).value];
      var gid := GetGrNam(env.db, env.group).value.gid;
      var regroup := GetGrGid(env.db, e.dirOwner.gid) != GetGrNam(env.db, env.group);
      && r.error == None
      && Extends(s, r.sys)
      && NewEffects(s, r.sys) ==
           (if Strip(e.direction) != dir then [DirectionWrite(e.name, dir)] else [])
         + (if dir == "out" && Strip(e.value) != val then [ValueWrite(e.name, val)] else [])
         + (if regroup then Chowns(e.name, gid) else [])
      && (OwnsGid(env.db, env.group) ==> (regroup <==> e.dirOwner.gid != gid))
  {
    var i := FirstMatch(s.Names(), pin).value;
    var e := s.entries[i];
    var g := GetGrNam(env.db, env.group).value;
    var h := GetGrGid(env.db, e.dirOwner.gid).value;
    var f := InputExempt(Flags(Strip(e.direction) != dir, dir == "out" && Strip(e.value) != val, g != h), dir);
    assert PinStep(s, env, pin, raw) == Step(Apply(s, i, f, dir, val, g.gid), None);
    ApplyFacts(s, i, f, dir, val, g.gid);
    if OwnsGid(env.db, env.group) {
      SameGroupIffSameGid(env.db, env.group, e.dirOwner.gid);
    }
  }

  /** For a pin without a directory (lines 123-133), when the kernel
      creates one: the pin is written to the export file exactly once,
      then the direction is written, then the value unless the pin is an
      input, then the three ownership changes; the new directory ends with
      the configured direction, value and group, and its users unchanged. */
  lemma UnexportedPinEffects(s: Sys, env: Env, pin: string, raw: string, dir: string, val: string)
    requires Split(raw, ',') == [dir, val]
    requires FirstMatch(s.Names(), pin).None?
    requires KernelSound(env.kernel) && pin in env.kernel
    requires GetGrNam(env.db, env.group).Some?
    ensures var r := PinStep(s, env, pin, raw);
      var k := env.kernel[pin];
      var gid := GetGrNam(env.db, env.group).value.gid;
      && r.error == None
      && Extends(s, r.sys)
      && NewEffects(s, r.sys) ==
           [ExportWrite(pin), DirectionWrite(k.name, dir)]
         + (if dir == "in" then [] else [ValueWrite(k.name, val)])
         + Chowns(k.name, gid)
      && r.sys.entries == s.entries + [PinDir(k.name, dir, if dir == "in" then k.value else val,
                                              k.dirOwner.(gid := gid), k.directionOwner.(gid := gid),
                                              k.valueOwner.(gid := gid))]
  {
    var s1 := s.Export(pin, env.kernel);
    ExportFacts(s, pin, env.kernel);
    var i := |s.entries|;
    var f := InputExempt(Flags(true, true, true), dir);
    var g := GetGrNam(env.db, env.group).value;
    assert PinStep(s, env, pin, raw) == Step(Apply(s1, i, f, dir, val, g.gid), None);
    ExportThenFix(s, pin, env.kernel, dir, val, g.gid);
  }

  /** The export write of a pin the kernel knows, followed by all the
      fixes of lines 138-157 on the new directory. */
  lemma ExportThenFix(s: Sys, pin: string, kernel: map<string, PinDir>, dir: string, val: string, gid: int)
    requires pin in kernel
    ensures var s1 := s.Export(pin, kernel);
      var u := Apply(s1, |s.entries|, InputExempt(Flags(true, true, true), dir), dir, val, gid);
      var k := kernel[pin];
      && Extends(s, u)
      && NewEffects(s, u) ==
           [ExportWrite(pin), DirectionWrite(k.name, dir)]
         + (if dir == "in" then [] else [ValueWrite(k.name, val)])
         + Chowns(k.name, gid)
      && u.entries == s.entries + [PinDir(k.name, dir, if dir == "in" then k.value else val,
                                          k.dirOwner.(gid := gid), k.directionOwner.(gid := gid),
                                          k.valueOwner.(gid := gid))]
  {
    var s1 := s.Export(pin, kernel);
    var i := |s.entries|;
    var f := InputExempt(Flags(true, true, true), dir);
    var u := Apply(s1, i, f, dir, val, gid);
    ApplyFacts(s1, i, f, dir, val, gid);
    assert s1.trace == s.trace + [ExportWrite(pin)];
    assert u.trace == s1.trace + FixEffects(kernel[pin].name, f, dir, val, gid);
    assert u.trace[..|s.trace|] == s.trace;
    assert u.entries[..i] == s.entries;
  }

  /** `t` follows from `s` by effects on `pin` alone: the trace only grows
      and every new effect concerns `pin`, only `pin`'s directories change
      or appear, no file changes its user, and, for an input pin, no value
      file is written and no value changes. */
  predicate InLane(s: Sys, t: Sys, pin: string, input: bool) {
    && Extends(s, t)
    && OnlyTouches(s, t, pin)
    && SameUsers(s, t)
    && (forall x :: x in NewEffects(s, t) ==> Concerns(x, pin))
    && (input ==> forall x :: x in NewEffects(s, t) ==> !x.ValueWrite?)
    && (input ==> forall k :: 0 <= k < |s.entries| ==> t.entries[k].value == s.entries[k].value)
  }

  lemma InLaneTrans(s: Sys, t: Sys, u: Sys, pin: string, input: bool)
    requires InLane(s, t, pin, input) && InLane(t, u, pin, input)
    ensures InLane(s, u, pin, input)
  {
    assert NewEffects(s, u) == NewEffects(s, t) + NewEffects(t, u);
    assert u.trace[..|s.trace|] == t.trace[..|t.trace|][..|s.trace|];
  }

  /** Lines 135-136 and 143-147: when the configured direction is `in`,
      no value file is written and no pin's value changes, whatever the
      pin held before and whether or not it had to be exported. */
  lemma InputPinValueUntouched(s: Sys, env: Env, pin: string, raw: string)
    requires |Split(raw, ',')| == 2 && Split(raw, ',')[0] == "in"
    ensures var r := PinStep(s, env, pin, raw);
      && Extends(s, r.sys)
      && (forall x :: x in NewEffects(s, r.sys) ==> !x.ValueWrite?)
      && |s.entries| <= |r.sys.entries|
      && (forall k :: 0 <= k < |s.entries| ==> r.sys.entries[k].value == s.entries[k].value)
  {
    if FirstMatch(s.Names(), pin).Some? {
      ExportedStepInLane(s, env, pin, raw);
    } else {
      UnexportedInputValueUntouched(s, env, pin, Split(raw, ',')[1]);
    }
  }

  /** `InputPinValueUntouched` for a pin without a directory, whatever
      directory the kernel creates for it. */
  lemma UnexportedInputValueUntouched(s: Sys, env: Env, pin: string, val: string)
    requires FirstMatch(s.Names(), pin).None?
    ensures var r := UnexportedStep(s, env, pin, "in", val);
      && Extends(s, r.sys)
      && (forall x :: x in NewEffects(s, r.sys) ==> !x.ValueWrite?)
      && |s.entries| <= |r.sys.entries|
      && (forall k :: 0 <= k < |s.entries| ==> r.sys.entries[k].value == s.entries[k].value)
  {
    var s1 := s.Export(pin, env.kernel);
    var r := UnexportedStep(s, env, pin, "in", val);
    var m := FirstMatch(s1.Names(), pin);
    if m.None? {
      assert r.sys == s1;
      assert s1.trace[..|s.trace|] == s.trace;
      assert NewEffects(s, s1) == [ExportWrite(pin)];
    } else {
      var i := m.value;
      var g := GetGrNam(env.db, env.group);
      var f := InputExempt(Flags(true, true, g.Some?), "in");
      var gid := if g.Some? then g.value.gid else 0;
      assert r.sys == Apply(s1, i, f, "in", val, gid);
      ApplyFacts(s1, i, f, "in", val, gid);
      FixEffectsConcern(s1.entries[i].name, f, "in", val, gid, pin);
      assert NewEffects(s, r.sys) == [ExportWrite(pin)] + FixEffects(s1.entries[i].name, f, "in", val, gid);
      assert r.sys.trace[..|s.trace|] == s.trace;
    }
  }

  /** Every iteration, whatever it ends with, changes only the directory of
      its own pin (and adds only that pin's directory), changes only the
      group and never the user of a file, and every effect it has concerns
      its own pin: no other pin's files are touched. */
  lemma StepTouchesOnlyItsPin(s: Sys, env: Env, pin: string, raw: string)
    requires KernelSound(env.kernel)
    ensures var r := PinStep(s, env, pin, raw);
      && Extends(s, r.sys)
      && OnlyTouches(s, r.sys, pin)
      && SameUsers(s, r.sys)
      && (forall x :: x in NewEffects(s, r.sys) ==> Concerns(x, pin))
  {
    StepInLane(s, env, pin, raw);
  }

  /** Whether the configured text `raw` makes the pin an input. */
  predicate IsInput(raw: string) {
    |Split(raw, ',')| == 2 && Split(raw, ',')[0] == "in"
  }

  lemma StepInLane(s: Sys, env: Env, pin: string, raw: string)
    requires KernelSound(env.kernel)
    ensures InLane(s, PinStep(s, env, pin, raw).sys, pin, IsInput(raw))
  {
    if |Split(raw, ',')| != 2 {
      assert PinStep(s, env, pin, raw).sys == s;
      InLaneRefl(s, pin, IsInput(raw));
    } else if FirstMatch(s.Names(), pin).Some? {
      ExportedStepInLane(s, env, pin, raw);
    } else {
      UnexportedStepInLane(s, env, pin, raw);
    }
  }

  /** Doing nothing stays in every lane. */
  lemma InLaneRefl(s: Sys, pin: string, input: bool)
    ensures InLane(s, s, pin, input)
  {
    assert s.trace[..|s.trace|] == s.trace;
  }

  /** `StepInLane` for a pin whose directory exists. */
  lemma ExportedStepInLane(s: Sys, env: Env, pin: string, raw: string)
    requires |Split(raw, ',')| == 2 && FirstMatch(s.Names(), pin).Some?
    ensures InLane(s, PinStep(s, env, pin, raw).sys, pin, IsInput(raw))
  {
    var dir, val := Split(raw, ',')[0], Split(raw, ',')[1];
    var i := FirstMatch(s.Names(), pin).value;
    var g := GetGrNam(env.db, env.group);
    var h := GetGrGid(env.db, s.entries[i].dirOwner.gid);
    if g.Some? && h.Some? {
      var e := s.entries[i];
      var f := InputExempt(Flags(Strip(e.direction) != dir, dir == "out" && Strip(e.value) != val,
                                 g.value != h.value), dir);
      assert PinStep(s, env, pin, raw).sys == Apply(s, i, f, dir, val, g.value.gid);
      WritesInLane(s, i, f, dir, val, g.value.gid, pin, IsInput(raw));
    } else {
      assert PinStep(s, env, pin, raw).sys == s;
      InLaneRefl(s, pin, IsInput(raw));
    }
  }

  /** The export write stays in the pin's lane. */
  lemma ExportInLane(s: Sys, pin: string, kernel: map<string, PinDir>, input: bool)
    requires KernelSound(kernel) && FirstMatch(s.Names(), pin).None?
    ensures InLane(s, s.Export(pin, kernel), pin, input)
  {
    ExportFacts(s, pin, kernel);
  }

  /** `StepInLane` for a pin whose directory does not exist yet. */
  lemma UnexportedStepInLane(s: Sys, env: Env, pin: string, raw: string)
    requires KernelSound(env.kernel)
    requires |Split(raw, ',')| == 2 && FirstMatch(s.Names(), pin).None?
    ensures InLane(s, PinStep(s, env, pin, raw).sys, pin, IsInput(raw))
  {
    var dir, val := Split(raw, ',')[0], Split(raw, ',')[1];
    var s1 := s.Export(pin, env.kernel);
    ExportInLane(s, pin, env.kernel, IsInput(raw));
    ExportFacts(s, pin, env.kernel);
    if pin in env.kernel {
      var i := |s.entries|;
      var g := GetGrNam(env.db, env.group);
      var f := InputExempt(Flags(true, true, g.Some?), dir);
      var gid := if g.Some? then g.value.gid else 0;
      assert PinStep(s, env, pin, raw).sys == Apply(s1, i, f, dir, val, gid);
      WritesInLane(s1, i, f, dir, val, gid, pin, IsInput(raw));
      InLaneTrans(s, s1, Apply(s1, i, f, dir, val, gid), pin, IsInput(raw));
    } else {
      assert PinStep(s, env, pin, raw).sys == s1;
    }
  }

  /** The writes and ownership changes of one iteration on entry `i`, a
      directory of `pin`. */
  lemma WritesInLane(s: Sys, i: nat, f: Flags, dir: string, val: string, gid: int, pin: string, input: bool)
    requires i < |s.entries| && Matches(s.entries[i].name, pin)
    requires input ==> !f.valSet
    ensures InLane(s, Apply(s, i, f, dir, val, gid), pin, input)
  {
    ApplyFacts(s, i, f, dir, val, gid);
    WritesConcernPin(s, i, f, dir, val, gid, pin);
  }

  lemma WritesConcernPin(s: Sys, i: nat, f: Flags, dir: string, val: string, gid: int, pin: string)
    requires i < |s.entries| && Matches(s.entries[i].name, pin)
    ensures var r := Apply(s, i, f, dir, val, gid);
      && |s.trace| <= |r.trace|
      && (forall x :: x in NewEffects(s, r) ==> Concerns(x, pin))
      && (!f.valSet ==> forall x :: x in NewEffects(s, r) ==> !x.ValueWrite?)
  {
    ApplyFacts(s, i, f, dir, val, gid);
    FixEffectsConcern(s.entries[i].name, f, dir, val, gid, pin);
  }
}

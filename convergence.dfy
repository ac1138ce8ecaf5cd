/** Convergence of the setup script: after a run that completes, every
    configured pin is in its configured state, and a second run with the
    same configuration computes all three flags false for every pin and
    changes nothing at all. */
module Convergence {
  import opened Wrappers
  import opened Text
  import opened GpioName
  import opened Groups
  import opened Sysfs
  import opened Reconcile
  import opened StepProperties

  /** The configured `dir,val` text splits into exactly two parts, and
      `strip()` leaves both alone, so what is written reads back equal. */
  predicate CleanSpec(raw: string) {
    var parts := Split(raw, ',');
    |parts| == 2 && Strip(parts[0]) == parts[0] && Strip(parts[1]) == parts[1]
  }

  /** The pin is in the state its configured text `raw` asks for, as the
      script checks it (lines 96-122): it resolves to a directory whose
      stripped direction is the configured one, whose stripped value is
      the configured one if the pin is an output, and whose group entry is
      the configured group's. Only the directory's group counts: line 101
      never looks at the groups of the `direction` and `value` files. */
  predicate Settled(s: Sys, env: Env, pin: string, raw: string) {
    var parts := Split(raw, ',');
    var m := FirstMatch(s.Names(), pin);
    && |parts| == 2
    && m.Some?
    && Strip(s.entries[m.value].direction) == parts[0]
    && (parts[0] == "out" ==> Strip(s.entries[m.value].value) == parts[1])
    && GetGrNam(env.db, env.group).Some?
    && GetGrGid(env.db, s.entries[m.value].dirOwner.gid) == GetGrNam(env.db, env.group)
  }

  /** Configured pins are pairwise different, as configparser guarantees. */
  predicate DistinctPins(pins: seq<(string, string)>) {
    forall i, j :: 0 <= i < j < |pins| ==> pins[i].0 != pins[j].0
  }

  /** No configured pin holds `_`, so no two pins match the same entry. */
  predicate PlainPins(pins: seq<(string, string)>) {
    forall k :: 0 <= k < |pins| ==> '_' !in pins[k].0
  }

  /** A pin already in its configured state gets all three flags false:
      nothing is exported, written or re-owned, and nothing changes. */
  lemma SettledStepIsNoOp(s: Sys, env: Env, pin: string, raw: string)
    requires Settled(s, env, pin, raw)
    ensures PinStep(s, env, pin, raw) == Step(s, None)
  {
    var parts := Split(raw, ',');
    var i := FirstMatch(s.Names(), pin).value;
    var f := InputExempt(Flags(false, false, false), parts[0]);
    assert PinStep(s, env, pin, raw).sys == Apply(s, i, f, parts[0], parts[1], GetGrNam(env.db, env.group).value.gid);
  }

  /** The group check of line 101 looks only at the pin's directory: a
      settled pin whose `direction` and `value` files belong to any other
      group is still settled, and the script leaves those files alone. */
  lemma FileGroupsUnchecked(s: Sys, env: Env, pin: string, raw: string, gid: int)
    requires Settled(s, env, pin, raw)
    ensures var i := FirstMatch(s.Names(), pin).value;
      var e := s.entries[i];
      var t := Sys(s.entries[i := e.(directionOwner := e.directionOwner.(gid := gid),
                                     valueOwner := e.valueOwner.(gid := gid))], s.trace);
      && t.entries[i].directionOwner.gid == gid && t.entries[i].valueOwner.gid == gid
      && Settled(t, env, pin, raw)
      && PinStep(t, env, pin, raw) == Step(t, None)
  {
    var i := FirstMatch(s.Names(), pin).value;
    var e := s.entries[i];
    var t := Sys(s.entries[i := e.(directionOwner := e.directionOwner.(gid := gid),
                                   valueOwner := e.valueOwner.(gid := gid))], s.trace);
    assert t.Names() == s.Names();
    SettledStepIsNoOp(t, env, pin, raw);
  }

  /** A pin processed without an exception ends in its configured state,
      when the configured texts read back unchanged and the configured
      group owns its gid. */
  lemma StepSettles(s: Sys, env: Env, pin: string, raw: string)
    requires CleanSpec(raw) && OwnsGid(env.db, env.group) && KernelSound(env.kernel)
    requires PinStep(s, env, pin, raw).error == None
    ensures Settled(PinStep(s, env, pin, raw).sys, env, pin, raw)
  {
    var parts := Split(raw, ',');
    var dir, val := parts[0], parts[1];
    var g := GetGrNam(env.db, env.group).value;
    var m := FirstMatch(s.Names(), pin);
    if m.Some? {
      var i := m.value;
      var e := s.entries[i];
      var h := GetGrGid(env.db, e.dirOwner.gid).value;
      var f := InputExempt(Flags(Strip(e.direction) != dir, dir == "out" && Strip(e.value) != val, g != h), dir);
      var r := Apply(s, i, f, dir, val, g.gid);
      assert PinStep(s, env, pin, raw).sys == r;
      ApplyFacts(s, i, f, dir, val, g.gid);
    } else {
      var s1 := s.Export(pin, env.kernel);
      ExportFacts(s, pin, env.kernel);
      var i := |s.entries|;
      var f := InputExempt(Flags(true, true, true), dir);
      var r := Apply(s1, i, f, dir, val, g.gid);
      assert PinStep(s, env, pin, raw).sys == r;
      ApplyFacts(s1, i, f, dir, val, g.gid);
    }
  }

  /** Changing only the directories of pin `q` leaves pin `p` resolving to
      the same, unchanged directory. */
  lemma FirstMatchFrame(s: Sys, t: Sys, p: string, q: string)
    requires OnlyTouches(s, t, q) && p != q && '_' !in p && '_' !in q
    ensures FirstMatch(t.Names(), p) == FirstMatch(s.Names(), p)
    ensures FirstMatch(s.Names(), p).Some? ==>
      t.entries[FirstMatch(s.Names(), p).value] == s.entries[FirstMatch(s.Names(), p).value]
  {
    var a := FirstMatch(s.Names(), p);
    var b := FirstMatch(t.Names(), p);
    forall k | |s.entries| <= k < |t.entries| ensures !Matches(t.entries[k].name, p) {
      PatternsDisjoint(t.entries[k].name, q, p);
    }
    if a.Some? {
      PatternsDisjoint(s.entries[a.value].name, p, q);
    }
  }

  /** Processing pin `q` leaves a settled pin `p` settled. */
  lemma SettledSurvivesStep(s: Sys, env: Env, q: string, rawq: string, p: string, raw: string)
    requires Settled(s, env, p, raw) && KernelSound(env.kernel)
    requires p != q && '_' !in p && '_' !in q
    ensures Settled(PinStep(s, env, q, rawq).sys, env, p, raw)
  {
    StepTouchesOnlyItsPin(s, env, q, rawq);
    FirstMatchFrame(s, PinStep(s, env, q, rawq).sys, p, q);
  }

  /** A settled pin stays settled while other pins are processed. */
  lemma {:induction false} RunKeepsSettled(s: Sys, env: Env, pins: seq<(string, string)>, p: string, raw: string)
    requires Settled(s, env, p, raw) && KernelSound(env.kernel)
    requires '_' !in p && PlainPins(pins)
    requires forall k :: 0 <= k < |pins| ==> pins[k].0 != p
    ensures Settled(RunPins(s, env, pins).sys, env, p, raw)
    decreases |pins|
  {
    if |pins| > 0 {
      var t, stop := FirstPinKeepsSettled(s, env, pins, p, raw);
      if !stop {
        RunKeepsSettled(t, env, pins[1..], p, raw);
      }
    }
  }

  /** The first pin of the loop keeps a settled pin `p` settled, and the
      rest of the loop starts from the state it leaves unless it raised. */
  lemma FirstPinKeepsSettled(s: Sys, env: Env, pins: seq<(string, string)>, p: string, raw: string)
    returns (t: Sys, stop: bool)
    requires Settled(s, env, p, raw) && KernelSound(env.kernel)
    requires '_' !in p && PlainPins(pins)
    requires forall k :: 0 <= k < |pins| ==> pins[k].0 != p
    requires |pins| > 0
    ensures Settled(t, env, p, raw)
    ensures RunPins(s, env, pins).sys == if stop then t else RunPins(t, env, pins[1..]).sys
    ensures PlainPins(pins[1..]) && forall k :: 0 <= k < |pins[1..]| ==> pins[1..][k].0 != p
  {
    SettledSurvivesStep(s, env, pins[0].0, pins[0].1, p, raw);
    t, stop := RunPinsUnfold(s, env, pins);
    OtherPinsTail(pins, p);
  }

  /** Dropping the first pin keeps the pins plain and different from `p`. */
  lemma OtherPinsTail(pins: seq<(string, string)>, p: string)
    requires |pins| > 0 && PlainPins(pins)
    requires forall k :: 0 <= k < |pins| ==> pins[k].0 != p
    ensures PlainPins(pins[1..]) && forall k :: 0 <= k < |pins[1..]| ==> pins[1..][k].0 != p
  {
    var rest := pins[1..];
    assert forall k :: 0 <= k < |rest| ==> rest[k] == pins[k + 1];
  }

  /** The loop after its first pin: the state that pin leaves, and whether
      it raised and so ended the loop. */
  lemma RunPinsUnfold(s: Sys, env: Env, pins: seq<(string, string)>) returns (t: Sys, stop: bool)
    requires |pins| > 0
    ensures t == PinStep(s, env, pins[0].0, pins[0].1).sys
    ensures RunPins(s, env, pins).sys == if stop then t else RunPins(t, env, pins[1..]).sys
  {
    var step := PinStep(s, env, pins[0].0, pins[0].1);
    t, stop := step.sys, step.error.Some?;
  }

  /** A pin that raises nothing hands the rest of the loop its state. */
  lemma RunPinsNext(s: Sys, env: Env, pins: seq<(string, string)>)
    requires |pins| > 0 && PinStep(s, env, pins[0].0, pins[0].1).error.None?
    ensures RunPins(s, env, pins) == RunPins(PinStep(s, env, pins[0].0, pins[0].1).sys, env, pins[1..])
  {
  }

  /** Every value configured in `pins` is `dir,val` with no surrounding
      whitespace in either part. */
  predicate CleanPins(pins: seq<(string, string)>) {
    forall k :: 0 <= k < |pins| ==> CleanSpec(pins[k].1)
  }

  /** Every pin of `pins` is settled in `s`. */
  predicate AllSettled(s: Sys, env: Env, pins: seq<(string, string)>) {
    forall k :: 0 <= k < |pins| ==> Settled(s, env, pins[k].0, pins[k].1)
  }

  /** The conditions on the configured pins carry over to all but the
      first, and the first differs from all the others. */
  lemma TailConditions(pins: seq<(string, string)>)
    requires |pins| > 0 && DistinctPins(pins) && PlainPins(pins) && CleanPins(pins)
    ensures DistinctPins(pins[1..]) && PlainPins(pins[1..]) && CleanPins(pins[1..])
    ensures '_' !in pins[0].0 && CleanSpec(pins[0].1)
    ensures forall k :: 0 <= k < |pins[1..]| ==> pins[1..][k].0 != pins[0].0
  {
    var rest := pins[1..];
    assert forall k :: 0 <= k < |rest| ==> rest[k] == pins[k + 1];
  }

  /** The first pin settled and the others settled make all settled. */
  lemma AllSettledCons(t: Sys, env: Env, pins: seq<(string, string)>)
    requires |pins| > 0 && Settled(t, env, pins[0].0, pins[0].1) && AllSettled(t, env, pins[1..])
    ensures AllSettled(t, env, pins)
  {
    forall k | 0 <= k < |pins| ensures Settled(t, env, pins[k].0, pins[k].1) {
      if k > 0 {
        assert pins[k] == pins[1..][k - 1];
      }
    }
  }

  /** All pins settled makes all but the first settled. */
  lemma AllSettledTail(t: Sys, env: Env, pins: seq<(string, string)>)
    requires |pins| > 0 && AllSettled(t, env, pins)
    ensures Settled(t, env, pins[0].0, pins[0].1) && AllSettled(t, env, pins[1..])
  {
    forall k | 0 <= k < |pins[1..]| ensures Settled(t, env, pins[1..][k].0, pins[1..][k].1) {
      assert pins[1..][k] == pins[k + 1];
    }
  }

  /** A run that completes leaves every configured pin exported, with its
      configured direction, its configured value if it is an output, and
      the configured group. */
  lemma {:induction false} CompletedRunSettlesAll(s: Sys, env: Env, pins: seq<(string, string)>)
    requires RunPins(s, env, pins).failure == None
    requires DistinctPins(pins) && PlainPins(pins) && CleanPins(pins)
    requires OwnsGid(env.db, env.group) && KernelSound(env.kernel)
    ensures AllSettled(RunPins(s, env, pins).sys, env, pins)
    decreases |pins|
  {
    if |pins| > 0 {
      var step := PinStep(s, env, pins[0].0, pins[0].1);
      assert step.error.None?;
      RunPinsNext(s, env, pins);
      TailConditions(pins);
      StepSettles(s, env, pins[0].0, pins[0].1);
      CompletedRunSettlesAll(step.sys, env, pins[1..]);
      RunKeepsSettled(step.sys, env, pins[1..], pins[0].0, pins[0].1);
      AllSettledCons(RunPins(step.sys, env, pins[1..]).sys, env, pins);
    }
  }

  /** When every configured pin is settled, a run changes nothing. */
  lemma {:induction false} SettledRunIsNoOp(s: Sys, env: Env, pins: seq<(string, string)>)
    requires AllSettled(s, env, pins)
    ensures RunPins(s, env, pins) == Run(s, None)
    decreases |pins|
  {
    if |pins| > 0 {
      AllSettledTail(s, env, pins);
      SettledStepIsNoOp(s, env, pins[0].0, pins[0].1);
      RunPinsNext(s, env, pins);
      SettledRunIsNoOp(s, env, pins[1..]);
    }
  }

  /** Idempotence (lines 84-157): after a run that completes, a second run
      with the same configuration ends without exception, performs no
      export, write or ownership change, and leaves sysfs as it was. */
  lemma SecondRunIsNoOp(s: Sys, env: Env, pins: seq<(string, string)>)
    requires RunPins(s, env, pins).failure == None
    requires DistinctPins(pins) && PlainPins(pins) && CleanPins(pins)
    requires OwnsGid(env.db, env.group) && KernelSound(env.kernel)
    ensures RunPins(RunPins(s, env, pins).sys, env, pins) == Run(RunPins(s, env, pins).sys, None)
  {
    CompletedRunSettlesAll(s, env, pins);
    SettledRunIsNoOp(RunPins(s, env, pins).sys, env, pins);
  }

  /** An effect concerns one of the configured pins. */
  predicate ConcernsSome(x: Effect, pins: seq<(string, string)>) {
    exists k :: 0 <= k < |pins| && Concerns(x, pins[k].0)
  }

  /** A directory entry belongs to none of the configured pins. */
  predicate Unconfigured(name: string, pins: seq<(string, string)>) {
    forall k :: 0 <= k < |pins| ==> !Matches(name, pins[k].0)
  }

  /** `t` follows from `s` by effects on the pins `pins` alone: the trace
      only grows and every new effect concerns one of them, no file changes
      its user, and directories belonging to none of them are unchanged. */
  predicate ConfinedTo(s: Sys, t: Sys, pins: seq<(string, string)>) {
    && Extends(s, t)
    && |s.entries| <= |t.entries|
    && SameUsers(s, t)
    && (forall x :: x in NewEffects(s, t) ==> ConcernsSome(x, pins))
    && (forall k :: 0 <= k < |s.entries| && Unconfigured(s.entries[k].name, pins) ==> t.entries[k] == s.entries[k])
  }

  /** An iteration for the first pin followed by a run confined to the
      remaining pins is confined to all of them. */
  lemma ConfinedCompose(s: Sys, t: Sys, u: Sys, pins: seq<(string, string)>)
    requires |pins| > 0
    requires Extends(s, t) && OnlyTouches(s, t, pins[0].0) && SameUsers(s, t)
    requires forall x :: x in NewEffects(s, t) ==> Concerns(x, pins[0].0)
    requires ConfinedTo(t, u, pins[1..])
    ensures ConfinedTo(s, u, pins)
  {
    EffectsCompose(s, t, u, pins);
    EntriesCompose(s, t, u, pins);
    UsersCompose(s, t, u);
  }

  /** The effect part of `ConfinedCompose`. */
  lemma EffectsCompose(s: Sys, t: Sys, u: Sys, pins: seq<(string, string)>)
    requires |pins| > 0 && Extends(s, t) && Extends(t, u)
    requires forall x :: x in NewEffects(s, t) ==> Concerns(x, pins[0].0)
    requires forall x :: x in NewEffects(t, u) ==> ConcernsSome(x, pins[1..])
    ensures Extends(s, u)
    ensures forall x :: x in NewEffects(s, u) ==> ConcernsSome(x, pins)
  {
    var rest := pins[1..];
    assert u.trace[..|s.trace|] == u.trace[..|t.trace|][..|s.trace|];
    assert NewEffects(s, u) == NewEffects(s, t) + NewEffects(t, u);
    forall x | x in NewEffects(s, u) ensures ConcernsSome(x, pins) {
      if x in NewEffects(s, t) {
        assert Concerns(x, pins[0].0);
      } else {
        var k :| 0 <= k < |rest| && Concerns(x, rest[k].0);
        assert rest[k] == pins[k + 1];
      }
    }
  }

  /** The directory part of `ConfinedCompose`. */
  lemma EntriesCompose(s: Sys, t: Sys, u: Sys, pins: seq<(string, string)>)
    requires |pins| > 0 && OnlyTouches(s, t, pins[0].0) && |t.entries| <= |u.entries|
    requires forall k :: 0 <= k < |t.entries| && Unconfigured(t.entries[k].name, pins[1..]) ==>
      u.entries[k] == t.entries[k]
    ensures forall k :: 0 <= k < |s.entries| && Unconfigured(s.entries[k].name, pins) ==>
      u.entries[k] == s.entries[k]
  {
    var rest := pins[1..];
    forall k | 0 <= k < |s.entries| && Unconfigured(s.entries[k].name, pins)
      ensures u.entries[k] == s.entries[k]
    {
      assert !Matches(s.entries[k].name, pins[0].0);
      forall j | 0 <= j < |rest| ensures !Matches(t.entries[k].name, rest[j].0) {
        assert rest[j] == pins[j + 1];
      }
    }
  }

  /** `SameUsers` is transitive. */
  lemma UsersCompose(s: Sys, t: Sys, u: Sys)
    requires |s.entries| <= |t.entries| <= |u.entries|
    requires SameUsers(s, t) && SameUsers(t, u)
    ensures SameUsers(s, u)
  {
  }

  /** A single iteration for the first pin is confined to the pins. */
  lemma ConfinedFirst(s: Sys, t: Sys, pins: seq<(string, string)>)
    requires |pins| > 0
    requires Extends(s, t) && OnlyTouches(s, t, pins[0].0) && SameUsers(s, t)
    requires forall x :: x in NewEffects(s, t) ==> Concerns(x, pins[0].0)
    ensures ConfinedTo(s, t, pins)
  {
    forall x | x in NewEffects(s, t) ensures ConcernsSome(x, pins) {
      assert Concerns(x, pins[0].0);
    }
  }

  /** A run, however it ends, only adds effects on configured pins, never
      changes the user owning a file, and leaves every directory that
      belongs to no configured pin exactly as it was. */
  lemma {:induction false} RunTouchesOnlyConfigured(s: Sys, env: Env, pins: seq<(string, string)>)
    requires KernelSound(env.kernel)
    ensures ConfinedTo(s, RunPins(s, env, pins).sys, pins)
    decreases |pins|
  {
    if |pins| == 0 {
      assert s.trace[..|s.trace|] == s.trace;
    } else {
      var step := PinStep(s, env, pins[0].0, pins[0].1);
      StepTouchesOnlyItsPin(s, env, pins[0].0, pins[0].1);
      if step.error.None? {
        RunPinsNext(s, env, pins);
        RunTouchesOnlyConfigured(step.sys, env, pins[1..]);
        ConfinedCompose(s, step.sys, RunPins(step.sys, env, pins[1..]).sys, pins);
      } else {
        ConfinedFirst(s, step.sys, pins);
      }
    }
  }
}

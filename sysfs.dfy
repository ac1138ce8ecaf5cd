/** The part of the sysfs GPIO interface the setup script touches: the
    pin directories under the GPIO class directory, their `direction` and
    `value` files and the group owning each, the `export` control file,
    and a trace of every write and ownership change made to them. */
module Sysfs {
  import GpioName

  /** Owner of a file: user id and group id. */
  datatype Owner = Owner(uid: int, gid: int)

  /** An exported pin's directory `name` (`gpio17_pa17`, say): the text its
      `direction` and `value` files read back and the owners of the
      directory and of the two files. */
  datatype PinDir = PinDir(
    name: string,
    direction: string,
    value: string,
    dirOwner: Owner,
    directionOwner: Owner,
    valueOwner: Owner)

  /** The three paths `os.chown` is applied to for a pin. */
  datatype FileKind = Directory | DirectionFile | ValueFile

  /** One change the script makes to the outside world. */
  datatype Effect =
    | ExportWrite(pin: string)                          // `pin` written to the export file
    | DirectionWrite(dir: string, text: string)        // `text` written to `<dir>/direction`
    | ValueWrite(dir: string, text: string)            // `text` written to `<dir>/value`
    | GroupChange(dir: string, kind: FileKind, gid: int) // `os.chown(path, -1, gid)`

  /** The abstract sysfs state: the pin directories in the order the GPIO
      directory lists them, and every effect so far, oldest first. */
  datatype Sys = Sys(entries: seq<PinDir>, trace: seq<Effect>) {

    /** The directory listing of the GPIO class directory. */
    function Names(): (r: seq<string>)
      ensures |r| == |entries|
      ensures forall k :: 0 <= k < |r| ==> r[k] == entries[k].name
    {
      seq(|entries|, k requires 0 <= k < |entries| => entries[k].name)
    }

    /** Writing `pin` to the export file. The kernel's answer is the
        parameter `kernel`: the directory it creates for each pin it knows
        about; for any other pin the write has no visible effect. */
    function Export(pin: string, kernel: map<string, PinDir>): (r: Sys)
      ensures entries <= r.entries && |r.entries| <= |entries| + 1
      ensures pin in kernel ==> |r.entries| == |entries| + 1 && r.entries[|entries|] == kernel[pin]
      ensures pin !in kernel ==> r.entries == entries
      ensures r.trace == trace + [ExportWrite(pin)]
    {
      Sys(entries + (if pin in kernel then [kernel[pin]] else []), trace + [ExportWrite(pin)])
    }

    /** Writing `text` to the `direction` file of entry `i`. */
    function WriteDirection(i: nat, text: string): (r: Sys)
      requires i < |entries|
      ensures r.Names() == Names()
      ensures forall k :: 0 <= k < |entries| && k != i ==> r.entries[k] == entries[k]
      ensures r.entries[i].direction == text && r.entries[i].value == entries[i].value
      ensures r.entries[i].dirOwner == entries[i].dirOwner
      ensures r.entries[i].directionOwner == entries[i].directionOwner
      ensures r.entries[i].valueOwner == entries[i].valueOwner
      ensures r.trace == trace + [DirectionWrite(entries[i].name, text)]
    {
      Sys(entries[i := entries[i].(direction := text)], trace + [DirectionWrite(entries[i].name, text)])
    }

    /** Writing `text` to the `value` file of entry `i`. */
    function WriteValue(i: nat, text: string): (r: Sys)
      requires i < |entries|
      ensures r.Names() == Names()
      ensures forall k :: 0 <= k < |entries| && k != i ==> r.entries[k] == entries[k]
      ensures r.entries[i].value == text && r.entries[i].direction == entries[i].direction
      ensures r.entries[i].dirOwner == entries[i].dirOwner
      ensures r.entries[i].directionOwner == entries[i].directionOwner
      ensures r.entries[i].valueOwner == entries[i].valueOwner
      ensures r.trace == trace + [ValueWrite(entries[i].name, text)]
    {
      Sys(entries[i := entries[i].(value := text)], trace + [ValueWrite(entries[i].name, text)])
    }

    /** `os.chown(path, -1, gid)` on the directory, the direction file and
        the value file of entry `i`, in that order: only the group changes. */
    function ChangeGroup(i: nat, gid: int): (r: Sys)
      requires i < |entries|
      ensures r.Names() == Names()
      ensures forall k :: 0 <= k < |entries| && k != i ==> r.entries[k] == entries[k]
      ensures r.entries[i].direction == entries[i].direction && r.entries[i].value == entries[i].value
      ensures r.entries[i].dirOwner == Owner(entries[i].dirOwner.uid, gid)
      ensures r.entries[i].directionOwner == Owner(entries[i].directionOwner.uid, gid)
      ensures r.entries[i].valueOwner == Owner(entries[i].valueOwner.uid, gid)
      ensures |r.trace| == |trace| + 3 && trace <= r.trace
      ensures forall k :: |trace| <= k < |r.trace| ==> r.trace[k].GroupChange? && r.trace[k].dir == entries[i].name && r.trace[k].gid == gid
    {
      var e := entries[i];
      var e' := e.(dirOwner := e.dirOwner.(gid := gid),
                   directionOwner := e.directionOwner.(gid := gid),
                   valueOwner := e.valueOwner.(gid := gid));
      Sys(entries[i := e'],
          trace + [GroupChange(e.name, Directory, gid), GroupChange(e.name, DirectionFile, gid),
                   GroupChange(e.name, ValueFile, gid)])
    }
  }

  /** The kernel only ever creates, for pin `p`, a directory named
      `gpio<p>_...`: exporting a pin makes that pin resolvable. */
  predicate KernelSound(kernel: map<string, PinDir>) {
    forall p :: p in kernel ==> GpioName.Matches(kernel[p].name, p)
  }

  /** The GPIO class directory as the script changes it, in place. */
  class GpioClass {
    var entries: seq<PinDir>
    var trace: seq<Effect>

    function Model(): Sys
      reads this
    {
      Sys(entries, trace)
    }

    constructor (entries: seq<PinDir>)
      ensures Model() == Sys(entries, [])
    {
      this.entries := entries;
      this.trace := [];
    }

    /** `open(GPIO_Export, 'w').write(pin)` (lines 126-127). */
    method Export(pin: string, kernel: map<string, PinDir>)
      modifies this
      ensures Model() == old(Model()).Export(pin, kernel)
    {
      if pin in kernel {
        entries := entries + [kernel[pin]];
      }
      trace := trace + [ExportWrite(pin)];
    }

    /** `open(GPIO_Direction.format(name), 'w').write(text)` (lines 139-142). */
    method WriteDirection(i: nat, text: string)
      requires i < |entries|
      modifies this
      ensures Model() == old(Model()).WriteDirection(i, text)
    {
      trace := trace + [DirectionWrite(entries[i].name, text)];
      entries := entries[i := entries[i].(direction := text)];
    }

    /** `open(GPIO_Value.format(name), 'w').write(text)` (lines 144-147). */
    method WriteValue(i: nat, text: string)
      requires i < |entries|
      modifies this
      ensures Model() == old(Model()).WriteValue(i, text)
    {
      trace := trace + [ValueWrite(entries[i].name, text)];
      entries := entries[i := entries[i].(value := text)];
    }

    /** The three `os.chown(..., -1, gid)` calls (lines 152-157). */
    method ChangeGroup(i: nat, gid: int)
      requires i < |entries|
      modifies this
      ensures Model() == old(Model()).ChangeGroup(i, gid)
    {
      var e := entries[i];
      trace := trace + [GroupChange(e.name, Directory, gid)];
      trace := trace + [GroupChange(e.name, DirectionFile, gid)];
      trace := trace + [GroupChange(e.name, ValueFile, gid)];
      entries := entries[i := e.(dirOwner := e.dirOwner.(gid := gid),
                                 directionOwner := e.directionOwner.(gid := gid),
                                 valueOwner := e.valueOwner.(gid := gid))];
    }
  }
}

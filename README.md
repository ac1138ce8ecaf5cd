# GPIO setup script, modelled in Dafny

`bin/gpio/main.py` is a one-shot script run as root. It makes the Linux
sysfs GPIO pins agree with an INI configuration. It first checks the
configuration:

- the file must be readable;
- it must have the sections `Paths`, `Permissions` and `GPIO`;
- the three paths `GPIO_Path`, `GPIO_Export` and `GPIO_Unexport` must exist;
- the group `GPIO_Group` must occur in the text of `/etc/group`.

Then, for every option `pin = dir,val` of the `GPIO` section, it finds
the pin's directory `gpio<pin>_*` and exports the pin when that directory
is missing. It then decides whether the direction, the value (outputs
only) and the group of the directory need fixing, and applies those
fixes.

The model has these modules:

- `Text`: Python's `str.strip`, `str.split(',')`, `path.split('/')[-1]`
  and the substring test `in`.
- `GpioName`: `get_gpio_name` and the `gpio<pin>_*` glob.
- `Groups`: `grp.getgrnam` and `grp.getgrgid` over the lines of
  `/etc/group`.
- `Sysfs`: the pin directories in listing order, with direction text,
  value text and owners, plus a trace of every effect the script has (export
  write, direction write, value write, group change). There is a value
  version `Sys` and a class `GpioClass` that is changed in place.
- `ConfigCheck`: lines 35-79, with a pure specification `Validate` and
  the imperative `CheckConfig` that follows the script's `err` flag.
- `Reconcile`: one loop iteration as the function `PinStep` and the loop
  as `RunPins`. The methods `ReconcilePin` and `ReconcileAll` change a
  `GpioClass` in place and are proved equal to them.
- `StepProperties`: which effects one iteration has, and that it touches
  only its own pin.
- `Convergence`: a completed run leaves every configured pin in its
  configured state, and a second run changes nothing.
- `Setup`: `main` as a whole, its frame and its idempotence, plus a
  worked example of the substring group check.

Everything the script reads from outside is a parameter:

- the parsed configuration (`None` when it cannot be read);
- the set of paths that exist;
- the text of `/etc/group`;
- the group database;
- `kernel`, the directory the kernel creates for each pin it can export
  (`KernelSound`: that directory is named `gpio<pin>_...`).

The section check reports only the first missing section: the `not err`
guard at lines 44-47 skips the report for the others. `err` is reset at
line 57, and the run ends with the `KeyError` of `config['...']` at
lines 49-51 for the first missing section of `Paths`, `Permissions`,
`GPIO`. This is `ConfigError.MissingSection`.

The group check at line 71 is a substring test on the raw text of
`/etc/group`, and the model keeps it. `Setup.GroupSubstringAccepted`
shows the consequence:

- a configured group `gpi` passes the check when only `gpio` exists;
- the loop stops at the first pin that raises, whatever the exception;
- a malformed `dir,val` raises `ValueError` at line 85 before anything
  else, and an unexported pin whose export has no effect raises before
  `getgrnam` is reached;
- otherwise the first pin raises in `getgrnam`. If that pin was exported,
  nothing has changed (line 100 raises first). If it was not, it has been
  exported, its direction written, and its value too unless the pin is
  `in`, before `getgrnam` raises at line 153; it is left in its old
  group.

## Model

| member | source | states |
|---|---|---|
| Text.Split | bin/gpio/main.py:85 | `str.split(',')`: at least one part, no part holds a comma, and joining the parts with commas gives back the input |
| Text.SplitCount | bin/gpio/main.py:85 | the number of parts is the number of commas plus one, so the two-name unpack succeeds exactly when the text holds one comma |
| Text.SplitJoin | bin/gpio/main.py:85 | splitting comma-free parts joined by commas gives back exactly those parts |
| Text.StripFixedPoint | bin/gpio/main.py:111 | `strip()` leaves a text unchanged exactly when it neither starts nor ends with whitespace |
| Text.StripIdempotent | bin/gpio/main.py:118 | a stripped text has no surrounding whitespace, and stripping again changes nothing |
| Text.Strip | bin/gpio/main.py:111 | `strip()` returns the part of its input that is left after removing the whitespace before and after it: a slice of the input with only whitespace around it, that neither starts nor ends with whitespace |
| Text.StripLeading | bin/gpio/main.py:111 | the suffix of the input after its leading whitespace, starting with a non-space or empty |
| Text.StripTrailing | bin/gpio/main.py:111 | the prefix of the input before its trailing whitespace, ending with a non-space or empty |
| Text.LastComponent | bin/gpio/main.py:19 | `split('/')[-1]` is the suffix after the last `/`: it holds no `/` and is preceded by `/` unless it is the whole path |
| Text.LastComponentOfChild | bin/gpio/main.py:19 | the last component of `dir + "/" + name` is `name` when `name` holds no `/` |
| Text.Contains | bin/gpio/main.py:71 | `part in text` is true for the empty part, and only when the part is no longer than the text |
| Text.ContainsAt | bin/gpio/main.py:71 | `part in text` holds whenever `part` occurs at some offset of `text` |
| Text.ContainsOccurs | bin/gpio/main.py:71 | when `part in text` holds, there is an offset where `part` occurs |
| GpioName.FirstMatch | bin/gpio/main.py:17-18 | the index of the first listed entry matching `gpio<pin>_*`, with no earlier match, or none when no entry matches |
| GpioName.Glob | bin/gpio/main.py:17 | the glob returns at most one path per directory entry |
| GpioName.GlobInDirectory | bin/gpio/main.py:17 | every glob hit is a path inside the searched directory |
| GpioName.GetGpioName | bin/gpio/main.py:16-21 | `get_gpio_name` returns `False` exactly when no entry matches `gpio<pin>_*`, and otherwise a name without `/` |
| GpioName.GlobFirst | bin/gpio/main.py:17-18 | the glob is non-empty exactly when some entry matches, and its first hit is the first matching entry under the directory |
| GpioName.GetGpioNameIsFirstMatch | bin/gpio/main.py:16-21 | `get_gpio_name` returns the base name of the first entry matching `gpio<pin>_*`, and `False` when none matches |
| GpioName.ResolvedNameNonEmpty | bin/gpio/main.py:18-21 | a resolved name is never empty, so `if gpio_name:` is true exactly when the glob found an entry |
| GpioName.PatternsDisjoint | bin/gpio/main.py:17 | two different pin numbers without `_` never match the same directory entry |
| Groups.GetGrNam | bin/gpio/main.py:100 | `getgrnam` returns the first group of that name, and raises exactly when no group has it |
| Groups.GetGrGid | bin/gpio/main.py:101 | `getgrgid` returns the first group with that gid, and raises exactly when no group has it |
| Groups.UniqueGidsOwn | bin/gpio/main.py:100-101 | without shared gids, looking up the gid of an existing group gives that group back |
| Groups.SameGroupIffSameGid | bin/gpio/main.py:100-105 | when the group owns its gid, the two group entries are equal exactly when the directory's gid is the group's gid |
| Sysfs.Sys.Export | bin/gpio/main.py:126-127 | the export write keeps every existing directory, adds at most one, the kernel's directory for the pin when it knows the pin and none otherwise, and records one export write |
| Sysfs.Sys.WriteDirection | bin/gpio/main.py:139-142 | only the direction of that directory changes, to the text written; names, values, owners and other directories are unchanged; one direction write is recorded |
| Sysfs.Sys.WriteValue | bin/gpio/main.py:144-147 | only the value of that directory changes, to the text written; names, directions, owners and other directories are unchanged; one value write is recorded |
| Sysfs.Sys.ChangeGroup | bin/gpio/main.py:152-157 | the directory and its two files get the new gid and keep their users; texts, names and other directories are unchanged; three group changes on that directory are recorded |
| Sysfs.GpioClass.Export | bin/gpio/main.py:126-127 | writing the pin to the export file adds the kernel's directory for that pin, if any, and records the write |
| Sysfs.GpioClass.WriteDirection | bin/gpio/main.py:139-142 | the pin directory's direction becomes the text written; the write is recorded |
| Sysfs.GpioClass.WriteValue | bin/gpio/main.py:144-147 | the pin directory's value becomes the text written; the write is recorded |
| Sysfs.GpioClass.ChangeGroup | bin/gpio/main.py:152-157 | the directory, direction file and value file get the new gid and keep their users; three group changes are recorded in that order |
| Reconcile.InputExempt | bin/gpio/main.py:135-136 | for direction `in` the value flag is cleared; the other flags are kept |
| Reconcile.ApplyWrites | bin/gpio/main.py:138-147 | the direction and value writes keep the number and names of the directories |
| StepProperties.ApplyWritesFacts | bin/gpio/main.py:138-147 | the direction becomes `dir` exactly when `dir_set`, the value becomes `val` exactly when `val_set`, other directories and all names are unchanged, and the new effects are those writes in that order |
| Reconcile.Apply | bin/gpio/main.py:138-157 | the writes and ownership changes keep the number and names of the directories |
| StepProperties.ApplyFacts | bin/gpio/main.py:138-157 | as `ApplyWritesFacts`, and the directory's gid becomes the group's exactly when `grp_set`; users never change; the new effects are the direction write, the value write and the three ownership changes, each under its flag |
| Reconcile.ExportedStep | bin/gpio/main.py:96-122 | for an exported pin, the iteration raises exactly when `getgrnam` or `getgrgid` finds nothing; an exception leaves sysfs unchanged, since both lookups come before any write; names are never changed |
| Reconcile.UnexportedStep | bin/gpio/main.py:123-157 | for a pin without a directory, the first effect is always the export write; an ignored export raises with nothing else changed; the only exceptions are the ignored export and `getgrnam`; when nothing raises the pin resolves afterwards |
| Reconcile.PinStep | bin/gpio/main.py:85-157 | an iteration raises `ValueError` exactly when the configured text does not hold one comma; when nothing raises the pin resolves afterwards; an exception for a pin that was already exported leaves sysfs unchanged |
| Reconcile.RunPins | bin/gpio/main.py:84-157 | the loop over the pins in file order, stopping at the first exception; it has no contract of its own: `ReconcileAll`, `FailingPinConfigured`, `CompletedRunSettlesAll`, `SettledRunIsNoOp` and `RunTouchesOnlyConfigured` state its properties |
| Reconcile.FailingPinConfigured | bin/gpio/main.py:84-157 | the loop `RunPins` reports an exception only together with one of the configured pins |
| Reconcile.ReconcilePin | bin/gpio/main.py:85-157 | one iteration, changing sysfs in place, ends in the state and with the exception that `PinStep` gives |
| Reconcile.ReconcileAll | bin/gpio/main.py:84-157 | the loop ends in the state `RunPins` gives, and reports the first pin that raised together with its exception |
| StepProperties.ExportedPinEffects | bin/gpio/main.py:96-122 | for an exported pin: no export; the direction is written iff its stripped text differs; the value iff the pin is `out` and its stripped text differs; the group changes iff the group entries differ, which is iff the gids differ when the group owns its gid |
| StepProperties.UnexportedPinEffects | bin/gpio/main.py:123-157 | for a pin that is not exported: one export write, then the direction write, the value write unless the pin is an input, and the three group changes; the new directory ends with the configured direction, value and group |
| StepProperties.InputPinValueUntouched | bin/gpio/main.py:135-147 | for direction `in` no value file is written and no pin's value changes, exported before or not |
| StepProperties.UnexportedInputValueUntouched | bin/gpio/main.py:123-147 | for an input pin without a directory, whatever directory the kernel creates: no value write, and no existing value changes |
| StepProperties.StepTouchesOnlyItsPin | bin/gpio/main.py:138-157 | whatever it ends with, an iteration only adds effects concerning its own pin, changes or adds only that pin's directories, and changes no file's user |
| StepProperties.StepInLane | bin/gpio/main.py:85-157 | one iteration stays in its pin's lane: the trace only grows, only its own directories change, and an input's value is untouched |
| Convergence.StepSettles | bin/gpio/main.py:96-157 | an iteration that raises nothing leaves its pin settled, provided the configured texts read back unchanged (`CleanSpec`), the group owns its gid and the kernel creates `gpio<pin>_...` directories. Settled means resolvable, with the configured direction, the configured value if an output, and the configured group on the directory; the groups of the `direction` and `value` files are not part of it |
| Convergence.SettledStepIsNoOp | bin/gpio/main.py:96-157 | for a settled pin all three flags are false: no export, no write, no group change, and no exception |
| Convergence.FileGroupsUnchecked | bin/gpio/main.py:100-101 | a settled pin whose `direction` and `value` files belong to any other group stays settled, and its iteration changes nothing: the files' groups are never checked |
| Convergence.SettledSurvivesStep | bin/gpio/main.py:84-157 | for two different pin numbers without `_` and a kernel that creates `gpio<pin>_...` directories, processing one pin leaves the other, if settled, settled |
| Convergence.RunKeepsSettled | bin/gpio/main.py:84-157 | for pin numbers without `_`, none equal to the settled pin, and a kernel that creates `gpio<pin>_...` directories, a settled pin stays settled through the iterations of the other pins |
| Convergence.CompletedRunSettlesAll | bin/gpio/main.py:84-157 | after a loop that completes, every configured pin is settled (directory group, direction, output value), provided the pins are distinct and free of `_`, every `dir,val` is clean (`CleanPins`), the group owns its gid and the kernel creates `gpio<pin>_...` directories |
| Convergence.SettledRunIsNoOp | bin/gpio/main.py:84-157 | when every configured pin is settled, the loop completes without any effect |
| Convergence.SecondRunIsNoOp | bin/gpio/main.py:84-157 | after a loop that completes, a second loop over the same pins completes and changes nothing |
| Convergence.RunTouchesOnlyConfigured | bin/gpio/main.py:84-157 | however the loop ends, every effect concerns a configured pin, no file changes its user, and directories of unconfigured pins are unchanged |
| ConfigCheck.Lookup | bin/gpio/main.py:58 | `section[key]` gives a value stored under the key, and raises exactly when the key is absent |
| ConfigCheck.FirstMissing | bin/gpio/main.py:42-47 | none exactly when all names are sections; otherwise the first name that is not a section |
| ConfigCheck.FirstMissingSection | bin/gpio/main.py:42-47 | the loop with the `err` flag reports exactly the first missing section |
| ConfigCheck.NoneMissing | bin/gpio/main.py:43-51 | nothing is reported missing exactly when `Paths`, `Permissions` and `GPIO` are all present |
| ConfigCheck.MissingSectionFirst | bin/gpio/main.py:42-51 | whatever else is wrong, a missing section stops the script, and it is the first missing one in the order `Paths`, `Permissions`, `GPIO` |
| ConfigCheck.PathProblem | bin/gpio/main.py:58-60 | a path option passes exactly when it is present and names an existing path; otherwise it is missing (KeyError) or reported as bad |
| ConfigCheck.FirstPathProblem | bin/gpio/main.py:57-66 | none exactly when every path option passes; otherwise the problem of the first option that fails |
| ConfigCheck.NoPathProblem | bin/gpio/main.py:57-66 | the path checks pass exactly when `GPIO_Path`, `GPIO_Export` and `GPIO_Unexport` are each present and exist |
| ConfigCheck.PathChecksInOrder | bin/gpio/main.py:57-66 | the problem reported is that of `GPIO_Path`, else that of `GPIO_Export`, else that of `GPIO_Unexport` |
| ConfigCheck.FirstBadPathReported | bin/gpio/main.py:57-79 | the script stops on the first of the three path options that is missing or does not exist |
| ConfigCheck.PathErrorHidesGroup | bin/gpio/main.py:57-79 | after a path error neither the `Permissions` section nor `/etc/group` can change the outcome, since `GPIO_Group` is never looked up |
| ConfigCheck.Validate | bin/gpio/main.py:37-79 | the configuration is accepted exactly when it is readable, has all sections, the three paths exist and the group occurs in `/etc/group`. `Unreadable` is reported exactly when nothing was read. An accepted configuration hands on the `GPIO` section and the group. A reported group does not occur in `/etc/group` |
| ConfigCheck.CheckConfig | bin/gpio/main.py:37-79 | the checks run in the script's order with its `err` flag and end in the outcome `Validate` gives |
| Setup.RunSetup | bin/gpio/main.py:25-160 | the script exits before any pin exactly when the configuration is not accepted, and then sysfs is unchanged |
| Setup.SetUp | bin/gpio/main.py:25-160 | `main`, changing sysfs in place, ends in the state and outcome `RunSetup` gives |
| Setup.SetupTouchesOnlyConfigured | bin/gpio/main.py:84-157 | whatever the configuration, the trace only grows and no file changes its user. When the configuration is accepted, every effect concerns a configured pin and unconfigured pins' directories are unchanged |
| Setup.SetupIdempotent | bin/gpio/main.py:84-157 | after a run that completed, running again with the same configuration completes with exactly the same state: no export, write or group change |
| Setup.GapConfigAccepted | bin/gpio/main.py:68-79 | a configuration naming group `gpi` passes all checks when `/etc/group` lists only `gpio` |
| Setup.GapPinStep | bin/gpio/main.py:123-157 | pin 17 of that configuration is exported, its direction and value written, and then `getgrnam` raises |
| Setup.GroupSubstringAccepted | bin/gpio/main.py:68-157 | the substring group check accepts a group that `getgrnam` cannot find, and the run aborts after having changed a pin |

## Left out

- Argument parsing (lines 162-169) is not modelled: it only chooses the
  configuration file and the verbosity.
- The root check (lines 171-174) is not modelled. For a user other than
  root it prints the help and exits before `main` runs, so nothing is
  checked or changed; the model describes a run as root.
- The verbose output and the texts of the error messages are not
  modelled. An error is modelled by which error it is, and an unexpected
  exception by the pin and the `PinError` it raised.
- Reading the configuration is not modelled: the file arrives already
  parsed, or as `None` when `config.read` reads nothing. Parse errors
  raised by configparser are not modelled.
- Three configparser details are not modelled:
  - option names are lower-cased on read;
  - the `DEFAULT` section's options appear in every section and in
    `for pin in gpio`;
  - values are interpolated.
- Option names in the model are compared exactly, and each section is
  its options in file order.
- `os.path.exists` is membership in a set of existing paths. Failing to
  open `/etc/group` is not modelled.
- The path templates `GPIO_Directory`, `GPIO_Direction` and `GPIO_Value`
  are assumed present, and are assumed to name the pin directory and its
  two files. The `KeyError` raised in the loop when one of them is missing
  is not modelled.
- `GPIO_Path` is assumed to be the directory whose listing the model
  holds. Glob metacharacters inside a pin number are not modelled: the
  pin is matched literally.
- The kernel is modelled only through the directory it creates on
  export. The following are not modelled:
  - it rejecting an invalid direction or value text;
  - the value of an input pin changing by itself;
  - the trailing newline of sysfs reads (`strip()` removes it, so stored
    texts are taken as read).
- A pin that still does not resolve after the export write makes the
  script open `False/direction`, which fails. This is the `ExportIgnored`
  exception. A directory actually named `False` is not modelled.
- I/O errors of writes and of `os.chown` (for example when not run as
  root) are not modelled.
- The password and member fields of `/etc/group` lines are not modelled.
  The text of `/etc/group` and the group database are independent
  parameters.
- Two runs at once are not modelled; the script does not coordinate
  with other instances.
- Convergence.SecondRunIsNoOp: stated only under these conditions:
  - every configured `dir,val` is exactly one comma with no surrounding
    whitespace in either part (`CleanSpec`);
  - no pin number holds `_`;
  - pin numbers are distinct;
  - the configured group owns its gid;
  - the kernel creates `gpio<pin>_...` directories.

  Without them the script is not idempotent: a value configured as ` 1`
  never equals the stripped text read back, so it is written on every
  run.
- Convergence.StepSettles: guarantees the configured group only for the
  pin's directory. Line 101 looks only at the directory's group, so once
  the directory is right the `direction` and `value` files keep whatever
  group they have (`Convergence.FileGroupsUnchecked`).
- Convergence.CompletedRunSettlesAll: the same as `Convergence.StepSettles`:
  only the directories are guaranteed to carry the configured group.
- Sysfs.Sys.WriteDirection: a direction write is assumed to leave the
  value file alone. In the Linux GPIO sysfs interface, writing `out` to
  `direction` drives the pin low. So an input that reads `1` and is
  configured `out,1` has its value write skipped (line 118) and ends at
  `0`. `Convergence.StepSettles`, `Convergence.CompletedRunSettlesAll`,
  `Convergence.SecondRunIsNoOp` and `Setup.SetupIdempotent` hold only
  under this assumption.
- Setup.SetupIdempotent: same conditions as `Convergence.SecondRunIsNoOp`.
  Configparser guarantees distinct option names (`WellFormed`), so that
  condition holds for every real configuration.

# A model of `shh`'s systemd service handling

`shh` hardens systemd services. It profiles a service and then installs the sandboxing options
that the profile allows. `src/systemd/service.rs` holds the part that talks to systemd, and this
project models that part:

- **Unit identity.** `Service::new` splits a unit token at its first `@`. `unit_name` builds
  `<name>[@<arg>].service`. `fragment_path` builds the path of one of the tool's two drop-in files
  (`/run/systemd/system/<name>[@].service.d/zz_shh-profile.conf` and
  `/etc/systemd/system/<name>[@].service.d/zz_shh-harden.conf`). The instance argument is dropped,
  so every instance of a template shares the template's fragments.
- **Finding the unit's files.** `config_paths` reads the text of `systemctl status`. The
  `Loaded:` line names the main unit file, and the lines under `Drop-In:` list drop-in files
  under one or more directories.
- **Reading a directive.** `config_vals` reads the values of one directive across those files, in
  file order. A line ending in `\` continues on the next line. An empty assignment discards every
  value before it, including those from earlier files.
- **The profiling fragment.** `add_profile_fragment` first refuses when either fragment already
  exists. It then writes a fixed header, plus `SystemCallFilter=@debug` when the unit already
  filters system calls. For each of `ExecStartPre`, `ExecStart` and `ExecStartPost` it writes a
  reset line when the directive has commands, and then every command. A command with the `+` prefix is written unchanged; any
  other is wrapped in `shh run … -p <dir>/<nnn> -- <cmd>`, with one counter numbering profiles
  from 001 across all three directives. A final `ExecStopPost=` line merges all the profiles.
- **The hardening fragment.** `add_hardening_fragment` writes the banner, the section and one
  line per option. `remove_*` deletes a fragment and fails when it is missing.
- **Control.** `action` and `reload_unit_config` build the `systemctl` argument vector and turn
  the exit status into a result.
- **Reading the profile back.** `profiling_result` reads the journal newest line first and cuts
  out the lines between an end marker and a start marker. It then restores the order in which
  those lines were logged.

The files are modules in dependency order:

- `results.dfy` holds `Option`, `Result`, the error kinds and the exit status.
- `text.dfy` holds the Rust string operations used: `trim*`, `split_once`, `split`, `join`,
  the `03` and `08x` formats.
- `units.dfy`, `directives.dfy`, `status.dfy`, `fragments.dfy`, `control.dfy` and `journal.dfy`
  model the service code.

The same pattern repeats for every loop or step-by-step writer of the source. Each one is a
method with loop invariants, proved equal to a recursive specification function. Lemmas then
state the source's promises about that function.

The file system is a map from path to the lines of the file. Subprocess output is a parameter:
the status text, the journal lines and the exit status. So are the random number, the path of
the running executable and the hardening options' command line.

## Model

| member | source | states |
|---|---|---|
| Units.New | src/systemd/service.rs:31-43 | the name never holds `@`; there is an argument exactly when the token holds `@`, and name, `@` and argument spell the token back |
| Units.NewOfParts | src/systemd/service.rs:31-43 | a name without `@` and any argument are recovered from `<name>@<arg>` (and a bare name from itself) |
| Units.UnitNameOfNew | src/systemd/service.rs:45-55 | the unit name of a parsed token is the token followed by `.service` |
| Units.UnitName | src/systemd/service.rs:45-55 | definition; UnitNameOfNew and Control.ActionTargetsUnit state that it gives back the token with `.service` |
| Units.PathJoin | src/systemd/service.rs:399-410 | definition of `PathBuf::push`: an absolute component replaces the path, otherwise a `/` is put between unless the base is empty or ends with `/`; helpers JoinWithSlash and JoinAfterSlash, and Fragments.JoinRelativeInjective |
| Units.FragmentPath | src/systemd/service.rs:398-411 | definition; its directory part ends in `d` and is absolute exactly when the unit name is (helper `FragmentDir`); FragmentPathLayout, FragmentRoot, FragmentPathOfInstances and FragmentsDistinct state its properties |
| Units.FragmentPathLayout | src/systemd/service.rs:398-411 | the path is `<tree>/systemd/system/<name>[@].service.d/zz_shh-<kind>.conf`; a unit name that is itself absolute replaces the tree, as `PathBuf::push` does |
| Units.FragmentRoot | src/systemd/service.rs:400 | for a relative unit name the path starts with `/etc/` exactly when persistent and with `/run/` exactly when not |
| Units.FragmentPathOfInstances | src/systemd/service.rs:402-406 | all instances of a template share one fragment path, which differs from the plain unit's |
| Units.FragmentsDistinct | src/systemd/service.rs:62-67 | the profiling and the hardening fragment paths never coincide |
| Text.TrimStartSuffix | src/systemd/service.rs:358 | `trim_start` keeps a suffix and drops only whitespace |
| Text.TrimEndPrefix | src/systemd/service.rs:312 | `trim_end` keeps a prefix and drops only whitespace |
| Text.TrimKeepsLast | src/systemd/service.rs:307-315 | trimming a line that ends with `\` keeps that `\` last, so the `pop` removes exactly it |
| Text.SplitOnce | src/systemd/service.rs:309-311 | `split_once` gives the text before the first separator and the rest, and gives nothing exactly when the separator is absent |
| Text.JoinSplit | src/systemd/service.rs:388 | joining the pieces of `split(", ")` with `, ` gives back the split text |
| Text.Pad3 | src/systemd/service.rs:136 | the `03` format gives exactly three digits below 1000, the plain decimal above, and reads back as the number |
| Text.HexRoundTrip | src/systemd/service.rs:105-109 | the `08x` format of a 32-bit number reads back as that number |
| Directives.LineValue | src/systemd/service.rs:308-335 | definition: the text after the first `=`, trimmed; DirectiveLine and ContinuedFirstPart state its value |
| Directives.Continue | src/systemd/service.rs:317-328 | a continuation ends strictly after its start and within the file, or fails with an unexpected end of file |
| Directives.ContinueExtent | src/systemd/service.rs:317-328 | a continuation stops at the first line without a trailing `\`, and fails exactly when every remaining line has one |
| Directives.ContinueJoins | src/systemd/service.rs:317-328 | a continued value is the first part followed, for each continuation line, by one space and that line without leading whitespace and trailing `\` |
| Directives.ContinuedFirstPart | src/systemd/service.rs:307-315 | the first part of a continued line is its trimmed value without the trailing `\` |
| Directives.FileValues | src/systemd/service.rs:302-339 | definition of one file's values; its only error is an unexpected end of file; ReadFileValues computes it, and FileValuesUncontinued, OneContinuedValue and PlainFile state what it yields (line by line through helper `FileValuesStep`) |
| Directives.FileValuesUncontinued | src/systemd/service.rs:304-338 | without continued lines, a file's values are the trimmed values of the lines starting with `<key>=`, in line order |
| Directives.JoinContinued | src/systemd/service.rs:317-328 | the continuation loop computes the continuation function |
| Directives.LineAt | src/systemd/service.rs:306-337 | reading one directive line, continued or not, yields the file's first value from that line and the line to go on from, or its error |
| Directives.ReadFileValues | src/systemd/service.rs:302-339 | the line loop yields the file's values or its first error |
| Directives.LastEmpty | src/systemd/service.rs:340 | the position of an empty value with no empty value after it |
| Directives.Reset | src/systemd/service.rs:340-344 | values without an empty one stay without one after the reset |
| Directives.ResetStep | src/systemd/service.rs:340-343 | one turn of the reset loop leaves the final result unchanged |
| Directives.ApplyResets | src/systemd/service.rs:340-344 | the reset loop keeps what follows the last empty value, or the earlier values followed by the file's |
| Directives.Resolve | src/systemd/service.rs:295-347 | resolved values never hold an empty value; one more file resets the values so far by its own values (helper `ResolveSnoc`), and the lemmas below state what that means |
| Directives.ConfigVals | src/systemd/service.rs:295-347 | the method computes the resolved values or the first missing file or bad file |
| Directives.ResolveErrorPersists | src/systemd/service.rs:299-300 | an error in the first files is the error of all of them |
| Directives.ResolveResets | src/systemd/service.rs:340-344 | with an empty assignment in a file, the files before it do not matter, and only that file's values after its last empty one survive |
| Directives.ResolveAppends | src/systemd/service.rs:344 | files without an empty assignment append their values after everything before them, in file order |
| Directives.DirectiveLine | src/systemd/service.rs:306-335 | the line `<key>=<v>` is matched, is not continued, and has value `v` |
| Directives.PlainFile | src/systemd/service.rs:304-338 | a file of plain assignments to `key` among other keys' lines yields those values in order |
| Directives.ResetExample | src/systemd/service.rs:419-442 | the reset example of the unit tests, for any key and values: `a`,`b` / reset,`c`,others / `d` resolve to `c`,`d` |
| Directives.ResetExampleFirst | src/systemd/service.rs:426-431 | the first two files of that example resolve to `c` |
| Directives.MultilineExample | src/systemd/service.rs:444-463 | the continuation example of the unit tests, for any key and parts: `<key>=<v1>\`, ` <v2>\`, ` <v3>` give the single value `<v1> <v2> <v3>`, keeping any space a part ends with |
| Directives.OneContinuedValue | src/systemd/service.rs:304-337 | a file holding one continued assignment yields its joined value alone |
| Status.MainUnitPath | src/systemd/service.rs:362-368 | the main unit file is the text between the first `(` and the next `;`, and is missing exactly when there is no `;` after that `(` |
| Status.DropInDir | src/systemd/service.rs:374-378 | the drop-in directory is the text after `Drop-In:` without leading whitespace |
| Status.FileNames | src/systemd/service.rs:388 | a listing gives at least one file name and no name holds `, ` |
| Status.FileNamesJoin | src/systemd/service.rs:388 | the names joined with `, ` are the listing without its first two characters |
| Status.InDir | src/systemd/service.rs:388-391 | each name is joined to the current drop-in directory, in order |
| Status.LineStep | src/systemd/service.rs:358-393 | a turn that goes on only appends paths, and a scan that stops successfully returns the paths so far |
| Status.Scan | src/systemd/service.rs:356-395 | the paths found so far are a prefix of the result |
| Status.AppendInDir | src/systemd/service.rs:388-391 | the inner loop appends the joined paths in order |
| Status.Advance | src/systemd/service.rs:358-393 | the loop body computes one step of the scan, error cases included |
| Status.StatusPaths | src/systemd/service.rs:349-396 | definition: the scan from the first line with no path and no drop-in directory; ConfigPaths computes it, and MainUnitFirst and StatusWithoutUnit state its properties |
| Status.ConfigPaths | src/systemd/service.rs:349-396 | the loop over the status lines computes the scan's result, each turn (helper `Turn`) either ending the scan or leaving the rest of it to decide |
| Status.ScanFirst | src/systemd/service.rs:359-369 | from an empty start, the first path found is the main unit file of some `Loaded:` line |
| Status.MainUnitFirst | src/systemd/service.rs:359-369 | the first configuration file is always the main unit file of a `Loaded:` line |
| Status.StepFromEmpty | src/systemd/service.rs:359-379 | before any path, a line either leaves the scan unchanged or starts the paths with a `Loaded:` line's main unit file |
| Status.ScanWithoutUnit | src/systemd/service.rs:356-395 | without `Loaded:` lines the scan fails exactly when some line is `Drop-In:`, and otherwise finds nothing (line by line through helpers `LineWithoutUnit` and `ScanWithoutUnitStep`) |
| Status.StatusWithoutUnit | src/systemd/service.rs:349-396 | without a `Loaded:` line no file is found, and a `Drop-In:` line is then the error `DropInWithoutUnit` |
| Fragments.ProfileDataName | src/systemd/service.rs:105-109 | the profile data directory name has a fixed length and no `/` |
| Fragments.FileName | src/systemd/service.rs:114 | the last component holds no `/` |
| Fragments.FileNameOfDataDir | src/systemd/service.rs:105-115 | `RuntimeDirectory=` names exactly the directory the profiles go to |
| Fragments.Rewrite | src/systemd/service.rs:130-150 | definition of one directive's rewriting: one line per command, and one profile path per command without the `+` prefix (counted by helper `Unprivileged`); the contents are stated by RewriteLines and RewritePaths |
| Fragments.RewriteLines | src/systemd/service.rs:130-149 | a `+` command is written unchanged; any other is wrapped with the profile numbered after the wrapped commands before it |
| Fragments.RewriteLineAt | src/systemd/service.rs:130-149 | the same for one command |
| Fragments.RewritePaths | src/systemd/service.rs:136-148 | a directive's profile paths are consecutive numbers from where the counter stood |
| Fragments.FamiliesPaths | src/systemd/service.rs:123-151 | across the three directives the profile paths are `<dir>/001`, `<dir>/002`, … in order |
| Fragments.StepNumbered | src/systemd/service.rs:125-150 | one more directive keeps that numbering |
| Fragments.ProfilePathInjective | src/systemd/service.rs:136 | different counter values give different profile paths |
| Fragments.FamiliesPathsDistinct | src/systemd/service.rs:136-148 | no two wrapped commands share a profile path |
| Fragments.WrapFailureStays | src/systemd/service.rs:126 | once a directive fails to resolve, the later directives write nothing |
| Fragments.WrapStep | src/systemd/service.rs:125-150 | definition of one directive: resolved, the reset line when it has commands, then rewritten; WrapFamily computes it and StepNumbered keeps the numbering |
| Fragments.WrapFamilies | src/systemd/service.rs:122-151 | definition of the three directives in order; WrapExecStarts computes it, and FamiliesPaths, FamiliesPathsDistinct and WrapFailureStays state its properties |
| Fragments.MergeLine | src/systemd/service.rs:153-164 | definition: `ExecStopPost=<bin> merge-profile-data <opts> <paths joined by spaces>`; WriteWrapped writes it last, over the paths FamiliesPaths numbers |
| Fragments.WrapCommands | src/systemd/service.rs:130-150 | the command loop writes the rewritten lines and paths and advances the counter by the number of paths |
| Fragments.WrapFamily | src/systemd/service.rs:126-150 | one directive: its values resolved, the reset line when there are some, then its commands rewritten |
| Fragments.WrapExecStarts | src/systemd/service.rs:122-151 | the directive loop writes what the specification writes, stopping at the first failure |
| Fragments.Header | src/systemd/service.rs:84-115 | definition; HeaderDebug and FileNameOfDataDir state its properties |
| Fragments.HeaderDebug | src/systemd/service.rs:84-115 | `SystemCallFilter=@debug` is written exactly when the unit already filters system calls; the header starts with the fixed preamble and ends with the runtime directory |
| Fragments.ProfilesInRuntimeDirectory | src/systemd/service.rs:105-136 | every profile path lies directly inside `/run/<runtime directory>` |
| Fragments.WrappedFragment | src/systemd/service.rs:122-164 | definition of the writing after the header; WriteWrapped computes it |
| Fragments.CreatedFragment | src/systemd/service.rs:82-164 | definition of what follows the creation of the file; CreateFragment computes it and CreatedOnlyWrites bounds what it writes |
| Fragments.ProfileFragment | src/systemd/service.rs:57-168 | definition of the whole operation; AddProfileFragment computes it, and ProfileFrame, ProfileSucceeds, ProfileTwice, HardeningBlocksProfile and RemoveAfterProfile state its properties |
| Fragments.CreateFragment | src/systemd/service.rs:82-120 | writing the header line by line gives the specified file, or the preamble alone when resolving `SystemCallFilter` fails |
| Fragments.WriteWrapped | src/systemd/service.rs:122-164 | the wrapped directives and then the merge line over all profile paths are written, or the lines so far when a directive fails |
| Fragments.AddProfileFragment | src/systemd/service.rs:57-168 | the whole operation computes the specified outcome: files and result |
| Fragments.CreatedOnlyWrites | src/systemd/service.rs:82-164 | once created, the fragment is the only file written |
| Fragments.ProfileFrame | src/systemd/service.rs:61-83 | before creation nothing changes and the result is an error; after it, only the fragment file differs |
| Fragments.ProfileSucceeds | src/systemd/service.rs:57-168 | the operation succeeds exactly when the file was created, every directive resolved and the executable path is text |
| Fragments.ProfileTwice | src/systemd/service.rs:61-66 | a second profiling run fails with `FragmentExists` and changes nothing |
| Fragments.RemoveAfterProfile | src/systemd/service.rs:170-183 | removing the created profiling fragment restores the file system |
| Fragments.RemoveFragment | src/systemd/service.rs:170-190 | definition of both removals: the file is deleted, or `FileNotFound` when it is not there; RemoveAfterProfile and RemoveAfterHardening state its effect |
| Fragments.HardeningFragment | src/systemd/service.rs:192-210 | definition; AddHardeningFragment computes it, and HardeningBlocksProfile and RemoveAfterHardening state its properties |
| Fragments.AddHardeningFragment | src/systemd/service.rs:192-210 | the loop writes the banner, the section and the options in order at the persistent path |
| Fragments.HardeningBlocksProfile | src/systemd/service.rs:67-71 | with a hardening fragment in place, profiling fails and changes nothing |
| Fragments.RemoveAfterHardening | src/systemd/service.rs:185-190 | removing the hardening fragment deletes exactly that file |
| Control.Checked | src/systemd/service.rs:215-217 | success exactly for exit code 0; otherwise the error carries the status |
| Control.ActionArgs | src/systemd/service.rs:224-228 | definition; Action builds it push by push, and ActionArgsShape and ActionTargetsUnit state its properties |
| Control.Action | src/systemd/service.rs:221-234 | the argument vector is the verb, `--no-block` unless blocking, and the unit name; the result follows the exit status |
| Control.ActionArgsShape | src/systemd/service.rs:224-228 | the verb comes first and the unit last; `--no-block` appears exactly when not blocking |
| Control.ActionTargetsUnit | src/systemd/service.rs:222-228 | the last argument is the unit token followed by `.service` |
| Control.ReloadUnitConfig | src/systemd/service.rs:212-219 | `systemctl daemon-reload`, failing unless it exits with 0 |
| Journal.JournalArgs | src/systemd/service.rs:238-247 | definition of the `journalctl` arguments (newest first, message text only, the unit's lines); the unit name is the last of the seven |
| Journal.SkipToEnd | src/systemd/service.rs:260-264 | definition of the `skip_while`, never longer than the journal; SkipToEndAt and SkipToEndNone state where it stops |
| Journal.TakeThrough | src/systemd/service.rs:265-269 | definition of the `take_while_inclusive`, never longer than its input; TakeThroughAt and TakeThroughNone state where it stops |
| Journal.ProfilingSnippet | src/systemd/service.rs:257-286 | definition of the extraction; SnippetPositions, SnippetNeedsEnd, SnippetNeedsStart, SameMarkers and SnippetRoundTrip state its properties |
| Journal.SkipToEndAt | src/systemd/service.rs:260-264 | skipping stops at the first end marker |
| Journal.SkipToEndNone | src/systemd/service.rs:260-264 | without an end marker everything is skipped |
| Journal.TakeThroughAt | src/systemd/service.rs:265-269 | taking stops right after the first start marker |
| Journal.TakeThroughNone | src/systemd/service.rs:265-269 | without a start marker everything is taken |
| Journal.SnippetPositions | src/systemd/service.rs:257-286 | the extraction equals a definition by positions: the first end marker, then the first start marker after it, strictly later, the lines between reversed |
| Journal.SnippetNeedsEnd | src/systemd/service.rs:271-278 | without an end marker the snippet is not found |
| Journal.SnippetNeedsStart | src/systemd/service.rs:271-278 | a snippet cut off before its start marker is not found |
| Journal.SameMarkers | src/systemd/service.rs:271-278 | when both markers are the same line no snippet is found |
| Journal.SnippetRoundTrip | src/systemd/service.rs:279-286 | options logged between the markers come back in the order they were logged, whatever surrounds them |
| Journal.SnippetExample | src/systemd/service.rs:279-286 | `[end, b, a, start, …]` read newest first gives `a`, `b` |
| Journal.Reverse | src/systemd/service.rs:282-284 | definition; ReverseAt gives each position, and ReverseReverse that reversing twice is the identity |
| Journal.ReverseReverse | src/systemd/service.rs:282-284 | reversing twice gives the lines back |

## Left out

- Running subprocesses (`systemctl status`, `systemctl`, `journalctl`) is not modelled. Their
  output or exit status is a parameter. A failure to spawn them, or an I/O error while reading
  their output line by line, is not modelled either.
- `journalctl` is killed and waited for only when extraction succeeds, since the source returns
  early on every error. Killing and waiting are not modelled.
- The marker constants `START_OPTION_OUTPUT_SNIPPET` and `END_OPTION_OUTPUT_SNIPPET` are defined
  in `src/systemd/mod.rs`, which is not part of this model. They are parameters of the journal
  functions.
- Parsing each snippet line into an `OptionWithValue` is not modelled; the lines are returned as
  text. Rendering the hardening options (`OptionWithValue` display, `HardeningOptions::to_cmdline`)
  is not modelled either: those renderings are parameters, each already a string.
- `rand::thread_rng` is not modelled; the random 32-bit suffix is a parameter.
- `env::current_exe` is not modelled. Its path is a parameter that is `None` when it is not
  valid text. A failure of `current_exe` itself is not modelled.
- `create_dir_all` and `File::create` failures are not modelled. Neither are read and write I/O
  errors or the buffering of `BufWriter`. A fragment write that fails leaves the lines written so
  far, which is what `BufWriter` flushes on drop.
- `config_vals` reads the unit's files from the file system as it was before the fragment was
  created, whereas the source reads them after `File::create`. This assumes that the status does
  not name the new fragment. If it did (a fragment removed without a `daemon-reload`), the source
  would open the new, still empty file and read no values from it, while the model's `Resolve`
  fails with `FileNotFound` for that path.
- Fragments.ProfileTwice and Fragments.HardeningBlocksProfile hold for runs one after the other
  only. Each operation is one atomic step on the file system, whereas in the source the existence
  checks and `File::create` (which truncates rather than refusing an existing file) are separate
  steps, so two runs at the same time can both pass the checks and both succeed. Concurrency is
  not modelled.
- Fragments.WrapCommands: the counter is an unbounded number, whereas the source's
  `exec_start_idx` is an `i32`. Overflow needs more than two billion commands.
- The "Unable to parse service option line" error of `config_vals` is not modelled. It cannot
  occur, because a line that starts with `<key>=` always holds an `=`
  (`Directives.PrefixHasEquals`).
- `is_file` is modelled as presence in the map; directories and permissions are not modelled.
- Logging (`log::info!`) is not modelled.
- Strings are sequences of Unicode scalar values. Whitespace follows Rust's `char::is_whitespace`
  by code point.

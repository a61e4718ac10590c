/** The drop-in fragments the tool writes and removes (`add_profile_fragment`,
    `add_hardening_fragment`, `remove_profile_fragment` and `remove_hardening_fragment` in
    `src/systemd/service.rs`). A fragment is the sequence of lines written to its file; the file
    system maps each path to the lines of its file. */
module Fragments {
  import opened Results
  import opened Text
  import opened Units
  import opened Directives
  import opened Status

  /** Commands with this prefix run with full privileges and are never wrapped. */
  const PRIVILEGED_PREFIX := "+"

  /** The directives whose commands are wrapped, in the order they are processed. */
  const EXEC_START_KEYS := ["ExecStartPre", "ExecStart", "ExecStartPost"]

  /** The directive that tells whether the unit already filters system calls. */
  const SYSCALL_FILTER_KEY := "SystemCallFilter"

  const BANNER := "# This file has been autogenerated by " + PACKAGE_NAME
  const SECTION := "[Service]"
  const DEBUG_FILTER := "SystemCallFilter=@debug"

  /** An unsigned 32-bit number, as the random generator draws it. */
  type U32 = n: nat | n < 0x1_0000_0000

  /** The profile data directory's name: the package, a fixed label and the random suffix as
      eight lower-case hex digits. */
  function ProfileDataName(suffix: U32): (name: string)
    ensures |name| == |PACKAGE_NAME| + 22 && '/' !in name
  {
    var hex := HexDigits(suffix, 8);
    assert forall k :: 0 <= k < 8 ==> hex[k] != '/' by { HexDigitsNoSlash(suffix, 8); }
    PACKAGE_NAME + "-profile-data_" + hex
  }

  lemma {:induction false} HexDigitsNoSlash(n: nat, width: nat)
    ensures forall k :: 0 <= k < width ==> HexDigits(n, width)[k] != '/'
  {
    if width > 0 {
      HexDigitsNoSlash(n / 16, width - 1);
    }
  }

  /** `/run/<name>`: where the wrapped commands leave their profiles. */
  function ProfileDataDir(suffix: U32): string {
    "/run/" + ProfileDataName(suffix)
  }

  /** `Path::file_name` of a path that does not end with `/`: its last component. */
  function FileName(path: string): (name: string)
    ensures '/' !in name
    ensures name == [] || (EndsWith(path, name[|name| - 1]) && name[|name| - 1] != '/')
  {
    if path == [] || path[|path| - 1] == '/' then []
    else
      var init := FileName(path[..|path| - 1]);
      assert '/' !in init + [path[|path| - 1]];
      init + [path[|path| - 1]]
  }

  /** The directory's last component is the name it was built from. */
  lemma FileNameOfDataDir(suffix: U32)
    ensures FileName(ProfileDataDir(suffix)) == ProfileDataName(suffix)
  {
    assert ProfileDataDir(suffix) == "/run" + "/" + ProfileDataName(suffix);
    FileNameAfterSlash("/run", ProfileDataName(suffix));
  }

  lemma {:induction false} FileNameAfterSlash(dir: string, name: string)
    requires '/' !in name
    ensures FileName(dir + "/" + name) == name
  {
    if name != [] {
      var path := dir + "/" + name;
      assert path[..|path| - 1] == dir + "/" + name[..|name| - 1];
      FileNameAfterSlash(dir, name[..|name| - 1]);
      assert name == name[..|name| - 1] + [name[|name| - 1]];
    }
  }

  /** The profile of the `idx`-th wrapped command: `<dir>/<idx:03>`. */
  function ProfilePath(dir: string, idx: nat): string {
    PathJoin(dir, Pad3(idx))
  }

  /** The fixed lines before the system call filter. */
  function Preamble(): seq<string> {
    [BANNER, SECTION, "NotifyAccess=all", "Environment=RUST_BACKTRACE=1"]
  }

  /** The whole header: the preamble, `SystemCallFilter=@debug` when the unit already has a
      filter, then the timeout, kill mode, output and runtime directory lines. */
  function Header(filtered: bool, suffix: U32): seq<string> {
    Preamble()
    + (if filtered then [DEBUG_FILTER] else [])
    + ["TimeoutStartSec=infinity", "KillMode=control-group", "StandardOutput=journal",
       "RuntimeDirectory=" + FileName(ProfileDataDir(suffix))]
  }

  /** The directive line that runs `cmd` under the profiler, leaving its profile at `path`. */
  function RunLine(key: string, bin: string, opts: string, path: string, cmd: string): string {
    key + "=" + bin + " run " + opts + " -p " + path + " -- " + cmd
  }

  function IsPrivileged(cmd: string): bool {
    StartsWith(cmd, PRIVILEGED_PREFIX)
  }

  /** The number of commands that get wrapped. */
  function Unprivileged(cmds: seq<string>): (n: nat)
    ensures n <= |cmds|
  {
    if cmds == [] then 0
    else Unprivileged(cmds[..|cmds| - 1]) + (if IsPrivileged(cmds[|cmds| - 1]) then 0 else 1)
  }

  /** The lines for the commands of one directive, numbering the wrapped ones from `first` on,
      and the profile paths those numbers give. */
  function Rewrite(key: string, cmds: seq<string>, first: nat, bin: string, opts: string, dir: string)
    : (r: (seq<string>, seq<string>))
    ensures |r.0| == |cmds| && |r.1| == Unprivileged(cmds)
  {
    if cmds == [] then ([], [])
    else
      var q := Rewrite(key, cmds[..|cmds| - 1], first, bin, opts, dir);
      var cmd := cmds[|cmds| - 1];
      if IsPrivileged(cmd) then (q.0 + [key + "=" + cmd], q.1)
      else
        var path := ProfilePath(dir, first + |q.1|);
        (q.0 + [RunLine(key, bin, opts, path, cmd)], q.1 + [path])
  }

  /** `<key>=` with no value, which drops the unit's own commands, written only when the unit
      has some. */
  function ResetLine(key: string, cmds: seq<string>): seq<string> {
    if cmds != [] then [key + "="] else []
  }

  /** What writing the wrapped directives produced: the lines, the profile paths, and the
      failure that stopped it, if any. */
  datatype Written = Written(lines: seq<string>, paths: seq<string>, failure: Option<Error>)

  /** The directives `keys`, each resolved from the unit's files and rewritten, one profile
      counter numbering the wrapped commands of all of them from 1 on; resolving one that fails
      stops the writing there. */
  function WrapFamilies(keys: seq<string>, configs: seq<string>, fs: FileSystem,
                        bin: string, opts: string, dir: string): (w: Written)
    decreases |keys|
  {
    if keys == [] then Written([], [], None)
    else WrapStep(WrapFamilies(keys[..|keys| - 1], configs, fs, bin, opts, dir), keys[|keys| - 1],
                  configs, fs, bin, opts, dir)
  }

  /** One more directive after what `w` wrote: its reset line and its commands rewritten, the
      numbers going on from the profiles already written. */
  function WrapStep(w: Written, key: string, configs: seq<string>, fs: FileSystem,
                    bin: string, opts: string, dir: string): Written
  {
    if w.failure.Some? then w
    else match Resolve(key, configs, fs)
      case Err(e) => Written(w.lines, w.paths, Some(e))
      case Ok(cmds) =>
        var r := Rewrite(key, cmds, 1 + |w.paths|, bin, opts, dir);
        Written(w.lines + ResetLine(key, cmds) + r.0, w.paths + r.1, None)
  }

  /** The last line: after the unit stops, merge every profile, in the order they were numbered. */
  function MergeLine(bin: string, opts: string, paths: seq<string>): string {
    "ExecStopPost=" + bin + " merge-profile-data " + opts + " " + Join(" ", paths)
  }

  /** The file system after an operation and whether the operation succeeded. */
  datatype Outcome = Outcome(files: FileSystem, result: Result<()>)

  /** `add_profile_fragment`. `status` is what `systemctl status` printed for the unit, `suffix`
      the random number, `exe` the running executable's path (`None` when it is not valid
      text) and `opts` the hardening options' command line. A failure once the fragment file is
      created leaves in it the lines written until then. */
  function ProfileFragment(svc: Service, fs: FileSystem, status: seq<string>, suffix: U32,
                           exe: Option<string>, opts: string): Outcome
  {
    var path := FragmentPath(svc, Profiling, false);
    var harden := FragmentPath(svc, Hardening, true);
    if path in fs then Outcome(fs, Err(FragmentExists(path)))
    else if harden in fs then Outcome(fs, Err(HardeningExists(harden)))
    else match StatusPaths(status)
      case Err(e) => Outcome(fs, Err(e))
      case Ok(configs) => CreatedFragment(fs, path, configs, suffix, exe, opts)
  }

  /** The fragment file at `path` once created, for a unit whose files are `configs`. */
  function CreatedFragment(fs: FileSystem, path: string, configs: seq<string>, suffix: U32,
                           exe: Option<string>, opts: string): Outcome
  {
    match Resolve(SYSCALL_FILTER_KEY, configs, fs)
    case Err(e) => Outcome(fs[path := Preamble()], Err(e))
    case Ok(filters) =>
      var header := Header(filters != [], suffix);
      match exe
      case None => Outcome(fs[path := header], Err(ExecutableNotUnicode))
      case Some(bin) => WrappedFragment(fs, path, header, configs, bin, opts, ProfileDataDir(suffix))
  }

  /** The fragment file at `path` once the header is written: the wrapped directives, then the
      merge command if none of them failed to resolve. */
  function WrappedFragment(fs: FileSystem, path: string, header: seq<string>, configs: seq<string>,
                           bin: string, opts: string, dir: string): Outcome
  {
    var w := WrapFamilies(EXEC_START_KEYS, configs, fs, bin, opts, dir);
    if w.failure.Some? then Outcome(fs[path := header + w.lines], Err(w.failure.value))
    else Outcome(fs[path := header + w.lines + [MergeLine(bin, opts, w.paths)]], Ok(()))
  }

  /** The hardening fragment: the banner, the section, then one line per option. */
  function HardeningLines(options: seq<string>): seq<string> {
    [BANNER, SECTION] + options
  }

  /** `add_hardening_fragment`: the persistent fragment is written, replacing any earlier one. */
  function HardeningFragment(svc: Service, fs: FileSystem, options: seq<string>): FileSystem {
    fs[FragmentPath(svc, Hardening, true) := HardeningLines(options)]
  }

  /** `remove_profile_fragment` and `remove_hardening_fragment`: the file is deleted, which fails
      when it is not there. */
  function RemoveFragment(svc: Service, kind: FragmentKind, fs: FileSystem): (r: Result<FileSystem>)
  {
    var path := FragmentPath(svc, kind, kind == Hardening);
    if path !in fs then Err(FileNotFound(path)) else Ok(fs - {path})
  }

  /** Once a directive fails to resolve, the directives after it change nothing. */
  lemma {:induction false} WrapFailureStays(keys: seq<string>, f: nat, configs: seq<string>, fs: FileSystem,
                                            bin: string, opts: string, dir: string)
    requires f <= |keys| && WrapFamilies(keys[..f], configs, fs, bin, opts, dir).failure.Some?
    ensures WrapFamilies(keys, configs, fs, bin, opts, dir) == WrapFamilies(keys[..f], configs, fs, bin, opts, dir)
    decreases |keys|
  {
    if f < |keys| {
      var init := keys[..|keys| - 1];
      assert init[..f] == keys[..f];
      WrapFailureStays(init, f, configs, fs, bin, opts, dir);
    } else {
      assert keys[..f] == keys;
    }
  }

  /** The inner loop of `add_profile_fragment` over one directive's commands: privileged ones are
      written unchanged, the others wrapped with the next profile number. */
  method WrapCommands(key: string, cmds: seq<string>, first: nat, bin: string, opts: string, dir: string)
    returns (lines: seq<string>, paths: seq<string>, next: nat)
    ensures (lines, paths) == Rewrite(key, cmds, first, bin, opts, dir)
    ensures next == first + |paths|
  {
    lines, paths, next := [], [], first;
    for k := 0 to |cmds|
      invariant (lines, paths) == Rewrite(key, cmds[..k], first, bin, opts, dir)
      invariant next == first + |paths|
    {
      assert cmds[..k + 1][..k] == cmds[..k];
      var cmd := cmds[k];
      if StartsWith(cmd, PRIVILEGED_PREFIX) {
        lines := lines + [key + "=" + cmd];
      } else {
        var path := PathJoin(dir, Pad3(next));
        next := next + 1;
        lines := lines + [key + "=" + bin + " run " + opts + " -p " + path + " -- " + cmd];
        paths := paths + [path];
      }
    }
    assert cmds[..|cmds|] == cmds;
  }

  /** One pass of the loop below: the directive's commands resolved, the reset line when
      there are some, then the commands rewritten with the numbers after those of `paths`. */
  method WrapFamily(lines: seq<string>, paths: seq<string>, key: string, configs: seq<string>,
                    fs: FileSystem, bin: string, opts: string, dir: string)
    returns (lines': seq<string>, paths': seq<string>, failure: Option<Error>)
    ensures Written(lines', paths', failure) == WrapStep(Written(lines, paths, None), key, configs, fs, bin, opts, dir)
  {
    var cmds := ConfigVals(key, configs, fs);
    if cmds.Err? {
      return lines, paths, Some(cmds.error);
    }
    lines' := lines;
    if cmds.value != [] {
      lines' := lines' + [key + "="];
    }
    var more, added, next := WrapCommands(key, cmds.value, 1 + |paths|, bin, opts, dir);
    return lines' + more, paths + added, None;
  }

  /** The loop of `add_profile_fragment` over the directives `keys` (there, `ExecStartPre`,
      `ExecStart` and `ExecStartPost`), with one profile counter for all of them. */
  method WrapExecStarts(keys: seq<string>, configs: seq<string>, fs: FileSystem, bin: string, opts: string,
                        dir: string)
    returns (lines: seq<string>, paths: seq<string>, failure: Option<Error>)
    ensures Written(lines, paths, failure) == WrapFamilies(keys, configs, fs, bin, opts, dir)
  {
    lines, paths := [], [];
    for f := 0 to |keys|
      invariant WrapFamilies(keys[..f], configs, fs, bin, opts, dir) == Written(lines, paths, None)
    {
      assert keys[..f + 1][..f] == keys[..f];
      var stop;
      lines, paths, stop := WrapFamily(lines, paths, keys[f], configs, fs, bin, opts, dir);
      if stop.Some? {
        WrapFailureStays(keys, f + 1, configs, fs, bin, opts, dir);
        return lines, paths, stop;
      }
    }
    assert keys[..|keys|] == keys;
    return lines, paths, None;
  }

  /** `Service::add_profile_fragment`: check that neither fragment exists, locate the unit's
      files, then write the fragment. */
  method AddProfileFragment(svc: Service, fs: FileSystem, status: seq<string>, suffix: U32,
                            exe: Option<string>, opts: string)
    returns (files: FileSystem, r: Result<()>)
    ensures Outcome(files, r) == ProfileFragment(svc, fs, status, suffix, exe, opts)
  {
    var path := FragmentPath(svc, Profiling, false);
    if path in fs {
      return fs, Err(FragmentExists(path));
    }
    var harden := FragmentPath(svc, Hardening, true);
    if harden in fs {
      return fs, Err(HardeningExists(harden));
    }
    var configs := ConfigPaths(status);
    if configs.Err? {
      return fs, Err(configs.error);
    }
    files, r := CreateFragment(fs, path, configs.value, suffix, exe, opts);
  }

  /** The part of `add_profile_fragment` that writes the created file: the header line by line,
      with `SystemCallFilter=@debug` when the unit already filters system calls. */
  method CreateFragment(fs: FileSystem, path: string, configs: seq<string>, suffix: U32,
                        exe: Option<string>, opts: string)
    returns (files: FileSystem, r: Result<()>)
    ensures Outcome(files, r) == CreatedFragment(fs, path, configs, suffix, exe, opts)
  {
    var fragment := [BANNER];
    fragment := fragment + [SECTION];
    fragment := fragment + ["NotifyAccess=all"];
    fragment := fragment + ["Environment=RUST_BACKTRACE=1"];
    var filters := ConfigVals(SYSCALL_FILTER_KEY, configs, fs);
    if filters.Err? {
      assert fragment == Preamble();
      return fs[path := fragment], Err(filters.error);
    }
    if filters.value != [] {
      fragment := fragment + [DEBUG_FILTER];
    }
    fragment := fragment + ["TimeoutStartSec=infinity"];
    fragment := fragment + ["KillMode=control-group"];
    fragment := fragment + ["StandardOutput=journal"];
    var dir := ProfileDataDir(suffix);
    fragment := fragment + ["RuntimeDirectory=" + FileName(dir)];
    assert fragment == Header(filters.value != [], suffix);
    if exe.None? {
      return fs[path := fragment], Err(ExecutableNotUnicode);
    }
    files, r := WriteWrapped(fs, path, fragment, configs, exe.value, opts, dir);
  }

  /** The part of `add_profile_fragment` after the header: the wrapped directives, then the
      merge command over every profile path. */
  method WriteWrapped(fs: FileSystem, path: string, header: seq<string>, configs: seq<string>,
                      bin: string, opts: string, dir: string)
    returns (files: FileSystem, r: Result<()>)
    ensures Outcome(files, r) == WrappedFragment(fs, path, header, configs, bin, opts, dir)
  {
    var lines, paths, failure := WrapExecStarts(EXEC_START_KEYS, configs, fs, bin, opts, dir);
    var fragment := header + lines;
    if failure.Some? {
      return fs[path := fragment], Err(failure.value);
    }
    fragment := fragment + ["ExecStopPost=" + bin + " merge-profile-data " + opts + " " + Join(" ", paths)];
    return fs[path := fragment], Ok(());
  }

  /** `Service::add_hardening_fragment`: the banner and the section, then each option on a line
      of its own. */
  method AddHardeningFragment(svc: Service, fs: FileSystem, options: seq<string>) returns (files: FileSystem)
    ensures files == HardeningFragment(svc, fs, options)
  {
    var fragment := [BANNER, SECTION];
    for k := 0 to |options|
      invariant fragment == [BANNER, SECTION] + options[..k]
    {
      assert options[..k + 1] == options[..k] + [options[k]];
      fragment := fragment + [options[k]];
    }
    assert options[..|options|] == options;
    files := fs[FragmentPath(svc, Hardening, true) := fragment];
  }

  /** Each command gives one line: a privileged command unchanged, any other wrapped with the
      profile numbered after the wrapped commands before it. */
  lemma RewriteLines(key: string, cmds: seq<string>, first: nat, bin: string, opts: string, dir: string)
    ensures var lines := Rewrite(key, cmds, first, bin, opts, dir).0;
      forall k :: 0 <= k < |cmds| ==> lines[k] == CommandLine(key, cmds, k, first, bin, opts, dir)
  {
    forall k | 0 <= k < |cmds|
      ensures Rewrite(key, cmds, first, bin, opts, dir).0[k] == CommandLine(key, cmds, k, first, bin, opts, dir)
    {
      RewriteLineAt(key, cmds, k, first, bin, opts, dir);
    }
  }

  /** The line of the `k`-th command. */
  lemma {:induction false} RewriteLineAt(key: string, cmds: seq<string>, k: nat, first: nat, bin: string,
                                         opts: string, dir: string)
    requires k < |cmds|
    ensures Rewrite(key, cmds, first, bin, opts, dir).0[k] == CommandLine(key, cmds, k, first, bin, opts, dir)
    decreases |cmds|
  {
    var init := cmds[..|cmds| - 1];
    var q := Rewrite(key, init, first, bin, opts, dir);
    var lines := Rewrite(key, cmds, first, bin, opts, dir).0;
    if k < |cmds| - 1 {
      assert lines[k] == q.0[k];
      RewriteLineAt(key, init, k, first, bin, opts, dir);
      CommandLineOfPrefix(key, cmds, k, first, bin, opts, dir);
    } else {
      assert init == cmds[..k];
    }
  }

  /** A command's line depends only on the commands up to it. */
  lemma CommandLineOfPrefix(key: string, cmds: seq<string>, k: nat, first: nat, bin: string, opts: string,
                            dir: string)
    requires k < |cmds| - 1
    ensures CommandLine(key, cmds[..|cmds| - 1], k, first, bin, opts, dir) == CommandLine(key, cmds, k, first, bin, opts, dir)
  {
    assert cmds[..|cmds| - 1][..k] == cmds[..k];
  }

  /** The line the `k`-th command gets when the wrapped ones are numbered from `first`. */
  function CommandLine(key: string, cmds: seq<string>, k: nat, first: nat, bin: string, opts: string,
                       dir: string): string
    requires k < |cmds|
  {
    if IsPrivileged(cmds[k]) then key + "=" + cmds[k]
    else RunLine(key, bin, opts, ProfilePath(dir, first + Unprivileged(cmds[..k])), cmds[k])
  }

  /** `paths` are the profile paths numbered consecutively from `first`. */
  predicate Numbered(paths: seq<string>, dir: string, first: nat) {
    forall j :: 0 <= j < |paths| ==> paths[j] == ProfilePath(dir, first + j)
  }

  /** Two numbered runs, the second starting where the first ends, make one. */
  lemma NumberedAppend(a: seq<string>, b: seq<string>, dir: string, first: nat)
    requires Numbered(a, dir, first) && Numbered(b, dir, first + |a|)
    ensures Numbered(a + b, dir, first)
  {
    forall j | 0 <= j < |a + b|
      ensures (a + b)[j] == ProfilePath(dir, first + j)
    {
      if j < |a| {
        assert (a + b)[j] == a[j];
      } else {
        NumberedAt(b, dir, first + |a|, j - |a|);
        assert (a + b)[j] == b[j - |a|];
      }
    }
  }

  lemma NumberedAt(paths: seq<string>, dir: string, first: nat, k: nat)
    requires Numbered(paths, dir, first) && k < |paths|
    ensures paths[k] == ProfilePath(dir, first + k)
  {
  }

  /** The profile paths of one directive are numbered consecutively from `first`. */
  lemma {:induction false} RewritePaths(key: string, cmds: seq<string>, first: nat, bin: string, opts: string,
                                        dir: string)
    ensures Numbered(Rewrite(key, cmds, first, bin, opts, dir).1, dir, first)
    decreases |cmds|
  {
    if cmds != [] {
      var init := cmds[..|cmds| - 1];
      RewritePaths(key, init, first, bin, opts, dir);
      var q := Rewrite(key, init, first, bin, opts, dir).1;
      if !IsPrivileged(cmds[|cmds| - 1]) {
        var added := [ProfilePath(dir, first + |q|)];
        assert Numbered(added, dir, first + |q|);
        NumberedAppend(q, added, dir, first);
      }
    }
  }

  /** Across all the directives, the profile paths are `<dir>/001`, `<dir>/002`, ... in order. */
  lemma {:induction false} FamiliesPaths(keys: seq<string>, configs: seq<string>, fs: FileSystem,
                                         bin: string, opts: string, dir: string)
    ensures Numbered(WrapFamilies(keys, configs, fs, bin, opts, dir).paths, dir, 1)
    decreases |keys|
  {
    if keys != [] {
      var init := keys[..|keys| - 1];
      FamiliesPaths(init, configs, fs, bin, opts, dir);
      StepNumbered(WrapFamilies(init, configs, fs, bin, opts, dir), keys[|keys| - 1], configs, fs, bin, opts, dir);
    }
  }

  /** One more directive keeps the profile paths numbered from 1. */
  lemma StepNumbered(w: Written, key: string, configs: seq<string>, fs: FileSystem,
                     bin: string, opts: string, dir: string)
    requires Numbered(w.paths, dir, 1)
    ensures Numbered(WrapStep(w, key, configs, fs, bin, opts, dir).paths, dir, 1)
  {
    if w.failure.None? && Resolve(key, configs, fs).Ok? {
      var cmds := Resolve(key, configs, fs).value;
      var r := Rewrite(key, cmds, 1 + |w.paths|, bin, opts, dir);
      assert WrapStep(w, key, configs, fs, bin, opts, dir).paths == w.paths + r.1;
      RewritePaths(key, cmds, 1 + |w.paths|, bin, opts, dir);
      NumberedAppend(w.paths, r.1, dir, 1);
    }
  }

  /** Different relative components give different paths under the same base. */
  lemma JoinRelativeInjective(base: string, a: string, b: string)
    requires a != [] && a[0] != '/' && b != [] && b[0] != '/' && PathJoin(base, a) == PathJoin(base, b)
    ensures a == b
  {
    assert a[..1] != "/" && b[..1] != "/";
    var prefix := if base == [] || EndsWith(base, '/') then base else base + "/";
    assert PathJoin(base, a) == prefix + a && PathJoin(base, b) == prefix + b;
    assert a == (prefix + a)[|prefix|..];
    assert b == (prefix + b)[|prefix|..];
  }

  /** Different numbers give different profile paths. */
  lemma ProfilePathInjective(dir: string, i: nat, j: nat)
    ensures ProfilePath(dir, i) == ProfilePath(dir, j) ==> i == j
  {
    if ProfilePath(dir, i) == ProfilePath(dir, j) {
      var p, q := Pad3(i), Pad3(j);
      assert '0' <= p[0] <= '9' && '0' <= q[0] <= '9';
      JoinRelativeInjective(dir, p, q);
      assert ParseBase(p, 10) == ParseBase(q, 10);
    }
  }

  /** No two wrapped commands share a profile path. */
  lemma FamiliesPathsDistinct(keys: seq<string>, configs: seq<string>, fs: FileSystem,
                              bin: string, opts: string, dir: string)
    ensures var w := WrapFamilies(keys, configs, fs, bin, opts, dir);
      forall i, j :: 0 <= i < j < |w.paths| ==> w.paths[i] != w.paths[j]
  {
    var w := WrapFamilies(keys, configs, fs, bin, opts, dir);
    FamiliesPaths(keys, configs, fs, bin, opts, dir);
    assert Numbered(w.paths, dir, 1);
    forall i, j | 0 <= i < j < |w.paths|
      ensures w.paths[i] != w.paths[j]
    {
      NumberedAt(w.paths, dir, 1, i);
      NumberedAt(w.paths, dir, 1, j);
      ProfilePathInjective(dir, 1 + i, 1 + j);
    }
  }

  /** The header allows `ptrace` exactly when the unit already filters system calls, since a
      filter added to a unit without one would forbid everything else. */
  lemma HeaderDebug(filtered: bool, suffix: U32)
    ensures DEBUG_FILTER in Header(filtered, suffix) <==> filtered
    ensures Header(filtered, suffix)[..4] == Preamble()
    ensures Header(filtered, suffix)[|Header(filtered, suffix)| - 1] == "RuntimeDirectory=" + ProfileDataName(suffix)
  {
    var h := Header(filtered, suffix);
    FileNameOfDataDir(suffix);
    if !filtered {
      var runtime := "RuntimeDirectory=" + FileName(ProfileDataDir(suffix));
      assert runtime[0] != DEBUG_FILTER[0];
      assert h == [BANNER, SECTION, "NotifyAccess=all", "Environment=RUST_BACKTRACE=1",
                   "TimeoutStartSec=infinity", "KillMode=control-group", "StandardOutput=journal", runtime];
      assert BANNER[0] != DEBUG_FILTER[0];
      assert SECTION[0] != DEBUG_FILTER[0];
      assert "NotifyAccess=all"[0] != DEBUG_FILTER[0];
      assert "Environment=RUST_BACKTRACE=1"[0] != DEBUG_FILTER[0];
      assert "TimeoutStartSec=infinity"[0] != DEBUG_FILTER[0];
      assert "KillMode=control-group"[0] != DEBUG_FILTER[0];
      assert |"StandardOutput=journal"| != |DEBUG_FILTER|;
    }
  }

  /** Each wrapped command writes its profile inside the runtime directory the header declares. */
  lemma ProfilesInRuntimeDirectory(suffix: U32, idx: nat)
    ensures ProfilePath(ProfileDataDir(suffix), idx) == "/run/" + ProfileDataName(suffix) + "/" + Pad3(idx)
  {
    var p := Pad3(idx);
    var dir := ProfileDataDir(suffix);
    assert '0' <= p[0] <= '9';
    assert dir[|dir| - 1] != '/' by { assert dir[|dir| - 1] == HexDigits(suffix, 8)[7]; HexDigitsNoSlash(suffix, 8); }
    JoinWithSlash(dir, p);
  }

  /** Both fragment checks passed and the unit's files were located, so the fragment file was
      created. */
  predicate Created(svc: Service, fs: FileSystem, status: seq<string>) {
    FragmentPath(svc, Profiling, false) !in fs && FragmentPath(svc, Hardening, true) !in fs
    && StatusPaths(status).Ok?
  }

  /** The created file is the only one the rest of the operation writes. */
  lemma CreatedOnlyWrites(fs: FileSystem, path: string, configs: seq<string>, suffix: U32,
                          exe: Option<string>, opts: string)
    ensures var files := CreatedFragment(fs, path, configs, suffix, exe, opts).files;
      path in files && files == fs[path := files[path]]
  {
    match Resolve(SYSCALL_FILTER_KEY, configs, fs)
    case Err(e) =>
    case Ok(filters) =>
      if exe.Some? {
        var header := Header(filters != [], suffix);
        var files := WrappedFragment(fs, path, header, configs, exe.value, opts, ProfileDataDir(suffix)).files;
        assert files == fs[path := files[path]];
      }
  }

  /** Writing the profiling fragment touches no other file; before it is created nothing
      changes at all, and once it is created it stays, even when the operation fails. */
  lemma ProfileFrame(svc: Service, fs: FileSystem, status: seq<string>, suffix: U32, exe: Option<string>,
                     opts: string)
    ensures var o := ProfileFragment(svc, fs, status, suffix, exe, opts);
      var path := FragmentPath(svc, Profiling, false);
      (Created(svc, fs, status) ==> path in o.files && o.files == fs[path := o.files[path]])
      && (!Created(svc, fs, status) ==> o.files == fs && o.result.Err?)
  {
    if Created(svc, fs, status) {
      CreatedOnlyWrites(fs, FragmentPath(svc, Profiling, false), StatusPaths(status).value, suffix, exe, opts);
    }
  }

  /** The operation succeeds exactly when the file was created, the unit's directives all
      resolved and the executable's path is text. */
  lemma ProfileSucceeds(svc: Service, fs: FileSystem, status: seq<string>, suffix: U32, exe: Option<string>,
                        opts: string)
    ensures ProfileFragment(svc, fs, status, suffix, exe, opts).result.Ok? <==>
      Created(svc, fs, status)
      && Resolve(SYSCALL_FILTER_KEY, StatusPaths(status).value, fs).Ok?
      && exe.Some?
      && WrapFamilies(EXEC_START_KEYS, StatusPaths(status).value, fs, exe.value, opts, ProfileDataDir(suffix)).failure.None?
  {
  }

  /** A second profiling run finds the first one's fragment and fails without touching anything,
      whether or not the first run succeeded. */
  lemma ProfileTwice(svc: Service, fs: FileSystem, status: seq<string>, suffix: U32, exe: Option<string>,
                     opts: string, status': seq<string>, suffix': U32, exe': Option<string>, opts': string)
    requires Created(svc, fs, status)
    ensures var files := ProfileFragment(svc, fs, status, suffix, exe, opts).files;
      ProfileFragment(svc, files, status', suffix', exe', opts')
        == Outcome(files, Err(FragmentExists(FragmentPath(svc, Profiling, false))))
  {
    ProfileFrame(svc, fs, status, suffix, exe, opts);
  }

  /** Removing the profiling fragment after it was created gives back the file system from
      before. */
  lemma RemoveAfterProfile(svc: Service, fs: FileSystem, status: seq<string>, suffix: U32, exe: Option<string>,
                           opts: string)
    requires Created(svc, fs, status)
    ensures RemoveFragment(svc, Profiling, ProfileFragment(svc, fs, status, suffix, exe, opts).files) == Ok(fs)
  {
    var path := FragmentPath(svc, Profiling, false);
    var files := ProfileFragment(svc, fs, status, suffix, exe, opts).files;
    ProfileFrame(svc, fs, status, suffix, exe, opts);
    assert fs[path := files[path]] - {path} == fs;
  }

  /** A hardening fragment in place keeps profiling from starting. */
  lemma HardeningBlocksProfile(svc: Service, fs: FileSystem, options: seq<string>, status: seq<string>,
                               suffix: U32, exe: Option<string>, opts: string)
    ensures var hardened := HardeningFragment(svc, fs, options);
      var o := ProfileFragment(svc, hardened, status, suffix, exe, opts);
      o.files == hardened
      && o.result == Err(if FragmentPath(svc, Profiling, false) in fs
                         then FragmentExists(FragmentPath(svc, Profiling, false))
                         else HardeningExists(FragmentPath(svc, Hardening, true)))
  {
    FragmentsDistinct(svc);
  }

  /** Removing the hardening fragment after writing it deletes it and nothing else. */
  lemma RemoveAfterHardening(svc: Service, fs: FileSystem, options: seq<string>)
    ensures var harden := FragmentPath(svc, Hardening, true);
      RemoveFragment(svc, Hardening, HardeningFragment(svc, fs, options)) == Ok(fs - {harden})
  {
    var harden := FragmentPath(svc, Hardening, true);
    assert HardeningFragment(svc, fs, options) - {harden} == fs - {harden};
  }
}

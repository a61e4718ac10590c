/** The configuration files of a unit, read off the text `systemctl status` prints
    (`Service::config_paths` in `src/systemd/service.rs`): the main unit file from the `Loaded:`
    line, then every drop-in file listed under `Drop-In:`. */
module Status {
  import opened Results
  import opened Text
  import opened Units

  const LOADED := "Loaded:"
  const DROP_IN := "Drop-In:"

  /** The main unit file of a `Loaded:` line: the text between its first `(` and the next `;`. */
  function MainUnitPath(line: string): (r: Option<string>)
    ensures r.Some? ==> '(' in line
    ensures '(' in line ==>
      var k := IndexOf(line, '(').value;
      && (r.None? <==> ';' !in line[k + 1..])
      && (r.Some? ==> StartsWith(line[k + 1..], r.value + ";") && ';' !in r.value)
  {
    match SplitOnce(line, '(')
    case None => None
    case Some((before, after)) =>
      assert after == line[|before| + 1..];
      assert IndexOf(line, '(').value == |before| by {
        assert line[|before|] == '(';
        assert line[..|before|] == before;
      }
      match SplitOnce(after, ';')
      case None => None
      case Some((path, _)) =>
        assert after[..|path| + 1] == path + ";";
        Some(path)
  }

  /** The drop-in directory of a `Drop-In:` line: what follows the label, without leading
      whitespace. */
  function DropInDir(line: string): (r: string)
    requires StartsWith(line, DROP_IN)
    ensures r == TrimStart(line[|DROP_IN|..])
  {
    assert line[..|DROP_IN|] == DROP_IN;
    IndexOfAt(line, ':', |DROP_IN| - 1);
    TrimStart(SplitOnce(line, ':').value.1)
  }

  /** The file names of a listing line: the two tree-drawing characters dropped, then the rest
      split on `, `. */
  function FileNames(line: string): (names: seq<string>)
    ensures |names| >= 1
    ensures forall k :: 0 <= k < |names| ==> Free(names[k], ", ")
  {
    Split(Skip(Trim(line), 2), ", ")
  }

  /** The file names, joined back with `, `, are the listing without its first two characters. */
  lemma FileNamesJoin(line: string)
    ensures Join(", ", FileNames(line)) == Skip(Trim(line), 2)
  {
    JoinSplit(Skip(Trim(line), 2), ", ");
  }

  /** Each file name joined to the drop-in directory. */
  function InDir(dir: string, names: seq<string>): (paths: seq<string>)
    ensures |paths| == |names|
    ensures forall k :: 0 <= k < |names| ==> paths[k] == PathJoin(dir, names[k])
  {
    if names == [] then [] else InDir(dir, names[..|names| - 1]) + [PathJoin(dir, names[|names| - 1])]
  }

  /** What one status line does to the scan: end it with a result, or go on with new paths and
      a new drop-in directory. */
  datatype Step = Done(result: Result<seq<string>>) | Next(paths: seq<string>, dropIn: Option<string>)

  /** One turn of the `config_paths` loop on a line already stripped of leading whitespace. */
  function LineStep(line: string, paths: seq<string>, dropIn: Option<string>): (s: Step)
    ensures s.Next? ==> |paths| <= |s.paths| && s.paths[..|paths|] == paths
    ensures s.Done? && s.result.Ok? ==> s.result.value == paths
  {
    if StartsWith(line, LOADED) then
      if paths != [] then Done(Err(LoadedNotFirst))
      else match MainUnitPath(line)
        case None => Done(Err(MainUnitFileNotFound))
        case Some(main) => Next([main], dropIn)
    else if StartsWith(line, DROP_IN) then
      if |paths| != 1 then Done(Err(DropInWithoutUnit))
      else if dropIn.Some? then Done(Err(DropInRepeated))
      else Next(paths, Some(DropInDir(line)))
    else if dropIn.None? then Next(paths, dropIn)
    else if ':' in line then Done(Ok(paths))
    else if StartsWith(line, "/") then Next(paths, Some(line))
    else Next(paths + InDir(dropIn.value, FileNames(line)), dropIn)
  }

  /** The scan from line `i` on, with the paths found so far and the current drop-in directory. */
  function Scan(lines: seq<string>, i: nat, paths: seq<string>, dropIn: Option<string>): (r: Result<seq<string>>)
    requires i <= |lines|
    ensures r.Ok? ==> |paths| <= |r.value| && r.value[..|paths|] == paths
    decreases |lines| - i
  {
    if i == |lines| then Ok(paths)
    else match LineStep(TrimStart(lines[i]), paths, dropIn)
      case Done(result) => result
      case Next(next, dir) =>
        var r := Scan(lines, i + 1, next, dir);
        assert r.Ok? ==> r.value[..|paths|] == r.value[..|next|][..|paths|];
        r
  }

  /** A line that lets the scan go on. */
  lemma ScanNext(lines: seq<string>, i: nat, paths: seq<string>, dropIn: Option<string>,
                 next: seq<string>, dir: Option<string>)
    requires i < |lines| && LineStep(TrimStart(lines[i]), paths, dropIn) == Next(next, dir)
    ensures Scan(lines, i, paths, dropIn) == Scan(lines, i + 1, next, dir)
  {
  }

  /** A line that ends the scan. */
  lemma ScanDone(lines: seq<string>, i: nat, paths: seq<string>, dropIn: Option<string>, r: Result<seq<string>>)
    requires i < |lines| && LineStep(TrimStart(lines[i]), paths, dropIn) == Done(r)
    ensures Scan(lines, i, paths, dropIn) == r
  {
  }

  /** `config_paths` on the lines of the status text. */
  function StatusPaths(lines: seq<string>): Result<seq<string>> {
    Scan(lines, 0, [], None)
  }

  /** `Service::config_paths`: one pass over the status lines, updating the path list and the
      drop-in directory line by line. */
  method ConfigPaths(lines: seq<string>) returns (r: Result<seq<string>>)
    ensures r == StatusPaths(lines)
  {
    var paths: seq<string> := [];
    var dropIn: Option<string> := None;
    var i := 0;
    while i < |lines|
      invariant i <= |lines|
      invariant Scan(lines, i, paths, dropIn) == StatusPaths(lines)
    {
      var step := Turn(lines, i, paths, dropIn);
      if step.Done? {
        return step.result;
      }
      paths, dropIn := step.paths, step.dropIn;
      i := i + 1;
    }
    return Ok(paths);
  }

  /** One turn of the loop of `ConfigPaths` on line `i`, as the scan from that line sees it. */
  method Turn(lines: seq<string>, i: nat, paths: seq<string>, dropIn: Option<string>) returns (step: Step)
    requires i < |lines|
    ensures step.Done? ==> Scan(lines, i, paths, dropIn) == step.result
    ensures step.Next? ==> Scan(lines, i, paths, dropIn) == Scan(lines, i + 1, step.paths, step.dropIn)
  {
    step := Advance(TrimStart(lines[i]), paths, dropIn);
    if step.Done? {
      ScanDone(lines, i, paths, dropIn, step.result);
    } else {
      ScanNext(lines, i, paths, dropIn, step.paths, step.dropIn);
    }
  }

  /** The body of the `config_paths` loop for one line, stripped of leading whitespace: a
      `Loaded:` line starts the path list, a `Drop-In:` line opens the drop-in section, and inside
      that section a line with `:` ends the scan, a line with a leading `/` moves to another
      directory and any other line lists files of the current one. */
  method Advance(line: string, paths: seq<string>, dropIn: Option<string>) returns (step: Step)
    ensures step == LineStep(line, paths, dropIn)
  {
    if StartsWith(line, LOADED) {
      if paths != [] {
        return Done(Err(LoadedNotFirst));
      }
      var main := MainUnitPath(line);
      if main.None? {
        return Done(Err(MainUnitFileNotFound));
      }
      assert paths + [main.value] == [main.value];
      return Next(paths + [main.value], dropIn);
    } else if StartsWith(line, DROP_IN) {
      if |paths| != 1 {
        return Done(Err(DropInWithoutUnit));
      }
      if dropIn.Some? {
        return Done(Err(DropInRepeated));
      }
      return Next(paths, Some(DropInDir(line)));
    } else if dropIn.Some? {
      if ':' in line {
        return Done(Ok(paths));
      } else if StartsWith(line, "/") {
        return Next(paths, Some(line));
      }
      var more := AppendInDir(paths, dropIn.value, FileNames(line));
      return Next(more, dropIn);
    }
    return Next(paths, dropIn);
  }

  /** The inner loop of `config_paths`: each file name joined to the directory and pushed. */
  method AppendInDir(paths: seq<string>, dir: string, names: seq<string>) returns (out: seq<string>)
    ensures out == paths + InDir(dir, names)
  {
    out := paths;
    for k := 0 to |names|
      invariant out == paths + InDir(dir, names[..k])
    {
      assert names[..k + 1][..k] == names[..k];
      out := out + [PathJoin(dir, names[k])];
    }
    assert names[..|names|] == names;
  }

  /** Line `j` is a `Loaded:` line naming the main unit file `main`. */
  predicate MainUnitAt(lines: seq<string>, j: nat, main: string)
    requires j < |lines|
  {
    StartsWith(TrimStart(lines[j]), LOADED) && MainUnitPath(TrimStart(lines[j])) == Some(main)
  }

  /** Before the first path, a line either names the first path, which is then the main unit
      file of a `Loaded:` line, or leaves the scan where it was, or ends it. */
  lemma StepFromEmpty(line: string)
    ensures var s := LineStep(line, [], None);
      s.Next? ==>
        ((s.paths == [] && s.dropIn.None?)
         || (StartsWith(line, LOADED) && s.paths != [] && MainUnitPath(line) == Some(s.paths[0])))
    ensures var s := LineStep(line, [], None);
      s.Done? && s.result.Ok? ==> s.result.value == []
  {
  }

  /** Starting with no paths, any path the scan finds first comes from a `Loaded:` line. */
  lemma {:induction false} ScanFirst(lines: seq<string>, i: nat)
    requires i <= |lines|
    requires Scan(lines, i, [], None).Ok? && Scan(lines, i, [], None).value != []
    ensures exists j :: i <= j < |lines| && MainUnitAt(lines, j, Scan(lines, i, [], None).value[0])
    decreases |lines| - i
  {
    var out := Scan(lines, i, [], None).value;
    var s := LineStep(TrimStart(lines[i]), [], None);
    StepFromEmpty(TrimStart(lines[i]));
    if s.Next? {
      ScanNext(lines, i, [], None, s.paths, s.dropIn);
      if s.paths != [] {
        assert out[..|s.paths|][0] == s.paths[0];
        assert MainUnitAt(lines, i, out[0]);
      } else {
        ScanFirst(lines, i + 1);
        var j :| i + 1 <= j < |lines| && MainUnitAt(lines, j, out[0]);
        assert i <= j < |lines| && MainUnitAt(lines, j, out[0]);
      }
    }
  }

  /** When the status text names files at all, the first of them is the main unit file of a
      `Loaded:` line. */
  lemma MainUnitFirst(lines: seq<string>)
    requires StatusPaths(lines).Ok? && StatusPaths(lines).value != []
    ensures exists j :: 0 <= j < |lines| && MainUnitAt(lines, j, StatusPaths(lines).value[0])
  {
    ScanFirst(lines, 0);
  }

  /** Line `j` opens a drop-in section. */
  predicate DropInAt(lines: seq<string>, j: nat)
    requires j < |lines|
  {
    StartsWith(TrimStart(lines[j]), DROP_IN)
  }

  /** Before any `Loaded:` line, a `Drop-In:` line fails and every other line is skipped. */
  lemma LineWithoutUnit(line: string)
    requires !StartsWith(line, LOADED)
    ensures LineStep(line, [], None)
      == if StartsWith(line, DROP_IN) then Done(Err(DropInWithoutUnit)) else Next([], None)
  {
  }

  /** Before any `Loaded:` line, a `Drop-In:` line ends the scan with an error and any other
      line leaves it as it is. */
  lemma ScanWithoutUnitStep(lines: seq<string>, i: nat)
    requires i < |lines| && !StartsWith(TrimStart(lines[i]), LOADED)
    ensures Scan(lines, i, [], None)
      == if DropInAt(lines, i) then Err(DropInWithoutUnit) else Scan(lines, i + 1, [], None)
  {
    LineWithoutUnit(TrimStart(lines[i]));
    if DropInAt(lines, i) {
      ScanDone(lines, i, [], None, Err(DropInWithoutUnit));
    } else {
      ScanNext(lines, i, [], None, [], None);
    }
  }

  /** Some line from `i` on opens a drop-in section. */
  predicate DropInFrom(lines: seq<string>, i: nat)
    decreases |lines| - i
  {
    i < |lines| && (DropInAt(lines, i) || DropInFrom(lines, i + 1))
  }

  /** No line from `i` on is a `Loaded:` line. */
  predicate NoUnitFrom(lines: seq<string>, i: nat)
    decreases |lines| - i
  {
    i < |lines| ==> !StartsWith(TrimStart(lines[i]), LOADED) && NoUnitFrom(lines, i + 1)
  }

  lemma {:induction false} DropInFromAny(lines: seq<string>, i: nat)
    requires i <= |lines|
    ensures DropInFrom(lines, i) <==> exists j :: i <= j < |lines| && DropInAt(lines, j)
    decreases |lines| - i
  {
    if i < |lines| {
      DropInFromAny(lines, i + 1);
      if DropInAt(lines, i) {
        assert DropInAt(lines, i);
      }
    }
  }

  lemma {:induction false} NoUnitFromAll(lines: seq<string>, i: nat)
    requires i <= |lines|
    requires forall j :: i <= j < |lines| ==> !StartsWith(TrimStart(lines[j]), LOADED)
    ensures NoUnitFrom(lines, i)
    decreases |lines| - i
  {
    if i < |lines| {
      assert !StartsWith(TrimStart(lines[i]), LOADED);
      NoUnitFromAll(lines, i + 1);
    }
  }

  /** Without a `Loaded:` line no file is found, and a `Drop-In:` line is then an error. */
  lemma {:induction false} ScanWithoutUnit(lines: seq<string>, i: nat)
    requires i <= |lines| && NoUnitFrom(lines, i)
    ensures Scan(lines, i, [], None) == if DropInFrom(lines, i) then Err(DropInWithoutUnit) else Ok([])
    decreases |lines| - i
  {
    if i < |lines| {
      ScanWithoutUnit(lines, i + 1);
      ScanWithoutUnitStep(lines, i);
    }
  }

  lemma StatusWithoutUnit(lines: seq<string>)
    requires forall j :: 0 <= j < |lines| ==> !StartsWith(TrimStart(lines[j]), LOADED)
    ensures StatusPaths(lines).Ok? <==> forall j :: 0 <= j < |lines| ==> !DropInAt(lines, j)
    ensures StatusPaths(lines).Ok? ==> StatusPaths(lines).value == []
    ensures StatusPaths(lines).Err? ==> StatusPaths(lines).error == DropInWithoutUnit
  {
    NoUnitFromAll(lines, 0);
    DropInFromAny(lines, 0);
    ScanWithoutUnit(lines, 0);
  }
}

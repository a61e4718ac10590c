/** The values of one directive across a unit's configuration files, resolved the way systemd
    resolves them (`Service::config_vals` in `src/systemd/service.rs`): continued lines are
    joined, and an empty assignment forgets every value assigned before it. */
module Directives {
  import opened Results
  import opened Text

  /** The files the reader can open: each path with the lines of its file. */
  type FileSystem = map<string, seq<string>>

  /** A line that starts with `<key>=` holds an `=`. */
  lemma PrefixHasEquals(line: string, key: string)
    requires StartsWith(line, key + "=")
    ensures '=' in line
  {
    assert line[|key|] == (key + "=")[|key|];
  }

  /** The value of a directive line: the text after its first `=`, trimmed. */
  function LineValue(line: string): string
    requires '=' in line
  {
    Trim(SplitOnce(line, '=').value.1)
  }

  /** The inner `loop` of `config_vals`: continuation lines from index `i` on are appended to
      `val`, each after one space, with leading whitespace and a trailing `\` removed, until a
      line that does not end with `\`. Yields the joined value and the index after that line. */
  function Continue(val: string, lines: seq<string>, i: nat): (r: Result<(string, nat)>)
    requires i <= |lines|
    ensures r.Ok? ==> i < r.value.1 <= |lines|
    ensures r.Err? ==> r.error == UnexpectedEndOfFile
    decreases |lines| - i
  {
    if i == |lines| then Err(UnexpectedEndOfFile)
    else
      var joined := val + " " + TrimStart(lines[i]);
      if EndsWith(lines[i], '\\') then Continue(DropLast(joined), lines, i + 1)
      else Ok((joined, i + 1))
  }

  /** A continuation runs up to and including the first line without a trailing `\`; if every
      remaining line has one, the file ends inside the value and that is an error. */
  lemma {:induction false} ContinueExtent(val: string, lines: seq<string>, i: nat)
    requires i <= |lines|
    ensures var r := Continue(val, lines, i);
      && (r.Ok? ==> !EndsWith(lines[r.value.1 - 1], '\\'))
      && (r.Ok? ==> forall k :: i <= k < r.value.1 - 1 ==> EndsWith(lines[k], '\\'))
      && (r.Err? <==> forall k :: i <= k < |lines| ==> EndsWith(lines[k], '\\'))
    decreases |lines| - i
  {
    if i < |lines| {
      var joined := val + " " + TrimStart(lines[i]);
      if EndsWith(lines[i], '\\') {
        ContinueExtent(DropLast(joined), lines, i + 1);
      }
    }
  }

  /** The values one file assigns to `key`, in line order, from line `i` on. */
  function FileValues(key: string, lines: seq<string>, i: nat): (r: Result<seq<string>>)
    requires i <= |lines|
    ensures r.Err? ==> r.error == UnexpectedEndOfFile
    decreases |lines| - i
  {
    if i == |lines| then Ok([])
    else if !StartsWith(lines[i], key + "=") then FileValues(key, lines, i + 1)
    else
      PrefixHasEquals(lines[i], key);
      if EndsWith(lines[i], '\\') then
        var joined :- Continue(DropLast(LineValue(lines[i])), lines, i + 1);
        var rest :- FileValues(key, lines, joined.1);
        Ok([joined.0] + rest)
      else
        var rest :- FileValues(key, lines, i + 1);
        Ok([LineValue(lines[i])] + rest)
  }

  /** The position of the last empty value. */
  function LastEmpty(vals: seq<string>): (k: nat)
    requires "" in vals
    ensures k < |vals| && vals[k] == "" && "" !in vals[k + 1..]
  {
    if vals[|vals| - 1] == "" then |vals| - 1
    else
      var k := LastEmpty(vals[..|vals| - 1]);
      assert vals[k + 1..] == vals[..|vals| - 1][k + 1..] + [vals[|vals| - 1]];
      k
  }

  /** The values kept once a file's values are added to those collected so far: an empty value
      discards everything before it, from this file and from all earlier ones. */
  function Reset(vals: seq<string>, fileVals: seq<string>): (r: seq<string>)
    ensures "" !in vals ==> "" !in r
  {
    if "" in fileVals then fileVals[LastEmpty(fileVals) + 1..] else vals + fileVals
  }

  /** `config_vals`: the values of `key` across the files at `paths`, in file order then line
      order, after every reset. */
  function Resolve(key: string, paths: seq<string>, fs: FileSystem): (r: Result<seq<string>>)
    ensures r.Ok? ==> "" !in r.value
    decreases |paths|
  {
    if paths == [] then Ok([])
    else
      var vals :- Resolve(key, paths[..|paths| - 1], fs);
      var path := paths[|paths| - 1];
      if path !in fs then Err(FileNotFound(path))
      else
        var fileVals :- FileValues(key, fs[path], 0);
        Ok(Reset(vals, fileVals))
  }

  function Prepend(xs: seq<string>, r: Result<seq<string>>): Result<seq<string>> {
    match r
    case Ok(v) => Ok(xs + v)
    case Err(e) => Err(e)
  }

  lemma PrependTwice(xs: seq<string>, ys: seq<string>, r: Result<seq<string>>)
    ensures Prepend(xs, Prepend(ys, r)) == Prepend(xs + ys, r)
  {
    if r.Ok? { assert xs + (ys + r.value) == (xs + ys) + r.value; }
  }

  /** The last empty value is the only one with no empty value after it. */
  lemma LastEmptyUnique(vals: seq<string>, k: nat)
    requires k < |vals| && vals[k] == "" && "" !in vals[k + 1..]
    ensures LastEmpty(vals) == k
  {
  }

  /** One turn of the reset loop: dropping the values up to an empty one, and everything
      collected before, keeps what the whole reset keeps. */
  lemma ResetStep(vals: seq<string>, fileVals: seq<string>, k: nat)
    requires k < |fileVals| && fileVals[k] == ""
    ensures Reset(vals, fileVals) == Reset([], fileVals[k + 1..])
  {
    var rest := fileVals[k + 1..];
    assert Reset(vals, fileVals) == fileVals[LastEmpty(fileVals) + 1..] by {
      assert fileVals[k] in fileVals;
    }
    if "" in rest {
      var m := LastEmpty(rest);
      assert LastEmpty(fileVals) == k + 1 + m by {
        LaterEmpty(fileVals, k);
      }
      assert fileVals[k + 1 + m + 1..] == rest[m + 1..];
    } else {
      assert LastEmpty(fileVals) == k by {
        LastEmptyUnique(fileVals, k);
      }
    }
  }

  /** The last empty value, when one follows position `k`, is the last one of what follows. */
  lemma LaterEmpty(vals: seq<string>, k: nat)
    requires k < |vals| && "" in vals[k + 1..]
    ensures LastEmpty(vals) == k + 1 + LastEmpty(vals[k + 1..])
  {
    var rest := vals[k + 1..];
    var m := LastEmpty(rest);
    var j := k + 1 + m;
    assert vals[j] == rest[m];
    assert vals[j + 1..] == rest[m + 1..];
    LastEmptyUnique(vals, j);
  }

  /** An error in the first files is the error of all of them. */
  lemma {:induction false} ResolveErrorPersists(key: string, paths: seq<string>, n: nat, fs: FileSystem)
    requires n <= |paths| && Resolve(key, paths[..n], fs).Err?
    ensures Resolve(key, paths, fs) == Resolve(key, paths[..n], fs)
    decreases |paths|
  {
    if n < |paths| {
      var init := paths[..|paths| - 1];
      assert init[..n] == paths[..n];
      ResolveErrorPersists(key, init, n, fs);
    } else {
      assert paths[..n] == paths;
    }
  }

  /** How the values from line `i` on follow from the first of those lines. */
  lemma FileValuesStep(key: string, lines: seq<string>, i: nat)
    requires i < |lines|
    ensures !StartsWith(lines[i], key + "=") ==> FileValues(key, lines, i) == FileValues(key, lines, i + 1)
    ensures StartsWith(lines[i], key + "=") && !EndsWith(lines[i], '\\') ==>
      '=' in lines[i] && FileValues(key, lines, i) == Prepend([LineValue(lines[i])], FileValues(key, lines, i + 1))
    ensures StartsWith(lines[i], key + "=") && EndsWith(lines[i], '\\') ==>
      '=' in lines[i] &&
      var c := Continue(DropLast(LineValue(lines[i])), lines, i + 1);
      FileValues(key, lines, i) == if c.Ok? then Prepend([c.value.0], FileValues(key, lines, c.value.1)) else Err(c.error)
  {
    if StartsWith(lines[i], key + "=") { PrefixHasEquals(lines[i], key); }
  }

  /** The inner continuation `loop` of `config_vals`. */
  method JoinContinued(first: string, lines: seq<string>, i: nat) returns (r: Result<(string, nat)>)
    requires i <= |lines|
    ensures r == Continue(first, lines, i)
  {
    var val := first;
    var j := i;
    while true
      invariant i <= j <= |lines|
      invariant Continue(first, lines, i) == Continue(val, lines, j)
      decreases |lines| - j
    {
      if j == |lines| {
        return Err(UnexpectedEndOfFile);
      }
      var next := lines[j];
      j := j + 1;
      val := val + " " + TrimStart(next);
      if EndsWith(next, '\\') {
        val := DropLast(val);
      } else {
        break;
      }
    }
    return Ok((val, j));
  }

  /** The value of the directive line at `i`, joined with its continuation lines if it ends
      with `\`; yields the value and the index of the line after it. */
  method LineAt(key: string, lines: seq<string>, i: nat) returns (r: Result<(string, nat)>)
    requires i < |lines| && StartsWith(lines[i], key + "=")
    ensures r.Ok? ==> i < r.value.1 <= |lines|
    ensures r.Ok? ==> FileValues(key, lines, i) == Prepend([r.value.0], FileValues(key, lines, r.value.1))
    ensures r.Err? ==> FileValues(key, lines, i) == Err(r.error)
  {
    var line := lines[i];
    PrefixHasEquals(line, key);
    FileValuesStep(key, lines, i);
    if EndsWith(line, '\\') {
      r := JoinContinued(DropLast(Trim(SplitOnce(line, '=').value.1)), lines, i + 1);
    } else {
      r := Ok((Trim(SplitOnce(line, '=').value.1), i + 1));
    }
  }

  /** The line loop of `config_vals` over one file. */
  method ReadFileValues(key: string, lines: seq<string>) returns (r: Result<seq<string>>)
    ensures r == FileValues(key, lines, 0)
  {
    var prefix := key + "=";
    var fileVals: seq<string> := [];
    var i := 0;
    assert Prepend([], FileValues(key, lines, 0)) == FileValues(key, lines, 0) by {
      if FileValues(key, lines, 0).Ok? { assert [] + FileValues(key, lines, 0).value == FileValues(key, lines, 0).value; }
    }
    while i < |lines|
      invariant i <= |lines|
      invariant FileValues(key, lines, 0) == Prepend(fileVals, FileValues(key, lines, i))
    {
      if StartsWith(lines[i], prefix) {
        var val := LineAt(key, lines, i);
        if val.Err? {
          return Err(val.error);
        }
        PrependTwice(fileVals, [val.value.0], FileValues(key, lines, val.value.1));
        fileVals, i := fileVals + [val.value.0], val.value.1;
      } else {
        FileValuesStep(key, lines, i);
        i := i + 1;
      }
    }
    assert fileVals + [] == fileVals;
    return Ok(fileVals);
  }

  /** The reset loop of `config_vals`: while a file's values hold an empty one, everything up to
      it and everything collected so far is dropped. */
  method ApplyResets(vals: seq<string>, fileVals: seq<string>) returns (kept: seq<string>)
    ensures kept == Reset(vals, fileVals)
  {
    var before, rest := vals, fileVals;
    var clear := IndexOf(rest, "");
    while clear.Some?
      invariant clear == IndexOf(rest, "")
      invariant Reset(before, rest) == Reset(vals, fileVals)
      decreases |rest|
    {
      ResetStep(before, rest, clear.value);
      rest := rest[clear.value + 1..];
      before := [];
      clear := IndexOf(rest, "");
    }
    kept := before + rest;
  }

  /** `Service::config_vals`: the files are read in order, and the values each one keeps
      extend (or, after a reset, replace) the values collected so far. */
  method ConfigVals(key: string, paths: seq<string>, fs: FileSystem) returns (r: Result<seq<string>>)
    ensures r == Resolve(key, paths, fs)
  {
    var vals: seq<string> := [];
    var n := 0;
    while n < |paths|
      invariant n <= |paths|
      invariant Resolve(key, paths[..n], fs) == Ok(vals)
    {
      var path := paths[n];
      assert paths[..n + 1][..n] == paths[..n];
      if path !in fs {
        ResolveErrorPersists(key, paths, n + 1, fs);
        return Err(FileNotFound(path));
      }
      var fileVals := ReadFileValues(key, fs[path]);
      if fileVals.Err? {
        ResolveErrorPersists(key, paths, n + 1, fs);
        return Err(fileVals.error);
      }
      vals := ApplyResets(vals, fileVals.value);
      n := n + 1;
    }
    assert paths[..n] == paths;
    return Ok(vals);
  }

  /** An empty assignment in the file at `p` makes everything before it irrelevant: the files
      before `p` can be left out, and of `p` itself only the values after its last empty one
      survive. */
  lemma {:induction false} ResolveResets(key: string, pre: seq<string>, p: string, post: seq<string>, fs: FileSystem)
    requires Resolve(key, pre, fs).Ok?
    requires p in fs && FileValues(key, fs[p], 0).Ok? && "" in FileValues(key, fs[p], 0).value
    ensures var fileVals := FileValues(key, fs[p], 0).value;
      Resolve(key, pre + [p], fs) == Resolve(key, [p], fs) == Ok(fileVals[LastEmpty(fileVals) + 1..])
    ensures Resolve(key, pre + [p] + post, fs) == Resolve(key, [p] + post, fs)
    decreases |post|
  {
    assert (pre + [p])[..|pre|] == pre;
    assert [p][..0] == [];
    if post == [] {
      assert pre + [p] + post == pre + [p];
      assert [p] + post == [p];
    } else {
      var init := post[..|post| - 1];
      ResolveResets(key, pre, p, init, fs);
      var all := pre + [p] + post;
      var tail := [p] + post;
      assert all[..|all| - 1] == pre + [p] + init;
      assert tail[..|tail| - 1] == [p] + init;
      assert all[|all| - 1] == tail[|tail| - 1];
    }
  }

  /** The file at `q` can be opened and assigns `key` no empty value. */
  predicate Additive(key: string, q: string, fs: FileSystem) {
    q in fs && FileValues(key, fs[q], 0).Ok? && "" !in FileValues(key, fs[q], 0).value
  }

  /** The values of the files at `paths`, file after file (a file that cannot be read adds
      none). */
  function Concatenated(key: string, paths: seq<string>, fs: FileSystem): seq<string> {
    if paths == [] then []
    else
      var q := paths[|paths| - 1];
      var vals := if q in fs then FileValues(key, fs[q], 0) else Ok([]);
      Concatenated(key, paths[..|paths| - 1], fs) + (if vals.Ok? then vals.value else [])
  }

  /** Every file at `paths` is additive. */
  predicate AllAdditive(key: string, paths: seq<string>, fs: FileSystem)
    decreases |paths|
  {
    paths != [] ==> AllAdditive(key, paths[..|paths| - 1], fs) && Additive(key, paths[|paths| - 1], fs)
  }

  lemma {:induction false} AllAdditiveOf(key: string, paths: seq<string>, fs: FileSystem)
    requires forall q :: q in paths ==> Additive(key, q, fs)
    ensures AllAdditive(key, paths, fs)
    decreases |paths|
  {
    if paths != [] {
      var init := paths[..|paths| - 1];
      assert forall x :: x in init ==> x in paths;
      AllAdditiveOf(key, init, fs);
      assert paths[|paths| - 1] in paths;
    }
  }

  /** Files without an empty assignment only add their values, in file order and within a file
      in line order, after everything collected before them. */
  lemma ResolveAppends(key: string, pre: seq<string>, post: seq<string>, fs: FileSystem)
    requires Resolve(key, pre, fs).Ok?
    requires forall q :: q in post ==> Additive(key, q, fs)
    ensures Resolve(key, pre + post, fs) == Ok(Resolve(key, pre, fs).value + Concatenated(key, post, fs))
  {
    AllAdditiveOf(key, post, fs);
    AppendAll(key, pre, post, fs);
  }

  lemma {:induction false} AppendAll(key: string, pre: seq<string>, post: seq<string>, fs: FileSystem)
    requires Resolve(key, pre, fs).Ok? && AllAdditive(key, post, fs)
    ensures Resolve(key, pre + post, fs) == Ok(Resolve(key, pre, fs).value + Concatenated(key, post, fs))
    decreases |post|
  {
    if post == [] {
      assert pre + post == pre;
      assert Resolve(key, pre, fs).value + [] == Resolve(key, pre, fs).value;
    } else {
      var init := post[..|post| - 1];
      var q := post[|post| - 1];
      AppendAll(key, pre, init, fs);
      AppendAdditive(key, pre + init, q, fs);
      assert pre + post == (pre + init) + [q];
      ConcatenatedSnoc(key, post, fs);
      var before, middle := Resolve(key, pre, fs).value, Concatenated(key, init, fs);
      var fileVals := FileValues(key, fs[q], 0).value;
      assert (before + middle) + fileVals == before + (middle + fileVals);
    }
  }

  lemma ConcatenatedSnoc(key: string, paths: seq<string>, fs: FileSystem)
    requires paths != [] && Additive(key, paths[|paths| - 1], fs)
    ensures Concatenated(key, paths, fs)
         == Concatenated(key, paths[..|paths| - 1], fs) + FileValues(key, fs[paths[|paths| - 1]], 0).value
  {
  }

  /** A file without an empty assignment adds its values after those collected before it. */
  lemma AppendAdditive(key: string, paths: seq<string>, q: string, fs: FileSystem)
    requires Resolve(key, paths, fs).Ok? && Additive(key, q, fs)
    ensures Resolve(key, paths + [q], fs) == Ok(Resolve(key, paths, fs).value + FileValues(key, fs[q], 0).value)
  {
    ResolveSnoc(key, paths, q, fs);
  }

  /** The values of `key` when none of its lines is continued: the trimmed text after the first
      `=` of every line that starts with `<key>=`, in line order; other lines are ignored. */
  function MatchingValues(key: string, lines: seq<string>): seq<string> {
    if lines == [] then []
    else if StartsWith(lines[0], key + "=") then
      PrefixHasEquals(lines[0], key);
      [LineValue(lines[0])] + MatchingValues(key, lines[1..])
    else MatchingValues(key, lines[1..])
  }

  /** Without continued lines for `key`, a file's values are exactly its matching lines' values. */
  lemma {:induction false} FileValuesUncontinued(key: string, lines: seq<string>, i: nat)
    requires i <= |lines|
    requires forall k :: i <= k < |lines| && StartsWith(lines[k], key + "=") ==> !EndsWith(lines[k], '\\')
    ensures FileValues(key, lines, i) == Ok(MatchingValues(key, lines[i..]))
    decreases |lines| - i
  {
    if i < |lines| {
      FileValuesUncontinued(key, lines, i + 1);
      assert lines[i..][1..] == lines[i + 1..];
      FileValuesStep(key, lines, i);
    }
  }

  /** What a continuation line contributes: its text without leading whitespace and, if it has
      one, without its trailing `\`. */
  function Piece(line: string): string {
    if EndsWith(line, '\\') then DropLast(TrimStart(line)) else TrimStart(line)
  }

  /** The continuation lines' contributions, each after exactly one space. */
  function Joined(lines: seq<string>): string {
    if lines == [] then "" else " " + Piece(lines[0]) + Joined(lines[1..])
  }

  /** Dropping the last character of a text with a non-empty end drops it from that end. */
  lemma DropLastAppend(a: string, t: string)
    requires t != []
    ensures DropLast(a + t) == a + DropLast(t)
  {
    assert (a + t)[..|a + t| - 1] == a + t[..|t| - 1];
  }

  lemma LastSplit(v: string)
    requires v != []
    ensures v == DropLast(v) + [v[|v| - 1]]
  {
  }

  /** The contributions of a run of lines: the first line's piece, then the rest's. */
  lemma JoinedCons(lines: seq<string>, i: nat, j: nat)
    requires i < j <= |lines|
    ensures Joined(lines[i..j]) == (" " + Piece(lines[i])) + Joined(lines[i + 1..j])
  {
    assert lines[i..j][1..] == lines[i + 1..j];
  }

  /** Dropping the trailing `\` of a joined continuation line leaves exactly its piece. */
  lemma ContinuedPiece(val: string, line: string)
    requires EndsWith(line, '\\')
    ensures DropLast(val + " " + TrimStart(line)) == val + (" " + Piece(line))
  {
    TrimKeepsLast(line, '\\');
    DropLastAppend(val + " ", TrimStart(line));
  }

  lemma Associative(a: string, b: string, c: string)
    ensures (a + b) + c == a + (b + c)
  {
  }

  /** A line without a trailing `\\` ends the continuation. */
  lemma ContinueLast(val: string, lines: seq<string>, i: nat)
    requires i < |lines| && !EndsWith(lines[i], '\\')
    ensures Continue(val, lines, i) == Ok((val + " " + TrimStart(lines[i]), i + 1))
  {
  }

  /** A continued value is its first part followed by every continuation line's piece. */
  lemma {:induction false} ContinueJoins(val: string, lines: seq<string>, i: nat)
    requires i <= |lines| && Continue(val, lines, i).Ok?
    ensures var r := Continue(val, lines, i).value;
      r.0 == val + Joined(lines[i..r.1])
    decreases |lines| - i
  {
    var line := lines[i];
    var r := Continue(val, lines, i).value;
    if EndsWith(line, '\\') {
      var next := DropLast(val + " " + TrimStart(line));
      assert r.0 == val + Joined(lines[i..r.1]) by {
        ContinueJoins(next, lines, i + 1);
        var q := " " + Piece(line);
        ContinuedPiece(val, line);
        JoinedCons(lines, i, r.1);
        Associative(val, q, Joined(lines[i + 1..r.1]));
      }
    } else {
      assert r.0 == val + Joined(lines[i..r.1]) by {
        ContinueLast(val, lines, i);
        JoinedCons(lines, i, r.1);
        assert Joined(lines[i + 1..r.1]) == "";
      }
    }
  }

  /** A continued directive line's own value loses exactly its trailing `\`. */
  lemma ContinuedFirstPart(line: string)
    requires '=' in line && EndsWith(line, '\\')
    ensures LineValue(line) == DropLast(LineValue(line)) + "\\"
  {
    var parts := SplitOnce(line, '=').value;
    var after := parts.1;
    assert line == parts.0 + "=" + after;
    assert after != [] && after[|after| - 1] == line[|line| - 1];
    TrimKeepsLast(after, '\\');
    LastSplit(Trim(after));
  }

  /** A value as written after `=`: nothing for trimming to remove, and no trailing `\\`. */
  predicate Plain(v: string) {
    v == [] || (!IsWhitespace(v[0]) && !IsWhitespace(v[|v| - 1]) && v[|v| - 1] != '\\')
  }

  /** The line `<key>=<v>` assigns `v` to `key`. */
  lemma DirectiveLine(key: string, v: string)
    requires '=' !in key && Plain(v)
    ensures StartsWith(key + "=" + v, key + "=") && !EndsWith(key + "=" + v, '\\')
    ensures '=' in key + "=" + v && LineValue(key + "=" + v) == v
  {
    var line := key + "=" + v;
    assert line[..|key| + 1] == key + "=";
    assert line[|key|] == '=';
    assert line[..|key|] == key;
    assert SplitOnce(line, '=').value.1 == line[|key| + 1..] == v;
  }

  lemma MatchFirst(key: string, v: string, rest: seq<string>)
    requires '=' !in key && Plain(v)
    ensures MatchingValues(key, [key + "=" + v] + rest) == [v] + MatchingValues(key, rest)
  {
    DirectiveLine(key, v);
    assert ([key + "=" + v] + rest)[1..] == rest;
  }

  lemma {:induction false} MatchNone(key: string, lines: seq<string>)
    requires forall k :: 0 <= k < |lines| ==> !StartsWith(lines[k], key + "=")
    ensures MatchingValues(key, lines) == []
  {
    if lines != [] { MatchNone(key, lines[1..]); }
  }

  /** A file whose lines for `key` are all plain assignments yields their values. */
  lemma PlainFile(key: string, vals: seq<string>, others: seq<string>)
    requires '=' !in key && forall k :: 0 <= k < |vals| ==> Plain(vals[k])
    requires forall k :: 0 <= k < |others| ==> !StartsWith(others[k], key + "=")
    ensures FileValues(key, Assignments(key, vals) + others, 0) == Ok(vals)
  {
    var lines := Assignments(key, vals) + others;
    forall k | 0 <= k < |lines| && StartsWith(lines[k], key + "=")
      ensures !EndsWith(lines[k], '\\')
    {
      if k < |vals| { DirectiveLine(key, vals[k]); }
    }
    FileValuesUncontinued(key, lines, 0);
    assert lines[0..] == lines;
    MatchAssignments(key, vals, others);
  }

  /** The lines `<key>=<v>` for each value `v`, in order. */
  function Assignments(key: string, vals: seq<string>): (lines: seq<string>)
    ensures |lines| == |vals| && forall k :: 0 <= k < |vals| ==> lines[k] == key + "=" + vals[k]
  {
    if vals == [] then [] else [key + "=" + vals[0]] + Assignments(key, vals[1..])
  }

  lemma {:induction false} MatchAssignments(key: string, vals: seq<string>, others: seq<string>)
    requires '=' !in key && forall k :: 0 <= k < |vals| ==> Plain(vals[k])
    requires forall k :: 0 <= k < |others| ==> !StartsWith(others[k], key + "=")
    ensures MatchingValues(key, Assignments(key, vals) + others) == vals
  {
    if vals == [] {
      assert Assignments(key, vals) + others == others;
      MatchNone(key, others);
    } else {
      var rest := Assignments(key, vals[1..]) + others;
      MatchAssignments(key, vals[1..], others);
      MatchFirst(key, vals[0], rest);
      assert Assignments(key, vals) + others == [key + "=" + vals[0]] + rest;
      assert [vals[0]] + vals[1..] == vals;
    }
  }

  /** Two plain assignments to `key`, then lines for other keys, yield the two values. */
  lemma TwoValues(key: string, x: string, y: string, others: seq<string>)
    requires '=' !in key && Plain(x) && Plain(y)
    requires forall k :: 0 <= k < |others| ==> !StartsWith(others[k], key + "=")
    ensures FileValues(key, [key + "=" + x, key + "=" + y] + others, 0) == Ok([x, y])
  {
    assert Assignments(key, [x, y]) == [key + "=" + x, key + "=" + y];
    PlainFile(key, [x, y], others);
  }

  /** A file holding one plain assignment to `key` yields its value. */
  lemma OneValue(key: string, x: string)
    requires '=' !in key && Plain(x)
    ensures FileValues(key, [key + "=" + x], 0) == Ok([x])
  {
    assert Assignments(key, [x]) + [] == [key + "=" + x];
    PlainFile(key, [x], []);
  }

  /** The reset scenario of the source's own tests, for any key and any values: `a`, `b` in the
      first file, an empty assignment, then `c` and lines for other keys in the second, `d` in the
      third resolve to `c`, `d`. */
  lemma ResetExample(key: string, a: string, b: string, c: string, d: string, others: seq<string>,
                     p1: string, p2: string, p3: string, fs: FileSystem)
    requires '=' !in key && Plain(a) && Plain(b) && Plain(c) && Plain(d) && c != "" && d != ""
    requires forall k :: 0 <= k < |others| ==> !StartsWith(others[k], key + "=")
    requires p1 in fs && fs[p1] == [key + "=" + a, key + "=" + b]
    requires p2 in fs && fs[p2] == [key + "=", key + "=" + c] + others
    requires p3 in fs && fs[p3] == [key + "=" + d]
    ensures Resolve(key, [p1, p2, p3], fs) == Ok([c, d])
  {
    ResetExampleFirst(key, a, b, c, others, p1, p2, fs);
    OneValue(key, d);
    ResolveSnoc(key, [p1, p2], p3, fs);
    assert Reset([c], [d]) == [c, d] by { assert "" !in [d]; }
    assert Resolve(key, [p1, p2] + [p3], fs) == Ok([c, d]);
    assert [p1, p2] + [p3] == [p1, p2, p3];
  }

  lemma ResetExampleFirst(key: string, a: string, b: string, c: string, others: seq<string>,
                          p1: string, p2: string, fs: FileSystem)
    requires '=' !in key && Plain(a) && Plain(b) && Plain(c) && c != ""
    requires forall k :: 0 <= k < |others| ==> !StartsWith(others[k], key + "=")
    requires p1 in fs && fs[p1] == [key + "=" + a, key + "=" + b]
    requires p2 in fs && fs[p2] == [key + "=", key + "=" + c] + others
    ensures Resolve(key, [p1, p2], fs) == Ok([c])
  {
    assert Resolve(key, [p1], fs).Ok? by {
      assert fs[p1] == [key + "=" + a, key + "=" + b] + [];
      TwoValues(key, a, b, []);
      ResolveSnoc(key, [], p1, fs);
      assert [] + [p1] == [p1];
    }
    var before := Resolve(key, [p1], fs).value;
    assert Resolve(key, [p1, p2], fs) == Ok(Reset(before, ["", c])) by {
      assert key + "=" + "" == key + "=";
      TwoValues(key, "", c, others);
      ResolveSnoc(key, [p1], p2, fs);
      assert [p1] + [p2] == [p1, p2];
    }
    assert Reset(before, ["", c]) == [c] by {
      LastEmptyUnique(["", c], 0);
      assert ["", c][1..] == [c];
    }
  }

  /** The continuation scenario of the source's own tests, for any key and values: a value
      continued over two more lines, each continuation line indented by one space, joins the
      three parts with one space each, on top of whatever spaces the parts keep. */
  lemma MultilineExample(key: string, v1: string, v2: string, v3: string)
    requires '=' !in key
    requires v1 != [] && !IsWhitespace(v1[0])
    requires v2 != [] && !IsWhitespace(v2[0])
    requires v3 != [] && !IsWhitespace(v3[0]) && v3[|v3| - 1] != '\\'
    ensures FileValues(key, [key + "=" + v1 + "\\", " " + v2 + "\\", " " + v3], 0) == Ok([v1 + " " + v2 + " " + v3])
  {
    ContinuedOverThree(key, [key + "=" + v1 + "\\", " " + v2 + "\\", " " + v3], v1, v2, v3);
  }

  /** The same scenario, for any three lines of that form. */
  lemma ContinuedOverThree(key: string, lines: seq<string>, v1: string, v2: string, v3: string)
    requires '=' !in key
    requires v1 != [] && !IsWhitespace(v1[0])
    requires v2 != [] && !IsWhitespace(v2[0])
    requires v3 != [] && !IsWhitespace(v3[0]) && v3[|v3| - 1] != '\\'
    requires |lines| == 3 && lines[0] == key + "=" + v1 + "\\" && lines[1] == " " + v2 + "\\" && lines[2] == " " + v3
    ensures FileValues(key, lines, 0) == Ok([v1 + " " + v2 + " " + v3])
  {
    var v := v1 + " " + v2 + " " + v3;
    ContinuedDirective(key, v1);
    ContinuedTwice(lines, v1, v2, v3);
    OneContinuedValue(key, lines, v);
  }

  /** Two continuation lines, each indented by one space, the first ending with `\`. */
  lemma ContinuedTwice(lines: seq<string>, v1: string, v2: string, v3: string)
    requires v2 != [] && !IsWhitespace(v2[0])
    requires v3 != [] && !IsWhitespace(v3[0]) && v3[|v3| - 1] != '\\'
    requires |lines| == 3 && lines[1] == " " + v2 + "\\" && lines[2] == " " + v3
    ensures Continue(v1, lines, 1) == Ok((v1 + " " + v2 + " " + v3, 3))
  {
    assert Continue(v1, lines, 1) == Continue(v1 + " " + v2, lines, 2) by {
      assert (v2 + "\\")[0] == v2[0];
      assert lines[1] == " " + (v2 + "\\") && EndsWith(lines[1], '\\');
      IndentedLine(v2 + "\\");
      assert DropLast(v1 + " " + (v2 + "\\")) == v1 + " " + v2;
    }
    assert Continue(v1 + " " + v2, lines, 2) == Ok((v1 + " " + v2 + " " + v3, 3)) by {
      IndentedLine(v3);
      ContinueLast(v1 + " " + v2, lines, 2);
    }
  }

  /** The line `<key>=<v>\` starts a continued assignment whose first part is `v`. */
  lemma ContinuedDirective(key: string, v: string)
    requires '=' !in key && v != [] && !IsWhitespace(v[0])
    ensures var line := key + "=" + v + "\\";
      StartsWith(line, key + "=") && EndsWith(line, '\\') && '=' in line && DropLast(LineValue(line)) == v
  {
    var line := key + "=" + v + "\\";
    var after := v + "\\";
    assert StartsWith(line, key + "=") by {
      assert line[..|key| + 1] == key + "=";
    }
    assert '=' in line && SplitOnce(line, '=').value.1 == after by {
      assert line == key + "=" + after && line[|key|] == '=' && line[..|key|] == key;
    }
    assert Trim(after) == after by {
      assert after[0] == v[0];
      assert TrimStart(after) == after;
      assert TrimEnd(after) == after;
    }
  }

  /** A line indented by one space loses exactly that space to `trim_start`. */
  lemma IndentedLine(v: string)
    requires v != [] && !IsWhitespace(v[0])
    ensures TrimStart(" " + v) == v
  {
    assert (" " + v)[1..] == v;
  }

  /** A file that is one continued assignment to `key` yields the joined value alone. */
  lemma OneContinuedValue(key: string, lines: seq<string>, v: string)
    requires lines != [] && StartsWith(lines[0], key + "=") && EndsWith(lines[0], '\\')
    requires '=' in lines[0] && Continue(DropLast(LineValue(lines[0])), lines, 1) == Ok((v, |lines|))
    ensures FileValues(key, lines, 0) == Ok([v])
  {
    assert FileValues(key, lines, |lines|) == Ok([]);
    FileValuesStep(key, lines, 0);
    assert FileValues(key, lines, 0) == Prepend([v], FileValues(key, lines, |lines|));
    assert [v] + [] == [v];
  }

  lemma ResolveSnoc(key: string, paths: seq<string>, p: string, fs: FileSystem)
    requires Resolve(key, paths, fs).Ok? && p in fs && FileValues(key, fs[p], 0).Ok?
    ensures Resolve(key, paths + [p], fs)
      == Ok(Reset(Resolve(key, paths, fs).value, FileValues(key, fs[p], 0).value))
  {
    assert (paths + [p])[..|paths|] == paths;
  }
}

/** Reading back the options a profiled run logged (`Service::profiling_result` in
    `src/systemd/service.rs`). The journal is read most recent line first, so the snippet shows
    up as its end marker, its lines in reverse order, then its start marker. The two markers
    are defined outside the service code and are parameters here. */
module Journal {
  import opened Results
  import opened Text
  import opened Units

  /** The arguments passed to `journalctl`: newest first, message text only, the unit's lines. */
  function JournalArgs(svc: Service): (argv: seq<string>)
    ensures |argv| == 7 && argv[6] == UnitName(svc)
  {
    ["-r", "-o", "cat", "--output-fields=MESSAGE", "--no-tail", "-u", UnitName(svc)]
  }

  /** `skip_while(l != end)`: the lines from the first `end` on. */
  function SkipToEnd(lines: seq<string>, end: string): (rest: seq<string>)
    ensures |rest| <= |lines|
  {
    if lines == [] || lines[0] == end then lines else SkipToEnd(lines[1..], end)
  }

  /** `take_while_inclusive(l != start)`: the lines up to and including the first `start`, or
      all of them when there is none. */
  function TakeThrough(lines: seq<string>, start: string): (taken: seq<string>)
    ensures |taken| <= |lines|
  {
    if lines == [] then []
    else if lines[0] == start then [start]
    else [lines[0]] + TakeThrough(lines[1..], start)
  }

  /** The lines in the opposite order. */
  function Reverse(s: seq<string>): (r: seq<string>)
    ensures |r| == |s|
  {
    if s == [] then [] else Reverse(s[1..]) + [s[0]]
  }

  lemma {:induction false} ReverseAt(s: seq<string>)
    ensures forall k :: 0 <= k < |s| ==> Reverse(s)[k] == s[|s| - 1 - k]
  {
    if s != [] {
      ReverseAt(s[1..]);
    }
  }

  /** The extraction in `profiling_result`: what the two adapters keep must hold at least two
      lines and end with the start marker; the snippet is what lies between the markers, put
      back in the order it was logged. */
  function ProfilingSnippet(lines: seq<string>, start: string, end: string): Result<seq<string>>
  {
    var taken := TakeThrough(SkipToEnd(lines, end), start);
    if |taken| < 2 || taken[|taken| - 1] != start then Err(SnippetNotFound)
    else Ok(Reverse(taken[1..|taken| - 1]))
  }

  /** The extraction stated by positions: the first end marker, then the first start marker at
      or after it, which must come strictly after the end marker. */
  function SnippetByPositions(lines: seq<string>, start: string, end: string): Result<seq<string>> {
    match IndexOf(lines, end)
    case None => Err(SnippetNotFound)
    case Some(i) =>
      match IndexOf(lines[i..], start)
      case None => Err(SnippetNotFound)
      case Some(k) => if k == 0 then Err(SnippetNotFound) else Ok(Reverse(lines[i + 1..i + k]))
  }

  /** The adapters' extraction agrees with the one by positions. */
  lemma SnippetPositions(lines: seq<string>, start: string, end: string)
    ensures ProfilingSnippet(lines, start, end) == SnippetByPositions(lines, start, end)
  {
    match IndexOf(lines, end)
    case None =>
      assert ProfilingSnippet(lines, start, end) == Err(SnippetNotFound) by {
        SkipToEndNone(lines, end);
      }
    case Some(i) =>
      match IndexOf(lines[i..], start)
      case None =>
        assert ProfilingSnippet(lines, start, end) == Err(SnippetNotFound) by {
          SnippetWithoutStart(lines, start, end, i);
        }
      case Some(k) =>
        assert ProfilingSnippet(lines, start, end)
            == (if k == 0 then Err(SnippetNotFound) else Ok(Reverse(lines[i + 1..i + k]))) by {
          SnippetBetween(lines, start, end, i, k);
        }
  }

  lemma SnippetWithoutStart(lines: seq<string>, start: string, end: string, i: nat)
    requires i < |lines| && lines[i] == end && end !in lines[..i] && start !in lines[i..]
    ensures ProfilingSnippet(lines, start, end) == Err(SnippetNotFound)
  {
    SkipToEndAt(lines, end, i);
    var rest := lines[i..];
    var taken := TakeThrough(rest, start);
    TakeThroughNone(rest, start);
    if |taken| >= 2 {
      assert taken[|taken| - 1] in rest;
    }
  }

  lemma SnippetBetween(lines: seq<string>, start: string, end: string, i: nat, k: nat)
    requires i < |lines| && lines[i] == end && end !in lines[..i]
    requires k < |lines| - i && lines[i + k] == start && start !in lines[i..][..k]
    ensures ProfilingSnippet(lines, start, end)
         == (if k == 0 then Err(SnippetNotFound) else Ok(Reverse(lines[i + 1..i + k])))
  {
    SkipToEndAt(lines, end, i);
    var rest := lines[i..];
    TakeThroughAt(rest, start, k);
    var taken := rest[..k + 1];
    if k > 0 {
      assert taken[1..|taken| - 1] == lines[i + 1..i + k];
    }
  }

  /** Skipping stops at the first end marker. */
  lemma {:induction false} SkipToEndAt(lines: seq<string>, end: string, i: nat)
    requires i < |lines| && lines[i] == end && end !in lines[..i]
    ensures SkipToEnd(lines, end) == lines[i..]
  {
    if i > 0 {
      assert lines[0] in lines[..i];
      assert lines[1..][..i - 1] == lines[1..i];
      SkipToEndAt(lines[1..], end, i - 1);
    }
  }

  /** Without an end marker everything is skipped. */
  lemma {:induction false} SkipToEndNone(lines: seq<string>, end: string)
    requires end !in lines
    ensures SkipToEnd(lines, end) == []
  {
    if lines != [] {
      SkipToEndNone(lines[1..], end);
    }
  }

  /** Taking stops right after the first start marker. */
  lemma {:induction false} TakeThroughAt(lines: seq<string>, start: string, k: nat)
    requires k < |lines| && lines[k] == start && start !in lines[..k]
    ensures TakeThrough(lines, start) == lines[..k + 1]
  {
    if k > 0 {
      assert lines[0] in lines[..k];
      assert lines[1..][..k - 1] == lines[1..k];
      TakeThroughAt(lines[1..], start, k - 1);
      assert lines[..k + 1] == [lines[0]] + lines[1..][..k];
    } else {
      assert lines[..1] == [start];
    }
  }

  /** Without a start marker everything is taken. */
  lemma {:induction false} TakeThroughNone(lines: seq<string>, start: string)
    requires start !in lines
    ensures TakeThrough(lines, start) == lines
  {
    if lines != [] {
      TakeThroughNone(lines[1..], start);
      assert lines == [lines[0]] + lines[1..];
    }
  }

  /** A journal without the end marker holds no snippet. */
  lemma SnippetNeedsEnd(lines: seq<string>, start: string, end: string)
    requires end !in lines
    ensures ProfilingSnippet(lines, start, end) == Err(SnippetNotFound)
  {
    SnippetPositions(lines, start, end);
  }

  /** A snippet cut off before its start marker is not found. */
  lemma SnippetNeedsStart(newer: seq<string>, end: string, after: seq<string>, start: string)
    requires end !in newer && start !in after && start != end
    ensures ProfilingSnippet(newer + [end] + after, start, end) == Err(SnippetNotFound)
  {
    var lines := newer + [end] + after;
    assert lines[..|newer|] == newer;
    assert lines[|newer|..] == [end] + after;
    SnippetWithoutStart(lines, start, end, |newer|);
  }

  /** Logging options between the markers and reading the journal back, newest first, gives
      the options in the order they were logged, whatever came before or after. */
  lemma SnippetRoundTrip(newer: seq<string>, opts: seq<string>, older: seq<string>, start: string, end: string)
    requires end !in newer && start !in opts && start != end
    ensures ProfilingSnippet(newer + [end] + Reverse(opts) + [start] + older, start, end) == Ok(opts)
  {
    var logged := Reverse(opts);
    var lines := newer + [end] + logged + [start] + older;
    var i := |newer|;
    var k := |logged| + 1;
    assert lines[..i] == newer;
    assert lines[i..][..k] == [end] + logged;
    assert start !in [end] + logged by {
      ReverseAt(opts);
      assert forall j :: 0 <= j < |logged| ==> logged[j] != start;
    }
    assert lines[i + k] == start;
    SnippetBetween(lines, start, end, i, k);
    assert lines[i + 1..i + k] == logged;
    ReverseReverse(opts);
  }

  /** A newest-first journal holding the end marker, two options logged as `a` then `b`, the
      start marker and older lines gives back `a`, `b`. */
  lemma SnippetExample(a: string, b: string, older: seq<string>, start: string, end: string)
    requires a != start && b != start && start != end
    ensures ProfilingSnippet([end, b, a, start] + older, start, end) == Ok([a, b])
  {
    assert Reverse([a, b]) == [b, a] by {
      assert [a, b][1..] == [b];
      assert Reverse([b]) == [b];
    }
    SnippetRoundTrip([], [a, b], older, start, end);
    assert [] + [end] + [b, a] + [start] + older == [end, b, a, start] + older;
  }

  lemma ReverseReverse(s: seq<string>)
    ensures Reverse(Reverse(s)) == s
  {
    var r := Reverse(Reverse(s));
    ReverseAt(s);
    ReverseAt(Reverse(s));
    assert forall k :: 0 <= k < |s| ==> r[k] == s[k];
  }

  /** When the two markers are the same line nothing can lie between them. */
  lemma SameMarkers(lines: seq<string>, marker: string)
    ensures ProfilingSnippet(lines, marker, marker) == Err(SnippetNotFound)
  {
    SnippetPositions(lines, marker, marker);
  }
}

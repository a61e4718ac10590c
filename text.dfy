/** The text operations of Rust's `str`, `String` and `format!` that the service code uses,
    on strings as sequences of Unicode scalar values. */
module Text {
  import opened Results

  /** `char::is_whitespace`: the Unicode `White_Space` property. */
  predicate IsWhitespace(c: char) {
    var n := c as int;
    (9 <= n <= 13) || n == 32 || n == 0x85 || n == 0xA0 || n == 0x1680 || (0x2000 <= n <= 0x200A)
    || n == 0x2028 || n == 0x2029 || n == 0x202F || n == 0x205F || n == 0x3000
  }

  /** `str::starts_with` with a string pattern. */
  predicate StartsWith(s: string, prefix: string) {
    |prefix| <= |s| && s[..|prefix|] == prefix
  }

  /** `str::ends_with` with a character pattern. */
  predicate EndsWith(s: string, c: char) {
    |s| > 0 && s[|s| - 1] == c
  }

  /** `str::trim_start`: the longest suffix that does not start with whitespace. */
  function TrimStart(s: string): (r: string)
    ensures |r| <= |s|
    ensures r != [] ==> !IsWhitespace(r[0])
  {
    if s != [] && IsWhitespace(s[0]) then TrimStart(s[1..]) else s
  }

  /** What `trim_start` keeps is a suffix, and everything it drops is whitespace. */
  lemma {:induction false} TrimStartSuffix(s: string)
    ensures var r := TrimStart(s);
      r == s[|s| - |r|..] && forall j :: 0 <= j < |s| - |r| ==> IsWhitespace(s[j])
  {
    if s != [] && IsWhitespace(s[0]) {
      TrimStartSuffix(s[1..]);
    }
  }

  /** `str::trim_end`: the longest prefix that does not end with whitespace. */
  function TrimEnd(s: string): (r: string)
    ensures |r| <= |s|
    ensures r != [] ==> !IsWhitespace(r[|r| - 1])
  {
    if s != [] && IsWhitespace(s[|s| - 1]) then TrimEnd(s[..|s| - 1]) else s
  }

  /** What `trim_end` keeps is a prefix, and everything it drops is whitespace. */
  lemma {:induction false} TrimEndPrefix(s: string)
    ensures var r := TrimEnd(s);
      r == s[..|r|] && forall j :: |r| <= j < |s| ==> IsWhitespace(s[j])
  {
    if s != [] && IsWhitespace(s[|s| - 1]) {
      TrimEndPrefix(s[..|s| - 1]);
    }
  }

  /** `str::trim`: whitespace removed from both ends. */
  function Trim(s: string): (r: string)
    ensures |r| <= |s|
    ensures r != [] ==> !IsWhitespace(r[0]) && !IsWhitespace(r[|r| - 1])
  {
    TrimEndPrefix(TrimStart(s));
    TrimEnd(TrimStart(s))
  }

  /** Trimming never removes a last character that is not whitespace. */
  lemma TrimKeepsLast(s: string, c: char)
    requires EndsWith(s, c) && !IsWhitespace(c)
    ensures EndsWith(TrimStart(s), c) && EndsWith(Trim(s), c)
  {
    TrimStartSuffix(s);
    var t := TrimStart(s);
    assert t[|t| - 1] == s[|s| - 1];
  }

  /** `String::pop`: the last character removed, if there is one. */
  function DropLast(s: string): string {
    if s == [] then [] else s[..|s| - 1]
  }

  /** `chars().skip(n).collect()`: the string without its first `n` characters. */
  function Skip(s: string, n: nat): string {
    if |s| <= n then [] else s[n..]
  }

  /** The position of the first occurrence of `x` (`str::find`, `Iterator::position`). */
  function IndexOf<T(==)>(s: seq<T>, x: T): (r: Option<nat>)
    ensures r.None? <==> x !in s
    ensures r.Some? ==> r.value < |s| && s[r.value] == x && x !in s[..r.value]
  {
    if s == [] then None
    else if s[0] == x then Some(0)
    else match IndexOf(s[1..], x)
      case None => None
      case Some(k) =>
        assert s[..k + 1] == [s[0]] + s[1..][..k];
        Some(k + 1)
  }

  /** The first occurrence is the position of `x` with no `x` before it. */
  lemma {:induction false} IndexOfAt<T>(s: seq<T>, x: T, k: nat)
    requires k < |s| && s[k] == x
    requires forall j :: 0 <= j < k ==> s[j] != x
    ensures IndexOf(s, x) == Some(k)
  {
    if k > 0 {
      IndexOfAt(s[1..], x, k - 1);
    }
  }

  /** `str::split_once` with a character: the text before and after the first `c`. */
  function SplitOnce(s: string, c: char): (r: Option<(string, string)>)
    ensures r.None? <==> c !in s
    ensures r.Some? ==> s == r.value.0 + [c] + r.value.1 && c !in r.value.0
  {
    match IndexOf(s, c)
    case None => None
    case Some(k) =>
      assert s == s[..k] + [c] + s[k + 1..];
      Some((s[..k], s[k + 1..]))
  }

  /** `sep` occurs in `s` starting at position `k`. */
  predicate OccursAt(s: string, sep: string, k: nat) {
    k + |sep| <= |s| && s[k..k + |sep|] == sep
  }

  /** `sep` occurs nowhere in `s`. */
  predicate Free(s: string, sep: string) {
    forall k: nat :: k <= |s| ==> !OccursAt(s, sep, k)
  }

  /** The first occurrence of `sep` at or after `from`. */
  function Find(s: string, sep: string, from: nat): (r: Option<nat>)
    requires from <= |s|
    ensures r.Some? ==> from <= r.value && OccursAt(s, sep, r.value)
    ensures r.Some? ==> forall k: nat :: from <= k < r.value ==> !OccursAt(s, sep, k)
    ensures r.None? ==> forall k: nat :: from <= k <= |s| ==> !OccursAt(s, sep, k)
    decreases |s| - from
  {
    if OccursAt(s, sep, from) then Some(from)
    else if from == |s| then None
    else Find(s, sep, from + 1)
  }

  /** The text before the first occurrence of a separator holds no occurrence of it. */
  lemma BeforeFirstIsFree(s: string, sep: string, k: nat)
    requires |sep| > 0 && OccursAt(s, sep, k)
    requires forall j: nat :: j < k ==> !OccursAt(s, sep, j)
    ensures Free(s[..k], sep)
  {
    forall j: nat | j <= k && OccursAt(s[..k], sep, j)
      ensures false
    {
      assert s[..k][j..j + |sep|] == s[j..j + |sep|];
      assert OccursAt(s, sep, j);
    }
  }

  /** `str::split` with a non-empty string pattern: the pieces between the occurrences of `sep`. */
  function Split(s: string, sep: string): (parts: seq<string>)
    requires |sep| > 0
    ensures |parts| >= 1
    ensures forall k :: 0 <= k < |parts| ==> Free(parts[k], sep)
    decreases |s|
  {
    match Find(s, sep, 0)
    case None => [s]
    case Some(k) =>
      BeforeFirstIsFree(s, sep, k);
      [s[..k]] + Split(s[k + |sep|..], sep)
  }

  /** `Itertools::join`: the parts with `sep` between each two neighbours. */
  function Join(sep: string, parts: seq<string>): string {
    if |parts| == 0 then ""
    else if |parts| == 1 then parts[0]
    else parts[0] + sep + Join(sep, parts[1..])
  }

  /** Joining the pieces of a split with the same separator gives back the original text. */
  lemma {:induction false} JoinSplit(s: string, sep: string)
    requires |sep| > 0
    ensures Join(sep, Split(s, sep)) == s
    decreases |s|
  {
    match Find(s, sep, 0)
    case None =>
    case Some(k) =>
      var tail := s[k + |sep|..];
      var rest := Split(tail, sep);
      assert Split(s, sep) == [s[..k]] + rest;
      JoinSplit(tail, sep);
      JoinCons(sep, s[..k], rest);
      assert s == s[..k] + s[k..k + |sep|] + tail;
  }

  /** Joining a part in front of at least one other adds the part and a separator. */
  lemma JoinCons(sep: string, first: string, rest: seq<string>)
    requires |rest| >= 1
    ensures Join(sep, [first] + rest) == first + sep + Join(sep, rest)
  {
    assert ([first] + rest)[1..] == rest;
  }

  /** The character for a digit value below sixteen, lower case as the `x` format writes it. */
  function Digit(d: nat): char
    requires d < 16
  {
    if d < 10 then ('0' as int + d) as char else ('a' as int + d - 10) as char
  }

  /** The value of a decimal or lower-case hexadecimal digit. */
  function DigitValue(c: char): nat {
    if '0' <= c <= '9' then c as int - '0' as int
    else if 'a' <= c <= 'f' then c as int - 'a' as int + 10
    else 0
  }

  /** The number a digit string denotes in the given base. */
  function ParseBase(s: string, base: nat): nat {
    if s == [] then 0 else ParseBase(s[..|s| - 1], base) * base + DigitValue(s[|s| - 1])
  }

  function Pow(b: nat, k: nat): nat {
    if k == 0 then 1 else b * Pow(b, k - 1)
  }

  /** `{}` on an unsigned integer: its shortest decimal rendering. */
  function Decimal(n: nat): (r: string)
    ensures 1 <= |r|
    ensures ParseBase(r, 10) == n
    ensures forall k :: 0 <= k < |r| ==> '0' <= r[k] <= '9'
    ensures n < 10 ==> |r| == 1
    ensures n < 100 ==> |r| <= 2
    ensures n < 1000 ==> |r| <= 3
  {
    if n < 10 then [Digit(n)]
    else
      var r := Decimal(n / 10) + [Digit(n % 10)];
      assert r[..|r| - 1] == Decimal(n / 10);
      r
  }

  function Zeros(k: nat): (r: string)
    ensures |r| == k && forall j :: 0 <= j < k ==> r[j] == '0'
  {
    if k == 0 then [] else Zeros(k - 1) + ['0']
  }

  /** Leading zeros do not change the value of a digit string. */
  lemma {:induction false} LeadingZeros(k: nat, d: string, base: nat)
    ensures ParseBase(Zeros(k) + d, base) == ParseBase(d, base)
    decreases |d|, k
  {
    if d == [] {
      if k > 0 {
        assert Zeros(k) + d == Zeros(k);
        assert Zeros(k)[..k - 1] == Zeros(k - 1);
        LeadingZeros(k - 1, [], base);
        assert Zeros(k - 1) + [] == Zeros(k - 1);
      }
    } else {
      var s := Zeros(k) + d;
      assert s[..|s| - 1] == Zeros(k) + d[..|d| - 1];
      LeadingZeros(k, d[..|d| - 1], base);
    }
  }

  /** The `03` format on a positive integer: decimal, left-padded with zeros to at least three characters. */
  function Pad3(n: nat): (r: string)
    ensures n < 1000 ==> |r| == 3
    ensures 1000 <= n ==> r == Decimal(n) && 3 < |r|
    ensures forall k :: 0 <= k < |r| ==> '0' <= r[k] <= '9'
    ensures ParseBase(r, 10) == n
  {
    var d := Decimal(n);
    var z := if |d| < 3 then 3 - |d| else 0;
    LeadingZeros(z, d, 10);
    DecimalWidth(n);
    assert z == 0 ==> Zeros(z) + d == d;
    Zeros(z) + d
  }

  /** Numbers from 1000 on take more than three decimal digits. */
  lemma DecimalWidth(n: nat)
    ensures 1000 <= n ==> 3 < |Decimal(n)|
  {
    var d := Decimal(n);
    if |d| <= 3 {
      DecimalBound(d);
      assert Pow(10, |d|) <= 1000;
    }
  }

  /** A decimal digit string is below the next power of ten. */
  lemma {:induction false} DecimalBound(d: string)
    requires forall k :: 0 <= k < |d| ==> '0' <= d[k] <= '9'
    ensures ParseBase(d, 10) < Pow(10, |d|)
  {
    if d != [] {
      var p := d[..|d| - 1];
      DecimalBound(p);
      var x := ParseBase(p, 10);
      assert x * 10 + 10 <= Pow(10, |p|) * 10;
    }
  }

  /** The zero-padded `x` format of `width` digits on a number below `16^width`: exactly `width` lower-case hex digits. */
  function HexDigits(n: nat, width: nat): (r: string)
    ensures |r| == width
  {
    if width == 0 then [] else HexDigits(n / 16, width - 1) + [Digit(n % 16)]
  }

  /** Reading back a fixed-width hex rendering gives the number rendered. */
  lemma {:induction false} HexRoundTrip(n: nat, width: nat)
    requires n < Pow(16, width)
    ensures ParseBase(HexDigits(n, width), 16) == n
  {
    if width > 0 {
      var r := HexDigits(n, width);
      assert r[..|r| - 1] == HexDigits(n / 16, width - 1);
      HexRoundTrip(n / 16, width - 1);
    }
  }
}

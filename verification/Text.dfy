/** The string operations the trust files are read and written with. */
module Text {

  /** Rust's `char::is_whitespace`: the Unicode White_Space property. */
  predicate IsWhite(c: char) {
    var n := c as int;
    || 0x09 <= n <= 0x0D || n == 0x20 || n == 0x85 || n == 0xA0 || n == 0x1680
    || 0x2000 <= n <= 0x200A || n == 0x2028 || n == 0x2029 || n == 0x202F || n == 0x205F || n == 0x3000
  }

  /** `str::len`: the length in UTF-8 bytes. */
  function Utf8Len(s: string): nat {
    if s == "" then 0
    else
      var n := s[0] as int;
      (if n < 0x80 then 1 else if n < 0x800 then 2 else if n < 0x10000 then 3 else 4) + Utf8Len(s[1..])
  }

  function TrimStart(s: string): string {
    if s != "" && IsWhite(s[0]) then TrimStart(s[1..]) else s
  }

  function TrimEnd(s: string): string {
    if s != "" && IsWhite(s[|s| - 1]) then TrimEnd(s[..|s| - 1]) else s
  }

  function Trim(s: string): string {
    TrimStart(TrimEnd(s))
  }

  predicate Trimmed(s: string) {
    s == "" || (!IsWhite(s[0]) && !IsWhite(s[|s| - 1]))
  }

  /** The first index of `c`, or the length. */
  function IndexOf(s: string, c: char): (k: nat)
    ensures k <= |s| && (k < |s| ==> s[k] == c) && c !in s[..k]
  {
    if s == "" || s[0] == c then 0 else
      var k := 1 + IndexOf(s[1..], c);
      assert s[..k] == [s[0]] + s[1..][..k - 1];
      k
  }

  /** `str::lines`: split after each newline, dropping it and one carriage return before it. */
  function Lines(s: string): seq<string>
    decreases |s|
  {
    if s == "" then []
    else
      var k := IndexOf(s, '\n');
      if k == |s| then [s] else [StripCr(s[..k])] + Lines(s[k + 1..])
  }

  function StripCr(s: string): string {
    if s != "" && s[|s| - 1] == '\r' then s[..|s| - 1] else s
  }

  function Unlines(ls: seq<string>): string {
    if ls == [] then "" else ls[0] + "\n" + Unlines(ls[1..])
  }

  predicate IsLine(s: string) {
    '\n' !in s && (s == "" || s[|s| - 1] != '\r')
  }

  lemma IndexOfSplit(a: string, c: char, b: string)
    requires c !in a
    ensures IndexOf(a + [c] + b, c) == |a|
  {
    var s := a + [c] + b;
    var k := IndexOf(s, c);
    assert s[|a|] == c;
  }

  /** Reading the lines of what was written line by line. */
  lemma {:induction false} LinesUnlines(ls: seq<string>)
    requires forall i :: 0 <= i < |ls| ==> IsLine(ls[i])
    ensures Lines(Unlines(ls)) == ls
  {
    if ls != [] {
      var rest := Unlines(ls[1..]);
      var s := ls[0] + ['\n'] + rest;
      assert Unlines(ls) == s;
      IndexOfSplit(ls[0], '\n', rest);
      assert s[..|ls[0]|] == ls[0] && s[|ls[0]| + 1..] == rest;
      LinesUnlines(ls[1..]);
    }
  }

  lemma {:induction false} LinesHaveNoNewline(s: string)
    ensures forall i :: 0 <= i < |Lines(s)| ==> '\n' !in Lines(s)[i]
    decreases |s|
  {
    if s != "" {
      var k := IndexOf(s, '\n');
      if k < |s| { LinesHaveNoNewline(s[k + 1..]); }
    }
  }

  // ----- trimming ---------------------------------------------------------------

  lemma {:induction false} TrimStartSlice(s: string) returns (i: nat)
    ensures i <= |s| && TrimStart(s) == s[i..] && (TrimStart(s) == "" || !IsWhite(s[i]))
    ensures forall k :: 0 <= k < i ==> IsWhite(s[k])
  {
    if s != "" && IsWhite(s[0]) {
      var j := TrimStartSlice(s[1..]);
      i := j + 1;
      assert s[1..][j..] == s[i..];
      assert forall k :: 0 < k < i ==> s[k] == s[1..][k - 1];
    } else {
      i := 0;
    }
  }

  lemma {:induction false} TrimEndSlice(s: string) returns (j: nat)
    ensures j <= |s| && TrimEnd(s) == s[..j] && (j == 0 || !IsWhite(s[j - 1]))
    ensures forall k :: j <= k < |s| ==> IsWhite(s[k])
  {
    var n := |s| - 1;
    if s != "" && IsWhite(s[n]) {
      j := TrimEndSlice(s[..n]);
      assert s[..n][..j] == s[..j];
      assert forall k :: j <= k < n ==> s[k] == s[..n][k];
    } else {
      j := |s|;
    }
  }

  /** Trimming cuts whitespace off both ends and nothing else. */
  lemma TrimSlice(s: string) returns (i: nat, j: nat)
    ensures i <= j <= |s| && Trim(s) == s[i..j] && Trimmed(Trim(s))
    ensures forall k :: 0 <= k < i || j <= k < |s| ==> IsWhite(s[k])
  {
    hide IsWhite, TrimStart, TrimEnd;
    j := TrimEndSlice(s);
    var t := s[..j];
    i := TrimStartSlice(t);
    assert t[i..] == s[i..j];
    if i < j {
      assert t[i] == s[i..j][0] && s[j - 1] == s[i..j][j - i - 1];
    }
    forall k | 0 <= k < i ensures IsWhite(s[k]) {
      assert IsWhite(t[k]);
    }
  }

  lemma TrimOfTrimmed(s: string)
    requires Trimmed(s)
    ensures Trim(s) == s
  {
  }

  /** Cutting off nothing but whitespace leaves the trimmed form. */
  lemma TrimUnique(s: string, i: nat, j: nat)
    requires i <= j <= |s| && s[i..j] != "" && Trimmed(s[i..j])
    requires forall k :: 0 <= k < i || j <= k < |s| ==> IsWhite(s[k])
    ensures Trim(s) == s[i..j]
  {
    hide IsWhite;
    var a, b := TrimSlice(s);
    assert s[i..j][0] == s[i] && s[i..j][j - i - 1] == s[j - 1];
    assert a <= i < b;
    assert s[a..b][0] == s[a] && s[a..b][b - a - 1] == s[b - 1];
  }
}

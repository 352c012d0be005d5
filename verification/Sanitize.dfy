/** The escape-sequence stripper, on bytes. The text it returns is compared with a grammar
    of terminal output, and the claim that it never splits a UTF-8 character is settled. */
module Sanitize {
  import opened ByteStrings

  const ESC: Byte := 0x1b
  const BEL: Byte := 0x07
  const CSI: Byte := 0x5b        // [
  const OSC: Byte := 0x5d        // ]
  const BACKSLASH: Byte := 0x5c
  const G0: Byte := 0x28         // (
  const G1: Byte := 0x29         // )

  // ----- specification -----------------------------------------------------------

  /** Everything but the C0 controls other than tab, LF and CR. */
  predicate Printable(b: Byte) {
    b >= 0x20 || b == 0x09 || b == 0x0a || b == 0x0d
  }

  predicate Final(b: Byte) { 0x40 <= b <= 0x7e }

  /** Bytes up to and including the final byte of a CSI sequence. */
  function CsiLen(s: Bytes): (n: nat)
    ensures n <= |s|
  {
    if s == [] then 0 else if Final(s[0]) then 1 else 1 + CsiLen(s[1..])
  }

  predicate EndsOsc(s: Bytes) { |s| > 1 && s[0] == ESC && s[1] == BACKSLASH }

  /** Bytes up to and including BEL or ESC \ . */
  function OscLen(s: Bytes): (n: nat)
    ensures n <= |s|
  {
    if s == [] then 0 else if s[0] == BEL then 1 else if EndsOsc(s) then 2 else 1 + OscLen(s[1..])
  }

  /** An escape sequence starts here. */
  predicate AtEscape(s: Bytes) { |s| > 1 && s[0] == ESC }

  /** How many bytes the next step consumes. */
  function Next(s: Bytes): (n: nat)
    requires s != []
    ensures 1 <= n <= |s|
  {
    if !AtEscape(s) then 1
    else if s[1] == CSI then 2 + CsiLen(s[2..])
    else if s[1] == OSC then 2 + OscLen(s[2..])
    else if s[1] == G0 || s[1] == G1 then if |s| < 3 then |s| else 3
    else 2
  }

  /** What the next step keeps. */
  function Kept(s: Bytes): Bytes
    requires s != []
  {
    if !AtEscape(s) && Printable(s[0]) then [s[0]] else []
  }

  function Strip(s: Bytes): Bytes
    decreases |s|
  {
    if s == [] then [] else Kept(s) + Strip(s[Next(s)..])
  }

  lemma PlainStep(s: Bytes)
    requires s != [] && !AtEscape(s)
    ensures Strip(s) == (if Printable(s[0]) then [s[0]] else []) + Strip(s[1..])
  {
  }

  lemma EscapeStep(s: Bytes, rest: Bytes)
    requires AtEscape(s) && rest == s[Next(s)..]
    ensures Strip(s) == Strip(rest)
  {
  }

  // ----- the loops ---------------------------------------------------------------

  method SkipCsi(bytes: Bytes, start: nat) returns (i: nat)
    requires start <= |bytes|
    ensures i == start + CsiLen(bytes[start..])
  {
    i := start;
    while i < |bytes| && (bytes[i] < 0x40 || bytes[i] > 0x7e)
      invariant start <= i <= |bytes|
      invariant i + CsiLen(bytes[i..]) == start + CsiLen(bytes[start..])
    {
      assert bytes[i..][1..] == bytes[i + 1..];
      i := i + 1;
    }
    if i < |bytes| {
      i := i + 1;
    }
  }

  method SkipOsc(bytes: Bytes, start: nat) returns (i: nat)
    requires start <= |bytes|
    ensures i == start + OscLen(bytes[start..])
  {
    i := start;
    while i < |bytes|
      invariant start <= i <= |bytes|
      invariant i + OscLen(bytes[i..]) == start + OscLen(bytes[start..])
    {
      assert bytes[i..][1..] == bytes[i + 1..];
      if bytes[i] == BEL {
        return i + 1;
      }
      if bytes[i] == ESC && i + 1 < |bytes| && bytes[i + 1] == BACKSLASH {
        return i + 2;
      }
      i := i + 1;
    }
  }

  /** The bytes `out` holds before they are turned back into a string. */
  method SanitizeForClassification(bytes: Bytes) returns (out: Bytes)
    ensures out == Strip(bytes)
  {
    out := [];
    var i := 0;
    assert Stripped(bytes, 0, []) by {
      assert bytes[0..] == bytes;
    }
    hide *;
    while i < |bytes|
      invariant i <= |bytes| && Stripped(bytes, i, out)
    {
      var b := bytes[i];
      StepAt(bytes, i, out);
      if b == ESC && i + 1 < |bytes| {
        if bytes[i + 1] == CSI {
          i := SkipCsi(bytes, i + 2);
          continue;
        }
        if bytes[i + 1] == OSC {
          i := SkipOsc(bytes, i + 2);
          continue;
        }
        if bytes[i + 1] == G0 || bytes[i + 1] == G1 {
          i := i + if |bytes| - i < 3 then |bytes| - i else 3;
          continue;
        }
        i := i + 2;
        continue;
      }
      if b < 0x20 && b != 0x09 && b != 0x0a && b != 0x0d {
        i := i + 1;
        continue;
      }
      out := out + [b];
      i := i + 1;
    }
    FinishAt(bytes, i, out);
  }

  ghost predicate Stripped(bytes: Bytes, i: nat, out: Bytes) {
    i <= |bytes| && out + Strip(bytes[i..]) == Strip(bytes)
  }

  lemma StepAt(bytes: Bytes, i: nat, out: Bytes)
    requires i < |bytes| && Stripped(bytes, i, out)
    ensures var b := bytes[i];
            if b == ESC && i + 1 < |bytes| then
              if bytes[i + 1] == CSI then Stripped(bytes, i + 2 + CsiLen(bytes[i + 2..]), out)
              else if bytes[i + 1] == OSC then Stripped(bytes, i + 2 + OscLen(bytes[i + 2..]), out)
              else if bytes[i + 1] == G0 || bytes[i + 1] == G1 then
                Stripped(bytes, i + if |bytes| - i < 3 then |bytes| - i else 3, out)
              else Stripped(bytes, i + 2, out)
            else Stripped(bytes, i + 1, if b < 0x20 && b != 0x09 && b != 0x0a && b != 0x0d then out else out + [b])
  {
    var rest := bytes[i..];
    hide Strip, Stripped, CsiLen, OscLen;
    if AtEscape(rest) {
      assert rest[2..] == bytes[i + 2..];
      EscapeAt(bytes, i, out);
    } else {
      PlainAt(bytes, i, out);
    }
  }

  lemma EscapeAt(bytes: Bytes, i: nat, out: Bytes)
    requires i < |bytes| && Stripped(bytes, i, out) && AtEscape(bytes[i..])
    ensures Stripped(bytes, i + Next(bytes[i..]), out)
  {
    var rest, n := bytes[i..], Next(bytes[i..]);
    SuffixOfSuffix(bytes, i, n);
    hide *;
    EscapeStep(rest, rest[n..]);
    StrippedAlso(bytes, i, n, out);
  }

  lemma SuffixOfSuffix(bytes: Bytes, i: nat, n: nat)
    requires i + n <= |bytes|
    ensures bytes[i..][n..] == bytes[i + n..]
  {
  }

  lemma StrippedAlso(bytes: Bytes, i: nat, n: nat, out: Bytes)
    requires i + n <= |bytes| && Stripped(bytes, i, out) && Strip(bytes[i..]) == Strip(bytes[i + n..])
    ensures Stripped(bytes, i + n, out)
  {
    hide Strip;
  }

  lemma PlainAt(bytes: Bytes, i: nat, out: Bytes)
    requires i < |bytes| && Stripped(bytes, i, out) && !AtEscape(bytes[i..])
    ensures Stripped(bytes, i + 1, if Printable(bytes[i]) then out + [bytes[i]] else out)
  {
    var rest := bytes[i..];
    PlainStep(rest);
    hide Strip;
    assert rest[1..] == bytes[i + 1..];
    assert out + [bytes[i]] + Strip(rest[1..]) == out + ([bytes[i]] + Strip(rest[1..]));
  }

  lemma FinishAt(bytes: Bytes, i: nat, out: Bytes)
    requires Stripped(bytes, i, out) && i == |bytes|
    ensures out == Strip(bytes)
  {
    assert bytes[i..] == [];
  }

  // ----- terminal output, written down --------------------------------------------
  // The grammar is given by its bytes alone, so that it does not depend on the stripper.

  datatype End = Bell | StringTerminator

  datatype Segment =
    | Text(bytes: Bytes)
    | ControlSequence(params: Bytes, final: Byte)
    | OperatingSystemCommand(data: Bytes, end: End)
    | Charset(which: Byte, byte: Byte)
    | Escape(byte: Byte)
    | Control(byte: Byte)

  /** No BEL and no ESC \ inside. */
  predicate Unterminated(d: Bytes) {
    && (forall k :: 0 <= k < |d| ==> d[k] != 0x07)
    && (forall k :: 0 <= k < |d| - 1 ==> !(d[k] == 0x1b && d[k + 1] == 0x5c))
  }

  /** Bytes that cannot end a control sequence. The parameter bytes 0x30..0x3f and intermediate
      bytes 0x20..0x2f of ECMA-48 section 5.4 are among them. */
  predicate Unfinished(ps: Bytes) {
    forall k :: 0 <= k < |ps| ==> ps[k] < 0x40 || ps[k] > 0x7e
  }

  predicate WellFormed(g: Segment) {
    match g
    case Text(t) => forall b :: b in t ==> b >= 0x20 || b == 0x09 || b == 0x0a || b == 0x0d
    case ControlSequence(ps, f) => 0x40 <= f <= 0x7e && Unfinished(ps)
    case OperatingSystemCommand(d, _) => Unterminated(d)
    case Charset(w, _) => w == 0x28 || w == 0x29
    case Escape(b) => b != 0x5b && b != 0x5d && b != 0x28 && b != 0x29
    case Control(b) => b < 0x20 && b != 0x09 && b != 0x0a && b != 0x0d && b != 0x1b
  }

  function RenderOne(g: Segment): Bytes {
    match g
    case Text(t) => t
    case ControlSequence(ps, f) => [0x1b, 0x5b] + ps + [f]
    case OperatingSystemCommand(d, e) => [0x1b, 0x5d] + d + Terminator(e)
    case Charset(w, b) => [0x1b, w, b]
    case Escape(b) => [0x1b, b]
    case Control(b) => [b]
  }

  function Terminator(e: End): Bytes { if e.Bell? then [0x07] else [0x1b, 0x5c] }

  /** A sequence that the input breaks off in. */
  ghost predicate BrokenOff(t: Bytes) {
    || t == [] || t == [0x1b] || t == [0x1b, 0x28] || t == [0x1b, 0x29]
    || (|t| >= 2 && t[0] == 0x1b && t[1] == 0x5b && Unfinished(t[2..]))
    || (|t| >= 2 && t[0] == 0x1b && t[1] == 0x5d && Unterminated(t[2..]))
  }

  function Render(gs: seq<Segment>): Bytes {
    if gs == [] then [] else RenderOne(gs[0]) + Render(gs[1..])
  }

  function Texts(gs: seq<Segment>): Bytes {
    if gs == [] then [] else (if gs[0].Text? then gs[0].bytes else []) + Texts(gs[1..])
  }

  lemma Reassociate(s: Bytes, n: nat, rest: Bytes)
    requires 0 < n <= |s|
    ensures s[1..][n - 1..] == s[n..]
    ensures [s[0]] + (s[1..][..n - 1] + rest) == s[..n] + rest
    ensures [s[0]] + (s[1..] + rest) == s + rest
  {
  }

  lemma StripPrintable(t: Bytes, rest: Bytes)
    requires t != [] && Printable(t[0])
    ensures Strip(t + rest) == [t[0]] + Strip(t[1..] + rest)
  {
    PlainStep(t + rest);
    hide Strip;
    assert (t + rest)[1..] == t[1..] + rest;
  }

  lemma {:induction false} StripText(t: Bytes, rest: Bytes)
    requires forall b :: b in t ==> Printable(b)
    ensures Strip(t + rest) == t + Strip(rest)
  {
    if t == [] {
      assert t + rest == rest;
    } else {
      StripPrintable(t, rest);
      hide Strip;
      StripText(t[1..], rest);
      Reassociate(t, 1, Strip(rest));
    }
  }

  lemma {:induction false} CsiEnds(ps: Bytes, f: Byte, rest: Bytes)
    requires 0x40 <= f <= 0x7e && Unfinished(ps)
    ensures CsiLen(ps + [f] + rest) == |ps| + 1
  {
    var s := ps + [f] + rest;
    if ps != [] {
      assert s[1..] == ps[1..] + [f] + rest;
      CsiEnds(ps[1..], f, rest);
    }
  }

  lemma {:induction false} OscEnds(d: Bytes, e: Bytes, rest: Bytes)
    requires Unterminated(d) && (e == [0x07] || e == [0x1b, 0x5c])
    ensures OscLen(d + e + rest) == |d| + |e|
  {
    var s := d + e + rest;
    if d != [] {
      assert s[1..] == d[1..] + e + rest;
      OscEnds(d[1..], e, rest);
    }
  }

  lemma StripOne(g: Segment, rest: Bytes)
    requires WellFormed(g)
    ensures Strip(RenderOne(g) + rest) == (if g.Text? then g.bytes else []) + Strip(rest)
  {
    hide Strip, CsiLen, OscLen;
    var s := RenderOne(g) + rest;
    match g
    case Text(t) => StripText(t, rest);
    case ControlSequence(ps, f) => StripCsi(ps, f, rest);
    case OperatingSystemCommand(d, e) => StripOsc(d, Terminator(e), rest);
    case Control(_) => PlainStep(s);
    case _ => EscapeStep(s, rest);
  }

  lemma StripCsi(ps: Bytes, f: Byte, rest: Bytes)
    requires WellFormed(ControlSequence(ps, f))
    ensures Strip([0x1b, 0x5b] + ps + [f] + rest) == Strip(rest)
  {
    hide Strip, CsiLen;
    var s: Bytes := [0x1b, 0x5b] + ps + [f] + rest;
    CsiEnds(ps, f, rest);
    assert s[2..] == ps + [f] + rest;
    EscapeStep(s, rest);
  }

  lemma StripOsc(d: Bytes, end: Bytes, rest: Bytes)
    requires Unterminated(d) && (end == [0x07] || end == [0x1b, 0x5c])
    ensures Strip([0x1b, 0x5d] + d + end + rest) == Strip(rest)
  {
    hide Strip, OscLen;
    var s: Bytes := [0x1b, 0x5d] + d + end + rest;
    OscEnds(d, end, rest);
    assert s[2..] == d + end + rest;
    EscapeStep(s, rest);
  }

  /** Stripping rendered output, also when it breaks off, gives back exactly its text. */
  lemma {:induction false} StripRender(gs: seq<Segment>, tail: Bytes)
    requires (forall g :: g in gs ==> WellFormed(g)) && BrokenOff(tail)
    ensures Strip(Render(gs) + tail) == Texts(gs)
  {
    if gs == [] {
      StripBrokenOff(tail);
      assert Render(gs) + tail == tail;
    } else {
      var rest := Render(gs[1..]) + tail;
      StripOne(gs[0], rest);
      StripRender(gs[1..], tail);
      hide Strip;
      assert Render(gs) + tail == RenderOne(gs[0]) + rest;
    }
  }

  lemma StripBrokenOff(t: Bytes)
    requires BrokenOff(t)
    ensures Strip(t) == []
  {
    if |t| >= 2 {
      CsiShape(t[2..]);
      OscShape(t[2..]);
      hide CsiLen, OscLen, Strip;
      assert Next(t) == |t|;
      EscapeStep(t, []);
      assert Strip([]) == [] by { StripNothing(); }
    }
  }

  lemma StripNothing()
    ensures Strip([]) == []
  {
  }

  lemma {:induction false} CsiShape(s: Bytes)
    ensures var n := CsiLen(s);
            if Unfinished(s) then n == |s| else n > 0 && 0x40 <= s[n - 1] <= 0x7e && Unfinished(s[..n - 1])
  {
    if s != [] && !Final(s[0]) {
      var n, t := CsiLen(s), s[1..];
      CsiShape(t);
      assert Unfinished(s) <==> Unfinished(t) by {
        assert forall k :: 0 < k < |s| ==> s[k] == t[k - 1];
      }
      if !Unfinished(s) {
        assert s[..n - 1] == [s[0]] + t[..n - 2];
      }
    }
  }

  /** The terminator that ends `s` after `n` bytes is `k` bytes long. */
  ghost predicate EndsWith(s: Bytes, n: nat, k: nat) {
    n <= |s| && ((k == 1 && n >= 1 && s[n - 1] == 0x07) || (k == 2 && n >= 2 && s[n - 2] == 0x1b && s[n - 1] == 0x5c))
  }

  lemma {:induction false} OscShape(s: Bytes)
    ensures var n := OscLen(s);
            || (Unterminated(s) && n == |s|)
            || (EndsWith(s, n, 1) && Unterminated(s[..n - 1]))
            || (EndsWith(s, n, 2) && Unterminated(s[..n - 2]))
  {
    if s == [] {
    } else if s[0] == BEL {
      assert EndsWith(s, 1, 1);
    } else if EndsOsc(s) {
      assert EndsWith(s, 2, 2);
    } else {
      var t, m := s[1..], OscLen(s[1..]);
      OscShape(t);
      hide OscLen;
      assert s == [s[0]] + t;
      if Unterminated(t) && m == |t| {
        LongerUnterminated(s, |s|);
        assert s[..|s|] == s && t[..|t|] == t;
      } else if EndsWith(t, m, 1) && Unterminated(t[..m - 1]) {
        LongerUnterminated(s, m);
        assert EndsWith(s, m + 1, 1);
      } else {
        LongerUnterminated(s, m - 1);
        assert EndsWith(s, m + 1, 2);
      }
    }
  }

  lemma LongerUnterminated(s: Bytes, n: nat)
    requires 0 < n <= |s| && s[0] != 0x07 && !(|s| > 1 && s[0] == 0x1b && s[1] == 0x5c) && Unterminated(s[1..][..n - 1])
    ensures Unterminated(s[..n])
  {
    var u, v := s[..n], s[1..][..n - 1];
    assert forall k :: 0 < k < n ==> u[k] == v[k - 1];
  }

  /** Every input is rendered output that may break off, so the two lemmas say for every
      input what stripping gives. */
  lemma {:induction false} EveryInputIsRendered(s: Bytes) returns (gs: seq<Segment>, tail: Bytes)
    ensures s == Render(gs) + tail && (forall g :: g in gs ==> WellFormed(g)) && BrokenOff(tail)
    decreases |s|
  {
    if BrokenOff(s) {
      return [], s;
    }
    var g, n := FirstSegment(s);
    gs, tail := EveryInputIsRendered(s[n..]);
    gs := [g] + gs;
    assert s == s[..n] + s[n..];
  }

  lemma FirstCsi(s: Bytes) returns (g: Segment, n: nat)
    requires |s| >= 2 && s[0] == 0x1b && s[1] == 0x5b && !Unfinished(s[2..])
    ensures 0 < n <= |s| && s[..n] == RenderOne(g) && WellFormed(g)
  {
    var t := s[2..];
    CsiShape(t);
    var m := CsiLen(t);
    hide CsiLen, Unfinished;
    n, g := 2 + m, ControlSequence(t[..m - 1], t[m - 1]);
    assert s[..n] == [0x1b, 0x5b] + t[..m - 1] + [t[m - 1]];
  }

  lemma FirstOsc(s: Bytes) returns (g: Segment, n: nat)
    requires |s| >= 2 && s[0] == 0x1b && s[1] == 0x5d && !Unterminated(s[2..])
    ensures 0 < n <= |s| && s[..n] == RenderOne(g) && WellFormed(g)
  {
    var t := s[2..];
    OscShape(t);
    var m := OscLen(t);
    hide OscLen, Unterminated;
    n := 2 + m;
    if EndsWith(t, m, 1) && Unterminated(t[..m - 1]) {
      g := OperatingSystemCommand(t[..m - 1], Bell);
      assert s[..n] == [0x1b, 0x5d] + t[..m - 1] + [0x07];
    } else {
      g := OperatingSystemCommand(t[..m - 2], StringTerminator);
      assert s[..n] == [0x1b, 0x5d] + t[..m - 2] + [0x1b, 0x5c];
    }
  }

  lemma FirstSegment(s: Bytes) returns (g: Segment, n: nat)
    requires !BrokenOff(s)
    ensures 0 < n <= |s| && s[..n] == RenderOne(g) && WellFormed(g)
  {
    if s[0] != 0x1b {
      n := 1;
      g := if s[0] >= 0x20 || s[0] == 0x09 || s[0] == 0x0a || s[0] == 0x0d then Text([s[0]]) else Control(s[0]);
    } else if s[1] == 0x5b {
      g, n := FirstCsi(s);
    } else if s[1] == 0x5d {
      g, n := FirstOsc(s);
    } else if s[1] == 0x28 || s[1] == 0x29 {
      n, g := 3, Charset(s[1], s[2]);
    } else {
      n, g := 2, Escape(s[1]);
    }
  }

  // ----- for all inputs ------------------------------------------------------------

  predicate Subsequence(a: Bytes, s: Bytes) {
    if a == [] then true
    else if s == [] then false
    else (a[0] == s[0] && Subsequence(a[1..], s[1..])) || Subsequence(a, s[1..])
  }

  lemma {:induction false} SubsequenceOfSuffix(a: Bytes, s: Bytes, n: nat)
    requires n <= |s| && Subsequence(a, s[n..])
    ensures Subsequence(a, s)
  {
    if n > 0 {
      assert s[1..][n - 1..] == s[n..];
      SubsequenceOfSuffix(a, s[1..], n - 1);
    }
  }

  lemma {:induction false} StripIsCleanSubsequence(s: Bytes)
    ensures Subsequence(Strip(s), s)
    ensures forall b :: b in Strip(s) ==> Printable(b)
    decreases |s|
  {
    if s != [] {
      var rest := s[Next(s)..];
      StripIsCleanSubsequence(rest);
      if !AtEscape(s) && Printable(s[0]) {
        assert Strip(s) == [s[0]] + Strip(rest);
      } else {
        assert Strip(s) == Strip(rest);
        SubsequenceOfSuffix(Strip(s), s, Next(s));
      }
    }
  }

  /** Only clean text is left alone, and a second pass changes nothing. */
  lemma FixedPointIffClean(s: Bytes)
    ensures Strip(s) == s <==> forall b :: b in s ==> Printable(b)
    ensures Strip(Strip(s)) == Strip(s)
  {
    StripIsCleanSubsequence(s);
    StripText(Strip(s), []);
    assert Strip(s) + [] == Strip(s);
    if forall b :: b in s ==> Printable(b) {
      StripText(s, []);
      assert s + [] == s;
    }
  }

  // ----- UTF-8 ---------------------------------------------------------------------

  predicate Continuation(b: Byte) { 0x80 <= b <= 0xbf }

  /** Length of the character at the front, 0 when there is no well-formed one: table 3-7
      of the Unicode Standard. */
  function CharLen(s: Bytes): (n: nat)
    ensures n <= |s|
  {
    if s == [] then 0
    else if s[0] < 0x80 then 1
    else if 0xc2 <= s[0] <= 0xdf then if |s| >= 2 && Continuation(s[1]) then 2 else 0
    else if 0xe0 <= s[0] <= 0xef then
      if |s| >= 3 && Continuation(s[1]) && Continuation(s[2])
         && (s[0] == 0xe0 ==> s[1] >= 0xa0) && (s[0] == 0xed ==> s[1] <= 0x9f) then 3 else 0
    else if 0xf0 <= s[0] <= 0xf4 then
      if |s| >= 4 && Continuation(s[1]) && Continuation(s[2]) && Continuation(s[3])
         && (s[0] == 0xf0 ==> s[1] >= 0x90) && (s[0] == 0xf4 ==> s[1] <= 0x8f) then 4 else 0
    else 0
  }

  predicate Utf8(s: Bytes)
    decreases |s|
  {
    s == [] || (CharLen(s) > 0 && Utf8(s[CharLen(s)..]))
  }

  /** The next step takes the first byte of a character of several bytes and leaves the rest. */
  predicate CutsHere(s: Bytes) {
    AtEscape(s) && (s[1] >= 0x80 || ((s[1] == G0 || s[1] == G1) && |s| >= 3 && s[2] >= 0x80))
  }

  predicate Cuts(s: Bytes)
    decreases |s|
  {
    s != [] && (CutsHere(s) || Cuts(s[Next(s)..]))
  }

  predicate High(s: Bytes, n: nat) { n <= |s| && forall k :: 0 <= k < n ==> s[k] >= 0x80 }

  lemma HighStep(s: Bytes)
    requires s != [] && s[0] >= 0x80
    ensures Strip(s) == [s[0]] + Strip(s[1..]) && Cuts(s) == Cuts(s[1..])
    ensures CsiLen(s) == 1 + CsiLen(s[1..]) && OscLen(s) == 1 + OscLen(s[1..])
  {
  }

  /** A front of bytes above ASCII is kept, skipped or searched as a whole. */
  lemma {:induction false} HighFront(s: Bytes, n: nat)
    requires High(s, n)
    ensures Strip(s) == s[..n] + Strip(s[n..])
    ensures Cuts(s) == Cuts(s[n..])
    ensures CsiLen(s) == n + CsiLen(s[n..]) && OscLen(s) == n + OscLen(s[n..])
  {
    if n == 0 {
      assert s[0..] == s;
    } else {
      HighStep(s);
      assert High(s[1..], n - 1);
      hide *;
      HighFront(s[1..], n - 1);
      Reassociate(s, n, Strip(s[n..]));
    }
  }

  lemma CharIsHigh(s: Bytes)
    requires s != [] && s[0] >= 0x80 && CharLen(s) > 0
    ensures CharLen(s) > 1 && High(s, CharLen(s)) && forall k :: 1 <= k < CharLen(s) ==> Continuation(s[k])
  {
  }

  lemma Utf8Front(c: Bytes, rest: Bytes)
    requires |c| > 0 && CharLen(c + rest) == |c|
    ensures Utf8(c + rest) <==> Utf8(rest)
  {
    assert (c + rest)[|c|..] == rest;
  }

  lemma SameCharLen(s: Bytes, t: Bytes)
    requires CharLen(s) > 0
    ensures CharLen(s[..CharLen(s)] + t) == CharLen(s)
  {
  }

  /** The first character of a valid string, seen by the two scanners. */
  lemma FirstChar(s: Bytes)
    requires Utf8(s) && s != []
    ensures CharLen(s) > 0 && Utf8(s[CharLen(s)..])
    ensures s[0] < 0x80 ==> CharLen(s) == 1
    ensures s[0] >= 0x80 ==>
              CsiLen(s) == CharLen(s) + CsiLen(s[CharLen(s)..]) && OscLen(s) == CharLen(s) + OscLen(s[CharLen(s)..])
  {
    if s[0] >= 0x80 {
      CharIsHigh(s);
      HighFront(s, CharLen(s));
    }
  }

  lemma {:induction false} CsiEndsOnBoundary(s: Bytes)
    requires Utf8(s)
    ensures Utf8(s[CsiLen(s)..])
    decreases |s|
  {
    hide Utf8, CharLen;
    if s != [] {
      FirstChar(s);
      var n := CharLen(s);
      if s[0] >= 0x80 || !Final(s[0]) {
        assert CsiLen(s) == n + CsiLen(s[n..]);
        CsiEndsOnBoundary(s[n..]);
        assert s[n..][CsiLen(s[n..])..] == s[CsiLen(s)..];
      }
    }
  }

  lemma {:induction false} OscEndsOnBoundary(s: Bytes)
    requires Utf8(s)
    ensures Utf8(s[OscLen(s)..])
    decreases |s|
  {
    hide Utf8, CharLen;
    if s != [] {
      FirstChar(s);
      var n := CharLen(s);
      if EndsOsc(s) {
        FirstChar(s[1..]);
        assert s[1..][1..] == s[2..];
      } else if s[0] != BEL {
        assert OscLen(s) == n + OscLen(s[n..]);
        OscEndsOnBoundary(s[n..]);
        assert s[n..][OscLen(s[n..])..] == s[OscLen(s)..];
      }
    }
  }

  /** A step that cuts no character ends between characters. */
  lemma NextOnBoundary(s: Bytes)
    requires Utf8(s) && s != [] && s[0] < 0x80 && !CutsHere(s)
    ensures Utf8(s[Next(s)..])
  {
    if AtEscape(s) {
      assert s[1..][1..] == s[2..];
      assert Utf8(s[1..]) && Utf8(s[2..]);
      if s[1] == CSI {
        CsiEndsOnBoundary(s[2..]);
        assert s[2..][CsiLen(s[2..])..] == s[Next(s)..];
      } else if s[1] == OSC {
        OscEndsOnBoundary(s[2..]);
        assert s[2..][OscLen(s[2..])..] == s[Next(s)..];
      } else if (s[1] == G0 || s[1] == G1) && |s| >= 3 {
        assert s[2..][1..] == s[3..];
      }
    }
  }

  lemma StrayContinuation(s: Bytes)
    requires s != [] && Continuation(s[0])
    ensures !Utf8(s)
  {
  }

  /** A cut leaves a continuation byte where a character should start. */
  lemma CutLeavesContinuation(s: Bytes)
    requires Utf8(s) && s != [] && s[0] < 0x80 && CutsHere(s)
    ensures !Utf8(Strip(s))
  {
    var at := if s[1] >= 0x80 then 1 else 2;
    var c := s[at..];
    assert Utf8(c) by {
      assert Utf8(s[1..]) && s[1..][1..] == s[2..];
    }
    var rest := s[Next(s)..];
    assert Strip(s) == Strip(rest);
    assert CharLen(c) > 0;
    hide Strip, Utf8, Cuts;
    CharIsHigh(c);
    assert rest == c[1..];
    assert Continuation(rest[0]);
    HighFront(rest, 1);
    StrayContinuation(Strip(rest));
  }

  /** The promise that stripping valid UTF-8 leaves valid UTF-8 holds exactly when no bare
      ESC, and no charset selector, stands right before a character of several bytes. */
  lemma {:induction false} Utf8KeptIff(s: Bytes)
    requires Utf8(s)
    ensures Utf8(Strip(s)) <==> !Cuts(s)
    decreases |s|
  {
    if s == [] {
    } else if s[0] >= 0x80 {
      var n := CharLen(s);
      CharIsHigh(s);
      HighFront(s, n);
      Utf8KeptIff(s[n..]);
      SameCharLen(s, Strip(s[n..]));
      Utf8Front(s[..n], Strip(s[n..]));
    } else if CutsHere(s) {
      CutLeavesContinuation(s);
    } else {
      NextOnBoundary(s);
      var rest := s[Next(s)..];
      Utf8KeptIff(rest);
      if !AtEscape(s) && Printable(s[0]) {
        Utf8Front([s[0]], Strip(rest));
      } else {
        assert Strip(s) == Strip(rest);
      }
    }
  }

  /** ESC before "é" eats the first half of it. */
  lemma EscapeCutsCharacter()
    ensures Utf8([0x1b, 0xc3, 0xa9]) && Strip([0x1b, 0xc3, 0xa9]) == [0xa9] && !Utf8([0xa9])
  {
    var s: Bytes := [0x1b, 0xc3, 0xa9];
    assert s[1..] == [0xc3, 0xa9] && s[1..][2..] == [];
    assert s[Next(s)..] == [0xa9];
    HighFront([0xa9], 1);
  }
}

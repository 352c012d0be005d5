/** Deny-rule keys: the Rust encoders and the kernel code that builds the key of an execve
    must agree byte for byte, or a rule would not deny. Strings are byte sequences. */
module DenyKeys {
  import opened ByteStrings

  const PATH_LEN: nat := 256
  const NAME_LEN: nat := 64
  const SLASH: Byte := 47

  function Zeros(n: nat): (r: Bytes)
    ensures |r| == n
  {
    seq(n, _ => 0)
  }

  function Pad(s: Bytes, n: nat): (r: Bytes)
    requires |s| <= n
    ensures |r| == n
  {
    s + Zeros(n - |s|)
  }

  function Take(s: Bytes, n: nat): Bytes {
    if |s| <= n then s else s[..n]
  }

  // ----- the Rust encoders -------------------------------------------------------

  datatype Encoded = Key(bytes: Bytes) | Rejected

  function EncodeDenyKey(path: Bytes): Encoded {
    if |path| == 0 || |path| >= PATH_LEN then Rejected
    else if 0 in path then Rejected
    else Key(Pad(path, PATH_LEN))
  }

  function EncodeBasenameKey(name: Bytes): Encoded {
    if |name| == 0 || |name| >= NAME_LEN then Rejected
    else if 0 in name || SLASH in name then Rejected
    else Key(Pad(name, NAME_LEN))
  }

  lemma PadDiffers(a: Bytes, b: Bytes, n: nat)
    requires |a| < |b| <= n && 0 !in b
    ensures Pad(a, n) != Pad(b, n)
  {
    assert Pad(a, n)[|a|] == 0 && Pad(b, n)[|a|] == b[|a|];
  }

  /** Padding loses nothing on strings without NUL. */
  lemma PadInjective(a: Bytes, b: Bytes, n: nat)
    requires |a| <= n && |b| <= n && 0 !in a && 0 !in b && Pad(a, n) == Pad(b, n)
    ensures a == b
  {
    if |a| < |b| {
      PadDiffers(a, b, n);
    } else if |b| < |a| {
      PadDiffers(b, a, n);
    }
    assert a == Pad(a, n)[..|a|];
  }

  lemma EncodersInjective(a: Bytes, b: Bytes)
    ensures EncodeDenyKey(a).Key? && EncodeDenyKey(a) == EncodeDenyKey(b) ==> a == b
    ensures EncodeBasenameKey(a).Key? && EncodeBasenameKey(a) == EncodeBasenameKey(b) ==> a == b
  {
    if EncodeDenyKey(a).Key? && EncodeDenyKey(a) == EncodeDenyKey(b) {
      PadInjective(a, b, PATH_LEN);
    }
    if EncodeBasenameKey(a).Key? && EncodeBasenameKey(a) == EncodeBasenameKey(b) {
      PadInjective(a, b, NAME_LEN);
    }
  }

  // ----- what the kernel compares ------------------------------------------------

  /** The part after the last slash. */
  function Basename(p: Bytes): (r: Bytes)
    ensures SLASH !in r && |r| <= |p| && r == p[|p| - |r|..]
    ensures |r| == |p| || p[|p| - |r| - 1] == SLASH
  {
    if p == [] || p[|p| - 1] == SLASH then [] else Basename(p[..|p| - 1]) + [p[|p| - 1]]
  }

  /** Nothing but the last slash decides where the basename starts. */
  lemma {:induction false} BasenameUnique(p: Bytes, start: nat)
    requires start <= |p| && SLASH !in p[start..] && (start == 0 || p[start - 1] == SLASH)
    ensures Basename(p) == p[start..]
  {
    if start < |p| {
      var q := p[..|p| - 1];
      assert p[start..] == q[start..] + [p[|p| - 1]];
      BasenameUnique(q, start);
    }
  }

  /** What the kernel sees of a path: it reads at most 255 bytes. */
  function SeenPath(p: Bytes): Bytes { Take(p, PATH_LEN - 1) }

  /** What the kernel sees of its basename: at most 63 bytes. */
  function SeenName(p: Bytes): Bytes { Take(Basename(SeenPath(p)), NAME_LEN - 1) }

  function KernelPathKey(p: Bytes): Bytes { Pad(SeenPath(p), PATH_LEN) }

  function KernelNameKey(p: Bytes): Bytes { Pad(SeenName(p), NAME_LEN) }

  // ----- the kernel loops --------------------------------------------------------

  /** bprm->filename as the hook finds it. */
  datatype FileName = Null | Unreadable | Path(bytes: Bytes)

  /** A C string has no NUL inside. */
  predicate Legal(f: FileName) { f.Path? ==> 0 !in f.bytes }

  /** bpf_core_read_str: at most 255 bytes and a NUL, the rest of the buffer left as it was;
      a fault clears the buffer and returns no length. */
  method ReadStr(data: array<Byte>, f: FileName) returns (n: nat)
    requires data.Length == PATH_LEN && !f.Null?
    modifies data
    ensures f.Unreadable? ==> n == 0 && data[..] == Zeros(PATH_LEN)
    ensures f.Path? ==> n == |SeenPath(f.bytes)| + 1 && data[..n] == SeenPath(f.bytes) + [0]
    ensures f.Path? ==> data[n..] == old(data[..])[n..]
  {
    if f.Unreadable? {
      forall k | 0 <= k < data.Length {
        data[k] := 0;
      }
      return 0;
    }
    var s := SeenPath(f.bytes);
    forall k | 0 <= k <= |s| {
      data[k] := if k < |s| then s[k] else 0;
    }
    n := |s| + 1;
  }

  /** bpf_loop over `find_last_slash`: the index just past the last slash of data[..n]. */
  method FindLastSlash(data: array<Byte>, n: nat) returns (last: nat)
    requires data.Length == PATH_LEN
    ensures last <= n && last <= PATH_LEN
    ensures forall k :: last <= k < n && k < PATH_LEN ==> data[k] != SLASH
    ensures last > 0 ==> data[last - 1] == SLASH
  {
    last := 0;
    var i := 0;
    while i < n
      invariant i <= n && last <= i && i <= PATH_LEN
      invariant forall k :: last <= k < i ==> data[k] != SLASH
      invariant last > 0 ==> data[last - 1] == SLASH
    {
      if i >= n || i >= PATH_LEN {
        break;
      }
      if data[i] == SLASH {
        last := i + 1;
      }
      i := i + 1;
    }
  }

  /** bpf_loop over `copy_basename`: copies from `start` up to a NUL, the end of the buffer
      or 63 bytes, whichever comes first; the key keeps its other bytes. */
  method CopyBasename(data: array<Byte>, name: array<Byte>, start: nat) returns (ghost n: nat)
    requires data.Length == PATH_LEN && name.Length == NAME_LEN && data != name && start <= PATH_LEN
    modifies name
    ensures n <= NAME_LEN - 1 && start + n <= PATH_LEN
    ensures name[..] == data[start..start + n] + old(name[..])[n..]
    ensures forall k :: start <= k < start + n ==> data[k] != 0
    ensures n == NAME_LEN - 1 || start + n == PATH_LEN || data[start + n] == 0
  {
    var j := 0;
    while j < NAME_LEN
      invariant j <= NAME_LEN - 1 && start + j <= PATH_LEN
      invariant forall k {:trigger name[k]} :: 0 <= k < j ==> name[k] == data[start + k]
      invariant forall k :: start <= k < start + j ==> data[k] != 0
      invariant forall k :: j <= k < NAME_LEN ==> name[k] == old(name[k])
    {
      if j >= NAME_LEN - 1 {
        break;
      }
      var idx := start + j;
      if idx >= PATH_LEN {
        break;
      }
      var ch := data[idx];
      if ch == 0 {
        break;
      }
      name[j] := ch;
      j := j + 1;
    }
    n := j;
  }

  /** `basename_is_denied` for any stale scratch contents. */
  method BasenameIsDenied(f: FileName, data: array<Byte>, name: array<Byte>, rules: set<Bytes>) returns (denied: bool)
    requires data.Length == PATH_LEN && name.Length == NAME_LEN && data != name && Legal(f)
    modifies data, name
    ensures denied <==> f.Path? && KernelNameKey(f.bytes) in rules
  {
    if f.Null? {
      return false;
    }
    var n := ReadStr(data, f);
    if n <= 0 {
      return false;
    }
    var start := FindLastSlash(data, n);
    forall k | 0 <= k < name.Length {
      name[k] := 0;
    }
    ghost var zeroed := name[..];
    ghost var m := CopyBasename(data, name, start);
    KeyBuilt(f.bytes, data[..], zeroed, start, m);
    return name[..] in rules;
  }

  /** What the two loops leave behind is the kernel key. */
  lemma KeyBuilt(p: Bytes, data: Bytes, zeroed: Bytes, start: nat, m: nat)
    requires 0 !in p && |data| == PATH_LEN && |zeroed| == NAME_LEN && forall k :: 0 <= k < NAME_LEN ==> zeroed[k] == 0
    requires var n := |SeenPath(p)| + 1;
             && data[..n] == SeenPath(p) + [0] && start <= n
             && (forall k :: start <= k < n && k < PATH_LEN ==> data[k] != SLASH)
             && (start > 0 ==> data[start - 1] == SLASH)
    requires m <= NAME_LEN - 1 && start + m <= PATH_LEN && forall k :: start <= k < start + m ==> data[k] != 0
    requires m == NAME_LEN - 1 || start + m == PATH_LEN || data[start + m] == 0
    ensures data[start..start + m] + zeroed[m..] == KernelNameKey(p)
  {
    var s := SeenPath(p);
    var n := |s|;
    assert 0 !in s && n < PATH_LEN;
    assert zeroed[m..] == Zeros(NAME_LEN - m);
    assert KernelNameKey(p) == Pad(Take(Basename(s), NAME_LEN - 1), NAME_LEN);
    hide SeenPath, Zeros, KernelNameKey, Basename;
    assert s == data[..n] by {
      assert s == data[..n + 1][..n];
    }
    assert data[n] == 0 by {
      assert data[..n + 1][n] == 0;
    }
    NoSlashAfter(s, data, start);
    BasenameUnique(s, start);
    CopyStops(s, data, start, m);
  }

  lemma NoSlashAfter(s: Bytes, data: Bytes, start: nat)
    requires |s| < |data| == PATH_LEN && s == data[..|s|] && data[|s|] == 0
    requires start <= |s| + 1 && (forall k :: start <= k < |s| + 1 ==> data[k] != SLASH)
             && (start > 0 ==> data[start - 1] == SLASH)
    ensures start <= |s| && SLASH !in s[start..]
  {
  }

  /** The copy ends at the end of the path or after 63 bytes. */
  lemma CopyStops(s: Bytes, data: Bytes, start: nat, m: nat)
    requires |s| < |data| == PATH_LEN && s == data[..|s|] && data[|s|] == 0 && 0 !in s && start <= |s|
    requires m <= NAME_LEN - 1 && start + m <= PATH_LEN && forall k :: start <= k < start + m ==> data[k] != 0
    requires m == NAME_LEN - 1 || start + m == PATH_LEN || data[start + m] == 0
    ensures start + m <= |s| && (m == NAME_LEN - 1 || start + m == |s|)
    ensures data[start..start + m] == Take(s[start..], NAME_LEN - 1)
  {
    assert start + m < |s| ==> data[start + m] == s[start + m];
    assert s[start..][..m] == data[start..start + m];
  }

  // ----- rules against execs -----------------------------------------------------

  /** The keys a rule list puts into the kernel map. */
  ghost function Keys(rules: seq<Bytes>, encode: Bytes -> Encoded): set<Bytes> {
    set r | r in rules && encode(r).Key? :: encode(r).bytes
  }

  /** A rule the basename encoder takes. */
  predicate NameRule(rules: seq<Bytes>, name: Bytes) { name in rules && EncodeBasenameKey(name).Key? }

  predicate PathRule(rules: seq<Bytes>, path: Bytes) { path in rules && EncodeDenyKey(path).Key? }

  /** Denied by name exactly when what the kernel sees of the basename is a loaded rule. */
  lemma NameKeyMatches(p: Bytes, rules: seq<Bytes>)
    requires 0 !in p
    ensures KernelNameKey(p) in Keys(rules, EncodeBasenameKey) <==> NameRule(rules, SeenName(p))
  {
    var name := SeenName(p);
    SeenNameClean(p);
    hide SeenName;
    if KernelNameKey(p) in Keys(rules, EncodeBasenameKey) {
      var r :| r in rules && EncodeBasenameKey(r).Key? && EncodeBasenameKey(r).bytes == KernelNameKey(p);
      PadInjective(r, name, NAME_LEN);
    }
  }

  lemma PathKeyMatches(p: Bytes, rules: seq<Bytes>)
    requires 0 !in p
    ensures KernelPathKey(p) in Keys(rules, EncodeDenyKey) <==> PathRule(rules, SeenPath(p))
  {
    if KernelPathKey(p) in Keys(rules, EncodeDenyKey) {
      var r :| r in rules && EncodeDenyKey(r).Key? && EncodeDenyKey(r).bytes == KernelPathKey(p);
      PadInjective(r, SeenPath(p), PATH_LEN);
    }
  }

  /** For this path the basename layer does what a rule list says, whatever the list. */
  ghost predicate NameLayerExact(p: Bytes) {
    forall rules: seq<Bytes> {:trigger NameRule(rules, Basename(p))} ::
      KernelNameKey(p) in Keys(rules, EncodeBasenameKey) <==> NameRule(rules, Basename(p))
  }

  ghost predicate PathLayerExact(p: Bytes) {
    forall rules: seq<Bytes> {:trigger PathRule(rules, p)} ::
      KernelPathKey(p) in Keys(rules, EncodeDenyKey) <==> PathRule(rules, p)
  }

  /** The basename layer is exact when nothing is cut off the basename, and also when the cut
      leaves nothing while the whole basename is too long for any rule. */
  lemma NameLayerExactIff(p: Bytes)
    requires 0 !in p
    ensures NameLayerExact(p) <==> SeenName(p) == Basename(p) || (SeenName(p) == [] && |Basename(p)| >= NAME_LEN)
  {
    hide EncodeBasenameKey, SeenName, Basename, Keys, KernelNameKey;
    var seen, whole := SeenName(p), Basename(p);
    NamesAccepted(p);
    if seen == whole || (seen == [] && |whole| >= NAME_LEN) {
      forall rules: seq<Bytes>
        ensures KernelNameKey(p) in Keys(rules, EncodeBasenameKey) <==> NameRule(rules, whole)
      {
        NameKeyMatches(p, rules);
      }
    } else {
      var rules := if seen != [] then [seen] else [whole];
      NameKeyMatches(p, rules);
      assert NameRule(rules, seen) != NameRule(rules, whole);
    }
  }

  lemma NamesAccepted(p: Bytes)
    requires 0 !in p
    ensures EncodeBasenameKey(SeenName(p)).Key? <==> SeenName(p) != []
    ensures EncodeBasenameKey(Basename(p)).Key? <==> 0 < |Basename(p)| < NAME_LEN
  {
    var q, b, c := SeenPath(p), Basename(p), Basename(SeenPath(p));
    assert 0 !in q;
    NoNulInBasename(p);
    NoNulInBasename(q);
    assert SLASH !in b && SLASH !in c && SeenName(p) == Take(c, NAME_LEN - 1);
    hide *;
    TakeAccepted(b);
    TakeAccepted(c);
  }

  lemma SeenNameClean(p: Bytes)
    requires 0 !in p
    ensures 0 !in SeenName(p) && SLASH !in SeenName(p) && |SeenName(p)| < NAME_LEN
  {
    var q := SeenPath(p);
    assert 0 !in q;
    NoNulInBasename(q);
    hide SeenPath, Basename;
  }

  lemma TakeAccepted(b: Bytes)
    requires 0 !in b && SLASH !in b
    ensures EncodeBasenameKey(b).Key? <==> 0 < |b| < NAME_LEN
    ensures EncodeBasenameKey(Take(b, NAME_LEN - 1)).Key? <==> Take(b, NAME_LEN - 1) != []
  {
  }

  lemma {:induction false} NoNulInBasename(p: Bytes)
    requires 0 !in p
    ensures 0 !in Basename(p)
  {
    if p != [] && p[|p| - 1] != SLASH {
      NoNulInBasename(p[..|p| - 1]);
    }
  }

  /** On paths of at most 255 bytes the basename layer is exact just when the basename has at
      most 63 bytes: a longer one is refused by a rule for its first 63 bytes. */
  lemma ShortNamesMatchExactly(p: Bytes)
    requires 0 !in p && |p| <= 255
    ensures NameLayerExact(p) <==> |Basename(p)| <= 63
  {
    NameLayerExactIff(p);
  }

  /** The path layer is exact just when the path fits: a longer one is refused by a rule for
      its first 255 bytes. */
  lemma PathLayerExactIff(p: Bytes)
    requires 0 !in p
    ensures PathLayerExact(p) <==> |p| <= 255
  {
    if |p| < PATH_LEN {
      forall rules: seq<Bytes>
        ensures KernelPathKey(p) in Keys(rules, EncodeDenyKey) <==> PathRule(rules, p)
      {
        PathKeyMatches(p, rules);
      }
    } else {
      PathKeyMatches(p, [SeenPath(p)]);
      assert PathRule([SeenPath(p)], SeenPath(p)) && !PathRule([SeenPath(p)], p);
    }
  }

  // ----- which rules the encoders take -------------------------------------------------

  /** Some path the kernel can meet is seen with this basename. */
  ghost predicate NameCanBeSeen(name: Bytes) {
    exists p: Bytes :: 0 !in p && SeenName(p) == name
  }

  ghost predicate PathCanBeSeen(path: Bytes) {
    exists p: Bytes :: 0 !in p && SeenPath(p) == path
  }

  /** The encoders take exactly the nonempty rules that some exec can match. */
  lemma AcceptedIffMatchable(rule: Bytes)
    ensures EncodeBasenameKey(rule).Key? <==> rule != [] && NameCanBeSeen(rule)
    ensures EncodeDenyKey(rule).Key? <==> rule != [] && PathCanBeSeen(rule)
  {
    if EncodeBasenameKey(rule).Key? {
      BasenameUnique(rule, 0);
      assert SeenPath(rule) == rule && rule[0..] == rule;
      assert SeenName(rule) == rule;
    }
    if rule != [] && NameCanBeSeen(rule) {
      var p: Bytes :| 0 !in p && SeenName(p) == rule;
      NamesAccepted(p);
    }
    if EncodeDenyKey(rule).Key? {
      assert SeenPath(rule) == rule;
    }
    if rule != [] && PathCanBeSeen(rule) {
      var p: Bytes :| 0 !in p && SeenPath(p) == rule;
      assert EncodeDenyKey(rule).Key?;
    }
  }
}

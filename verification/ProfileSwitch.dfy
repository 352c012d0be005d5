/** The profile switch and the kernel deny maps it must keep in step: startup, every later
    SetProfile request, and the deny decision of check_execve.

    The eBPF object is attached and its map operations succeed, except that deleting a key
    that is not there is an error, as it is for a BPF hash map. */
module ProfileSwitch {
  import opened ByteStrings
  import opened DenyKeys

  datatype Profile = Prompt | Audit | Session | Strict | Lockdown | Smart
  datatype Config = Config(bins: seq<Bytes>, names: seq<Bytes>, userSwitch: bool)
  datatype Request = Request(isRoot: bool, profile: Profile)

  datatype State = State(
    profile: Profile,
    binKeys: set<Bytes>,
    nameKeys: set<Bytes>,
    gate: bool,
    pathArmed: nat,
    nameArmed: nat)

  type Encoder = Bytes -> Encoded

  predicate MaySwitch(isRoot: bool, userSwitch: bool) { isRoot || userSwitch }

  datatype DenyAction = Arm | Clear | Nothing

  function ActionFor(wasStrict: bool, isStrict: bool): DenyAction {
    match (wasStrict, isStrict)
    case (false, true) => Arm
    case (true, false) => Clear
    case _ => Nothing
  }

  // ----- rule lists --------------------------------------------------------------

  /** How many entries of the list have a key. */
  function Encodable(rules: seq<Bytes>, encode: Encoder): nat {
    if rules == [] then 0
    else Encodable(rules[..|rules| - 1], encode) + if encode(rules[|rules| - 1]).Key? then 1 else 0
  }

  /** No two encodable entries are the same. */
  ghost predicate NoRepeats(rules: seq<Bytes>, encode: Encoder) {
    forall i, j :: 0 <= i < j < |rules| && encode(rules[j]).Key? ==> rules[i] != rules[j]
  }

  ghost predicate Injective(encode: Encoder) {
    forall a, b :: encode(a).Key? && encode(a) == encode(b) ==> a == b
  }

  lemma KeysSnoc(rules: seq<Bytes>, encode: Encoder)
    requires rules != []
    ensures var r := rules[|rules| - 1];
            Keys(rules, encode) == Keys(rules[..|rules| - 1], encode) + if encode(r).Key? then {encode(r).bytes} else {}
  {
    var n := |rules| - 1;
    assert rules == rules[..n] + [rules[n]];
  }

  lemma PrefixStep(rules: seq<Bytes>, encode: Encoder, i: nat)
    requires i < |rules|
    ensures Keys(rules[..i + 1], encode) == Keys(rules[..i], encode) +
            if encode(rules[i]).Key? then {encode(rules[i]).bytes} else {}
    ensures Encodable(rules[..i + 1], encode) == Encodable(rules[..i], encode) + if encode(rules[i]).Key? then 1 else 0
  {
    assert rules[..i + 1][..i] == rules[..i];
    KeysSnoc(rules[..i + 1], encode);
  }

  /** The number of successes is the number of keys exactly when nothing is listed twice. */
  lemma {:induction false} CountIsSizeIff(rules: seq<Bytes>, encode: Encoder)
    requires Injective(encode)
    ensures |Keys(rules, encode)| <= Encodable(rules, encode)
    ensures |Keys(rules, encode)| == Encodable(rules, encode) <==> NoRepeats(rules, encode)
  {
    if rules == [] {
      assert Keys(rules, encode) == {};
    } else {
      var n := |rules| - 1;
      var rest, r := rules[..n], rules[n];
      CountIsSizeIff(rest, encode);
      KeysSnoc(rules, encode);
      NoRepeatsSnoc(rest, r, encode);
      assert rules == rest + [r];
      if encode(r).Key? {
        LastRepeats(rest, r, encode);
      }
      hide Keys, NoRepeats, Injective;
    }
  }

  lemma NoRepeatsSnoc(rest: seq<Bytes>, r: Bytes, encode: Encoder)
    ensures NoRepeats(rest + [r], encode) <==> NoRepeats(rest, encode) && (encode(r).Key? ==> r !in rest)
  {
    var rules := rest + [r];
    assert forall i :: 0 <= i < |rest| ==> rules[i] == rest[i];
    if NoRepeats(rules, encode) {
      forall i, j | 0 <= i < j < |rest| && encode(rest[j]).Key? ensures rest[i] != rest[j] {
        assert rules[i] != rules[j];
      }
      assert encode(r).Key? ==> rules[|rest|] == r;
    }
  }

  lemma LastRepeats(rest: seq<Bytes>, r: Bytes, encode: Encoder)
    requires Injective(encode) && encode(r).Key?
    ensures encode(r).bytes in Keys(rest, encode) <==> r in rest
  {
    if encode(r).bytes in Keys(rest, encode) {
      var q :| q in rest && encode(q).Key? && encode(q).bytes == encode(r).bytes;
      assert encode(q) == encode(r);
    }
  }

  // ----- map updates -------------------------------------------------------------

  /** The map after every rule's key was inserted. */
  ghost function With(keys: set<Bytes>, rules: seq<Bytes>, encode: Encoder): set<Bytes> {
    keys + Keys(rules, encode)
  }

  ghost function Without(keys: set<Bytes>, rules: seq<Bytes>, encode: Encoder): set<Bytes> {
    keys - Keys(rules, encode)
  }

  /** How many deletions failed: the encodable rules beyond the keys that were there. */
  ghost function Failed(keys: set<Bytes>, rules: seq<Bytes>, encode: Encoder): nat {
    Missing(Encodable(rules, encode), keys * Keys(rules, encode))
  }

  function Missing(n: nat, found: set<Bytes>): nat { if |found| <= n then n - |found| else 0 }

  function Removed(keys: set<Bytes>, key: Bytes): set<Bytes> { keys - {key} }

  /** BPF_MAP_DELETE_ELEM: an error when the key is not there. */
  method DeleteKey(keys: set<Bytes>, key: Bytes) returns (keys': set<Bytes>, ok: bool)
    ensures ok <==> key in keys
    ensures keys' == Removed(keys, key) && (!ok ==> keys' == keys)
  {
    ok := key in keys;
    keys' := if ok then keys - {key} else keys;
  }

  /** Inserts every encodable rule, counting successes. */
  method ArmAll(rules: seq<Bytes>, encode: Encoder, keys: set<Bytes>) returns (keys': set<Bytes>, armed: nat)
    ensures keys' == With(keys, rules, encode) && armed == Encodable(rules, encode)
  {
    keys', armed := keys, 0;
    var i := 0;
    assert Encodable(rules[..0], encode) == 0;
    assert Keys(rules[..0], encode) == {};
    hide Keys, Encodable;
    while i < |rules|
      invariant i <= |rules|
      invariant keys' == keys + Keys(rules[..i], encode) && armed == Encodable(rules[..i], encode)
    {
      PrefixStep(rules, encode, i);
      var e := encode(rules[i]);
      if e.Key? {
        keys' := keys' + {e.bytes};
        armed := armed + 1;
      }
      i := i + 1;
    }
    assert rules[..i] == rules;
  }

  /** Deletes the key of every encodable rule, counting the deletions that fail because the
      key is gone already. */
  method ClearAll(rules: seq<Bytes>, encode: Encoder, keys: set<Bytes>) returns (keys': set<Bytes>, still: nat)
    ensures keys' == Without(keys, rules, encode) && still == Failed(keys, rules, encode)
  {
    keys', still := keys, 0;
    var i := 0;
    ClearStart(rules, encode, keys);
    hide *;
    while i < |rules|
      invariant i <= |rules| && Clearing(rules[..i], encode, keys, keys', still)
    {
      var e := encode(rules[i]);
      ClearStep(rules, encode, keys, i, keys', still);
      if e.Key? {
        var ok;
        keys', ok := DeleteKey(keys', e.bytes);
        if !ok {
          still := still + 1;
        }
      }
      i := i + 1;
    }
    ClearDone(rules, encode, keys, keys', still);
  }

  ghost predicate Clearing(done: seq<Bytes>, encode: Encoder, keys: set<Bytes>, keys': set<Bytes>, still: nat) {
    && keys' == keys - Keys(done, encode)
    && still + |keys * Keys(done, encode)| == Encodable(done, encode)
  }

  lemma ClearStart(rules: seq<Bytes>, encode: Encoder, keys: set<Bytes>)
    ensures Clearing(rules[..0], encode, keys, keys, 0)
  {
    assert Keys(rules[..0], encode) == {};
  }

  lemma ClearDone(rules: seq<Bytes>, encode: Encoder, keys: set<Bytes>, keys': set<Bytes>, still: nat)
    requires Clearing(rules[..|rules|], encode, keys, keys', still)
    ensures keys' == Without(keys, rules, encode) && still == Failed(keys, rules, encode)
  {
    assert rules[..|rules|] == rules;
  }

  lemma ClearStep(rules: seq<Bytes>, encode: Encoder, keys: set<Bytes>, i: nat, keys': set<Bytes>, still: nat)
    requires i < |rules| && Clearing(rules[..i], encode, keys, keys', still)
    ensures var e := encode(rules[i]);
            if !e.Key? then Clearing(rules[..i + 1], encode, keys, keys', still)
            else if e.bytes in keys' then Clearing(rules[..i + 1], encode, keys, Removed(keys', e.bytes), still)
            else Clearing(rules[..i + 1], encode, keys, keys', still + 1)
  {
    PrefixStep(rules, encode, i);
    var e, found := encode(rules[i]), Keys(rules[..i], encode);
    hide Keys, Encodable;
    if e.Key? {
      OneMore(keys, found, e.bytes);
      assert keys - (found + {e.bytes}) == keys - found - {e.bytes};
    } else {
      assert found + {} == found;
    }
  }

  lemma OneMore(keys: set<Bytes>, found: set<Bytes>, k: Bytes)
    ensures |keys * (found + {k})| == |keys * found| + if k in keys - found then 1 else 0
  {
    if k in keys - found {
      assert keys * (found + {k}) == keys * found + {k};
    } else {
      assert keys * (found + {k}) == keys * found;
    }
  }

  // ----- the daemon --------------------------------------------------------------

  /** What startup leaves: the counts it reports are the configured lengths. */
  ghost function Startup(c: Config, p: Profile): State {
    if p.Strict? then
      State(p, Keys(c.bins, EncodeDenyKey), Keys(c.names, EncodeBasenameKey),
            Encodable(c.names, EncodeBasenameKey) > 0, |c.bins|, |c.names|)
    else
      State(p, {}, {}, false, 0, 0)
  }

  /** One SetProfile request. */
  ghost function Switched(c: Config, s: State, q: Request): State {
    if !MaySwitch(q.isRoot, c.userSwitch) then s else
    var path, name := EncodeDenyKey, EncodeBasenameKey;
    match ActionFor(s.profile.Strict?, q.profile.Strict?)
    case Arm =>
      State(q.profile, With(s.binKeys, c.bins, path), With(s.nameKeys, c.names, name), Encodable(c.names, name) > 0,
            Encodable(c.bins, path), Encodable(c.names, name))
    case Clear =>
      State(q.profile, Without(s.binKeys, c.bins, path), Without(s.nameKeys, c.names, name), false,
            Failed(s.binKeys, c.bins, path), Failed(s.nameKeys, c.names, name))
    case Nothing => s.(profile := q.profile)
  }

  class Daemon {
    const config: Config
    var profile: Profile
    var binKeys: set<Bytes>
    var nameKeys: set<Bytes>
    var gate: bool
    var pathArmed: nat
    var nameArmed: nat

    ghost function Now(): State
      reads this
    {
      State(profile, binKeys, nameKeys, gate, pathArmed, nameArmed)
    }

    constructor (c: Config, p: Profile)
      ensures config == c && Now() == Startup(c, p)
    {
      config, profile, binKeys, nameKeys, gate, pathArmed, nameArmed := c, p, {}, {}, false, 0, 0;
      new;
      if p == Strict {
        var n;
        binKeys, n := ArmAll(config.bins, EncodeDenyKey, binKeys);
        nameKeys, n := ArmAll(config.names, EncodeBasenameKey, nameKeys);
        gate := n > 0;
        pathArmed, nameArmed := |config.bins|, |config.names|;
      }
    }

    method SetProfile(q: Request) returns (accepted: bool)
      modifies this
      ensures if q.isRoot then accepted else accepted == config.userSwitch
      ensures Now() == Switched(config, old(Now()), q)
    {
      hide With, Without, Failed, Encodable, EncodeDenyKey, EncodeBasenameKey;
      if !MaySwitch(q.isRoot, config.userSwitch) {
        return false;
      }
      var was := profile;
      profile := q.profile;
      match ActionFor(was == Strict, profile == Strict) {
        case Arm =>
          binKeys, pathArmed := ArmAll(config.bins, EncodeDenyKey, binKeys);
          nameKeys, nameArmed := ArmAll(config.names, EncodeBasenameKey, nameKeys);
          gate := nameArmed > 0;
        case Clear =>
          binKeys, pathArmed := ClearAll(config.bins, EncodeDenyKey, binKeys);
          nameKeys, nameArmed := ClearAll(config.names, EncodeBasenameKey, nameKeys);
          gate := false;
        case Nothing =>
      }
      return true;
    }

    /** The deny part of check_execve, for any stale scratch contents. */
    method DenyCheck(watched: bool, f: FileName, data: array<Byte>, name: array<Byte>) returns (refused: bool)
      requires data.Length == PATH_LEN && name.Length == NAME_LEN && data != name && Legal(f)
      modifies data, name
      ensures refused == RefusedBy(Now(), watched, f)
    {
      if !watched || f.Null? {
        return false;
      }
      var key := new Byte[PATH_LEN](_ => 0);
      var n := ReadStr(key, f);
      assert f.Path? ==> key[..] == key[..n] + key[n..] && key[n..] == Zeros(PATH_LEN - n);
      assert f.Path? ==> key[..] == KernelPathKey(f.bytes);
      refused := key[..] in binKeys;
      if !refused && gate {
        refused := BasenameIsDenied(f, data, name, nameKeys);
      }
    }
  }

  ghost predicate RefusedBy(s: State, watched: bool, f: FileName) {
    && watched
    && match f
       case Null => false
       case Unreadable => Zeros(PATH_LEN) in s.binKeys
       case Path(p) => KernelPathKey(p) in s.binKeys || (s.gate && KernelNameKey(p) in s.nameKeys)
  }

  // ----- every sequence of requests ----------------------------------------------

  ghost function After(c: Config, p: Profile, qs: seq<Request>): State {
    if qs == [] then Startup(c, p) else Switched(c, After(c, p, qs[..|qs| - 1]), qs[|qs| - 1])
  }

  /** The profile of the last request by root, or by anyone if users may switch. */
  function Active(c: Config, p: Profile, qs: seq<Request>): Profile {
    if qs == [] then p
    else if qs[|qs| - 1].isRoot || c.userSwitch then qs[|qs| - 1].profile
    else Active(c, p, qs[..|qs| - 1])
  }

  /** Some allowed request went into or out of strict. */
  predicate Crossed(c: Config, p: Profile, qs: seq<Request>) {
    qs != [] &&
    (|| Crossed(c, p, qs[..|qs| - 1])
     || Active(c, p, qs).Strict? != Active(c, p, qs[..|qs| - 1]).Strict?)
  }

  lemma EncodableIffKeys(rules: seq<Bytes>, encode: Encoder)
    ensures Encodable(rules, encode) > 0 <==> Keys(rules, encode) != {}
  {
    if rules != [] {
      KeysSnoc(rules, encode);
    }
  }

  lemma InAndOut(rules: seq<Bytes>, encode: Encoder)
    ensures With({}, rules, encode) == Keys(rules, encode)
    ensures Without(Keys(rules, encode), rules, encode) == {}
  {
  }

  /** The deny maps are exactly the encodable rules under strict and empty otherwise; the
      basename scan is on exactly when there is a basename to find. */
  lemma {:induction false} MapsFollowProfile(c: Config, p: Profile, qs: seq<Request>)
    ensures var s := After(c, p, qs);
            && s.profile == Active(c, p, qs)
            && s.binKeys == (if s.profile.Strict? then Keys(c.bins, EncodeDenyKey) else {})
            && s.nameKeys == (if s.profile.Strict? then Keys(c.names, EncodeBasenameKey) else {})
            && (s.gate <==> s.nameKeys != {})
  {
    EncodableIffKeys(c.names, EncodeBasenameKey);
    InAndOut(c.bins, EncodeDenyKey);
    InAndOut(c.names, EncodeBasenameKey);
    hide Keys, Encodable, With, Without, Failed, EncodeDenyKey, EncodeBasenameKey;
    if qs != [] {
      MapsFollowProfile(c, p, qs[..|qs| - 1]);
    }
  }

  lemma BothInjective()
    ensures Injective(EncodeDenyKey) && Injective(EncodeBasenameKey)
  {
    forall a, b
      ensures EncodeDenyKey(a).Key? && EncodeDenyKey(a) == EncodeDenyKey(b) ==> a == b
      ensures EncodeBasenameKey(a).Key? && EncodeBasenameKey(a) == EncodeBasenameKey(b) ==> a == b
    {
      EncodersInjective(a, b);
    }
  }

  /** From the first switch into or out of strict on, the reported counts are the sizes of
      the maps exactly when no encodable rule is listed twice. */
  lemma {:induction false} ReportedCountsExactIff(c: Config, p: Profile, qs: seq<Request>)
    requires Crossed(c, p, qs)
    ensures After(c, p, qs).pathArmed == |After(c, p, qs).binKeys| <==> NoRepeats(c.bins, EncodeDenyKey)
    ensures After(c, p, qs).nameArmed == |After(c, p, qs).nameKeys| <==> NoRepeats(c.names, EncodeBasenameKey)
  {
    var before, q := qs[..|qs| - 1], qs[|qs| - 1];
    MapsFollowProfile(c, p, qs);
    MapsFollowProfile(c, p, before);
    var s := After(c, p, before);
    assert After(c, p, qs) == Switched(c, s, q);
    if Active(c, p, qs).Strict? == Active(c, p, before).Strict? {
      ReportedCountsExactIff(c, p, before);
    } else {
      hide After, Active, Crossed;
      CrossingCounts(c, s, q);
    }
  }

  lemma CrossingCounts(c: Config, s: State, q: Request)
    requires MaySwitch(q.isRoot, c.userSwitch) && s.profile.Strict? != q.profile.Strict?
    requires s.binKeys == if s.profile.Strict? then Keys(c.bins, EncodeDenyKey) else {}
    requires s.nameKeys == if s.profile.Strict? then Keys(c.names, EncodeBasenameKey) else {}
    ensures var t := Switched(c, s, q);
            && (t.pathArmed == |t.binKeys| <==> NoRepeats(c.bins, EncodeDenyKey))
            && (t.nameArmed == |t.nameKeys| <==> NoRepeats(c.names, EncodeBasenameKey))
  {
    BothInjective();
    hide EncodeDenyKey, EncodeBasenameKey;
    CountsAround(c.bins, EncodeDenyKey);
    CountsAround(c.names, EncodeBasenameKey);
    hide Keys, Encodable, With, Without, Failed, NoRepeats;
  }

  lemma CountsAround(rules: seq<Bytes>, encode: Encoder)
    requires Injective(encode)
    ensures Encodable(rules, encode) == |With({}, rules, encode)| <==> NoRepeats(rules, encode)
    ensures var keys := Keys(rules, encode);
            Failed(keys, rules, encode) == |Without(keys, rules, encode)| <==> NoRepeats(rules, encode)
  {
    CountIsSizeIff(rules, encode);
    var keys := Keys(rules, encode);
    hide Keys, Encodable, NoRepeats, Injective;
    assert {} + keys == keys && keys * keys == keys && keys - keys == {};
  }

  /** Before that, startup's own counts stand: the configured lengths, or none. */
  lemma {:induction false} StartupCountsStand(c: Config, p: Profile, qs: seq<Request>)
    requires !Crossed(c, p, qs)
    ensures After(c, p, qs).pathArmed == (if p.Strict? then |c.bins| else 0)
    ensures After(c, p, qs).nameArmed == (if p.Strict? then |c.names| else 0)
    ensures Active(c, p, qs).Strict? == p.Strict?
  {
    if qs != [] {
      MapsFollowProfile(c, p, qs);
      MapsFollowProfile(c, p, qs[..|qs| - 1]);
      StartupCountsStand(c, p, qs[..|qs| - 1]);
    }
  }

  ghost predicate AllEncodable(rules: seq<Bytes>, encode: Encoder) {
    forall i :: 0 <= i < |rules| ==> encode(rules[i]).Key?
  }

  lemma {:induction false} EncodableIsLengthIff(rules: seq<Bytes>, encode: Encoder)
    ensures Encodable(rules, encode) <= |rules|
    ensures Encodable(rules, encode) == |rules| <==> AllEncodable(rules, encode)
  {
    if rules != [] {
      var rest := rules[..|rules| - 1];
      EncodableIsLengthIff(rest, encode);
      assert forall i :: 0 <= i < |rest| ==> rest[i] == rules[i];
    }
  }

  lemma LengthIsSizeIff(rules: seq<Bytes>, encode: Encoder)
    requires Injective(encode)
    ensures |rules| == |Keys(rules, encode)| <==> AllEncodable(rules, encode) && NoRepeats(rules, encode)
  {
    CountIsSizeIff(rules, encode);
    EncodableIsLengthIff(rules, encode);
    hide Keys, Encodable, AllEncodable, NoRepeats, Injective;
  }

  /** Before the first switch into or out of strict, the counts reported since startup are the
      sizes of the maps exactly when the daemon did not start strict, or every rule is
      encodable and none is listed twice. */
  lemma StartupCountsExactIff(c: Config, p: Profile, qs: seq<Request>)
    requires !Crossed(c, p, qs)
    ensures var s := After(c, p, qs);
            && (s.pathArmed == |s.binKeys| <==>
                  !p.Strict? || (AllEncodable(c.bins, EncodeDenyKey) && NoRepeats(c.bins, EncodeDenyKey)))
            && (s.nameArmed == |s.nameKeys| <==>
                  !p.Strict? || (AllEncodable(c.names, EncodeBasenameKey) && NoRepeats(c.names, EncodeBasenameKey)))
  {
    StartupCountsStand(c, p, qs);
    MapsFollowProfile(c, p, qs);
    BothInjective();
    hide After, Active, Crossed, EncodeDenyKey, EncodeBasenameKey;
    LengthIsSizeIff(c.bins, EncodeDenyKey);
    LengthIsSizeIff(c.names, EncodeBasenameKey);
    hide Keys, AllEncodable, NoRepeats, Injective;
  }

  /** From startup through any requests, an execve is refused by a deny rule exactly when it
      is watched, strict is the active profile and what the kernel sees of its path or of its
      basename is a configured, encodable rule. */
  lemma ExecRefusedIffRule(c: Config, p: Profile, qs: seq<Request>, watched: bool, f: FileName)
    requires Legal(f)
    ensures RefusedBy(After(c, p, qs), watched, f) <==>
              && watched && Active(c, p, qs).Strict? && f.Path?
              && (PathRule(c.bins, SeenPath(f.bytes)) || NameRule(c.names, SeenName(f.bytes)))
  {
    MapsFollowProfile(c, p, qs);
    hide After, Active;
    NoZeroKey(c.bins);
    if f.Path? {
      PathKeyMatches(f.bytes, c.bins);
      NameKeyMatches(f.bytes, c.names);
    }
  }

  /** In full for a path of at most 255 bytes with a basename of at most 63. */
  lemma ShortExecRefusedIffListed(c: Config, p: Profile, qs: seq<Request>, watched: bool, path: Bytes)
    requires 0 !in path && |path| < PATH_LEN && |Basename(path)| < NAME_LEN
    ensures RefusedBy(After(c, p, qs), watched, Path(path)) <==>
              && watched && Active(c, p, qs).Strict?
              && ((path in c.bins && path != []) || (Basename(path) in c.names && Basename(path) != []))
  {
    hide *;
    ShortPathSeen(path);
    ExecRefusedIffRule(c, p, qs, watched, Path(path));
    RuleFound(c, path);
  }

  lemma ShortPathSeen(path: Bytes)
    requires 0 !in path && |path| < PATH_LEN && |Basename(path)| < NAME_LEN
    ensures SeenPath(path) == path && SeenName(path) == Basename(path) && Legal(Path(path))
    ensures EncodeDenyKey(path).Key? <==> path != []
    ensures EncodeBasenameKey(Basename(path)).Key? <==> Basename(path) != []
  {
    NamesAccepted(path);
    PathAccepted(path);
    hide EncodeDenyKey, EncodeBasenameKey, Basename;
    assert SeenPath(path) == path;
  }

  lemma PathAccepted(path: Bytes)
    requires 0 !in path && |path| < PATH_LEN
    ensures EncodeDenyKey(path).Key? <==> path != []
  {
    hide Pad;
  }

  lemma RuleFound(c: Config, path: Bytes)
    requires EncodeDenyKey(path).Key? <==> path != []
    requires EncodeBasenameKey(Basename(path)).Key? <==> Basename(path) != []
    ensures PathRule(c.bins, path) <==> path in c.bins && path != []
    ensures NameRule(c.names, Basename(path)) <==> Basename(path) in c.names && Basename(path) != []
  {
    hide Basename, EncodeDenyKey, EncodeBasenameKey;
  }

  lemma NoZeroKey(rules: seq<Bytes>)
    ensures Zeros(PATH_LEN) !in Keys(rules, EncodeDenyKey)
  {
    forall r | r in rules && EncodeDenyKey(r).Key? ensures EncodeDenyKey(r).bytes != Zeros(PATH_LEN) {
      assert EncodeDenyKey(r).bytes[0] == r[0] && Zeros(PATH_LEN)[0] == 0;
    }
  }
}

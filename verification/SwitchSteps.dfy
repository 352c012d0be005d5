/** A profile switch one map call at a time. The kernel takes no lock, so an execve can fall
    between any two calls: the active profile is swapped first, then there is one call per
    rule, path rules before basename rules, and the scan gate comes last. */
module SwitchSteps {
  import opened ByteStrings
  import opened DenyKeys
  import opened ProfileSwitch

  datatype MapCall =
    | PutPath(rule: Bytes)
    | PutName(rule: Bytes)
    | CutPath(rule: Bytes)
    | CutName(rule: Bytes)
    | SetGate(on: bool)

  datatype Maps = Maps(binKeys: set<Bytes>, nameKeys: set<Bytes>, gate: bool)

  /** A rule that does not encode makes no map call, and deleting an absent key changes
      nothing. */
  function Put(keys: set<Bytes>, e: Encoded): set<Bytes> { if e.Key? then keys + {e.bytes} else keys }

  function Cut(keys: set<Bytes>, e: Encoded): set<Bytes> { if e.Key? then keys - {e.bytes} else keys }

  function Apply(m: Maps, call: MapCall): Maps {
    match call
    case PutPath(r) => m.(binKeys := Put(m.binKeys, EncodeDenyKey(r)))
    case PutName(r) => m.(nameKeys := Put(m.nameKeys, EncodeBasenameKey(r)))
    case CutPath(r) => m.(binKeys := Cut(m.binKeys, EncodeDenyKey(r)))
    case CutName(r) => m.(nameKeys := Cut(m.nameKeys, EncodeBasenameKey(r)))
    case SetGate(on) => m.(gate := on)
  }

  /** How many calls a switch into or out of strict makes. */
  function Calls(c: Config): nat { |c.bins| + |c.names| + 1 }

  /** The call number `n` of a switch into strict (`arming`) or out of it. */
  function CallAt(c: Config, arming: bool, n: nat): MapCall
    requires n < Calls(c)
  {
    if n < |c.bins| then (if arming then PutPath(c.bins[n]) else CutPath(c.bins[n]))
    else if n < |c.bins| + |c.names| then
      var r := c.names[n - |c.bins|];
      if arming then PutName(r) else CutName(r)
    else SetGate(arming && Encodable(c.names, EncodeBasenameKey) > 0)
  }

  /** The maps after the first `n` calls. */
  function MapsAfter(c: Config, arming: bool, m: Maps, n: nat): Maps
    requires n <= Calls(c)
  {
    if n == 0 then m else Apply(MapsAfter(c, arming, m, n - 1), CallAt(c, arming, n - 1))
  }

  function MapsOf(s: State): Maps { Maps(s.binKeys, s.nameKeys, s.gate) }

  // ----- where a switch stands ----------------------------------------------------------

  /** How many rules of each list are done after `n` calls. */
  function PathsDone(c: Config, n: nat): nat { if n < |c.bins| then n else |c.bins| }

  function NamesDone(c: Config, n: nat): nat {
    if n < |c.bins| then 0 else if n - |c.bins| < |c.names| then n - |c.bins| else |c.names|
  }

  ghost function PathKeys(rules: seq<Bytes>): set<Bytes> { Keys(rules, EncodeDenyKey) }

  ghost function NameKeys(rules: seq<Bytes>): set<Bytes> { Keys(rules, EncodeBasenameKey) }

  /** The maps in the middle of a switch, in closed form. */
  ghost function Midway(c: Config, arming: bool, n: nat): Maps {
    var p, q := c.bins[..PathsDone(c, n)], c.names[..NamesDone(c, n)];
    if arming then Maps(PathKeys(p), NameKeys(q), n == Calls(c) && NameKeys(c.names) != {})
    else Maps(PathKeys(c.bins) - PathKeys(p), NameKeys(c.names) - NameKeys(q), n < Calls(c) && NameKeys(c.names) != {})
  }

  lemma PutPrefix(rules: seq<Bytes>, encode: Encoder, i: nat)
    requires i < |rules|
    ensures Keys(rules[..i + 1], encode) == Put(Keys(rules[..i], encode), encode(rules[i]))
    ensures Keys(rules, encode) - Keys(rules[..i + 1], encode) ==
            Cut(Keys(rules, encode) - Keys(rules[..i], encode), encode(rules[i]))
  {
    PrefixStep(rules, encode, i);
    hide Keys;
  }

  lemma MidwayStep(c: Config, arming: bool, n: nat)
    requires n < Calls(c)
    ensures Midway(c, arming, n + 1) == Apply(Midway(c, arming, n), CallAt(c, arming, n))
  {
    hide Keys, Put, Cut, EncodeDenyKey, EncodeBasenameKey;
    if n < |c.bins| {
      PutPrefix(c.bins, EncodeDenyKey, n);
    } else if n < |c.bins| + |c.names| {
      PutPrefix(c.names, EncodeBasenameKey, n - |c.bins|);
    } else {
      EncodableIffKeys(c.names, EncodeBasenameKey);
    }
  }

  /** Call by call the maps are the closed form. */
  lemma {:induction false} MidwayHolds(c: Config, arming: bool, n: nat)
    requires n <= Calls(c)
    ensures MapsAfter(c, arming, Midway(c, arming, 0), n) == Midway(c, arming, n)
  {
    hide Midway, Apply, CallAt;
    if n > 0 {
      MidwayHolds(c, arming, n - 1);
      MidwayStep(c, arming, n - 1);
    }
  }

  lemma MidwayEnds(c: Config, arming: bool)
    ensures Midway(c, arming, 0) ==
            if arming then Maps({}, {}, false) else Maps(PathKeys(c.bins), NameKeys(c.names), NameKeys(c.names) != {})
    ensures Midway(c, arming, Calls(c)) ==
            if arming then Maps(PathKeys(c.bins), NameKeys(c.names), NameKeys(c.names) != {}) else Maps({}, {}, false)
  {
    assert c.bins[..|c.bins|] == c.bins && c.names[..|c.names|] == c.names;
    assert c.bins[..0] == [] && c.names[..0] == [];
    assert PathKeys([]) == {} && NameKeys([]) == {};
    hide PathKeys, NameKeys;
  }

  /** After any requests, a switch that crosses into or out of strict runs from the maps
      before it to the maps after it. */
  lemma SwitchRunsThrough(c: Config, p: Profile, qs: seq<Request>, q: Request)
    requires MaySwitch(q.isRoot, c.userSwitch) && Active(c, p, qs).Strict? != q.profile.Strict?
    ensures var arming, s := q.profile.Strict?, After(c, p, qs);
            && MapsOf(s) == Midway(c, arming, 0)
            && MapsAfter(c, arming, MapsOf(s), Calls(c)) == MapsOf(After(c, p, qs + [q]))
  {
    var arming := q.profile.Strict?;
    MapsFollowProfile(c, p, qs);
    MapsFollowProfile(c, p, qs + [q]);
    assert (qs + [q])[..|qs|] == qs;
    assert Active(c, p, qs + [q]) == q.profile;
    hide After, Active;
    MidwayEnds(c, arming);
    MidwayHolds(c, arming, Calls(c));
    hide Midway, MapsAfter, Keys;
  }

  // ----- an execve in the middle ------------------------------------------------------------

  ghost predicate RefusedMidway(c: Config, arming: bool, n: nat, watched: bool, f: FileName) {
    var m := Midway(c, arming, n);
    RefusedBy(State(Strict, m.binKeys, m.nameKeys, m.gate, 0, 0), watched, f)
  }

  /** The rules in force after `n` calls of a switch: arming, the path rules inserted so far
      and no basename rule before the gate; clearing, the path rules not yet deleted and, until
      the gate is off, the basename rules not yet deleted. */
  ghost predicate InForce(c: Config, arming: bool, n: nat, path: Bytes, name: Bytes) {
    var i, j := PathsDone(c, n), NamesDone(c, n);
    if arming then PathRule(c.bins[..i], path) || (n == Calls(c) && NameRule(c.names, name))
    else
      || (PathRule(c.bins, path) && path !in c.bins[..i])
      || (n < Calls(c) && NameRule(c.names, name) && name !in c.names[..j])
  }

  /** At any point of a switch, an execve is refused by a deny rule exactly when it is watched
      and one of the rules in force then matches what the kernel sees of its path or name. */
  lemma RefusedMidwayIff(c: Config, arming: bool, n: nat, watched: bool, f: FileName)
    requires n <= Calls(c) && Legal(f)
    ensures RefusedMidway(c, arming, n, watched, f) <==>
              watched && f.Path? && InForce(c, arming, n, SeenPath(f.bytes), SeenName(f.bytes))
  {
    var i, j := PathsDone(c, n), NamesDone(c, n);
    NoZeroKey(c.bins);
    NoZeroKey(c.bins[..i]);
    if f.Path? {
      var p := f.bytes;
      PathKeyMatches(p, c.bins);
      PathKeyMatches(p, c.bins[..i]);
      NameKeyMatches(p, c.names);
      NameKeyMatches(p, c.names[..j]);
      hide Keys, KernelPathKey, KernelNameKey, SeenPath, SeenName, EncodeDenyKey, EncodeBasenameKey;
      assert n == Calls(c) ==> c.names[..j] == c.names;
    } else {
      hide Keys;
    }
  }

  /** Whatever is refused in the middle of a switch is refused under strict, before or after
      it: no exec is ever refused that both profiles around it allow. */
  lemma NothingElseRefused(c: Config, arming: bool, n: nat, watched: bool, f: FileName)
    requires n <= Calls(c) && Legal(f) && RefusedMidway(c, arming, n, watched, f)
    ensures RefusedMidway(c, arming, if arming then Calls(c) else 0, watched, f)
  {
    var full := if arming then Calls(c) else 0;
    RefusedMidwayIff(c, arming, n, watched, f);
    RefusedMidwayIff(c, arming, full, watched, f);
    hide RefusedMidway, SeenPath, SeenName, EncodeDenyKey, EncodeBasenameKey;
    assert c.bins[..|c.bins|] == c.bins && c.bins[..0] == [] && c.names[..0] == [];
  }
}

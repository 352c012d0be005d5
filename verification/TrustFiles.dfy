/** The three per-user text files: validators, line format, readers and writers. */
module TrustFiles {
  import opened Text

  // ----- validators -------------------------------------------------------------

  const ATOM_MIN_LEN := 3
  const ATOM_MAX_LEN := 200
  const HOST_MAX_LEN := 253

  predicate HasSpaceHash(s: string) {
    exists i {:trigger s[i]} :: 0 <= i < |s| - 1 && s[i] == ' ' && s[i + 1] == '#'
  }

  /** The checks an atom must pass; `placeholder` is the corpus fetcher's own test. */
  predicate ValidAtom(placeholder: string -> bool, atom: string) {
    && ATOM_MIN_LEN <= Utf8Len(atom) <= ATOM_MAX_LEN
    && '\n' !in atom && '\r' !in atom
    && !HasSpaceHash(atom) && !(atom != "" && atom[0] == '#')
    && !placeholder(atom)
  }

  predicate ValidTrustHash(hash: string) {
    |hash| == 64 && forall i :: 0 <= i < |hash| ==> '0' <= hash[i] <= '9' || 'a' <= hash[i] <= 'f'
  }

  predicate ValidHost(host: string) {
    && host != "" && Utf8Len(host) <= HOST_MAX_LEN
    && '\n' !in host && '\r' !in host && ' ' !in host && '#' !in host
  }

  function Repeat(c: char, n: nat): string { seq(n, _ => c) }

  lemma {:induction false} RepeatLength(n: nat)
    ensures Utf8Len(Repeat('a', n)) == n
  {
    if n > 0 {
      assert Repeat('a', n)[1..] == Repeat('a', n - 1);
      RepeatLength(n - 1);
    }
  }

  /** The limits of the validators: how long a plain host or atom may be, what no host may
      contain and what no atom may contain or start with. */
  lemma ValidatorLimits(n: nat, a: string, c: char, b: string)
    ensures ValidHost(Repeat('a', n)) <==> 1 <= n <= 253
    ensures ValidAtom(_ => false, Repeat('a', n)) <==> 3 <= n <= 200
    ensures c == '\n' || c == '\r' || c == ' ' || c == '#' ==> !ValidHost(a + [c] + b)
    ensures c == '\n' || c == '\r' ==> !ValidAtom(_ => false, a + [c] + b)
    ensures !ValidAtom(_ => false, a + " #" + b) && !ValidAtom(_ => false, "#" + b)
    ensures !ValidAtom(_ => true, a)
  {
    RepeatLength(n);
    var r, s, t := Repeat('a', n), a + [c] + b, a + " #" + b;
    hide Utf8Len;
    assert s[|a|] == c;
    assert t[|a|] == ' ' && t[|a| + 1] == '#';
    assert forall i :: 0 <= i < |r| ==> r[i] == 'a';
  }

  /** A lowercase hexadecimal digit. */
  function HexDigit(n: nat): char
    requires n < 16
  {
    if n < 10 then ('0' as int + n) as char else ('a' as int + n - 10) as char
  }

  predicate IsBytes(bs: seq<nat>) { forall i :: 0 <= i < |bs| ==> bs[i] < 256 }

  /** The lowercase hexadecimal form. */
  function Hex(bs: seq<nat>): string
    requires IsBytes(bs)
  {
    if bs == [] then "" else [HexDigit(bs[0] / 16), HexDigit(bs[0] % 16)] + Hex(bs[1..])
  }

  predicate HexChar(c: char) { '0' <= c <= '9' || 'a' <= c <= 'f' }

  lemma {:induction false} HexIsHex(bs: seq<nat>)
    requires IsBytes(bs)
    ensures |Hex(bs)| == 2 * |bs| && forall i :: 0 <= i < |Hex(bs)| ==> HexChar(Hex(bs)[i])
  {
    if bs != [] {
      HexIsHex(bs[1..]);
    }
  }

  lemma DigitValue(c: char) returns (n: nat)
    requires HexChar(c)
    ensures n < 16 && HexDigit(n) == c
  {
    n := if c <= '9' then c as int - '0' as int else c as int - 'a' as int + 10;
  }

  lemma {:induction false} Unhex(s: string) returns (bs: seq<nat>)
    requires |s| % 2 == 0 && forall i :: 0 <= i < |s| ==> HexChar(s[i])
    ensures IsBytes(bs) && 2 * |bs| == |s| && Hex(bs) == s
    decreases |s|
  {
    if s == "" {
      return [];
    }
    var hi := DigitValue(s[0]);
    var lo := DigitValue(s[1]);
    var rest := Unhex(s[2..]);
    bs := [16 * hi + lo] + rest;
    assert bs[1..] == rest && (16 * hi + lo) / 16 == hi && (16 * hi + lo) % 16 == lo;
    assert s == [s[0], s[1]] + s[2..];
  }

  /** A trust hash is the lowercase hexadecimal form of 32 bytes, and nothing else is. */
  lemma ValidHashIffDigest(hash: string)
    ensures ValidTrustHash(hash) <==> exists bs: seq<nat> :: IsBytes(bs) && |bs| == 32 && Hex(bs) == hash
  {
    if ValidTrustHash(hash) {
      var bs := Unhex(hash);
    }
    if bs: seq<nat> :| IsBytes(bs) && |bs| == 32 && Hex(bs) == hash {
      HexIsHex(bs);
    }
  }

  // ----- lines ------------------------------------------------------------------

  /** The first index of " #", or the length. */
  function SpaceHash(s: string): (k: nat)
    ensures k <= |s|
  {
    if |s| < 2 then |s| else if s[0] == ' ' && s[1] == '#' then 0 else 1 + SpaceHash(s[1..])
  }

  function StripInlineComment(line: string): string {
    if line != "" && line[0] == '#' then "" else line[..SpaceHash(line)]
  }

  /** What a line holds besides comments and outer whitespace. */
  function Body(line: string): string {
    Trim(StripInlineComment(line))
  }

  lemma {:induction false} SpaceHashAfter(a: string, rest: string)
    requires !HasSpaceHash(a)
    ensures SpaceHash(a + " #" + rest) == |a|
  {
    var s := a + " #" + rest;
    if a != "" {
      assert s[1..] == a[1..] + " #" + rest;
      forall i | 0 <= i < |a[1..]| - 1 ensures !(a[1..][i] == ' ' && a[1..][i + 1] == '#') {
        assert a[1..][i] == a[i + 1] && a[1..][i + 1] == a[i + 2];
      }
      SpaceHashAfter(a[1..], rest);
      assert s[0] == a[0] && s[1] == if |a| > 1 then a[1] else ' ';
      if |a| > 1 { assert !(a[0] == ' ' && a[0 + 1] == '#'); }
    }
  }

  /** An entry followed by inline metadata: the body is the trimmed entry, except that a
      leading `#` turns the whole line into a comment. */
  lemma BodyOfEntry(entry: string, rest: string)
    requires !HasSpaceHash(entry)
    ensures Body(entry + " #" + rest) == if entry != "" && entry[0] == '#' then "" else Trim(entry)
  {
    hide Trim;
    var line := entry + " #" + rest;
    SpaceHashAfter(entry, rest);
    assert line[..|entry|] == entry;
    assert line[0] == if entry == "" then ' ' else entry[0];
    assert Trim("") == "" by { TrimOfTrimmed(""); }
  }

  /** A line without inline metadata. Every line is of this kind or of the kind above. */
  lemma BodyOfPlainLine(line: string)
    requires !HasSpaceHash(line)
    ensures Body(line) == if line != "" && line[0] == '#' then "" else Trim(line)
  {
    hide Trim;
    NoSpaceHashWhole(line);
    assert line[..|line|] == line;
    assert Trim("") == "" by { TrimOfTrimmed(""); }
  }

  /** Comment lines and blank lines, which the headers consist of. */
  predicate IsCommentLine(l: string) {
    IsLine(l) && (l == "" || l[0] == '#')
  }

  lemma BodyOfComment(l: string)
    requires IsCommentLine(l)
    ensures Body(l) == ""
  {
    if l == "" { TrimOfTrimmed(l); }
  }

  // ----- readers ----------------------------------------------------------------

  function AtomsIn(content: string): set<string> {
    EntriesOf(Lines(content))
  }

  function EntriesOf(ls: seq<string>): set<string> {
    set l | l in ls && Body(l) != "" :: Body(l)
  }

  function TrustIn(content: string): set<string> {
    set b | b in AtomsIn(content) && ValidTrustHash(b)
  }

  /** The index of the first whitespace character, or the length. */
  function WhiteIndex(s: string): (k: nat)
    ensures k <= |s|
  {
    if s == "" || IsWhite(s[0]) then 0 else 1 + WhiteIndex(s[1..])
  }

  function VerbOf(body: string): string {
    body[..WhiteIndex(body)]
  }

  function HostOf(body: string): string {
    var k := WhiteIndex(body);
    if k == |body| then "" else Trim(body[k + 1..])
  }

  function HostsIn(content: string, verb: string): set<string> {
    HostsOf(AtomsIn(content), verb)
  }

  function HostsOf(bodies: set<string>, verb: string): set<string> {
    set b | b in bodies && VerbOf(b) == verb && HostOf(b) != "" :: HostOf(b)
  }

  lemma HostsInLines(content: string)
    ensures HostsIn(content, "allow") == HostsOf(EntriesOf(Lines(content)), "allow")
    ensures HostsIn(content, "block") == HostsOf(EntriesOf(Lines(content)), "block")
  {
  }

  lemma OneMoreBody(bodies: set<string>, b: string, verb: string)
    ensures HostsOf(bodies + {b}, verb) ==
              if VerbOf(b) == verb && HostOf(b) != "" then HostsOf(bodies, verb) + {HostOf(b)}
              else HostsOf(bodies, verb)
  {
    hide VerbOf, HostOf;
  }

  lemma EntrySource(ls: seq<string>, b: string) returns (i: nat)
    requires b in EntriesOf(ls)
    ensures i < |ls| && Body(ls[i]) == b && b != ""
  {
    hide Body;
    var l :| l in ls && Body(l) != "" && Body(l) == b;
    i :| 0 <= i < |ls| && ls[i] == l;
  }

  lemma EntryPresent(ls: seq<string>, i: nat)
    requires i < |ls| && Body(ls[i]) != ""
    ensures Body(ls[i]) in EntriesOf(ls)
  {
    hide Body;
    assert ls[i] in ls;
  }

  lemma NothingRead(ls: seq<string>)
    ensures EntriesOf(ls[..0]) == {} && HostsOf({}, "allow") == {} && HostsOf({}, "block") == {}
  {
  }

  lemma OneMoreLine(ls: seq<string>, i: nat)
    requires i < |ls|
    ensures EntriesOf(ls[..i + 1]) ==
              if Body(ls[i]) == "" then EntriesOf(ls[..i]) else EntriesOf(ls[..i]) + {Body(ls[i])}
  {
    hide Body;
    assert ls[..i + 1] == ls[..i] + [ls[i]];
  }

  method ReadAtomsFile(content: string) returns (out: set<string>)
    ensures out == AtomsIn(content)
  {
    out := {};
    var ls := Lines(content);
    for i := 0 to |ls|
      invariant out == EntriesOf(ls[..i])
    {
      OneMoreLine(ls, i);
      if Body(ls[i]) != "" {
        out := out + {Body(ls[i])};
      }
    }
    assert ls[..|ls|] == ls;
  }

  method ReadTrustFile(content: string) returns (out: set<string>)
    ensures out == TrustIn(content)
  {
    hide Body, ValidTrustHash, HostsOf;
    out := {};
    var ls := Lines(content);
    assert TrustIn(content) == set b | b in EntriesOf(ls) && ValidTrustHash(b);
    NothingRead(ls);
    hide EntriesOf, TrustIn;
    for i := 0 to |ls|
      invariant out == set b | b in EntriesOf(ls[..i]) && ValidTrustHash(b)
    {
      OneMoreLine(ls, i);
      if Body(ls[i]) != "" && ValidTrustHash(Body(ls[i])) {
        out := out + {Body(ls[i])};
      }
    }
    assert ls[..|ls|] == ls;
  }

  method ReadUrlsFile(content: string) returns (allow: set<string>, block: set<string>)
    ensures allow == HostsIn(content, "allow") && block == HostsIn(content, "block")
  {
    hide *;
    allow, block := {}, {};
    var ls := Lines(content);
    assert HostsIn(content, "allow") == HostsOf(EntriesOf(ls), "allow")
        && HostsIn(content, "block") == HostsOf(EntriesOf(ls), "block") by { HostsInLines(content); }
    NothingRead(ls);
    for i := 0 to |ls|
      invariant allow == HostsOf(EntriesOf(ls[..i]), "allow") && block == HostsOf(EntriesOf(ls[..i]), "block")
    {
      var b := Body(ls[i]);
      OneMoreLine(ls, i);
      OneMoreBody(EntriesOf(ls[..i]), b, "allow");
      OneMoreBody(EntriesOf(ls[..i]), b, "block");
      if b != "" && HostOf(b) != "" {
        if VerbOf(b) == "allow" {
          allow := allow + {HostOf(b)};
        } else if VerbOf(b) == "block" {
          block := block + {HostOf(b)};
        }
      }
    }
    assert ls[..|ls|] == ls;
  }

  // ----- writers ----------------------------------------------------------------

  /** One line per entry, with its metadata. */
  function EntryLines(prefix: string, order: seq<string>, meta: string): seq<string> {
    seq(|order|, i requires 0 <= i < |order| => prefix + order[i] + " #" + meta)
  }

  predicate IsHeader(header: seq<string>) {
    forall i :: 0 <= i < |header| ==> IsCommentLine(header[i])
  }

  /** Appends one line per entry, in the order given (the writers sort the set first). */
  method AppendEntries(text: string, prefix: string, order: seq<string>, meta: string) returns (content: string)
    ensures content == text + Unlines(EntryLines(prefix, order, meta))
  {
    content := text;
    var ls := EntryLines(prefix, order, meta);
    for i := 0 to |order|
      invariant content == text + Unlines(ls[..i])
    {
      UnlinesAppend(ls[..i], [ls[i]]);
      assert ls[..i + 1] == ls[..i] + [ls[i]];
      content := content + (prefix + order[i] + " #" + meta + "\n");
    }
    assert ls[..|order|] == ls;
  }

  method WriteAtomsFile(header: seq<string>, order: seq<string>, meta: string) returns (content: string)
    ensures content == AtomsFile(header, order, meta)
  {
    content := AppendEntries(Unlines(header), "", order, meta);
  }

  method WriteUrlsFile(header: seq<string>, allow: seq<string>, block: seq<string>, meta: string)
    returns (content: string)
    ensures content == UrlsFile(header, allow, block, meta)
  {
    content := AppendEntries(Unlines(header), "allow ", allow, meta);
    content := AppendEntries(content, "block ", block, meta);
  }

  lemma {:induction false} UnlinesAppend(a: seq<string>, b: seq<string>)
    ensures Unlines(a + b) == Unlines(a) + Unlines(b)
  {
    if a == [] {
      assert a + b == b;
    } else {
      assert (a + b)[1..] == a[1..] + b;
      UnlinesAppend(a[1..], b);
    }
  }

  function AtomsFile(header: seq<string>, order: seq<string>, meta: string): string {
    Unlines(header) + Unlines(EntryLines("", order, meta))
  }

  function UrlsFile(header: seq<string>, allow: seq<string>, block: seq<string>, meta: string): string {
    Unlines(header) + (Unlines(EntryLines("allow ", allow, meta)) + Unlines(EntryLines("block ", block, meta)))
  }

  // ----- round trips ------------------------------------------------------------

  ghost predicate Writable(entries: seq<string>) {
    forall i :: 0 <= i < |entries| ==> '\n' !in entries[i] && !HasSpaceHash(entries[i])
  }

  lemma EntryLinesAreLines(prefix: string, order: seq<string>, meta: string)
    requires Writable(order) && IsLine(meta) && '\n' !in prefix
    ensures forall l :: l in EntryLines(prefix, order, meta) ==> IsLine(l)
  {
    forall i | 0 <= i < |order| ensures IsLine(EntryLines(prefix, order, meta)[i]) {
      var l := prefix + order[i] + " #" + meta;
      assert l[|l| - 1] == if meta == "" then '#' else meta[|meta| - 1];
    }
  }

  /** Reading a file skips its header and sees the entry lines. */
  lemma ReadsEntryLines(header: seq<string>, ls: seq<string>)
    requires IsHeader(header) && forall l :: l in ls ==> IsLine(l)
    ensures AtomsIn(Unlines(header) + Unlines(ls)) == EntriesOf(ls)
  {
    hide Body;
    UnlinesAppend(header, ls);
    LinesUnlines(header + ls);
    forall l | l in header ensures Body(l) == "" { BodyOfComment(l); }
  }

  /** What the reader gets back from any writable entries, validated or not: the trimmed
      forms, without the empty ones and without entries that start with `#`. */
  function ReadBack(entries: set<string>): set<string> {
    set a | a in entries && a != "" && a[0] != '#' && Trim(a) != "" :: Trim(a)
  }

  predicate Hashed(x: string) { x != "" && x[0] == '#' }

  function Elements(order: seq<string>): set<string> { set a | a in order }

  lemma AtomsFileReadsBack(header: seq<string>, order: seq<string>, meta: string)
    requires IsHeader(header) && Writable(order) && IsLine(meta)
    ensures AtomsIn(AtomsFile(header, order, meta)) == ReadBack(Elements(order))
  {
    var ls := EntryLines("", order, meta);
    EntryLinesAreLines("", order, meta) by { assert '\n' !in ""; }
    ReadsEntryLines(header, ls);
    EntryBodies(order, meta);
    hide Body, Trim, EntryLines, EntriesOf, AtomsIn, Writable;
    forall b | b in EntriesOf(ls) ensures b in ReadBack(Elements(order)) {
      var i := EntrySource(ls, b);
      assert order[i] in order;
    }
    forall b | b in ReadBack(Elements(order)) ensures b in EntriesOf(ls) {
      var a :| a in order && a != "" && a[0] != '#' && Trim(a) != "" && b == Trim(a);
      var i :| 0 <= i < |order| && order[i] == a;
      EntryPresent(ls, i);
    }
  }

  lemma EntryBodies(order: seq<string>, meta: string)
    requires Writable(order)
    ensures var ls := EntryLines("", order, meta);
            |ls| == |order| && forall i :: 0 <= i < |order| ==>
              Body(ls[i]) == if order[i] == "" || order[i][0] == '#' then "" else Trim(order[i])
  {
    hide Body, Trim, HasSpaceHash;
    var ls := EntryLines("", order, meta);
    assert Trim("") == "" by { TrimOfTrimmed(""); }
    forall i | 0 <= i < |order|
      ensures Body(ls[i]) == if order[i] == "" || order[i][0] == '#' then "" else Trim(order[i])
    {
      assert ls[i] == order[i] + " #" + meta;
      BodyOfEntry(order[i], meta);
    }
  }

  /** Trust hashes come back exactly. */
  lemma TrustRoundTrip(header: seq<string>, order: seq<string>, meta: string)
    requires IsHeader(header) && IsLine(meta)
    requires forall i :: 0 <= i < |order| ==> ValidTrustHash(order[i])
    ensures TrustIn(AtomsFile(header, order, meta)) == Elements(order)
  {
    hide Trim;
    forall i | 0 <= i < |order| ensures '\n' !in order[i] && !HasSpaceHash(order[i]) && Trim(order[i]) == order[i] {
      HashIsPlain(order[i]);
    }
    hide ValidTrustHash, HasSpaceHash, IsLine;
    assert Writable(order);
    AtomsFileReadsBack(header, order, meta);
    forall h | h in order ensures h != "" && h[0] != '#' && Trim(h) == h && ValidTrustHash(h) {
      HashIsPlain(h);
    }
  }

  lemma HashIsPlain(h: string)
    requires ValidTrustHash(h)
    ensures '\n' !in h && !HasSpaceHash(h) && h != "" && h[0] != '#' && Trim(h) == h
  {
    assert !IsWhite(h[0]) && !IsWhite(h[63]);
    TrimOfTrimmed(h);
  }

  function TrimmedForms(entries: set<string>): set<string> {
    set a | a in entries && Trim(a) != "" :: Trim(a)
  }

  ghost predicate ValidAtoms(placeholder: string -> bool, order: seq<string>) {
    forall i :: 0 <= i < |order| ==> ValidAtom(placeholder, order[i])
  }

  /** Validated atoms come back as their nonempty trimmed forms, and so as the very same set
      when they are already trimmed. */
  lemma AtomsRoundTrip(placeholder: string -> bool, header: seq<string>, order: seq<string>, meta: string)
    requires IsHeader(header) && IsLine(meta) && ValidAtoms(placeholder, order)
    ensures AtomsIn(AtomsFile(header, order, meta)) == TrimmedForms(Elements(order))
    ensures (forall a :: a in order ==> Trimmed(a)) ==> AtomsIn(AtomsFile(header, order, meta)) == Elements(order)
  {
    forall i | 0 <= i < |order| ensures '\n' !in order[i] && !HasSpaceHash(order[i]) {
      assert ValidAtom(placeholder, order[i]);
    }
    AtomsFileReadsBack(header, order, meta);
    forall a | a in order ensures a != "" && a[0] != '#' && (Trimmed(a) ==> Trim(a) == a) {
      assert ValidAtom(placeholder, a);
      if Trimmed(a) { TrimOfTrimmed(a); }
    }
    hide Trim, AtomsFile, AtomsIn, ValidAtom;
  }

  // ----- rewriting what was read ------------------------------------------------

  /** Bodies that a read produces can be written again. */
  lemma BodyIsWritable(line: string)
    requires '\n' !in line
    ensures '\n' !in Body(line) && !HasSpaceHash(Body(line)) && Trimmed(Body(line))
  {
    var c := StripInlineComment(line);
    NoSpaceHashBefore(line);
    var i, j := TrimSlice(c);
    hide Trim, Trimmed, SpaceHash;
    assert c[i..j] == Body(line);
    assert forall k :: 0 <= k < j - i ==> c[i..j][k] == c[i + k];
  }

  lemma {:induction false} NoSpaceHashBefore(s: string)
    ensures !HasSpaceHash(s[..SpaceHash(s)])
  {
    if |s| >= 2 && !(s[0] == ' ' && s[1] == '#') {
      var t, k := s[1..], SpaceHash(s);
      NoSpaceHashBefore(t);
      forall i | 0 <= i < k - 1 ensures !(s[..k][i] == ' ' && s[..k][i + 1] == '#') {
        if 0 < i { assert !(t[..k - 1][i - 1] == ' ' && t[..k - 1][i - 1 + 1] == '#'); }
      }
    }
  }

  /** A read-modify-write cycle keeps every entry it read except those starting with `#`. */
  lemma RewriteKeeps(content: string, header: seq<string>, order: seq<string>, meta: string)
    requires IsHeader(header) && IsLine(meta)
    requires Elements(order) == AtomsIn(content)
    ensures AtomsIn(AtomsFile(header, order, meta)) == set a | a in AtomsIn(content) && a[0] != '#'
  {
    hide Trim, Trimmed, HasSpaceHash, Body, IsLine, AtomsFile, Lines;
    LinesHaveNoNewline(content);
    forall a | a in AtomsIn(content) ensures '\n' !in a && !HasSpaceHash(a) && a != "" && Trim(a) == a {
      var l :| l in Lines(content) && Body(l) != "" && Body(l) == a;
      BodyIsWritable(l);
      TrimOfTrimmed(a);
    }
    forall i | 0 <= i < |order| ensures '\n' !in order[i] && !HasSpaceHash(order[i]) {
      assert order[i] in AtomsIn(content);
    }
    AtomsFileReadsBack(header, order, meta);
    assert forall a :: a in order <==> a in AtomsIn(content);
  }

  /** A validated atom that is written once, among any others, survives the next rewrite
      exactly when its trimmed form does not start with `#`: the validator checks the
      untrimmed text. */
  lemma AtomSurvivesRewrite(placeholder: string -> bool, atoms: seq<string>, atom: string,
                            header: seq<string>, order: seq<string>, meta: string)
    requires ValidAtoms(placeholder, atoms) && atom in atoms && Trim(atom) != ""
    requires IsHeader(header) && IsLine(meta) && Elements(order) == AtomsIn(AtomsFile(header, atoms, meta))
    ensures Trim(atom) in AtomsIn(AtomsFile(header, order, meta)) <==> Trim(atom)[0] != '#'
  {
    var first := AtomsFile(header, atoms, meta);
    AtomsRoundTrip(placeholder, header, atoms, meta);
    hide Trim, AtomsFile, ValidAtom;
    assert Trim(atom) in AtomsIn(first);
    hide AtomsIn;
    RewriteKeeps(first, header, order, meta);
  }

  /** Such an atom exists. */
  lemma ValidAtomLostOnRewrite()
    ensures var a := "\t#ab"; ValidAtom(_ => false, a) && Trim(a) == "#ab"
  {
    var a := "\t#ab";
    assert a[1..] == "#ab" && a[2..] == "ab" && a[3..] == "b";
    assert Utf8Len("b") == 1 && Utf8Len("ab") == 2 && Utf8Len("#ab") == 3;
    assert a[1..4] == "#ab";
    TrimUnique(a, 1, 4);
  }

  // ----- URL decisions ----------------------------------------------------------

  predicate IsVerb(v: string) {
    v != "" && forall i :: 0 <= i < |v| ==> !IsWhite(v[i]) && v[i] != '#'
  }

  lemma {:induction false} WhiteIndexAfter(v: string, rest: string)
    requires forall i :: 0 <= i < |v| ==> !IsWhite(v[i])
    requires rest == "" || IsWhite(rest[0])
    ensures WhiteIndex(v + rest) == |v|
  {
    hide IsWhite;
    if v == "" {
      assert v + rest == rest;
    } else {
      assert (v + rest)[1..] == v[1..] + rest;
      WhiteIndexAfter(v[1..], rest);
    }
  }

  lemma TrimVerbHost(v: string, h: string) returns (j: nat)
    requires IsVerb(v)
    ensures j <= |h| && (if Trim(h) == "" then Trim(v + " " + h) == v else Trim(v + " " + h) == v + (" " + h[..j]))
    ensures Trim(h) != "" ==> Trim(h[..j]) == Trim(h)
  {
    var i: nat;
    i, j := TrimSlice(h);
    var e, n := v + " " + h, |v| + 1;
    assert forall k :: n <= k < |e| ==> e[k] == h[k - n];
    assert e[|v|] == ' ' && IsWhite(' ');
    hide IsWhite;
    if i == j {
      assert e[0..|v|] == v;
      TrimUnique(e, 0, |v|);
    } else {
      assert e[0..n + j] == v + (" " + h[..j]);
      assert e[n + j - 1] == h[j - 1] == h[i..j][j - i - 1];
      TrimUnique(e, 0, n + j);
      assert h[..j][i..j] == h[i..j];
      TrimUnique(h[..j], i, j);
    }
  }

  /** A decision line is read back as its verb and the trimmed host, except that a host with a
      leading `#` is taken for the start of the metadata. */
  lemma BodyOfDecision(v: string, h: string, meta: string)
    requires IsVerb(v) && !HasSpaceHash(h)
    ensures var b := Body(v + " " + h + " #" + meta);
            b != "" && VerbOf(b) == v && HostOf(b) == if h != "" && h[0] == '#' then "" else Trim(h)
  {
    if h != "" && h[0] == '#' {
      HashedDecision(v, h, meta);
    } else {
      PlainDecision(v, h, meta);
    }
  }

  lemma HashedDecision(v: string, h: string, meta: string)
    requires IsVerb(v) && h != "" && h[0] == '#'
    ensures var b := Body(v + " " + h + " #" + meta); b != "" && VerbOf(b) == v && HostOf(b) == ""
  {
    assert v + " " + h + " #" + meta == v + " #" + (h[1..] + " #" + meta);
    BodyOfEntry(v, h[1..] + " #" + meta);
    TrimOfTrimmed(v);
    hide Trim, Body, IsWhite;
    assert v + "" == v;
    WhiteIndexAfter(v, "");
  }

  lemma PlainDecision(v: string, h: string, meta: string)
    requires IsVerb(v) && !HasSpaceHash(h) && (h == "" || h[0] != '#')
    ensures var b := Body(v + " " + h + " #" + meta); b != "" && VerbOf(b) == v && HostOf(b) == Trim(h)
  {
    var e := v + " " + h;
    NoSpaceHashInDecision(v, h);
    assert e[0] == v[0];
    BodyOfEntry(e, meta);
    var j := TrimVerbHost(v, h);
    assert IsWhite(' ');
    hide Trim, IsWhite, Body;
    if Trim(h) == "" {
      assert v + "" == v;
      WhiteIndexAfter(v, "");
    } else {
      var b := v + (" " + h[..j]);
      WhiteIndexAfter(v, " " + h[..j]);
      assert b[..|v|] == v && b[|v| + 1..] == h[..j];
    }
  }

  lemma NoSpaceHashInDecision(v: string, h: string)
    requires IsVerb(v) && !HasSpaceHash(h) && (h == "" || h[0] != '#')
    ensures !HasSpaceHash(v + " " + h)
  {
    var e, n := v + " " + h, |v| + 1;
    forall i | 0 <= i < |e| - 1 ensures !(e[i] == ' ' && e[i + 1] == '#') {
      if i >= n {
        assert e[i] == h[i - n] && e[i + 1] == h[i - n + 1];
      }
    }
  }

  /** The lines of one verb hold exactly what comes back of its hosts. */
  lemma DecisionLines(v: string, hosts: seq<string>, meta: string)
    requires IsVerb(v) && Writable(hosts)
    ensures HostsOf(EntriesOf(EntryLines(v + " ", hosts, meta)), v) == ReadBack(Elements(hosts))
    ensures forall w :: w != v ==> HostsOf(EntriesOf(EntryLines(v + " ", hosts, meta)), w) == {}
  {
    var ls := EntryLines(v + " ", hosts, meta);
    DecisionBodies(v, hosts, meta);
    hide VerbOf, HostOf, Body, Trim, IsVerb, Writable, EntryLines, EntriesOf;
    forall b | b in EntriesOf(ls)
      ensures VerbOf(b) == v && (HostOf(b) != "" ==> HostOf(b) in ReadBack(Elements(hosts))) {
      var i := EntrySource(ls, b);
      assert hosts[i] in hosts;
    }
    forall t | t in ReadBack(Elements(hosts)) ensures t in HostsOf(EntriesOf(ls), v) {
      var h :| h in hosts && h != "" && h[0] != '#' && Trim(h) != "" && Trim(h) == t;
      var i :| 0 <= i < |hosts| && hosts[i] == h;
      EntryPresent(ls, i);
    }
  }

  /** What a host leaves on its line. */
  function HostBack(h: string): string {
    if h == "" || h[0] == '#' then "" else Trim(h)
  }

  lemma DecisionBodies(v: string, hosts: seq<string>, meta: string)
    requires IsVerb(v) && Writable(hosts)
    ensures var ls := EntryLines(v + " ", hosts, meta);
            |ls| == |hosts| && forall i :: 0 <= i < |hosts| ==>
              Body(ls[i]) != "" && VerbOf(Body(ls[i])) == v && HostOf(Body(ls[i])) == HostBack(hosts[i])
  {
    TrimOfTrimmed("");
    hide VerbOf, HostOf, Body, Trim, IsVerb, HasSpaceHash;
    var ls := EntryLines(v + " ", hosts, meta);
    forall i | 0 <= i < |hosts|
      ensures Body(ls[i]) != "" && VerbOf(Body(ls[i])) == v && HostOf(Body(ls[i])) == HostBack(hosts[i])
    {
      assert ls[i] == v + " " + hosts[i] + " #" + meta;
      BodyOfDecision(v, hosts[i], meta);
    }
  }

  lemma HostsOfBoth(xs: seq<string>, bs: seq<string>, v: string)
    ensures HostsOf(EntriesOf(xs + bs), v) == HostsOf(EntriesOf(xs), v) + HostsOf(EntriesOf(bs), v)
  {
    hide VerbOf, HostOf, Body;
    assert EntriesOf(xs + bs) == EntriesOf(xs) + EntriesOf(bs);
  }

  /** What reading gives for any writable hosts, validated or not, each list by itself. */
  lemma UrlsFileReadsBack(header: seq<string>, allow: seq<string>, block: seq<string>, meta: string)
    requires IsHeader(header) && IsLine(meta) && Writable(allow) && Writable(block)
    ensures HostsIn(UrlsFile(header, allow, block, meta), "allow") == ReadBack(Elements(allow))
    ensures HostsIn(UrlsFile(header, allow, block, meta), "block") == ReadBack(Elements(block))
  {
    var xs, bs := EntryLines("allow ", allow, meta), EntryLines("block ", block, meta);
    assert "allow" + " " == "allow " && "block" + " " == "block ";
    DecisionLines("allow", allow, meta);
    DecisionLines("block", block, meta);
    EntryLinesAreLines("allow ", allow, meta);
    EntryLinesAreLines("block ", block, meta);
    UnlinesAppend(xs, bs);
    assert UrlsFile(header, allow, block, meta) == Unlines(header) + Unlines(xs + bs);
    hide UrlsFile, EntryLines, EntriesOf, HostsOf, ReadBack, IsLine, Unlines, AtomsIn;
    ReadsEntryLines(header, xs + bs);
    HostsOfBoth(xs, bs, "allow");
    HostsOfBoth(xs, bs, "block");
    assert "allow" != "block" by { assert "allow"[0] != "block"[0]; }
  }

  lemma ValidHostPlain(h: string)
    requires ValidHost(h)
    ensures '\n' !in h && !HasSpaceHash(h) && h != "" && h[0] != '#'
  {
    hide Utf8Len;
  }

  /** Validated hosts come back as their nonempty trimmed forms. */
  lemma UrlsRoundTrip(header: seq<string>, allow: seq<string>, block: seq<string>, meta: string)
    requires IsHeader(header) && IsLine(meta)
    requires forall h :: h in allow || h in block ==> ValidHost(h)
    ensures HostsIn(UrlsFile(header, allow, block, meta), "allow") == TrimmedForms(Elements(allow))
    ensures HostsIn(UrlsFile(header, allow, block, meta), "block") == TrimmedForms(Elements(block))
  {
    forall h | h in allow || h in block ensures '\n' !in h && !HasSpaceHash(h) && h != "" && h[0] != '#' {
      ValidHostPlain(h);
    }
    hide ValidHost, HasSpaceHash, Trim, HostsIn, IsLine;
    UrlsFileReadsBack(header, allow, block, meta);
  }

  /** Every host a read produces can be written again. */
  lemma ReadHostIsWritable(content: string, verb: string, h: string)
    requires h in HostsIn(content, verb)
    ensures '\n' !in h && !HasSpaceHash(h) && h != "" && Trimmed(h)
  {
    hide Trim, Trimmed, HasSpaceHash, Body, Lines, VerbOf, HostOf;
    LinesHaveNoNewline(content);
    var b :| b in AtomsIn(content) && VerbOf(b) == verb && HostOf(b) != "" && HostOf(b) == h;
    var l :| l in Lines(content) && Body(l) != "" && Body(l) == b;
    BodyIsWritable(l);
    HostIsPlain(b);
  }

  /** Entries as the readers return them. */
  ghost predicate ReadEntries(entries: set<string>) {
    forall a :: a in entries ==> a != "" && Trimmed(a)
  }

  lemma HostsReadAreTrimmed(content: string, verb: string)
    ensures ReadEntries(HostsIn(content, verb))
  {
    hide Trimmed, HostsIn;
    forall h | h in HostsIn(content, verb) ensures h != "" && Trimmed(h) {
      ReadHostIsWritable(content, verb, h);
    }
  }

  lemma AtomsReadAreTrimmed(content: string)
    ensures ReadEntries(AtomsIn(content))
  {
    hide Trimmed, Body, Lines, HasSpaceHash;
    LinesHaveNoNewline(content);
    forall a | a in AtomsIn(content) ensures a != "" && Trimmed(a) {
      var l :| l in Lines(content) && Body(l) != "" && Body(l) == a;
      BodyIsWritable(l);
    }
  }

  lemma HostIsPlain(b: string)
    requires '\n' !in b && !HasSpaceHash(b)
    ensures '\n' !in HostOf(b) && !HasSpaceHash(HostOf(b)) && Trimmed(HostOf(b))
  {
    var k := WhiteIndex(b);
    if k < |b| {
      var t := b[k + 1..];
      var i, j := TrimSlice(t);
      hide Trim, Trimmed, WhiteIndex, HasSpaceHash;
      assert HostOf(b) == b[k + 1 + i..k + 1 + j];
      SlicePlain(b, k + 1 + i, k + 1 + j);
    }
  }

  lemma SlicePlain(b: string, lo: nat, hi: nat)
    requires lo <= hi <= |b| && '\n' !in b && !HasSpaceHash(b)
    ensures '\n' !in b[lo..hi] && !HasSpaceHash(b[lo..hi])
  {
    var c := b[lo..hi];
    forall n: nat | n < |c| - 1 ensures !(c[n] == ' ' && c[n + 1] == '#') {
      assert c[n] == b[lo + n] && c[n + 1] == b[lo + n + 1];
    }
  }

  /** A read-modify-write cycle of the decisions keeps every host except those starting with
      `#`. */
  lemma UrlsRewriteKeeps(content: string, header: seq<string>, allow: seq<string>, block: seq<string>, meta: string)
    requires IsHeader(header) && IsLine(meta)
    requires Elements(allow) == HostsIn(content, "allow") && Elements(block) == HostsIn(content, "block")
    ensures var after := UrlsFile(header, allow, block, meta);
            && HostsIn(after, "allow") == (set h | h in HostsIn(content, "allow") && h[0] != '#')
            && HostsIn(after, "block") == (set h | h in HostsIn(content, "block") && h[0] != '#')
  {
    hide Trim, Trimmed, HasSpaceHash, IsLine, HostsIn, UrlsFile;
    forall h | h in allow ensures '\n' !in h && !HasSpaceHash(h) && h != "" && Trim(h) == h {
      assert h in Elements(allow);
      ReadHostIsWritable(content, "allow", h);
      TrimOfTrimmed(h);
    }
    forall h | h in block ensures '\n' !in h && !HasSpaceHash(h) && h != "" && Trim(h) == h {
      assert h in Elements(block);
      ReadHostIsWritable(content, "block", h);
      TrimOfTrimmed(h);
    }
    UrlsFileReadsBack(header, allow, block, meta);
    assert forall h :: h in allow <==> h in HostsIn(content, "allow") by {
      assert forall h :: h in allow <==> h in Elements(allow);
    }
    assert forall h :: h in block <==> h in HostsIn(content, "block") by {
      assert forall h :: h in block <==> h in Elements(block);
    }
  }

  /** A hand-edited line that is read as the host `#x` and lost by the next rewrite. */
  lemma HashedHostLost(header: seq<string>, meta: string)
    requires IsHeader(header) && IsLine(meta)
    ensures HostsIn("allow\t#x", "allow") == {"#x"}
    ensures HostsIn(UrlsFile(header, ["#x"], [], meta), "allow") == {}
  {
    HashedHostRead();
    hide HostsIn, Trim, IsLine;
    UrlsFileReadsBack(header, ["#x"], [], meta) by {
      assert !HasSpaceHash("#x");
    }
  }

  lemma HashedHostRead()
    ensures HostsIn("allow\t#x", "allow") == {"#x"}
  {
    var l := "allow\t#x";
    hide *;
    HashedHostBody();
    HashedHostSplit();
    OneDecision(l, "allow");
  }

  lemma OneDecision(l: string, verb: string)
    requires '\n' !in l && l != "" && Body(l) != "" && VerbOf(Body(l)) == verb && HostOf(Body(l)) != ""
    ensures HostsIn(l, verb) == {HostOf(Body(l))}
  {
    OneLine(l);
    hide AtomsIn, VerbOf, HostOf, Body;
  }

  lemma OneLine(l: string)
    requires '\n' !in l && Body(l) != "" && l != ""
    ensures AtomsIn(l) == {Body(l)}
  {
    hide Body;
    assert IndexOf(l, '\n') == |l|;
    assert Lines(l) == [l];
  }

  lemma HashedHostSplit()
    ensures VerbOf("allow\t#x") == "allow" && HostOf("allow\t#x") == "#x" != ""
  {
    var l := "allow\t#x";
    assert "allow" + "\t#x" == l;
    WhiteIndexAfter("allow", "\t#x");
    assert l[..5] == "allow" && l[6..] == "#x";
    TrimOfTrimmed("#x");
    hide Trim, WhiteIndex;
  }

  lemma HashedHostBody()
    ensures Body("allow\t#x") == "allow\t#x" && '\n' !in "allow\t#x"
  {
    var l := "allow\t#x";
    assert !HasSpaceHash(l);
    NoSpaceHashWhole(l);
    TrimOfTrimmed(l);
    hide SpaceHash, Trim;
    assert l[..|l|] == l;
  }

  lemma {:induction false} NoSpaceHashWhole(s: string)
    requires !HasSpaceHash(s)
    ensures SpaceHash(s) == |s|
  {
    if |s| >= 2 {
      assert !(s[0] == ' ' && s[0 + 1] == '#');
      forall i | 0 <= i < |s[1..]| - 1 ensures !(s[1..][i] == ' ' && s[1..][i + 1] == '#') {
        assert s[1..][i] == s[i + 1] && s[1..][i + 1] == s[i + 1 + 1];
      }
      NoSpaceHashWhole(s[1..]);
    }
  }
}

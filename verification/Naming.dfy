/**
 Event IDs and recovery Job names: a node name, a recovery type and a PCI address are folded
 into one resource name that has to stay inside a 63-byte label value.
 */
module Naming {
  import opened Prelude

  const NODE_SEGMENT_MAX := 26
  const ID_HASH_LEN := 6
  const MAX_RECOVERY_NAME_LEN := 63
  const ID_BUDGET := MAX_RECOVERY_NAME_LEN - |"recovery-"| - |"-99"|

  predicate IsDigit(c: char) { '0' <= c <= '9' }

  predicate IsAlnum(c: char) { 'a' <= c <= 'z' || IsDigit(c) }

  predicate IsNameChar(c: char) { IsAlnum(c) || c == '-' }

  predicate IsHex(c: char) { IsDigit(c) || 'a' <= c <= 'f' || 'A' <= c <= 'F' }

  ghost predicate IsHashPrefix(h: string -> string) {
    forall s :: |h(s)| == ID_HASH_LEN && forall c :: c in h(s) ==> IsAlnum(c)
  }

  /** The first six hex characters of a digest; only its length and alphabet are relied on. */
  type HashFn = h: string -> string | IsHashPrefix(h) witness ((s: string) => "000000")

  /** A DNS-1123 subdomain: dot-separated labels that start and end alphanumeric. */
  predicate IsDns1123Subdomain(s: string) {
    && 0 < |s| <= 253
    && IsAlnum(s[0]) && IsAlnum(s[|s| - 1])
    && (forall i :: 0 <= i < |s| ==> IsNameChar(s[i]) || s[i] == '.')
    && (forall i :: 0 < i < |s| - 1 && s[i] == '.' ==> IsAlnum(s[i - 1]) && IsAlnum(s[i + 1]))
  }

  /**
   Lower-casing of one rune. Two non-ASCII capitals (the Kelvin sign and the dotted I) fold to an
   ASCII letter; every other non-ASCII rune stays outside ASCII, so its exact image is immaterial.
   */
  function ToLower(c: char): char {
    if 'A' <= c <= 'Z' then (c as int + 32) as char
    else if c == '\U{212A}' then 'k'
    else if c == '\U{130}' then 'i'
    else c
  }

  function LowerCase(s: string): string {
    seq(|s|, i requires 0 <= i < |s| => ToLower(s[i]))
  }

  function FoldChar(c: char): char {
    var l := ToLower(c);
    if IsNameChar(l) then l else '-'
  }

  function Fold(s: string): string {
    seq(|s|, i requires 0 <= i < |s| => FoldChar(s[i]))
  }

  /** `strings.Trim(s, "-")` */
  function TrimHyphens(s: string): (r: string)
    ensures |r| <= |s|
    ensures r != [] ==> r[0] != '-' && r[|r| - 1] != '-'
    ensures forall c :: c in r ==> c in s
    ensures s != [] && s[0] != '-' && s[|s| - 1] != '-' ==> r == s
    decreases |s|
  {
    if s == [] then s
    else if s[0] == '-' then TrimHyphens(s[1..])
    else if s[|s| - 1] == '-' then TrimHyphens(s[..|s| - 1])
    else s
  }

  /** s[i..j] is s without its outer hyphens: only hyphens were cut, and none is left at either end. */
  ghost predicate IsTrim(s: string, i: nat, j: nat) {
    && i <= j <= |s| && (i < j ==> s[i] != '-' && s[j - 1] != '-')
    && (forall k :: 0 <= k < i ==> s[k] == '-') && (forall k :: j <= k < |s| ==> s[k] == '-')
  }

  lemma TrimFront(s: string, i: nat, j: nat)
    requires s != [] && s[0] == '-' && IsTrim(s[1..], i, j)
    ensures IsTrim(s, i + 1, j + 1) && s[1..][i..j] == s[i + 1..j + 1]
  {
    assert forall k :: 0 < k < |s| ==> s[k] == s[1..][k - 1];
  }

  lemma TrimBack(s: string, i: nat, j: nat)
    requires s != [] && s[|s| - 1] == '-' && IsTrim(s[..|s| - 1], i, j)
    ensures IsTrim(s, i, j) && s[..|s| - 1][i..j] == s[i..j]
  {
  }

  lemma {:induction false} TrimIsASlice(s: string) returns (i: nat, j: nat)
    ensures IsTrim(s, i, j) && TrimHyphens(s) == s[i..j]
    decreases |s|
  {
    if s == [] {
      i, j := 0, 0;
    } else if s[0] == '-' {
      i, j := TrimIsASlice(s[1..]);
      TrimFront(s, i, j);
      i, j := i + 1, j + 1;
    } else if s[|s| - 1] == '-' {
      i, j := TrimIsASlice(s[..|s| - 1]);
      TrimBack(s, i, j);
    } else {
      i, j := 0, |s|;
    }
  }

  function Sanitize(s: string): string {
    TrimHyphens(Fold(s))
  }

  function NodeSegment(h: HashFn, nodeName: string): string {
    var safe := Sanitize(nodeName);
    if |safe| <= NODE_SEGMENT_MAX then safe
    else TrimHyphens(safe[..NODE_SEGMENT_MAX - ID_HASH_LEN - 1]) + "-" + h(nodeName)
  }

  function TypeName(t: RecoveryType): string {
    match t
    case Untyped => ""
    case Sbr => "sbr"
    case Slot => "slot"
    case Amc => "amc"
    case Reflash => "reflash"
  }

  function ReadableEventId(h: HashFn, node: string, bdf: string, t: RecoveryType): string {
    "evt-" + NodeSegment(h, node) + "-" + TypeName(t) + "-" + Sanitize(bdf)
  }

  function GenerateEventId(h: HashFn, node: string, bdf: string, t: RecoveryType): string {
    var id := ReadableEventId(h, node, bdf, t);
    if !IsDns1123Subdomain(id) || |id| > ID_BUDGET
    then "evt-" + TypeName(t) + "-" + h(node + "/" + bdf)
    else id
  }

  function Decimal(n: nat): (s: string)
    ensures |s| > 0 && forall c :: c in s ==> IsDigit(c)
  {
    var last := [('0' as int + n % 10) as char];
    if n < 10 then last else Decimal(n / 10) + last
  }

  function RecoveryJobName(h: HashFn, eventId: string, attempt: nat): string {
    var name := "recovery-" + eventId + "-" + Decimal(attempt);
    if |name| <= MAX_RECOVERY_NAME_LEN && IsDns1123Subdomain(name) then name
    else "recovery-" + h(eventId) + "-" + Decimal(attempt)
  }

  /** The one shape of PCI address detection accepts: dddd:bb:dd.f in either hex case. */
  predicate ValidBdf(s: string) {
    && |s| == 12
    && (forall i :: i in [0, 1, 2, 3, 5, 6, 8, 9] ==> IsHex(s[i]))
    && s[4] == ':' && s[7] == ':' && s[10] == '.'
    && '0' <= s[11] <= '7'
  }

  /** The loop that builds a segment rune by rune. */
  method SanitizeSegment(s: string) returns (r: string)
    ensures r == Sanitize(s)
  {
    var b := "";
    for i := 0 to |s|
      invariant b == Fold(s)[..i]
    {
      var c := ToLower(s[i]);
      if IsAlnum(c) || c == '-' {
        b := b + [c];
      } else {
        b := b + ['-'];
      }
    }
    assert Fold(s)[..|s|] == Fold(s);
    r := TrimHyphens(b);
  }

  // ---------------------------------------------------------------- shape of the pieces

  lemma SanitizeAlphabet(s: string)
    ensures |Sanitize(s)| <= |s|
    ensures forall c :: c in Sanitize(s) ==> IsNameChar(c)
    ensures Sanitize(s) != [] ==> IsAlnum(Sanitize(s)[0]) && IsAlnum(Sanitize(s)[|Sanitize(s)| - 1])
  {
    var r := Sanitize(s);
    forall c | c in r ensures IsNameChar(c) {
      assert c in Fold(s);
    }
    if r != [] {
      assert r[0] in r && r[|r| - 1] in r;
    }
  }

  lemma NodeSegmentShape(h: HashFn, node: string)
    ensures |NodeSegment(h, node)| <= NODE_SEGMENT_MAX
    ensures forall c :: c in NodeSegment(h, node) ==> IsNameChar(c)
  {
    SanitizeAlphabet(node);
    var safe := Sanitize(node);
    if |safe| > NODE_SEGMENT_MAX {
      var cut := safe[..NODE_SEGMENT_MAX - ID_HASH_LEN - 1];
      forall c | c in NodeSegment(h, node) ensures IsNameChar(c) {
        assert c in TrimHyphens(cut) || c == '-' || c in h(node);
        assert c in TrimHyphens(cut) ==> c in cut && c in safe;
      }
    }
  }

  /** The slug of an accepted PCI address keeps all twelve characters, separators as hyphens. */
  lemma BdfSlug(bdf: string)
    requires ValidBdf(bdf)
    ensures Sanitize(bdf) == Fold(bdf) && |Sanitize(bdf)| == 12
    ensures forall i :: 0 <= i < 12 ==>
      Sanitize(bdf)[i] == (if i in [4, 7, 10] then '-' else ToLower(bdf[i]))
    ensures forall i :: 0 <= i < 12 && i !in [4, 7, 10] ==> IsAlnum(Sanitize(bdf)[i])
  {
    var f := Fold(bdf);
    forall i | 0 <= i < 12
      ensures f[i] == (if i in [4, 7, 10] then '-' else ToLower(bdf[i]))
      ensures i !in [4, 7, 10] ==> IsAlnum(f[i])
    {
      if i !in [4, 7, 10] && i != 11 {
        assert i in [0, 1, 2, 3, 5, 6, 8, 9];
      }
    }
  }

  lemma TypeNameShape(t: RecoveryType)
    ensures |TypeName(t)| <= 7
    ensures forall c :: c in TypeName(t) ==> IsAlnum(c)
  {
  }

  lemma PlainNameIsDns(s: string)
    requires 0 < |s| <= 253 && IsAlnum(s[0]) && IsAlnum(s[|s| - 1])
    requires forall c :: c in s ==> IsNameChar(c)
    ensures IsDns1123Subdomain(s)
  {
    forall i | 0 <= i < |s| ensures IsNameChar(s[i]) && s[i] != '.' {
      assert s[i] in s;
    }
  }

  /** For every node name and type, an accepted PCI address gives the readable ID, within budget. */
  lemma EventIdIsReadable(h: HashFn, node: string, bdf: string, t: RecoveryType)
    requires ValidBdf(bdf)
    ensures GenerateEventId(h, node, bdf, t) == ReadableEventId(h, node, bdf, t)
    ensures 0 < |GenerateEventId(h, node, bdf, t)| <= ID_BUDGET == 51
    ensures IsDns1123Subdomain(GenerateEventId(h, node, bdf, t))
    ensures forall c :: c in GenerateEventId(h, node, bdf, t) ==> IsNameChar(c)
  {
    NodeSegmentShape(h, node);
    TypeNameShape(t);
    BdfSlug(bdf);
    SanitizeAlphabet(bdf);
    var id := ReadableEventId(h, node, bdf, t);
    forall c | c in id ensures IsNameChar(c) {
      assert c in "evt-" || c in NodeSegment(h, node) || c in TypeName(t) || c in Sanitize(bdf) || c == '-';
    }
    assert id[0] == 'e';
    assert id[|id| - 1] == Sanitize(bdf)[11];
    PlainNameIsDns(id);
  }

  // ---------------------------------------------------------------- Job names

  lemma DecimalLength(n: nat)
    requires n <= 99
    ensures |Decimal(n)| <= 2
  {
    if n >= 10 {
      assert n / 10 < 10;
    }
  }

  function ParseDecimal(s: string): int {
    if s == [] then 0 else 10 * ParseDecimal(s[..|s| - 1]) + (s[|s| - 1] as int - '0' as int)
  }

  lemma {:induction false} DecimalRoundTrip(n: nat)
    ensures ParseDecimal(Decimal(n)) == n
  {
    var s := Decimal(n);
    if n < 10 {
      assert s[..|s| - 1] == [];
    } else {
      assert s[..|s| - 1] == Decimal(n / 10);
      DecimalRoundTrip(n / 10);
    }
  }

  /** A tail without hyphens is fixed by the last hyphen. */
  lemma SplitAtLastHyphen(p: string, d: string, p': string, d': string)
    requires p + "-" + d == p' + "-" + d'
    requires '-' !in d && '-' !in d'
    ensures p == p' && d == d'
  {
    var s := p + "-" + d;
    assert s[|p|] == '-' && s[|p'|] == '-';
    if |d| != |d'| {
      assert false;
    }
    assert p == s[..|p|] && p' == s[..|p'|];
    assert d == s[|p| + 1..] && d' == s[|p'| + 1..];
  }

  /** Whatever the event IDs, readable or hashed, two Job names agree only if the attempts do. */
  lemma JobNameFixesAttempt(h: HashFn, id: string, k: nat, id': string, k': nat)
    requires RecoveryJobName(h, id, k) == RecoveryJobName(h, id', k')
    ensures k == k'
  {
    var readable := RecoveryJobName(h, id, k) == "recovery-" + id + "-" + Decimal(k);
    var readable' := RecoveryJobName(h, id', k') == "recovery-" + id' + "-" + Decimal(k');
    var p, p' := "recovery-" + (if readable then id else h(id)), "recovery-" + (if readable' then id' else h(id'));
    SplitAtLastHyphen(p, Decimal(k), p', Decimal(k'));
    DecimalRoundTrip(k);
    DecimalRoundTrip(k');
  }

  /** The first hundred attempts at a generated event keep the readable Job name, within 63 bytes. */
  lemma JobNameIsReadable(h: HashFn, node: string, bdf: string, t: RecoveryType, k: nat)
    requires ValidBdf(bdf) && k <= 99
    ensures var id := GenerateEventId(h, node, bdf, t);
      && RecoveryJobName(h, id, k) == "recovery-" + id + "-" + Decimal(k)
      && |RecoveryJobName(h, id, k)| <= MAX_RECOVERY_NAME_LEN
      && IsDns1123Subdomain(RecoveryJobName(h, id, k))
  {
    EventIdIsReadable(h, node, bdf, t);
    DecimalLength(k);
    var id := GenerateEventId(h, node, bdf, t);
    var name := "recovery-" + id + "-" + Decimal(k);
    forall c | c in name ensures IsNameChar(c) {
      assert c in "recovery-" || c in id || c in Decimal(k) || c == '-';
    }
    assert name[|name| - 1] == Decimal(k)[|Decimal(k)| - 1];
    assert Decimal(k)[|Decimal(k)| - 1] in Decimal(k);
    PlainNameIsDns(name);
  }

  /** Job names of generated events are injective in the event ID and the attempt. */
  lemma JobNameInjective(h: HashFn, node: string, bdf: string, t: RecoveryType, k: nat,
                         node': string, bdf': string, t': RecoveryType, k': nat)
    requires ValidBdf(bdf) && ValidBdf(bdf') && k <= 99 && k' <= 99
    requires RecoveryJobName(h, GenerateEventId(h, node, bdf, t), k)
          == RecoveryJobName(h, GenerateEventId(h, node', bdf', t'), k')
    ensures GenerateEventId(h, node, bdf, t) == GenerateEventId(h, node', bdf', t') && k == k'
  {
    JobNameIsReadable(h, node, bdf, t, k);
    JobNameIsReadable(h, node', bdf', t', k');
    var id, id' := GenerateEventId(h, node, bdf, t), GenerateEventId(h, node', bdf', t');
    SplitAtLastHyphen("recovery-" + id, Decimal(k), "recovery-" + id', Decimal(k'));
    DecimalRoundTrip(k);
    DecimalRoundTrip(k');
    assert id == ("recovery-" + id)[9..];
    assert id' == ("recovery-" + id')[9..];
  }

  /** The readable Job name would be too long. */
  predicate Hashed(id: string, k: nat) {
    |"recovery-"| + |id| + 1 + |Decimal(k)| > MAX_RECOVERY_NAME_LEN
  }

  /** What stands between the prefix and the attempt in the Job name of a generated event. */
  function JobStem(h: HashFn, id: string, k: nat): string {
    if Hashed(id, k) then h(id) else id
  }

  lemma JobNameHasStem(h: HashFn, node: string, bdf: string, t: RecoveryType, k: nat)
    requires ValidBdf(bdf)
    ensures var id := GenerateEventId(h, node, bdf, t);
      && RecoveryJobName(h, id, k) == "recovery-" + JobStem(h, id, k) + "-" + Decimal(k)
      && (k <= 99 ==> !Hashed(id, k)) && |id| > ID_HASH_LEN
  {
    var id := GenerateEventId(h, node, bdf, t);
    IdSuffix(h, node, bdf, t);
    if k <= 99 {
      JobNameIsReadable(h, node, bdf, t, k);
    } else if !Hashed(id, k) {
      EventIdIsReadable(h, node, bdf, t);
      ReadableNameIsDns(id, k);
    }
  }

  lemma ReadableNameIsDns(id: string, k: nat)
    requires !Hashed(id, k) && forall c :: c in id ==> IsNameChar(c)
    ensures IsDns1123Subdomain("recovery-" + id + "-" + Decimal(k))
  {
    var name := "recovery-" + id + "-" + Decimal(k);
    forall c | c in name ensures IsNameChar(c) {
      assert c in "recovery-" || c in id || c in Decimal(k) || c == '-';
    }
    assert name[|name| - 1] == Decimal(k)[|Decimal(k)| - 1];
    assert Decimal(k)[|Decimal(k)| - 1] in Decimal(k);
    PlainNameIsDns(name);
  }

  lemma NamesWithStems(stem: string, k: nat, stem': string, k': nat)
    ensures "recovery-" + stem + "-" + Decimal(k) == "recovery-" + stem' + "-" + Decimal(k') <==>
      stem == stem' && k == k'
  {
    if "recovery-" + stem + "-" + Decimal(k) == "recovery-" + stem' + "-" + Decimal(k') {
      SplitAtLastHyphen("recovery-" + stem, Decimal(k), "recovery-" + stem', Decimal(k'));
      DecimalRoundTrip(k);
      DecimalRoundTrip(k');
      assert stem == ("recovery-" + stem)[9..] && stem' == ("recovery-" + stem')[9..];
    }
  }

  /** Both names fell back to the hash of their event ID, and the hashes agree. */
  predicate HashesMeet(h: HashFn, id: string, id': string, k: nat) {
    Hashed(id, k) && Hashed(id', k) && h(id) == h(id')
  }

  /** At any attempt, two Job names agree exactly when the attempts do and the IDs, or the hashes both fell back to. */
  lemma JobNamesAgreeExactlyWhen(h: HashFn, node: string, bdf: string, t: RecoveryType, k: nat,
                                 node': string, bdf': string, t': RecoveryType, k': nat)
    requires ValidBdf(bdf) && ValidBdf(bdf')
    ensures var id, id' := GenerateEventId(h, node, bdf, t), GenerateEventId(h, node', bdf', t');
      && (RecoveryJobName(h, id, k) == RecoveryJobName(h, id', k') <==>
            k == k' && (id == id' || HashesMeet(h, id, id', k)))
      && (k <= 99 ==> !HashesMeet(h, id, id', k))
  {
    var id, id' := GenerateEventId(h, node, bdf, t), GenerateEventId(h, node', bdf', t');
    JobNameHasStem(h, node, bdf, t, k);
    JobNameHasStem(h, node', bdf', t', k');
    NamesWithStems(JobStem(h, id, k), k, JobStem(h, id', k'), k');
  }

  /** A node name the ID carries verbatim. */
  predicate PlainNode(node: string) {
    && 0 < |node| <= NODE_SEGMENT_MAX
    && node[0] != '-' && node[|node| - 1] != '-'
    && forall c :: c in node ==> IsNameChar(c)
  }

  lemma PlainNodeSegment(h: HashFn, node: string)
    requires PlainNode(node)
    ensures NodeSegment(h, node) == node
  {
    forall i | 0 <= i < |node| ensures Fold(node)[i] == node[i] {
      assert node[i] in node;
    }
    assert Fold(node) == node;
  }

  lemma DecimalLengthFrom(n: nat)
    requires n >= 10
    ensures |Decimal(n)| >= 2 && (n >= 100 ==> |Decimal(n)| >= 3)
  {
    assert |Decimal(n / 10)| >= 1;
    if n >= 100 {
      DecimalLengthFrom(n / 10);
    }
  }

  /** The 63-byte bound is reached by a full-width node; from attempt 100 on its name is hashed. */
  lemma JobNameBoundIsTight(h: HashFn, node: string, bdf: string, k: nat)
    requires PlainNode(node) && |node| == NODE_SEGMENT_MAX && ValidBdf(bdf) && k >= 10
    ensures var id := GenerateEventId(h, node, bdf, Reflash);
      && |id| == ID_BUDGET
      && (k <= 99 ==> |RecoveryJobName(h, id, k)| == MAX_RECOVERY_NAME_LEN)
      && (k >= 100 ==> RecoveryJobName(h, id, k) == "recovery-" + h(id) + "-" + Decimal(k))
  {
    EventIdIsReadable(h, node, bdf, Reflash);
    BdfSlug(bdf);
    PlainNodeSegment(h, node);
    DecimalLengthFrom(k);
    if k <= 99 {
      DecimalLength(k);
      JobNameIsReadable(h, node, bdf, Reflash, k);
    }
  }

  // ---------------------------------------------------------------- what an ID still says

  /** Two events on one node share an ID only if their PCI addresses differ in letter case alone. */
  lemma SameNodeSameId(h: HashFn, node: string, bdf: string, t: RecoveryType, bdf': string, t': RecoveryType)
    requires ValidBdf(bdf) && ValidBdf(bdf')
    requires GenerateEventId(h, node, bdf, t) == GenerateEventId(h, node, bdf', t')
    ensures LowerCase(bdf) == LowerCase(bdf')
  {
    IdsAgreeExactlyWhen(h, node, bdf, t, node, bdf', t');
  }

  /** ... and exactly then, for one recovery type. */
  lemma CaseVariantsShareId(h: HashFn, node: string, bdf: string, bdf': string, t: RecoveryType)
    requires ValidBdf(bdf) && ValidBdf(bdf')
    ensures GenerateEventId(h, node, bdf, t) == GenerateEventId(h, node, bdf', t)
       <==> LowerCase(bdf) == LowerCase(bdf')
  {
    IdsAgreeExactlyWhen(h, node, bdf, t, node, bdf', t);
  }

  lemma IdSuffix(h: HashFn, node: string, bdf: string, t: RecoveryType)
    requires ValidBdf(bdf)
    ensures var id := GenerateEventId(h, node, bdf, t);
      && |id| >= 17 && id[|id| - 12..] == Sanitize(bdf)
      && id[..|id| - 13] == "evt-" + NodeSegment(h, node) + "-" + TypeName(t)
  {
    EventIdIsReadable(h, node, bdf, t);
    BdfSlug(bdf);
  }

  lemma SameSlug(bdf: string, bdf': string)
    requires ValidBdf(bdf) && ValidBdf(bdf')
    ensures Sanitize(bdf) == Sanitize(bdf') <==> LowerCase(bdf) == LowerCase(bdf')
  {
    BdfSlug(bdf);
    BdfSlug(bdf');
    if Sanitize(bdf) == Sanitize(bdf') {
      forall i | 0 <= i < 12 ensures ToLower(bdf[i]) == ToLower(bdf'[i]) {
        assert Sanitize(bdf)[i] == Sanitize(bdf')[i];
      }
      assert LowerCase(bdf) == LowerCase(bdf');
    } else if LowerCase(bdf) == LowerCase(bdf') {
      forall i | 0 <= i < 12 ensures Sanitize(bdf)[i] == Sanitize(bdf')[i] {
        assert LowerCase(bdf)[i] == LowerCase(bdf')[i];
      }
      assert false;
    }
  }

  lemma TypeNamesDiffer(t: RecoveryType, t': RecoveryType)
    ensures TypeName(t) == TypeName(t') <==> t == t'
    ensures '-' !in TypeName(t)
  {
  }

  lemma SameIdParts(segment: string, t: RecoveryType, segment': string, t': RecoveryType)
    requires "evt-" + segment + "-" + TypeName(t) == "evt-" + segment' + "-" + TypeName(t')
    ensures segment == segment' && t == t'
  {
    TypeNamesDiffer(t, t');
    TypeNamesDiffer(t', t);
    var a, b := "evt-" + segment, "evt-" + segment';
    SplitAtLastHyphen(a, TypeName(t), b, TypeName(t'));
    assert segment == a[4..] && segment' == b[4..];
  }

  lemma SameIdSameParts(h: HashFn, node: string, bdf: string, t: RecoveryType,
                        node': string, bdf': string, t': RecoveryType)
    requires ValidBdf(bdf) && ValidBdf(bdf') && GenerateEventId(h, node, bdf, t) == GenerateEventId(h, node', bdf', t')
    ensures NodeSegment(h, node) == NodeSegment(h, node') && t == t' && Sanitize(bdf) == Sanitize(bdf')
  {
    var segment, segment' := NodeSegment(h, node), NodeSegment(h, node');
    var id := GenerateEventId(h, node, bdf, t);
    assert id[|id| - 12..] == Sanitize(bdf) && id[..|id| - 13] == "evt-" + segment + "-" + TypeName(t) by {
      IdSuffix(h, node, bdf, t);
    }
    assert id[|id| - 12..] == Sanitize(bdf') && id[..|id| - 13] == "evt-" + segment' + "-" + TypeName(t') by {
      IdSuffix(h, node', bdf', t');
    }
    SameIdParts(segment, t, segment', t');
  }

  lemma SamePartsSameId(h: HashFn, node: string, bdf: string, node': string, bdf': string, t: RecoveryType)
    requires ValidBdf(bdf) && ValidBdf(bdf') && NodeSegment(h, node) == NodeSegment(h, node')
    requires Sanitize(bdf) == Sanitize(bdf')
    ensures GenerateEventId(h, node, bdf, t) == GenerateEventId(h, node', bdf', t)
  {
    EventIdIsReadable(h, node, bdf, t);
    EventIdIsReadable(h, node', bdf', t);
  }

  /** Two events anywhere share an ID exactly when node segment, type and lower-cased address agree. */
  lemma IdsAgreeExactlyWhen(h: HashFn, node: string, bdf: string, t: RecoveryType,
                            node': string, bdf': string, t': RecoveryType)
    requires ValidBdf(bdf) && ValidBdf(bdf')
    ensures GenerateEventId(h, node, bdf, t) == GenerateEventId(h, node', bdf', t') <==>
      NodeSegment(h, node) == NodeSegment(h, node') && t == t' && LowerCase(bdf) == LowerCase(bdf')
  {
    SameSlug(bdf, bdf');
    if GenerateEventId(h, node, bdf, t) == GenerateEventId(h, node', bdf', t') {
      SameIdSameParts(h, node, bdf, t, node', bdf', t');
    } else if NodeSegment(h, node) == NodeSegment(h, node') && t == t' && LowerCase(bdf) == LowerCase(bdf') {
      SamePartsSameId(h, node, bdf, node', bdf', t);
    }
  }

  function Dashed(s: string): string {
    seq(|s|, i requires 0 <= i < |s| => if s[i] == '.' then '-' else s[i])
  }

  lemma DnsSanitizes(s: string)
    requires IsDns1123Subdomain(s)
    ensures Sanitize(s) == Dashed(s)
  {
    forall i | 0 <= i < |s| ensures Fold(s)[i] == Dashed(s)[i] {
    }
    assert Fold(s) == Dashed(s);
  }

  /** Node names the ID does not have to shorten share a segment exactly when they agree with dots as hyphens. */
  lemma SegmentsAgreeExactlyWhen(h: HashFn, node: string, node': string)
    requires IsDns1123Subdomain(node) && IsDns1123Subdomain(node') && |node| <= NODE_SEGMENT_MAX
    requires |node'| <= NODE_SEGMENT_MAX
    ensures NodeSegment(h, node) == NodeSegment(h, node') <==> Dashed(node) == Dashed(node')
  {
    DnsSanitizes(node);
    DnsSanitizes(node');
  }

  datatype Identity = Identity(node: string, bdf: string, rtype: RecoveryType)

  function TypeOfName(s: string): RecoveryType {
    if s == "sbr" then Sbr else if s == "slot" then Slot else if s == "amc" then Amc
    else if s == "reflash" then Reflash else Untyped
  }

  function BeforeLastHyphen(s: string): (n: nat)
    ensures n <= |s|
    ensures '-' in s ==> n < |s| && s[n] == '-' && '-' !in s[n + 1..]
  {
    if s == [] then 0
    else if s[|s| - 1] == '-' then |s| - 1
    else
      var n := BeforeLastHyphen(s[..|s| - 1]);
      assert '-' in s ==> '-' in s[..|s| - 1];
      assert '-' in s ==> s[n + 1..] == s[..|s| - 1][n + 1..] + [s[|s| - 1]];
      n
  }

  function Unslug(slug: string): string
    requires |slug| == 12
  {
    slug[4 := ':'][7 := ':'][10 := '.']
  }

  /** Reading an event ID from the right: twelve characters of PCI address, the type, the node. */
  function ReadBack(id: string): Identity
    requires |id| >= 17
  {
    var rest := id[4..|id| - 13];
    var n := BeforeLastHyphen(rest);
    var bdf := Unslug(id[|id| - 12..]);
    if n < |rest| then Identity(rest[..n], bdf, TypeOfName(rest[n + 1..])) else Identity(rest, bdf, Untyped)
  }

  lemma UnslugsBdf(bdf: string)
    requires ValidBdf(bdf) && LowerCase(bdf) == bdf
    ensures |Sanitize(bdf)| == 12 && Unslug(Sanitize(bdf)) == bdf
  {
    BdfSlug(bdf);
    forall i | 0 <= i < 12 ensures Unslug(Sanitize(bdf))[i] == bdf[i] {
      assert LowerCase(bdf)[i] == bdf[i];
    }
  }

  lemma TypeNameReadsBack(t: RecoveryType)
    requires t != Untyped
    ensures TypeOfName(TypeName(t)) == t && '-' !in TypeName(t)
  {
  }

  lemma SplitsAtLast(node: string, name: string)
    requires '-' !in name
    ensures var rest := node + "-" + name;
      var n := BeforeLastHyphen(rest);
      n < |rest| && rest[..n] == node && rest[n + 1..] == name
  {
    var rest := node + "-" + name;
    var n := BeforeLastHyphen(rest);
    assert rest[|node|] == '-';
    assert rest == rest[..n] + "-" + rest[n + 1..];
    SplitAtLastHyphen(rest[..n], rest[n + 1..], node, name);
  }

  lemma SplitsNodeAndType(node: string, t: RecoveryType)
    requires t != Untyped
    ensures var rest := node + "-" + TypeName(t);
      var n := BeforeLastHyphen(rest);
      n < |rest| && rest[..n] == node && TypeOfName(rest[n + 1..]) == t
  {
    TypeNameReadsBack(t);
    SplitsAtLast(node, TypeName(t));
  }

  lemma IdParts(node: string, name: string, slug: string, id: string)
    requires |slug| == 12 && id == "evt-" + node + "-" + name + "-" + slug
    ensures |id| >= 17 && id[|id| - 12..] == slug && id[4..|id| - 13] == node + "-" + name
  {
  }

  /** On plain node names and lower-case addresses the event ID loses nothing. */
  lemma EventIdReadsBack(h: HashFn, node: string, bdf: string, t: RecoveryType)
    requires PlainNode(node) && ValidBdf(bdf) && LowerCase(bdf) == bdf && t != Untyped
    ensures |GenerateEventId(h, node, bdf, t)| >= 17
    ensures ReadBack(GenerateEventId(h, node, bdf, t)) == Identity(node, bdf, t)
  {
    EventIdIsReadable(h, node, bdf, t);
    PlainNodeSegment(h, node);
    UnslugsBdf(bdf);
    SplitsNodeAndType(node, t);
    IdParts(node, TypeName(t), Sanitize(bdf), GenerateEventId(h, node, bdf, t));
  }

  /**
   Whatever text is published as an address, the ID is a valid name within its budget: readable where that is one,
   and else the hash of node and address.
   */
  lemma EventIdAlwaysFits(h: HashFn, node: string, bdf: string, t: RecoveryType)
    ensures var id, readable := GenerateEventId(h, node, bdf, t), ReadableEventId(h, node, bdf, t);
      && IsDns1123Subdomain(id) && |id| <= 51
      && (IsDns1123Subdomain(readable) && |readable| <= 51 ==> id == readable)
      && (id == readable || id == "evt-" + TypeName(t) + "-" + h(node + "/" + bdf))
  {
    var hash := h(node + "/" + bdf);
    var short := "evt-" + TypeName(t) + "-" + hash;
    TypeNameShape(t);
    forall c | c in short ensures IsNameChar(c) {
      assert c in "evt-" || c in TypeName(t) || c in hash || c == '-';
    }
    assert short[0] == 'e' && short[|short| - 1] == hash[5] && hash[5] in hash;
    PlainNameIsDns(short);
  }

  /** How the recovery types are written. */
  ghost predicate Spells(word: string, t: RecoveryType) {
    (t == Sbr && word == "sbr") || (t == Slot && word == "slot") || (t == Amc && word == "amc")
    || (t == Reflash && word == "reflash")
  }

  /** An event ID as it is printed: a prefix, the node, the type, and the address with hyphens. */
  lemma IdSpells(h: HashFn, node: string, bdf: string, t: RecoveryType, word: string)
    requires PlainNode(node) && ValidBdf(bdf) && LowerCase(bdf) == bdf && Spells(word, t)
    ensures GenerateEventId(h, node, bdf, t) ==
      "evt-" + node + "-" + word + "-" + bdf[..4] + "-" + bdf[5..7] + "-" + bdf[8..10] + "-" + bdf[11..]
  {
    SlugSpells(bdf);
    PlainNodeSegment(h, node);
    EventIdIsReadable(h, node, bdf, t);
    assert TypeName(t) == word;
    JoinsUp("evt-" + node + "-" + word + "-", bdf[..4], bdf[5..7], bdf[8..10], bdf[11..]);
  }

  lemma JoinsUp(s: string, a: string, b: string, c: string, d: string)
    ensures s + (a + "-" + b + "-" + c + "-" + d) == s + a + "-" + b + "-" + c + "-" + d
  {
  }

  lemma SlugSpells(bdf: string)
    requires ValidBdf(bdf) && LowerCase(bdf) == bdf
    ensures Sanitize(bdf) == bdf[..4] + "-" + bdf[5..7] + "-" + bdf[8..10] + "-" + bdf[11..]
  {
    BdfSlug(bdf);
    var slug := bdf[..4] + "-" + bdf[5..7] + "-" + bdf[8..10] + "-" + bdf[11..];
    forall i | 0 <= i < 12 ensures Sanitize(bdf)[i] == slug[i] {
      assert LowerCase(bdf)[i] == bdf[i];
    }
  }

  /** A node name too long for its segment keeps its beginning and ends in the hash of the whole name. */
  lemma LongNodeSegment(h: HashFn, node: string) returns (cut: string)
    requires |Sanitize(node)| > 26
    ensures NodeSegment(h, node) == cut + "-" + h(node) && |NodeSegment(h, node)| <= 26
    ensures cut <= Sanitize(node) && (forall i :: |cut| <= i < 19 ==> Sanitize(node)[i] == '-') && |cut| > 0
    ensures cut[|cut| - 1] != '-'
  {
    var safe := Sanitize(node);
    SanitizeAlphabet(node);
    cut := TrimFrontFree(safe[..19]);
  }

  lemma TrimFrontFree(s: string) returns (cut: string)
    requires s != "" && s[0] != '-'
    ensures cut == TrimHyphens(s) && cut != "" && cut <= s && cut[|cut| - 1] != '-'
    ensures forall i :: |cut| <= i < |s| ==> s[i] == '-'
  {
    var i, j := TrimIsASlice(s);
    assert i == 0 && j > 0;
    cut := s[..j];
    assert s[0..j] == s[..j];
  }

  /** ASCII capitals become their small letters, and nothing else in ASCII changes. */
  lemma LowerCaseSpells(c: char)
    ensures 'A' <= c <= 'Z' ==> ToLower(c) as int - 'a' as int == c as int - 'A' as int
    ensures c as int < 128 && !('A' <= c <= 'Z') ==> ToLower(c) == c
  {
  }

  // ---------------------------------------------------------------- what the plan relies on

  /** How events and their Jobs are named. */
  datatype Scheme = Scheme(event: (DeviceKey, RecoveryType) -> string, job: (string, nat) -> string)

  ghost predicate GoodScheme(s: Scheme) {
    && (forall n, b, t, b', t' ::
          ValidBdf(b) && ValidBdf(b') && s.event(DeviceKey(n, b), t) == s.event(DeviceKey(n, b'), t') ==>
            LowerCase(b) == LowerCase(b'))
    && (forall n, b, t, b' :: ValidBdf(b) && ValidBdf(b') && LowerCase(b) == LowerCase(b')
          ==> s.event(DeviceKey(n, b), t) == s.event(DeviceKey(n, b'), t))
    && (forall key, t :: s.event(key, t) != "")
    && (forall id, k, id', k' :: s.job(id, k) == s.job(id', k') ==> k == k')
    && (forall id, k :: s.job(id, k) != "")
  }

  function OperatorScheme(h: HashFn): Scheme {
    Scheme((key: DeviceKey, t) => GenerateEventId(h, key.node, key.bdf, t), (id, k: nat) => RecoveryJobName(h, id, k))
  }

  /** The operator's own names obey the laws every result about plans is stated for. */
  lemma OperatorSchemeIsGood(h: HashFn)
    ensures GoodScheme(OperatorScheme(h))
  {
    var s := OperatorScheme(h);
    forall n, b, t, b', t' | ValidBdf(b) && ValidBdf(b') && s.event(DeviceKey(n, b), t) == s.event(DeviceKey(n, b'), t')
      ensures LowerCase(b) == LowerCase(b')
    {
      SameNodeSameId(h, n, b, t, b', t');
    }
    forall n, b, t, b' | ValidBdf(b) && ValidBdf(b') && LowerCase(b) == LowerCase(b')
      ensures s.event(DeviceKey(n, b), t) == s.event(DeviceKey(n, b'), t)
    {
      CaseVariantsShareId(h, n, b, b', t);
    }
    forall id, k, id', k' | s.job(id, k) == s.job(id', k') ensures k == k' {
      JobNameFixesAttempt(h, id, k, id', k');
    }
  }
}

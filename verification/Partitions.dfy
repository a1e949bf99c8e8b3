/** Partitionable devices: capacities, counter names, and what walking the MIG profiles of a GPU makes of them. */
module Partitions {
  import opened Text
  import MigNames
  import opened CounterSums

  // ----------------------------------------------------------- counter names

  predicate IsUpper(c: char) { 'A' <= c <= 'Z' }

  predicate IsLower(c: char) { 'a' <= c <= 'z' }

  /** First rewriting of camelToDNSName: a hyphen between a small letter or digit and a capital. */
  function SplitWords(s: string): string
  {
    if |s| < 2 then s
    else [s[0]] + (if (IsLower(s[0]) || IsDigit(s[0])) && IsUpper(s[1]) then "-" else "") + SplitWords(s[1..])
  }

  /** Second: a hyphen before the last capital of a run, when a small letter follows. */
  function SplitAcronyms(s: string): string
  {
    if |s| < 3 then s
    else [s[0]] + (if IsUpper(s[0]) && IsUpper(s[1]) && IsLower(s[2]) then "-" else "") + SplitAcronyms(s[1..])
  }

  function CamelToDNSName(s: string): string { MigNames.ToRFC1123Compliant(SplitAcronyms(SplitWords(s))) }

  function Strip(s: string): string
  {
    if s == [] then [] else (if s[0] == '-' then [] else [s[0]]) + Strip(s[1..])
  }

  function Lowered(s: string): (r: string)
    ensures |r| == |s| && forall i :: 0 <= i < |s| ==> r[i] == MigNames.LowerChar(s[i])
  {
    seq(|s|, i requires 0 <= i < |s| => MigNames.LowerChar(s[i]))
  }

  ghost predicate Letters(s: string) { forall i :: 0 <= i < |s| ==> IsUpper(s[i]) || IsLower(s[i]) }

  ghost predicate LettersAndDashes(s: string)
  {
    forall i :: 0 <= i < |s| ==> IsUpper(s[i]) || IsLower(s[i]) || s[i] == '-'
  }

  lemma {:induction false} StripConcat(a: string, b: string)
    ensures Strip(a + b) == Strip(a) + Strip(b)
  {
    if a == [] {
      assert a + b == b;
    } else {
      assert (a + b)[1..] == a[1..] + b;
      StripConcat(a[1..], b);
    }
  }

  lemma {:induction false} StripOfLetters(s: string)
    requires Letters(s)
    ensures Strip(s) == s
  {
    if s != [] { StripOfLetters(s[1..]); }
  }

  lemma {:induction false} SplitWordsOnlyAddsDashes(s: string)
    requires LettersAndDashes(s)
    ensures Strip(SplitWords(s)) == Strip(s) && LettersAndDashes(SplitWords(s)) && |SplitWords(s)| <= 2 * |s|
  {
    if |s| >= 2 {
      SplitWordsOnlyAddsDashes(s[1..]);
      var dash := if (IsLower(s[0]) || IsDigit(s[0])) && IsUpper(s[1]) then "-" else "";
      StripConcat([s[0]] + dash, SplitWords(s[1..]));
      StripConcat([s[0]], dash);
      StripConcat([s[0]], s[1..]);
      assert s == [s[0]] + s[1..];
    }
  }

  lemma {:induction false} SplitAcronymsOnlyAddsDashes(s: string)
    requires LettersAndDashes(s)
    ensures Strip(SplitAcronyms(s)) == Strip(s) && LettersAndDashes(SplitAcronyms(s)) && |SplitAcronyms(s)| <= 2 * |s|
  {
    if |s| >= 3 {
      SplitAcronymsOnlyAddsDashes(s[1..]);
      var dash := if IsUpper(s[0]) && IsUpper(s[1]) && IsLower(s[2]) then "-" else "";
      StripConcat([s[0]] + dash, SplitAcronyms(s[1..]));
      StripConcat([s[0]], dash);
      StripConcat([s[0]], s[1..]);
      assert s == [s[0]] + s[1..];
    }
  }

  lemma {:induction false} CleanOnlyLowers(s: string)
    requires LettersAndDashes(s)
    ensures Strip(MigNames.Clean(s)) == Lowered(Strip(s))
  {
    var c := MigNames.Clean(s);
    if s != [] {
      CleanOnlyLowers(s[1..]);
      assert c[1..] == MigNames.Clean(s[1..]);
    }
  }

  lemma {:induction false} TrimLeftOnlyDropsDashes(s: string)
    ensures Strip(MigNames.TrimLeftDashes(s)) == Strip(s) && |MigNames.TrimLeftDashes(s)| <= |s|
  {
    if s != [] && s[0] == '-' { TrimLeftOnlyDropsDashes(s[1..]); }
  }

  lemma {:induction false} TrimRightOnlyDropsDashes(s: string)
    ensures Strip(MigNames.TrimRightDashes(s)) == Strip(s) && |MigNames.TrimRightDashes(s)| <= |s|
  {
    if s != [] && s[|s| - 1] == '-' {
      TrimRightOnlyDropsDashes(s[..|s| - 1]);
      StripConcat(s[..|s| - 1], "-");
      assert s == s[..|s| - 1] + "-";
    }
  }

  lemma CleanHasLettersAndDashes(s: string)
    requires LettersAndDashes(s)
    ensures forall c :: c in MigNames.Clean(s) ==> c != '.' && !IsDigit(c)
  {
  }

  lemma TrimmingKeepsLetters(s: string)
    requires |s| <= MigNames.MAX_NAME && forall c :: c in s ==> c != '.'
    ensures var t := MigNames.TrimRightDashes(MigNames.TrimLeftDashes(s));
            MigNames.Cut(MigNames.TrimDotSuffix(t)) == t && Strip(t) == Strip(s) && forall c :: c in t ==> c in s
  {
    var left := MigNames.TrimLeftDashes(s);
    var both := MigNames.TrimRightDashes(left);
    TrimLeftOnlyDropsDashes(s);
    TrimRightOnlyDropsDashes(left);
    MigNames.TrimLeftKeepsNonDashes(s);
    MigNames.TrimRightKeepsNonDashes(left);
    if both != [] { assert both[|both| - 1] in both; }
  }

  lemma SanitisingKeepsLetters(s: string)
    requires LettersAndDashes(s) && |s| <= MigNames.MAX_NAME
    ensures Strip(MigNames.ToRFC1123Compliant(s)) == Lowered(Strip(s))
    ensures forall c :: c in MigNames.ToRFC1123Compliant(s) ==> !IsDigit(c)
  {
    CleanOnlyLowers(s);
    CleanHasLettersAndDashes(s);
    TrimmingKeepsLetters(MigNames.Clean(s));
  }

  /**
   * A counter name is the capacity name in small letters with hyphens put in: nothing is lost, so no two capacities
   * share a counter.
   */
  lemma CamelToDNSNameKeepsLetters(s: string)
    requires Letters(s) && 4 * |s| <= MigNames.MAX_NAME
    ensures Strip(CamelToDNSName(s)) == Lowered(s)
    ensures forall c :: c in CamelToDNSName(s) ==> !IsDigit(c)
  {
    var words := SplitWords(s);
    SplitWordsOnlyAddsDashes(s);
    SplitAcronymsOnlyAddsDashes(words);
    StripOfLetters(s);
    SanitisingKeepsLetters(SplitAcronyms(words));
  }

  // --------------------------------------------------------------- dimensions

  datatype Dimension = Multiprocessors | CopyEngines | Decoders | Encoders | JpegEngines | OfaEngines | Memory

  function CapacityName(d: Dimension): string
  {
    match d
    case Multiprocessors => "multiprocessors"
    case CopyEngines => "copyEngines"
    case Decoders => "decoders"
    case Encoders => "encoders"
    case JpegEngines => "jpegEngines"
    case OfaEngines => "ofaEngines"
    case Memory => "memory"
  }

  function CounterName(d: Dimension): string { CamelToDNSName(CapacityName(d)) }

  /** Length and first letter already tell the seven names apart. */
  function Look(d: Dimension): (nat, char)
  {
    match d
    case Multiprocessors => (15, 'm')
    case CopyEngines => (11, 'c')
    case Decoders => (8, 'd')
    case Encoders => (8, 'e')
    case JpegEngines => (11, 'j')
    case OfaEngines => (10, 'o')
    case Memory => (6, 'm')
  }

  lemma CapacityNamesAreLetters(d: Dimension)
    ensures Letters(CapacityName(d)) && |CapacityName(d)| == Look(d).0 && CapacityName(d)[0] == Look(d).1
  {
  }

  lemma CounterNamesAreInjective(d: Dimension, e: Dimension)
    requires CounterName(d) == CounterName(e)
    ensures d == e
  {
    CapacityNamesAreLetters(d);
    CapacityNamesAreLetters(e);
    NamesTellDimensions(d, e, CapacityName(d), CapacityName(e));
  }

  lemma NamesTellDimensions(d: Dimension, e: Dimension, a: string, b: string)
    requires Letters(a) && |a| == Look(d).0 && a[0] == Look(d).1
    requires Letters(b) && |b| == Look(e).0 && b[0] == Look(e).1
    requires CamelToDNSName(a) == CamelToDNSName(b)
    ensures d == e
  {
    SameLettersSameLook(a, b);
    assert Look(d) == Look(e);
  }

  lemma SameLettersSameLook(a: string, b: string)
    requires CamelToDNSName(a) == CamelToDNSName(b) && Letters(a) && Letters(b) && 0 < |a| <= 15 && 0 < |b| <= 15
    requires IsLower(a[0]) && IsLower(b[0])
    ensures |a| == |b| && a[0] == b[0]
  {
    CamelToDNSNameKeepsLetters(a);
    CamelToDNSNameKeepsLetters(b);
    assert Lowered(a)[0] == Lowered(b)[0];
  }

  lemma CapacityIsNoSlice(d: Dimension, i: nat)
    ensures CounterName(d) != MemsliceCounterName(i)
  {
    CapacityNamesAreLetters(d);
    CamelToDNSNameKeepsLetters(CapacityName(d));
    var s := MemsliceCounterName(i);
    assert s[|s| - 1] == Decimal(i)[|Decimal(i)| - 1];
    assert s[|s| - 1] in s;
  }

  type Capacities = map<Dimension, nat>

  /** A way to name counters that keeps the dimensions apart from each other and from the memory slices. */
  ghost predicate GoodNaming(name: Dimension -> string)
  {
    (forall d, e :: name(d) == name(e) ==> d == e) && forall d, i: nat :: name(d) != MemsliceCounterName(i)
  }

  /** The plugin's own way is a good one. */
  lemma CounterNameIsGood()
    ensures GoodNaming(CounterName)
  {
    forall d, e | CounterName(d) == CounterName(e) ensures d == e { CounterNamesAreInjective(d, e); }
    forall d, i: nat ensures CounterName(d) != MemsliceCounterName(i) { CapacityIsNoSlice(d, i); }
  }

  ghost predicate LowerWord(s: string) { s != [] && forall i :: 0 <= i < |s| ==> IsLower(s[i]) }

  ghost predicate CapitalWord(s: string) { |s| > 1 && IsUpper(s[0]) && LowerWord(s[1..]) }

  lemma {:induction false} OneWordIsNotSplit(s: string)
    requires LowerWord(s) || CapitalWord(s)
    ensures SplitWords(s) == s
    decreases |s|
  {
    if |s| > 1 { OneWordIsNotSplit(s[1..]); }
  }

  lemma SplitWordsStep(c: char, rest: string)
    requires rest != "" && IsLower(c)
    ensures SplitWords([c] + rest) == (if IsUpper(rest[0]) then [c] + "-" else [c]) + SplitWords(rest)
  {
    assert ([c] + rest)[1..] == rest;
  }

  lemma {:induction false} TwoWordsAreSplit(a: string, b: string)
    requires LowerWord(a) && CapitalWord(b)
    ensures SplitWords(a + b) == a + "-" + b
  {
    var c, rest := a[0], a[1..];
    assert [c] + rest == a;
    if rest == "" {
      SplitWordsStep(c, b);
      OneWordIsNotSplit(b);
    } else {
      SplitWordsStep(c, rest + b);
      TwoWordsAreSplit(rest, b);
      Regroup(c, rest, b);
    }
  }

  lemma Regroup(c: char, rest: string, b: string)
    ensures [c] + rest + b == [c] + (rest + b) && [c] + rest + "-" + b == [c] + (rest + "-" + b)
  {
  }

  lemma {:induction false} NoAcronymIsSplit(s: string)
    requires forall i :: 0 <= i < |s| - 1 ==> !(IsUpper(s[i]) && IsUpper(s[i + 1]))
    ensures SplitAcronyms(s) == s
  {
    if |s| > 2 { NoAcronymIsSplit(s[1..]); }
  }

  lemma OneWordIsItsCounter(a: string)
    requires LowerWord(a) && |a| <= MigNames.MAX_NAME
    ensures CamelToDNSName(a) == a
  {
    OneWordIsNotSplit(a);
    NoAcronymIsSplit(a);
    MigNames.CleanNameStays(a);
  }

  /** Two words are joined by a hyphen, in small letters. */
  lemma TwoWordsAreJoined(a: string, b: string, small: string)
    requires LowerWord(a) && CapitalWord(b) && LowerWord(small) && |small| == |b| && small[1..] == b[1..]
    requires MigNames.LowerChar(b[0]) == small[0] && |a| + |b| < MigNames.MAX_NAME
    ensures CamelToDNSName(a + b) == a + "-" + small
  {
    TwoWordsAreSplit(a, b);
    HyphenatedHasNoAcronym(a, b);
    HyphenatedIsCleaned(a, b, small);
    SplitIsCleaned(a + b, a + "-" + b, a + "-" + small);
  }

  lemma SplitIsCleaned(s: string, split: string, clean: string)
    requires SplitWords(s) == split && MigNames.Clean(split) == clean
    requires forall i :: 0 <= i < |split| - 1 ==> !(IsUpper(split[i]) && IsUpper(split[i + 1]))
    requires 0 < |clean| <= MigNames.MAX_NAME && IsLower(clean[0]) && IsLower(clean[|clean| - 1])
    ensures CamelToDNSName(s) == clean
  {
    NoAcronymIsSplit(split);
    MigNames.CleanedIsCompliant(split, clean);
  }

  lemma HyphenatedHasNoAcronym(a: string, b: string)
    requires LowerWord(a) && CapitalWord(b)
    ensures var s := a + "-" + b; forall i :: 0 <= i < |s| - 1 ==> !(IsUpper(s[i]) && IsUpper(s[i + 1]))
  {
    var s := a + "-" + b;
    forall i | |a| + 2 <= i < |s| ensures IsLower(s[i]) { assert s[i] == b[1..][i - |a| - 2]; }
  }

  lemma HyphenatedIsCleaned(a: string, b: string, small: string)
    requires LowerWord(a) && CapitalWord(b) && LowerWord(small) && |small| == |b| && small[1..] == b[1..]
    requires MigNames.LowerChar(b[0]) == small[0]
    ensures MigNames.Clean(a + "-" + b) == a + "-" + small
    ensures IsLower((a + "-" + small)[0]) && IsLower((a + "-" + small)[|a| + |b|])
  {
    var s, r := a + "-" + b, a + "-" + small;
    forall i | 0 <= i < |s| ensures MigNames.CleanChar(s[i]) == r[i] {
      if i > |a| + 1 {
        assert s[i] == b[1..][i - |a| - 2] && r[i] == small[1..][i - |a| - 2];
      }
    }
  }

  lemma OneWordCounter(d: Dimension, a: string)
    requires CapacityName(d) == a && LowerWord(a) && |a| <= MigNames.MAX_NAME
    ensures CounterName(d) == a
  {
    OneWordIsItsCounter(a);
  }

  /** The names themselves: six capacities count under their own name or with a hyphen before the engines. */
  lemma CounterNamesAre(d: Dimension)
    ensures CounterName(d) == if d.CopyEngines? then "copy" + "-engines" else if d.JpegEngines? then "jpeg" + "-engines"
        else if d.OfaEngines? then "ofa" + "-engines" else CapacityName(d)
  {
    if d.CopyEngines? {
      EngineCounter(d, "copy");
    } else if d.JpegEngines? {
      EngineCounter(d, "jpeg");
    } else if d.OfaEngines? {
      EngineCounter(d, "ofa");
    } else {
      OneWordCounter(d, CapacityName(d));
    }
  }

  lemma EngineCounter(d: Dimension, a: string)
    requires CapacityName(d) == a + "Engines" && LowerWord(a) && |a| < 100
    ensures CounterName(d) == a + "-engines"
  {
    EnginesIsAWord();
    TwoWordsAreJoined(a, "Engines", "engines");
    assert a + "-" + "engines" == a + "-engines";
  }

  lemma EnginesIsAWord()
    ensures CapitalWord("Engines") && LowerWord("engines") && "Engines"[1..] == "engines"[1..]
  {
  }

  ghost function CountersFor(m: Capacities, name: Dimension -> string): Counters
    requires GoodNaming(name)
  {
    map d | d in m :: name(d) := m[d]
  }

  /** Each dimension under its own counter with its value, and nothing else. */
  lemma CountersForIs(m: Capacities, name: Dimension -> string)
    requires GoodNaming(name)
    ensures forall n :: n in CountersFor(m, name) ==> exists d :: d in m && n == name(d)
    ensures forall d {:trigger name(d)} :: name(d) in CountersFor(m, name) <==> d in m
    ensures forall d :: d in m ==> CountersFor(m, name)[name(d)] == m[d]
    ensures Plain(CountersFor(m, name))
  {
  }

  /** capacitiesToCounters, for any way of naming counters that keeps dimensions apart. */
  method CapacitiesToCounters(m: Capacities, name: Dimension -> string) returns (counters: Counters)
    requires GoodNaming(name)
    ensures counters == CountersFor(m, name)
    ensures forall d :: d in m ==> name(d) in counters && counters[name(d)] == m[d]
  {
    counters := map[];
    var todo := m.Keys;
    while todo != {}
      invariant todo <= m.Keys
      invariant forall d :: d in m && d !in todo ==> name(d) in counters && counters[name(d)] == m[d]
      invariant forall n :: n in counters ==> exists d :: d in m && d !in todo && n == name(d)
      decreases |todo|
    {
      var d :| d in todo;
      todo := todo - {d};
      counters := counters[name(d) := m[d]];
    }
  }

  // ------------------------------------------------------ walking the profiles

  datatype GiProfileInfo = GiProfileInfo(multiprocessors: nat, copyEngines: nat, decoders: nat, encoders: nat,
                                         jpegEngines: nat, ofaEngines: nat, memorySizeMB: nat)

  function Amount(p: GiProfileInfo, d: Dimension): nat
  {
    match d
    case Multiprocessors => p.multiprocessors
    case CopyEngines => p.copyEngines
    case Decoders => p.decoders
    case Encoders => p.encoders
    case JpegEngines => p.jpegEngines
    case OfaEngines => p.ofaEngines
    case Memory => p.memorySizeMB * 1024 * 1024
  }

  function CommonCapacitiesMig(p: GiProfileInfo): Capacities
  {
    map[Multiprocessors := p.multiprocessors, CopyEngines := p.copyEngines, Decoders := p.decoders,
      Encoders := p.encoders,
        JpegEngines := p.jpegEngines, OfaEngines := p.ofaEngines, Memory := p.memorySizeMB * 1024 * 1024]
  }

  lemma EveryDimensionIsPresent(p: GiProfileInfo)
    ensures forall d :: d in CommonCapacitiesMig(p) && CommonCapacitiesMig(p)[d] == Amount(p, d)
  {
    forall d ensures d in CommonCapacitiesMig(p) && CommonCapacitiesMig(p)[d] == Amount(p, d) {
      match d
      case Multiprocessors =>
      case CopyEngines =>
      case Decoders =>
      case Encoders =>
      case JpegEngines =>
      case OfaEngines =>
      case Memory =>
    }
  }

  lemma CapacitiesAre(p: GiProfileInfo)
    ensures var caps := CommonCapacitiesMig(p);
            && (forall d :: d in caps)
            && caps[Multiprocessors] == p.multiprocessors && caps[CopyEngines] == p.copyEngines
            && caps[Decoders] == p.decoders && caps[Encoders] == p.encoders && caps[JpegEngines] == p.jpegEngines
            && caps[OfaEngines] == p.ofaEngines && caps[Memory] == p.memorySizeMB * 1048576
  {
    EveryDimensionIsPresent(p);
  }

  datatype Placement = Placement(start: nat, size: nat)

  /** An answer of the driver library. */
  datatype Query<T> = Unsupported | InvalidArgument | Failed | Found(value: T)

  datatype MigProfile = MigProfile(c: nat, g: nat, oneSliceRev1: bool, name: string, id: nat,
                                   info: Query<GiProfileInfo>, placements: Query<seq<Placement>>)

  /** One possible MIG device of a GPU. */
  datatype Partition = Partition(profile: string, profileID: nat, gi: GiProfileInfo, placement: Placement)

  datatype Gpu = Gpu(minor: nat, memoryBytes: Option<nat>, maxCapacities: Capacities, memSliceCount: nat)

  /** Profiles with as many compute slices as GPU slices, without the media-extension variant. */
  predicate Considered(p: MigProfile) { p.c == p.g && !p.oneSliceRev1 }

  predicate Breaks(p: MigProfile)
  {
    Considered(p) && (p.info.Failed? || (p.info.Found? && p.placements.Failed?))
  }

  function PartitionsOf(p: MigProfile): seq<Partition>
  {
    if Considered(p) && p.info.Found? && p.placements.Found? then
      seq(|p.placements.value|, i requires 0 <= i < |p.placements.value| => Partition(p.name, p.id, p.info.value,
        p.placements.value[i]))
    else []
  }

  /** Both numbers of compute and GPU slices are equal, it is not the variant, and it has this placement. */
  ghost predicate IsPartitionOf(part: Partition, q: MigProfile)
  {
    && q.c == q.g && !q.oneSliceRev1 && q.info.Found? && q.placements.Found?
    && part.profile == q.name && part.profileID == q.id && part.gi == q.info.value
    && part.placement in q.placements.value
  }

  lemma PartitionsAreIts(q: MigProfile, part: Partition)
    ensures part in PartitionsOf(q) <==> IsPartitionOf(part, q)
  {
    if IsPartitionOf(part, q) {
      var k :| 0 <= k < |q.placements.value| && q.placements.value[k] == part.placement;
      assert PartitionsOf(q)[k] == part;
    }
  }

  lemma PartitionsComeFrom(profiles: seq<MigProfile>)
    ensures forall part :: part in FlatMap(PartitionsOf, profiles) <==>
                             exists q :: q in profiles && IsPartitionOf(part, q)
  {
    forall part ensures part in FlatMap(PartitionsOf, profiles) <==>
                          exists q :: q in profiles && IsPartitionOf(part, q) {
      FlatMapMembers(PartitionsOf, profiles, part);
      forall q ensures part in PartitionsOf(q) <==> IsPartitionOf(part, q) { PartitionsAreIts(q, part); }
    }
  }

  /** The slice count is the size of a largest placement, zero without one. */
  ghost predicate IsMaxSize(parts: seq<Partition>, slices: nat)
  {
    && (forall k :: 0 <= k < |parts| ==> parts[k].placement.size <= slices)
    && (slices == 0 || exists k :: 0 <= k < |parts| && parts[k].placement.size == slices)
  }

  /** The capacities are the least that bound every partition, none without one. */
  ghost predicate IsMaxCaps(parts: seq<Partition>, caps: Capacities)
  {
    && (parts == [] ==> caps == map[])
    && (parts != [] ==> forall d :: d in caps && IsMaxAmount(parts, d, caps[d]))
  }

  ghost predicate IsMaxAmount(parts: seq<Partition>, d: Dimension, v: nat)
  {
    && (forall k :: 0 <= k < |parts| ==> Amount(parts[k].gi, d) <= v)
    && exists k :: 0 <= k < |parts| && Amount(parts[k].gi, d) == v
  }

  /** Upper bounds of every partition, and each reached by some partition. */
  lemma MaximaMean(parts: seq<Partition>, caps: Capacities, slices: nat, d: Dimension)
    requires IsMaxCaps(parts, caps) && IsMaxSize(parts, slices) && parts != []
    ensures forall part :: part in parts ==> part.placement.size <= slices
    ensures exists part :: part in parts && part.placement.size == slices
    ensures d in caps
    ensures forall part :: part in parts ==>
              d in CommonCapacitiesMig(part.gi) && CommonCapacitiesMig(part.gi)[d] <= caps[d]
    ensures exists part :: part in parts && d in CommonCapacitiesMig(part.gi)
                             && CommonCapacitiesMig(part.gi)[d] == caps[d]
  {
    var k := if slices == 0 then 0 else var k :| 0 <= k < |parts| && parts[k].placement.size == slices; k;
    assert parts[k] in parts;
    assert IsMaxAmount(parts, d, caps[d]);
    var j :| 0 <= j < |parts| && Amount(parts[j].gi, d) == caps[d];
    assert parts[j] in parts;
    forall part | part in parts
      ensures d in CommonCapacitiesMig(part.gi) && CommonCapacitiesMig(part.gi)[d] <= caps[d]
    {
      EveryDimensionIsPresent(part.gi);
    }
    EveryDimensionIsPresent(parts[j].gi);
  }

  function Larger(a: nat, b: nat): nat { if a >= b then a else b }

  method SetMax(m: Capacities, d: Dimension, v: nat) returns (m': Capacities)
    ensures m' == m[d := if d in m then Larger(m[d], v) else v]
  {
    m' := m;
    if d !in m || v > m[d] {
      m' := m[d := v];
    }
  }

  method SetAllMax(m: Capacities, caps: Capacities) returns (m': Capacities)
    ensures forall d :: d in m' <==> d in m || d in caps
    ensures forall d :: d in m' ==> m'[d] == if d !in m then caps[d] else if d !in caps then m[d]
        else Larger(m[d], caps[d])
  {
    m' := m;
    var todo := caps.Keys;
    while todo != {}
      invariant todo <= caps.Keys
      invariant forall d :: d in m' <==> d in m || (d in caps && d !in todo)
      invariant forall d :: d in m' ==> m'[d] == if d !in m then caps[d] else if d !in caps || d in todo then m[d]
          else Larger(m[d], caps[d])
      decreases |todo|
    {
      var d :| d in todo;
      todo := todo - {d};
      m' := SetMax(m', d, caps[d]);
    }
  }

  lemma NextMaxSize(parts: seq<Partition>, slices: nat, p: Partition)
    requires IsMaxSize(parts, slices)
    ensures IsMaxSize(parts + [p], Larger(slices, p.placement.size))
  {
    var all := parts + [p];
    assert all[|parts|] == p;
    if slices != 0 {
      var k :| 0 <= k < |parts| && parts[k].placement.size == slices;
      assert all[k] == parts[k];
    }
  }

  lemma NextMaxCaps(parts: seq<Partition>, caps: Capacities, p: Partition, caps': Capacities)
    requires IsMaxCaps(parts, caps)
    requires forall d :: d in caps' && caps'[d] == if d in caps then Larger(caps[d], Amount(p.gi, d))
        else Amount(p.gi, d)
    ensures IsMaxCaps(parts + [p], caps')
  {
    var all := parts + [p];
    assert all[|parts|] == p;
    forall d ensures IsMaxAmount(all, d, caps'[d]) {
      if parts != [] {
        assert IsMaxAmount(parts, d, caps[d]);
        var k :| 0 <= k < |parts| && Amount(parts[k].gi, d) == caps[d];
        assert all[k] == parts[k];
      }
    }
  }

  /** The placements of one profile, added to what earlier profiles gave. */
  method VisitPlacements(p: MigProfile, infos: seq<Partition>, caps: Capacities, slices: nat)
    returns (infos': seq<Partition>, caps': Capacities, slices': nat)
    requires Considered(p) && p.info.Found? && p.placements.Found? && IsMaxCaps(infos, caps) && IsMaxSize(infos, slices)
    ensures infos' == infos + PartitionsOf(p) && IsMaxCaps(infos', caps') && IsMaxSize(infos', slices')
  {
    infos', caps', slices' := infos, caps, slices;
    ghost var all := PartitionsOf(p);
    for n := 0 to |p.placements.value|
      invariant infos' == infos + all[..n] && IsMaxCaps(infos', caps') && IsMaxSize(infos', slices')
    {
      var mi := Partition(p.name, p.id, p.info.value, p.placements.value[n]);
      assert all[..n + 1] == all[..n] + [mi];
      NextMaxSize(infos', slices', mi);
      slices' := Larger(slices', mi.placement.size);
      ghost var capsBefore := caps';
      EveryDimensionIsPresent(mi.gi);
      caps' := SetAllMax(caps', CommonCapacitiesMig(mi.gi));
      NextMaxCaps(infos', capsBefore, mi, caps');
      infos' := infos' + [mi];
    }
    assert all[..|p.placements.value|] == all;
  }

  /**
   * All partitions of a GPU, and the GPU with the maxima over them. The slice count is inferred: it is the largest
   * placement size, which is right only if some profile takes the whole GPU.
   */
  method InspectMigProfilesAndPlacements(gpu: Gpu, profiles: seq<MigProfile>) returns (r: Result<(seq<Partition>, Gpu)>)
    ensures r.Err? <==>
            exists q :: q in profiles && q.c == q.g && !q.oneSliceRev1
                          && (q.info.Failed? || (q.info.Found? && q.placements.Failed?))
    ensures r.Ok? ==>
      && r.value.0 == FlatMap(PartitionsOf, profiles)
      && (forall part :: part in r.value.0 <==> exists q :: q in profiles && IsPartitionOf(part, q))
      && IsMaxCaps(r.value.0, r.value.1.maxCapacities) && IsMaxSize(r.value.0, r.value.1.memSliceCount)
      && r.value.1.minor == gpu.minor && r.value.1.memoryBytes == gpu.memoryBytes
  {
    var infos: seq<Partition> := [];
    var maxCapacities: Capacities := map[];
    var maxMemSlicesConsumed := 0;
    for n := 0 to |profiles|
      invariant infos == FlatMap(PartitionsOf, profiles[..n]) && IsMaxCaps(infos, maxCapacities)
      invariant IsMaxSize(infos, maxMemSlicesConsumed)
      invariant forall i :: 0 <= i < n ==> !Breaks(profiles[i])
    {
      assert profiles[..n + 1][..n] == profiles[..n];
      var p := profiles[n];
      if p.c != p.g { continue; }
      if p.oneSliceRev1 { continue; }
      if p.info.Unsupported? || p.info.InvalidArgument? { continue; }
      if p.info.Failed? { return Err("error getting GI profile info"); }
      if p.placements.Unsupported? || p.placements.InvalidArgument? { continue; }
      if p.placements.Failed? { return Err("error getting GI possible placements"); }
      infos, maxCapacities, maxMemSlicesConsumed := VisitPlacements(p, infos, maxCapacities, maxMemSlicesConsumed);
    }
    assert profiles[..|profiles|] == profiles;
    PartitionsComeFrom(profiles);
    r := Ok((infos, gpu.(maxCapacities := maxCapacities, memSliceCount := maxMemSlicesConsumed)));
  }

  // ------------------------------------------------------- what is published

  datatype CounterSet = CounterSet(name: string, counters: Counters)

  function GetSharedCounterSetName(minor: nat): string
  {
    MigNames.ToRFC1123Compliant(MigNames.GpuName(minor) + "-counter-set")
  }

  lemma {:induction false} DecimalIsShort(n: nat, k: nat, bound: nat)
    requires k > 0 && n < bound && bound == Power10(k)
    ensures |Decimal(n)| <= k
  {
    if n >= 10 {
      DecimalIsShort(n / 10, k - 1, Power10(k - 1));
    }
  }

  function Power10(k: nat): nat { if k == 0 then 1 else 10 * Power10(k - 1) }

  lemma MinorIsShort(minor: nat)
    requires minor <= MigNames.MAX_INT
    ensures |Decimal(minor)| <= 19
  {
    assert Power10(4) == 10000;
    assert Power10(8) == 10000 * Power10(4);
    assert Power10(12) == 10000 * Power10(8);
    assert Power10(16) == 10000 * Power10(12);
    assert Power10(19) == 1000 * Power10(16);
    DecimalIsShort(minor, 19, Power10(19));
  }

  lemma CounterSetNameOf(m: nat)
    requires m <= MigNames.MAX_INT
    ensures GetSharedCounterSetName(m) == "gpu-" + Decimal(m) + "-counter-set"
  {
    MinorIsShort(m);
    MigNames.CleanNameStays("gpu-" + Decimal(m) + "-counter-set");
  }

  /** What the full GPU takes: everything. What a partition takes: its capacities and its slices. */
  ghost function GpuShare(g: Gpu, name: Dimension -> string): Share
    requires GoodNaming(name)
  {
    Share(CountersFor(g.maxCapacities, name), 0, g.memSliceCount)
  }

  ghost function PartitionShare(p: Partition, name: Dimension -> string): Share
    requires GoodNaming(name)
  {
    Share(CountersFor(CommonCapacitiesMig(p.gi), name), p.placement.start, p.placement.size)
  }

  /** One unit of each slice of the placement, each capacity under its own counter, and nothing else. */
  ghost predicate CountersAre(c: Counters, caps: Capacities, start: nat, size: nat, name: Dimension -> string)
  {
    && (forall i: nat :: MemsliceCounterName(i) in c <==> start <= i < start + size)
    && (forall i: nat :: start <= i < start + size ==> c[MemsliceCounterName(i)] == 1)
    && (forall d :: name(d) in c <==> d in caps)
    && (forall d :: d in caps ==> c[name(d)] == caps[d])
    && forall n :: n in c ==> (exists i: nat :: n == MemsliceCounterName(i)) || exists d :: n == name(d)
  }

  lemma ShareCountersAre(caps: Capacities, start: nat, size: nat, name: Dimension -> string)
    requires GoodNaming(name)
    ensures CountersAre(CountersOf(Share(CountersFor(caps, name), start, size)), caps, start, size, name)
  {
    var s := Share(CountersFor(caps, name), start, size);
    var c := CountersOf(s);
    forall i: nat
      ensures MemsliceCounterName(i) in c <==> start <= i < start + size
      ensures start <= i < start + size ==> c[MemsliceCounterName(i)] == 1
    {
      CountersOfShare(s, i);
    }
    forall d ensures name(d) in c <==> d in caps ensures d in caps ==> c[name(d)] == caps[d] {
      CapsOfShare(s, name(d));
    }
    forall n | n in c ensures (exists i: nat :: n == MemsliceCounterName(i)) || exists d :: n == name(d) {
      if i: nat :| n == MemsliceCounterName(i) {
      } else {
        CapsOfShare(s, n);
      }
    }
  }

  /** What the full GPU consumes, counter by counter. */
  lemma GpuShareIs(g: Gpu, name: Dimension -> string)
    requires GoodNaming(name)
    ensures CountersAre(CountersOf(GpuShare(g, name)), g.maxCapacities, 0, g.memSliceCount, name)
  {
    ShareCountersAre(g.maxCapacities, 0, g.memSliceCount, name);
  }

  /** And what a partition does. */
  lemma PartitionShareIs(p: Partition, name: Dimension -> string)
    requires GoodNaming(name)
    ensures CountersAre(CountersOf(PartitionShare(p, name)), CommonCapacitiesMig(p.gi), p.placement.start,
                        p.placement.size, name)
  {
    ShareCountersAre(CommonCapacitiesMig(p.gi), p.placement.start, p.placement.size, name);
  }

  method FullCounters(g: Gpu, name: Dimension -> string) returns (c: Counters)
    requires GoodNaming(name)
    ensures c == CountersOf(GpuShare(g, name))
  {
    c := CapacitiesToCounters(g.maxCapacities, name);
    c := AddCountersForMemSlices(c, 0, g.memSliceCount);
  }

  /** One counter set per GPU that has partitions, none for the others. The full GPU consumes all of it. */
  method PartSharedCounterSets(g: Gpu, name: Dimension -> string) returns (sets: seq<CounterSet>)
    requires GoodNaming(name)
    ensures if g.maxCapacities == map[] then sets == []
            else sets == [CounterSet(GetSharedCounterSetName(g.minor), CountersOf(GpuShare(g, name)))]
  {
    if |g.maxCapacities| == 0 { return []; }
    var c := FullCounters(g, name);
    sets := [CounterSet(GetSharedCounterSetName(g.minor), c)];
  }

  method PartitionConsumesCounters(g: Gpu, p: Partition, name: Dimension -> string) returns (sets: seq<CounterSet>)
    requires GoodNaming(name)
    ensures sets == [CounterSet(GetSharedCounterSetName(g.minor), CountersOf(PartitionShare(p, name)))]
  {
    var c := CapacitiesToCounters(CommonCapacitiesMig(p.gi), name);
    c := AddCountersForMemSlices(c, p.placement.start, p.placement.size);
    sets := [CounterSet(GetSharedCounterSetName(g.minor), c)];
  }

  /** A GPU's maxima bound what each of its partitions takes, so a partition on its own fails only for its placement. */
  lemma PartitionCapsAreBounded(g: Gpu, parts: seq<Partition>, k: nat, name: Dimension -> string, n: string)
    requires GoodNaming(name) && k < |parts| && IsMaxCaps(parts, g.maxCapacities)
    ensures CapFits(GpuShare(g, name).caps, [PartitionShare(parts[k], name)], n)
  {
    var own, caps := PartitionShare(parts[k], name).caps, GpuShare(g, name).caps;
    CapTotalOfOne(PartitionShare(parts[k], name), n);
    if n in own {
      var d :| d in CommonCapacitiesMig(parts[k].gi) && n == name(d);
      EveryDimensionIsPresent(parts[k].gi);
      assert IsMaxAmount(parts, d, g.maxCapacities[d]);
      assert own[n] == Amount(parts[k].gi, d) <= caps[n];
    }
  }

  /**
   * A partition can be allocated on an idle GPU exactly when it ends within the inferred slice count, that is, within
   * the size of the largest placement. A GPU whose largest profile leaves slices out would advertise partitions
   * nobody can get.
   */
  lemma AllocatableExactlyWhenWithinLargest(g: Gpu, parts: seq<Partition>, k: nat, name: Dimension -> string)
    requires GoodNaming(name) && k < |parts| && IsMaxCaps(parts, g.maxCapacities) && parts[k].placement.size > 0
    ensures Fits(CountersOf(GpuShare(g, name)), [PartitionShare(parts[k], name)]) <==>
        parts[k].placement.start + parts[k].placement.size <= g.memSliceCount
  {
    var shares := [PartitionShare(parts[k], name)];
    SumsFitExactlyWhenPlacementsDo(GpuShare(g, name).caps, g.memSliceCount, shares);
    forall n ensures CapFits(GpuShare(g, name).caps, shares, n) { PartitionCapsAreBounded(g, parts, k, name, n); }
    assert Inside(shares, g.memSliceCount) <==> shares[0].start + shares[0].size <= g.memSliceCount;
  }

  datatype Device = Whole | Part(p: Partition)

  ghost function ShareOf(g: Gpu, d: Device, name: Dimension -> string): Share
    requires GoodNaming(name)
  {
    match d
    case Whole => GpuShare(g, name)
    case Part(p) => PartitionShare(p, name)
  }

  ghost function SharesOf(g: Gpu, ds: seq<Device>, name: Dimension -> string): (shares: seq<Share>)
    requires GoodNaming(name)
    ensures |shares| == |ds| && forall i :: 0 <= i < |ds| ==> shares[i] == ShareOf(g, ds[i], name)
  {
    seq(|ds|, i requires 0 <= i < |ds| => ShareOf(g, ds[i], name))
  }

  /**
   * For any devices of one GPU whose counters fit its published set: no memory slice is taken twice, together they
   * take no more slices than there are, and next to the full GPU there is no other device.
   */
  lemma FittingDevicesDoNotOverlap(g: Gpu, ds: seq<Device>, name: Dimension -> string)
    requires GoodNaming(name) && Fits(CountersOf(GpuShare(g, name)), SharesOf(g, ds, name))
    requires g.memSliceCount > 0 && forall i :: 0 <= i < |ds| && ds[i].Part? ==> ds[i].p.placement.size > 0
    ensures PairwiseDisjoint(SharesOf(g, ds, name)) && TotalSize(SharesOf(g, ds, name)) <= g.memSliceCount
    ensures forall i :: 0 <= i < |ds| && ds[i].Whole? ==> |ds| == 1
  {
    var shares := SharesOf(g, ds, name);
    FittingSharesAreDisjoint(GpuShare(g, name).caps, g.memSliceCount, shares);
    FittingSizesAddUp(GpuShare(g, name).caps, g.memSliceCount, shares);
    forall i | 0 <= i < |ds| && ds[i].Whole? ensures |ds| == 1 {
      if |ds| > 1 {
        var k := if i == 0 then 1 else 0;
        FullGpuExcludesTheRest(GpuShare(g, name).caps, g.memSliceCount, shares, i, k);
        assert false;
      }
    }
  }
}

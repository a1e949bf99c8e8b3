/** Canonical device names: the printer, the sanitiser and the parser of cmd/gpu-kubelet-plugin/mig.go. */
module MigNames {
  import opened Text

  /** Largest value `strconv.Atoi` accepts on a 64-bit platform. */
  const MAX_INT: nat := 0x7FFF_FFFF_FFFF_FFFF

  /** Device names longer than this are cut by the sanitiser. */
  const MAX_NAME: nat := 253

  datatype MigSpecTuple = MigSpecTuple(parentMinor: nat, parentPCIBusID: string, profileID: nat, placementStart: nat)

  // ---------------------------------------------------------------- sanitising

  /**
   * `strings.ToLower` on one code point. Besides A-Z, exactly two code points have a lower-case
   * form inside a-z: the Kelvin sign and the dotted capital I. All others stay outside a-z0-9.
   */
  function LowerChar(c: char): char
  {
    if 'A' <= c <= 'Z' then c - 'A' + 'a'
    else if c == '\U{212A}' then 'k'
    else if c == '\U{0130}' then 'i'
    else c
  }

  predicate IsLowerAlnum(c: char) { 'a' <= c <= 'z' || IsDigit(c) }

  /** Lower-casing followed by replacement of everything outside `[a-z0-9-.]` with a hyphen. */
  function CleanChar(c: char): (r: char)
    ensures IsLowerAlnum(r) || r == '-' || r == '.'
  {
    var l := LowerChar(c);
    if IsLowerAlnum(l) || l == '-' || l == '.' then l else '-'
  }

  function Clean(s: string): (r: string)
    ensures |r| == |s| && forall i :: 0 <= i < |s| ==> r[i] == CleanChar(s[i])
  {
    seq(|s|, i requires 0 <= i < |s| => CleanChar(s[i]))
  }

  function TrimLeftDashes(s: string): string
  {
    if s != [] && s[0] == '-' then TrimLeftDashes(s[1..]) else s
  }

  function TrimRightDashes(s: string): string
  {
    if s != [] && s[|s| - 1] == '-' then TrimRightDashes(s[..|s| - 1]) else s
  }

  function TrimDotSuffix(s: string): string
  {
    if s != [] && s[|s| - 1] == '.' then s[..|s| - 1] else s
  }

  function Cut(s: string): string
  {
    if |s| > MAX_NAME then s[..MAX_NAME] else s
  }

  function ToRFC1123Compliant(s: string): string
  {
    Cut(TrimDotSuffix(TrimRightDashes(TrimLeftDashes(Clean(s)))))
  }

  /** `strings.ReplaceAll(s, ".", "")`. */
  function RemoveDots(s: string): string
  {
    if s == [] then [] else (if s[0] == '.' then [] else [s[0]]) + RemoveDots(s[1..])
  }

  /** The profile part of a device name. */
  function ProfileLabel(profile: string): string { ToRFC1123Compliant(RemoveDots(profile)) }

  /** Some character of the profile name survives sanitising as a letter or digit. */
  ghost predicate HasAlnum(profile: string)
  {
    exists i :: 0 <= i < |profile| && IsLowerAlnum(LowerChar(profile[i]))
  }

  // ------------------------------------------------------------------ printing

  function ToCanonicalName(m: MigSpecTuple, profile: string): string
  {
    MigName(Decimal(m.parentMinor), ProfileLabel(profile), Decimal(m.profileID), Decimal(m.placementStart))
  }

  function MigName(minor: string, tag: string, id: string, start: string): string
  {
    "gpu-" + (minor + ("-mig-" + (tag + "-" + id + "-" + start)))
  }

  function GpuName(minor: nat): string { "gpu-" + Decimal(minor) }

  function VfioName(index: nat): string { "gpu-vfio-" + Decimal(index) }

  // ------------------------------------------------------------------- parsing

  datatype Groups = Groups(minor: string, tag: string, id: string, start: string)

  /** The regular expression `^gpu-(\d+)-mig-(.+)-(\d+)-(\d+)$`, read as a relation (`.` does not match a newline). */
  ghost predicate Matches(s: string, g: Groups)
  {
    && s == MigName(g.minor, g.tag, g.id, g.start)
    && IsNumeral(g.minor) && IsNumeral(g.id) && IsNumeral(g.start)
    && g.tag != [] && '\n' !in g.tag
  }

  /** Number of leading digits. */
  function DigitRun(s: string): (n: nat)
    ensures n <= |s| && AllDigits(s[..n]) && (n < |s| ==> !IsDigit(s[n]))
  {
    if s == [] || !IsDigit(s[0]) then 0
    else
      var n := DigitRun(s[1..]);
      assert s[..n + 1] == [s[0]] + s[1..][..n];
      n + 1
  }

  /** Position of the last hyphen, or -1. */
  function LastDash(s: string): (j: int)
    ensures -1 <= j < |s|
    ensures j >= 0 ==> s[j] == '-'
    ensures forall i :: j < i < |s| ==> s[i] != '-'
  {
    if s == [] then -1 else if s[|s| - 1] == '-' then |s| - 1 else LastDash(s[..|s| - 1])
  }

  function SplitTail(s: string): Option<(string, string)>
  {
    var j := LastDash(s);
    if j < 0 || !IsNumeral(s[j + 1..]) then None else Some((s[..j], s[j + 1..]))
  }

  function FindGroups(s: string): (r: Option<Groups>)
    ensures r.Some? ==> IsNumeral(r.value.minor) && IsNumeral(r.value.id) && IsNumeral(r.value.start)
  {
    if !HasPrefix(s, "gpu-") then None
    else
      var rest := s[4..];
      var n := DigitRun(rest);
      if n == 0 || !HasPrefix(rest[n..], "-mig-") then None
      else
        GroupsOf(rest[..n], rest[n..][5..])
  }

  function GroupsOf(minor: string, body: string): (r: Option<Groups>)
    ensures r.Some? ==> r.value.minor == minor && IsNumeral(r.value.id) && IsNumeral(r.value.start)
  {
    match SplitTail(body)
    case None => None
    case Some((head, start)) =>
      match SplitTail(head)
      case None => None
      case Some((tag, id)) =>
        if tag == [] || '\n' in tag then None else Some(Groups(minor, tag, id, start))
  }

  /** `strconv.Atoi` on a numeral. */
  function Atoi(s: string): Option<nat>
    requires IsNumeral(s)
  {
    if Value(s) <= MAX_INT then Some(Value(s)) else None
  }

  function TupleOf(g: Groups): Option<MigSpecTuple>
    requires IsNumeral(g.minor) && IsNumeral(g.id) && IsNumeral(g.start)
  {
    match (Atoi(g.minor), Atoi(g.id), Atoi(g.start))
    case (Some(minor), Some(id), Some(start)) => Some(MigSpecTuple(minor, "", id, start))
    case _ => None
  }

  function NewMigSpecTupleFromCanonicalName(s: string): Option<MigSpecTuple>
  {
    match FindGroups(s)
    case Some(g) => TupleOf(g)
    case None => None
  }

  lemma SplitTailIsUnique(head: string, tail: string)
    requires IsNumeral(tail)
    ensures SplitTail(head + "-" + tail) == Some((head, tail))
  {
    var s := head + "-" + tail;
    var j := LastDash(s);
    assert s[|head|] == '-';
    assert forall i :: |head| < i < |s| ==> s[i] == tail[i - |head| - 1];
    assert j == |head|;
    assert s[..j] == head && s[j + 1..] == tail;
  }

  lemma SplitTailRejoins(s: string)
    requires SplitTail(s).Some?
    ensures var (head, tail) := SplitTail(s).value; s == head + "-" + tail && IsNumeral(tail)
  {
  }

  lemma {:induction false} DigitRunIsMaximal(d: string, rest: string)
    requires AllDigits(d) && (rest == [] || !IsDigit(rest[0]))
    ensures DigitRun(d + rest) == |d|
  {
    if d == [] {
      assert d + rest == rest;
    } else {
      assert (d + rest)[1..] == d[1..] + rest;
      DigitRunIsMaximal(d[1..], rest);
    }
  }

  /** What the parser sees of a name made of a parent number and the part after it. */
  lemma FindGroupsSkipsPrefixes(minor: string, body: string)
    requires IsNumeral(minor)
    ensures FindGroups("gpu-" + (minor + ("-mig-" + body))) == GroupsOf(minor, body)
  {
    var tail := "-mig-" + body;
    var s := "gpu-" + (minor + tail);
    assert s[4..] == minor + tail;
    DigitRunIsMaximal(minor, tail);
    assert (minor + tail)[|minor|..] == tail && (minor + tail)[..|minor|] == minor;
    assert tail[5..] == body;
  }

  lemma GroupsOfBody(minor: string, tag: string, id: string, start: string)
    requires IsNumeral(id) && IsNumeral(start)
    ensures GroupsOf(minor, tag + "-" + id + "-" + start)
         == if tag == [] || '\n' in tag then None else Some(Groups(minor, tag, id, start))
  {
    SplitTailIsUnique(tag + "-" + id, start);
    SplitTailIsUnique(tag, id);
  }

  /** Conversely, whatever groups the parser returns put the name back together. */
  lemma FindGroupsRejoins(s: string)
    requires FindGroups(s).Some?
    ensures Matches(s, FindGroups(s).value)
  {
    var g := FindGroups(s).value;
    var rest := s[4..];
    var tail := rest[DigitRun(rest)..];
    var body := tail[5..];
    assert s == "gpu-" + (g.minor + ("-mig-" + body)) by {
      assert s == "gpu-" + rest;
      assert rest == g.minor + tail;
      assert tail == "-mig-" + body;
    }
    BodyRejoins(g.minor, body);
  }

  lemma BodyRejoins(minor: string, body: string)
    requires GroupsOf(minor, body).Some?
    ensures var g := GroupsOf(minor, body).value;
            g.minor == minor && body == g.tag + "-" + g.id + "-" + g.start && g.tag != [] && '\n' !in g.tag
  {
    SplitTailRejoins(body);
    SplitTailRejoins(SplitTail(body).value.0);
  }

  /** The parser finds groups exactly when the expression matches, and the groups are the only ones that do. */
  lemma FindGroupsIsTheMatch(s: string, g: Groups)
    ensures Matches(s, g) <==> FindGroups(s) == Some(g)
  {
    if Matches(s, g) {
      FindGroupsSkipsPrefixes(g.minor, g.tag + "-" + g.id + "-" + g.start);
      GroupsOfBody(g.minor, g.tag, g.id, g.start);
    }
    if FindGroups(s) == Some(g) {
      FindGroupsRejoins(s);
    }
  }

  // ------------------------------------------------------ what sanitising keeps

  ghost predicate AllDashes(s: string) { forall i :: 0 <= i < |s| ==> s[i] == '-' }

  lemma {:induction false} TrimLeftKeepsNonDashes(s: string)
    ensures TrimLeftDashes(s) == [] <==> AllDashes(s)
    ensures TrimLeftDashes(s) != [] ==> TrimLeftDashes(s)[0] != '-'
    ensures forall c :: c in TrimLeftDashes(s) ==> c in s
  {
    if s != [] && s[0] == '-' {
      TrimLeftKeepsNonDashes(s[1..]);
      assert AllDashes(s[1..]) ==> AllDashes(s) by {
        if AllDashes(s[1..]) {
          forall i | 0 <= i < |s| ensures s[i] == '-' { if i > 0 { assert s[i] == s[1..][i - 1]; } }
        }
      }
    } else {
      assert s == s[0..];
    }
  }

  lemma {:induction false} TrimRightKeepsNonDashes(s: string)
    ensures TrimRightDashes(s) <= s
    ensures TrimRightDashes(s) == [] <==> AllDashes(s)
    ensures forall c :: c in TrimRightDashes(s) ==> c in s
  {
    if s != [] && s[|s| - 1] == '-' {
      TrimRightKeepsNonDashes(s[..|s| - 1]);
      assert AllDashes(s[..|s| - 1]) ==> AllDashes(s);
    }
  }

  lemma {:induction false} RemoveDotsKeepsTheRest(s: string)
    ensures forall c :: c in RemoveDots(s) <==> c in s && c != '.'
  {
    if s != [] {
      RemoveDotsKeepsTheRest(s[1..]);
      assert s == [s[0]] + s[1..];
    }
  }

  /** The label is empty exactly when the profile name has no character that sanitises to a letter or digit. */
  lemma LabelIsEmptyExactlyWithoutAlnum(profile: string)
    ensures ProfileLabel(profile) != [] <==> HasAlnum(profile)
    ensures forall c :: c in ProfileLabel(profile) ==> IsLowerAlnum(c) || c == '-'
  {
    var bare := RemoveDots(profile);
    var clean := Clean(bare);
    var left := TrimLeftDashes(clean);
    var both := TrimRightDashes(left);
    RemoveDotsKeepsTheRest(profile);
    TrimLeftKeepsNonDashes(clean);
    TrimRightKeepsNonDashes(left);
    forall c | c in clean ensures IsLowerAlnum(c) || c == '-' {
      var i :| 0 <= i < |clean| && clean[i] == c;
      assert bare[i] in bare;
    }
    assert TrimDotSuffix(both) == both by {
      if both != [] { assert both[|both| - 1] in both; }
    }
    if HasAlnum(profile) {
      var i :| 0 <= i < |profile| && IsLowerAlnum(LowerChar(profile[i]));
      assert profile[i] in bare;
      var k :| 0 <= k < |bare| && bare[k] == profile[i];
      assert clean[k] != '-';
      assert !AllDashes(clean);
      assert left[0] != '-';
    } else {
      forall k | 0 <= k < |clean| ensures clean[k] == '-' {
        assert bare[k] in bare;
        var i :| 0 <= i < |profile| && profile[i] == bare[k];
      }
    }
    forall c | c in ProfileLabel(profile) ensures IsLowerAlnum(c) || c == '-' {
      assert c in both && c in left && c in clean;
    }
  }

  lemma {:induction false} RemoveDotsConcat(a: string, b: string)
    ensures RemoveDots(a + b) == RemoveDots(a) + RemoveDots(b)
  {
    if a == [] {
      assert a + b == b;
    } else {
      assert (a + b)[1..] == a[1..] + b;
      RemoveDotsConcat(a[1..], b);
    }
  }

  ghost predicate LowerAlnum(s: string) { s != [] && forall i :: 0 <= i < |s| ==> IsLowerAlnum(s[i]) }

  lemma {:induction false} RemoveDotsKeepsAlnum(s: string)
    requires LowerAlnum(s)
    ensures RemoveDots(s) == s
  {
    if |s| > 1 { RemoveDotsKeepsAlnum(s[1..]); }
  }

  lemma CleanNameStays(s: string)
    requires 0 < |s| <= MAX_NAME && s[0] != '-' && s[|s| - 1] != '-' && s[|s| - 1] != '.'
    requires forall i :: 0 <= i < |s| ==> IsLowerAlnum(s[i]) || s[i] == '-'
    ensures ToRFC1123Compliant(s) == s
  {
    assert Clean(s) == s;
    CleanedIsCompliant(s, s);
  }

  lemma CleanedIsCompliant(s: string, clean: string)
    requires Clean(s) == clean && 0 < |clean| <= MAX_NAME
    requires clean[0] != '-' && clean[|clean| - 1] != '-' && clean[|clean| - 1] != '.'
    ensures ToRFC1123Compliant(s) == clean
  {
  }

  /** The label of a profile such as 1g.5gb is the profile without its dot. */
  lemma LabelDropsTheDot(compute: string, memory: string)
    requires LowerAlnum(compute) && LowerAlnum(memory) && |compute| + |memory| <= MAX_NAME
    ensures ProfileLabel(compute + "." + memory) == compute + memory
  {
    RemoveDotsConcat(compute + ".", memory);
    RemoveDotsConcat(compute, ".");
    RemoveDotsKeepsAlnum(compute);
    RemoveDotsKeepsAlnum(memory);
    assert RemoveDots(".") == "" && compute + "" == compute;
    CleanNameStays(compute + memory);
  }

  // -------------------------------------------------------------- main results

  /** The printed name: parent minor, label, profile ID and start, in this order. */
  lemma CanonicalNameLayout(m: MigSpecTuple, profile: string)
    ensures ToCanonicalName(m, profile)
         == "gpu-" + Decimal(m.parentMinor) + "-mig-" + ProfileLabel(profile) + "-" + Decimal(m.profileID) + "-"
              + Decimal(m.placementStart)
  {
    var minor, tag := Decimal(m.parentMinor), ProfileLabel(profile);
    var tail := "-" + Decimal(m.profileID) + "-" + Decimal(m.placementStart);
    assert "-mig-" + (tag + "-" + Decimal(m.profileID) + "-" + Decimal(m.placementStart)) == "-mig-" + tag + tail;
    assert "gpu-" + (minor + ("-mig-" + tag + tail)) == "gpu-" + minor + "-mig-" + tag + tail;
  }

  /** Printing a tuple gives the groups one would expect, and nothing else matches. */
  lemma PrintedNameMatches(m: MigSpecTuple, profile: string)
    requires HasAlnum(profile)
    ensures FindGroups(ToCanonicalName(m, profile))
         == Some(Groups(Decimal(m.parentMinor), ProfileLabel(profile), Decimal(m.profileID), Decimal(m.placementStart)))
  {
    var minor, tag, id, start := Decimal(m.parentMinor), ProfileLabel(profile), Decimal(m.profileID),
      Decimal(m.placementStart);
    assert tag != [] && '\n' !in tag by {
      LabelIsEmptyExactlyWithoutAlnum(profile);
    }
    FindGroupsSkipsPrefixes(minor, tag + "-" + id + "-" + start);
    GroupsOfBody(minor, tag, id, start);
  }

  lemma UnlabelledNameDoesNotMatch(minor: nat, id: nat, start: nat)
    ensures FindGroups(MigName(Decimal(minor), "", Decimal(id), Decimal(start))) == None
  {
    var m, i, t := Decimal(minor), Decimal(id), Decimal(start);
    FindGroupsSkipsPrefixes(m, "" + "-" + i + "-" + t);
    GroupsOfBody(m, "", i, t);
  }

  /**
   * Round trip: a printed name parses back to the same minor, profile ID and placement start
   * exactly when the profile name has a letter or digit and the numbers fit the parser's integers.
   * The PCI bus ID of the parent is lost.
   */
  lemma ParseUndoesPrint(m: MigSpecTuple, profile: string)
    ensures NewMigSpecTupleFromCanonicalName(ToCanonicalName(m, profile)) == Some(m.(parentPCIBusID := ""))
            <==> HasAlnum(profile) && m.parentMinor <= MAX_INT && m.profileID <= MAX_INT && m.placementStart <= MAX_INT
  {
    ValueOfDecimal(m.parentMinor);
    ValueOfDecimal(m.profileID);
    ValueOfDecimal(m.placementStart);
    if HasAlnum(profile) {
      PrintedNameMatches(m, profile);
    } else {
      LabelIsEmptyExactlyWithoutAlnum(profile);
      UnlabelledNameDoesNotMatch(m.parentMinor, m.profileID, m.placementStart);
    }
  }

  /** The parts of a name can be told apart, whatever is between the hyphens. */
  lemma PartsAreUnique(minor: string, tag: string, id: string, start: string,
                       minor': string, tag': string, id': string, start': string)
    requires IsNumeral(minor) && IsNumeral(id) && IsNumeral(start)
    requires IsNumeral(minor') && IsNumeral(id') && IsNumeral(start')
    requires MigName(minor, tag, id, start) == MigName(minor', tag', id', start')
    ensures minor == minor' && id == id' && start == start'
  {
    var body, body' := tag + "-" + id + "-" + start, tag' + "-" + id' + "-" + start';
    AfterThePrefix(minor + ("-mig-" + body), minor' + ("-mig-" + body'));
    MinorIsUnique(minor, "-mig-" + body, minor', "-mig-" + body');
    assert ("-mig-" + body)[5..] == body && ("-mig-" + body')[5..] == body';
    SplitTailIsUnique(tag + "-" + id, start);
    SplitTailIsUnique(tag' + "-" + id', start');
    SplitTailIsUnique(tag, id);
    SplitTailIsUnique(tag', id');
  }

  lemma AfterThePrefix(s: string, t: string)
    requires "gpu-" + s == "gpu-" + t
    ensures s == t
  {
    assert ("gpu-" + s)[4..] == s && ("gpu-" + t)[4..] == t;
  }

  lemma MinorIsUnique(minor: string, tail: string, minor': string, tail': string)
    requires IsNumeral(minor) && IsNumeral(minor') && minor + tail == minor' + tail'
    requires tail != "" && tail' != "" && !IsDigit(tail[0]) && !IsDigit(tail'[0])
    ensures minor == minor' && tail == tail'
  {
    DigitRunIsMaximal(minor, tail);
    DigitRunIsMaximal(minor', tail');
    assert (minor + tail)[..|minor|] == minor && (minor' + tail')[..|minor'|] == minor';
    assert (minor + tail)[|minor|..] == tail && (minor' + tail')[|minor'|..] == tail';
  }

  /**
   * Names are injective on (minor, profile ID, placement start), however large the numbers and whatever the profiles.
   */
  lemma NamesAreInjective(m: MigSpecTuple, p: string, m': MigSpecTuple, p': string)
    requires ToCanonicalName(m, p) == ToCanonicalName(m', p')
    ensures m.parentMinor == m'.parentMinor && m.profileID == m'.profileID && m.placementStart == m'.placementStart
  {
    PartsAreUnique(Decimal(m.parentMinor), ProfileLabel(p), Decimal(m.profileID), Decimal(m.placementStart),
                   Decimal(m'.parentMinor), ProfileLabel(p'), Decimal(m'.profileID), Decimal(m'.placementStart));
    ValueOfDecimal(m.parentMinor);
    ValueOfDecimal(m.profileID);
    ValueOfDecimal(m.placementStart);
    ValueOfDecimal(m'.parentMinor);
    ValueOfDecimal(m'.profileID);
    ValueOfDecimal(m'.placementStart);
  }

  /**
   * The other way round: a name that parses is what printing the tuple with the same label gives, exactly when its
   * numerals have no leading zeros. What is parsed never carries a PCI bus ID.
   */
  lemma PrintUndoesParse(s: string, g: Groups)
    requires Matches(s, g) && NewMigSpecTupleFromCanonicalName(s).Some?
    ensures var m := NewMigSpecTupleFromCanonicalName(s).value;
            && m.parentPCIBusID == ""
            && (MigName(Decimal(m.parentMinor), g.tag, Decimal(m.profileID), Decimal(m.placementStart)) == s
                <==> IsShortest(g.minor) && IsShortest(g.id) && IsShortest(g.start))
  {
    FindGroupsIsTheMatch(s, g);
    var m := NewMigSpecTupleFromCanonicalName(s).value;
    DecimalOfValue(g.minor);
    DecimalOfValue(g.id);
    DecimalOfValue(g.start);
    var minor, id, start := Decimal(m.parentMinor), Decimal(m.profileID), Decimal(m.placementStart);
    if MigName(minor, g.tag, id, start) == s {
      PartsAreUnique(minor, g.tag, id, start, g.minor, g.tag, g.id, g.start);
    }
  }

  /** Names of full GPUs and of vfio devices never parse as MIG devices. */
  lemma OtherNamesNeverParse(n: nat)
    ensures NewMigSpecTupleFromCanonicalName(GpuName(n)) == None
    ensures NewMigSpecTupleFromCanonicalName(VfioName(n)) == None
  {
  }
}

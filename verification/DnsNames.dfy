/** DNS names of the daemons of a clique: the map from addresses to names, the static nodes file and the hosts file. */
module DnsNames {
  import opened Text
  import opened Membership

  const DNS_NAME_PREFIX := "compute-domain-daemon-"

  function NameOf(index: nat): string { DNS_NAME_PREFIX + Padded4(index) }

  lemma NameOfIsInjective(i: nat, j: nat)
    requires NameOf(i) == NameOf(j)
    ensures i == j
  {
    assert NameOf(i)[|DNS_NAME_PREFIX|..] == Padded4(i) && NameOf(j)[|DNS_NAME_PREFIX|..] == Padded4(j);
    ValueOfPadded4(i);
    ValueOfPadded4(j);
  }

  // --------------------------------------------------------------------- lines

  predicate OneLine(s: string) { forall i :: 0 <= i < |s| ==> s[i] != '\n' }

  ghost predicate OneLiners(ls: seq<string>) { forall i :: 0 <= i < |ls| ==> OneLine(ls[i]) }

  /** What follows the last newline. */
  function LastLine(s: string): (l: string)
    ensures OneLine(l)
  {
    if s == [] || s[|s| - 1] == '\n' then "" else LastLine(s[..|s| - 1]) + [s[|s| - 1]]
  }

  /** The lines that end in a newline. */
  function FullLines(s: string): (ls: seq<string>)
    ensures OneLiners(ls)
  {
    if s == [] then []
    else FullLines(s[..|s| - 1]) + if s[|s| - 1] == '\n' then [LastLine(s[..|s| - 1])] else []
  }

  /** `strings.Split(s, "\n")`. */
  function Split(s: string): seq<string> { FullLines(s) + [LastLine(s)] }

  function Unlines(ls: seq<string>): string
  {
    if ls == [] then "" else Unlines(ls[..|ls| - 1]) + ls[|ls| - 1] + "\n"
  }

  lemma {:induction false} LineGrows(s: string, l: string)
    requires OneLine(l)
    ensures LastLine(s + l) == LastLine(s) + l && FullLines(s + l) == FullLines(s)
    decreases |l|
  {
    if l == [] {
      assert s + l == s;
    } else {
      LineGrows(s, l[..|l| - 1]);
      assert (s + l)[..|s + l| - 1] == s + l[..|l| - 1];
    }
  }

  lemma LineEnds(s: string)
    ensures LastLine(s + "\n") == "" && FullLines(s + "\n") == FullLines(s) + [LastLine(s)]
  {
  }

  /** Splitting what was written line by line gives the lines back, and one empty line more. */
  lemma {:induction false} SplitUndoesUnlines(ls: seq<string>)
    requires OneLiners(ls)
    ensures Split(Unlines(ls)) == ls + [""]
    ensures LastLine(Unlines(ls)) == "" && FullLines(Unlines(ls)) == ls
  {
    if ls != [] {
      var rest, last := ls[..|ls| - 1], ls[|ls| - 1];
      SplitUndoesUnlines(rest);
      LineGrows(Unlines(rest), last);
      assert LastLine(Unlines(rest)) + last == last;
      LineEnds(Unlines(rest) + last);
      assert rest + [last] == ls;
    }
  }

  /** White space as the Unicode standard has it. */
  predicate IsSpace(c: char)
  {
    || '\t' <= c <= '\r' || c == ' ' || c == '\U{85}' || c == '\U{a0}' || c == '\U{1680}'
      || '\U{2000}' <= c <= '\U{200a}'
    || c == '\U{2028}' || c == '\U{2029}' || c == '\U{202f}' || c == '\U{205f}' || c == '\U{3000}'
  }

  function TrimLeft(s: string): string { if s != [] && IsSpace(s[0]) then TrimLeft(s[1..]) else s }

  function TrimRight(s: string): string { if s != [] && IsSpace(s[|s| - 1]) then TrimRight(s[..|s| - 1]) else s }

  function TrimSpace(s: string): string { TrimRight(TrimLeft(s)) }

  predicate Trimmed(s: string) { s != [] ==> !IsSpace(s[0]) && !IsSpace(s[|s| - 1]) }

  lemma {:induction false} TrimLeftTrims(s: string)
    ensures var t := TrimLeft(s); (t != [] ==> !IsSpace(t[0])) && (OneLine(s) ==> OneLine(t))
  {
    if s != [] && IsSpace(s[0]) { TrimLeftTrims(s[1..]); }
  }

  lemma {:induction false} TrimRightTrims(s: string)
    requires s != [] ==> !IsSpace(s[0])
    ensures var t := TrimRight(s); Trimmed(t) && (OneLine(s) ==> OneLine(t))
  {
    if s != [] && IsSpace(s[|s| - 1]) { TrimRightTrims(s[..|s| - 1]); }
  }

  ghost predicate Blank(s: string) { forall i :: 0 <= i < |s| ==> IsSpace(s[i]) }

  lemma {:induction false} TrimLeftOnlyTrims(s: string) returns (a: string)
    ensures Blank(a) && s == a + TrimLeft(s)
  {
    a := "";
    if s != [] && IsSpace(s[0]) {
      a := TrimLeftOnlyTrims(s[1..]);
      a := [s[0]] + a;
    }
  }

  lemma {:induction false} TrimRightOnlyTrims(s: string) returns (b: string)
    ensures Blank(b) && s == TrimRight(s) + b
  {
    b := "";
    if s != [] && IsSpace(s[|s| - 1]) {
      b := TrimRightOnlyTrims(s[..|s| - 1]);
      b := b + [s[|s| - 1]];
    }
  }

  /** Trimming takes white space from both ends and nothing else. */
  lemma TrimSpaceOnlyTrims(s: string)
    ensures exists a, b :: Blank(a) && Blank(b) && s == a + TrimSpace(s) + b
  {
    var a := TrimLeftOnlyTrims(s);
    var b := TrimRightOnlyTrims(TrimLeft(s));
    assert a + (TrimSpace(s) + b) == a + TrimSpace(s) + b;
  }

  lemma TrimSpaceTrims(s: string)
    ensures Trimmed(TrimSpace(s)) && (OneLine(s) ==> OneLine(TrimSpace(s))) && TrimSpace(TrimSpace(s)) == TrimSpace(s)
  {
    TrimLeftTrims(s);
    TrimRightTrims(TrimLeft(s));
  }

  // ---------------------------------------------------------------- hosts file

  /** What sets the daemon's own lines apart: mappings mention the prefix, and each rewrite writes the separator. */
  datatype Marks = Marks(prefix: string, separator: string)

  const MARKS := Marks(DNS_NAME_PREFIX, "# Compute Domain Daemon mappings")

  ghost predicate Sane(m: Marks)
  {
    !IsMapping(m, m.separator) && !IsMapping(m, "") && TrimSpace(m.separator) == m.separator && OneLine(m.separator)
  }

  predicate IsMapping(m: Marks, line: string) { Contains(line, m.prefix) }

  predicate IsClutter(m: Marks, line: string) { line == m.separator || line == "" }

  /** Ways to look at the lines of the file. */
  datatype View =
    | Carried   // what a rewrite carries over: trimmed, without the lines that mention a daemon name
    | Foreign   // somebody else's: neither mapping nor separator nor blank, trimmed
    | Mappings  // those that mention a daemon name, as they stand
    | Clutter   // separators and blank lines

  function Seen(m: Marks, v: View, line: string): seq<string>
  {
    var l := TrimSpace(line);
    match v
    case Carried => if IsMapping(m, l) then [] else [l]
    case Foreign => if IsMapping(m, l) || IsClutter(m, l) then [] else [l]
    case Mappings => if IsMapping(m, line) then [line] else []
    case Clutter => if IsClutter(m, l) then [l] else []
  }

  function Eye(m: Marks, v: View): string -> seq<string> { line => Seen(m, v, line) }

  function Look(m: Marks, v: View, ls: seq<string>): seq<string> { FlatMap(Eye(m, v), ls) }

  /** One rewrite: the carried lines, a separator, and the entries in some order. */
  function Rewrite(m: Marks, hosts: string, entries: seq<string>): string
  {
    Unlines(Look(m, Carried, Split(hosts)) + [m.separator] + entries)
  }

  function Rewrites(m: Marks, hosts: string, steps: seq<seq<string>>): string
  {
    if steps == [] then hosts else Rewrite(m, Rewrites(m, hosts, steps[..|steps| - 1]), steps[|steps| - 1])
  }

  ghost predicate AreEntries(m: Marks, entries: seq<string>)
  {
    forall i :: 0 <= i < |entries| ==>
      OneLine(entries[i]) && IsMapping(m, entries[i]) && IsMapping(m, TrimSpace(entries[i]))
  }

  /** Carrying lines over loses no foreign line, keeps no mapping, and leaves the clutter. */
  lemma {:induction false} LookAtCarried(m: Marks, v: View, ls: seq<string>)
    requires Sane(m) && !v.Carried?
    ensures Look(m, v, Look(m, Carried, ls)) == if v.Mappings? then [] else Look(m, v, ls)
  {
    if ls != [] {
      var rest, last := ls[..|ls| - 1], ls[|ls| - 1];
      LookAtCarried(m, v, rest);
      FlatMapConcat(Eye(m, v), Look(m, Carried, rest), Seen(m, Carried, last));
      TrimSpaceTrims(last);
      FlatMapOne(Eye(m, v), TrimSpace(last));
    }
  }

  lemma {:induction false} CarriedAreOneLiners(m: Marks, ls: seq<string>)
    requires OneLiners(ls)
    ensures OneLiners(Look(m, Carried, ls))
  {
    if ls != [] {
      CarriedAreOneLiners(m, ls[..|ls| - 1]);
      TrimSpaceTrims(ls[|ls| - 1]);
    }
  }

  lemma EntryIsSeen(m: Marks, v: View, line: string)
    requires Sane(m) && IsMapping(m, line) && IsMapping(m, TrimSpace(line))
    ensures Seen(m, v, line) == if v.Mappings? then [line] else []
  {
  }

  /** Entries are mappings, and nothing but mappings. */
  lemma LookAtEntries(m: Marks, v: View, entries: seq<string>)
    requires Sane(m) && AreEntries(m, entries)
    ensures Look(m, v, entries) == if v.Mappings? then entries else []
  {
    forall i | 0 <= i < |entries| ensures Eye(m, v)(entries[i]) == if v.Mappings? then [entries[i]] else [] {
      EntryIsSeen(m, v, entries[i]);
    }
    if v.Mappings? {
      FlatMapKeeps(Eye(m, v), entries);
    } else {
      FlatMapDrops(Eye(m, v), entries);
    }
  }

  lemma LookAtParts(m: Marks, v: View, kept: seq<string>, entries: seq<string>)
    ensures Look(m, v, kept + [m.separator] + entries + [""])
         == Look(m, v, kept) + Seen(m, v, m.separator) + Look(m, v, entries) + Seen(m, v, "")
  {
    var f := Eye(m, v);
    FlatMapConcat(f, kept + [m.separator] + entries, [""]);
    FlatMapConcat(f, kept + [m.separator], entries);
    FlatMapConcat(f, kept, [m.separator]);
    FlatMapOne(f, m.separator);
    FlatMapOne(f, "");
  }

  lemma RewrittenLines(m: Marks, hosts: string, entries: seq<string>)
    requires Sane(m) && AreEntries(m, entries)
    ensures Split(Rewrite(m, hosts, entries)) == Look(m, Carried, Split(hosts)) + [m.separator] + entries + [""]
  {
    CarriedAreOneLiners(m, Split(hosts));
    SplitUndoesUnlines(Look(m, Carried, Split(hosts)) + [m.separator] + entries);
  }

  lemma LookAtRewritten(m: Marks, v: View, hosts: string, entries: seq<string>)
    requires Sane(m) && AreEntries(m, entries)
    ensures Look(m, v, Split(Rewrite(m, hosts, entries)))
         == Look(m, v, Look(m, Carried, Split(hosts))) + Seen(m, v, m.separator) + Look(m, v, entries) + Seen(m, v, "")
  {
    RewrittenLines(m, hosts, entries);
    LookAtParts(m, v, Look(m, Carried, Split(hosts)), entries);
  }

  lemma SeenClutter(m: Marks, v: View)
    requires Sane(m)
    ensures Seen(m, v, "") == (if v.Carried? || v.Clutter? then [""] else [])
    ensures Seen(m, v, m.separator) == (if v.Carried? || v.Clutter? then [m.separator] else [])
  {
  }

  lemma RewriteShows(m: Marks, hosts: string, entries: seq<string>)
    requires Sane(m) && AreEntries(m, entries)
    ensures Look(m, Mappings, Split(Rewrite(m, hosts, entries))) == entries
  {
    LookAtRewritten(m, Mappings, hosts, entries);
    LookAtCarried(m, Mappings, Split(hosts));
    LookAtEntries(m, Mappings, entries);
    SeenClutter(m, Mappings);
  }

  lemma RewriteKeepsForeign(m: Marks, hosts: string, entries: seq<string>)
    requires Sane(m) && AreEntries(m, entries)
    ensures Look(m, Foreign, Split(Rewrite(m, hosts, entries))) == Look(m, Foreign, Split(hosts))
  {
    LookAtRewritten(m, Foreign, hosts, entries);
    LookAtCarried(m, Foreign, Split(hosts));
    LookAtEntries(m, Foreign, entries);
    SeenClutter(m, Foreign);
  }

  lemma RewriteClutters(m: Marks, hosts: string, entries: seq<string>)
    requires Sane(m) && AreEntries(m, entries)
    ensures |Look(m, Clutter, Split(Rewrite(m, hosts, entries)))| == |Look(m, Clutter, Split(hosts))| + 2
  {
    LookAtRewritten(m, Clutter, hosts, entries);
    LookAtCarried(m, Clutter, Split(hosts));
    LookAtEntries(m, Clutter, entries);
    SeenClutter(m, Clutter);
  }

  /**
   * After any number of rewrites the lines that mention a daemon name are exactly the last map's entries; everybody
   * else's lines are still there, trimmed and in order; and every rewrite has left two lines of clutter behind.
   */
  lemma {:induction false} AfterAnyRewrites(m: Marks, hosts: string, steps: seq<seq<string>>)
    requires Sane(m) && forall i :: 0 <= i < |steps| ==> AreEntries(m, steps[i])
    ensures var before, after := Split(hosts), Split(Rewrites(m, hosts, steps));
            && Look(m, Foreign, after) == Look(m, Foreign, before)
            && |Look(m, Clutter, after)| == |Look(m, Clutter, before)| + 2 * |steps|
            && Look(m, Mappings, after) == if steps == [] then Look(m, Mappings, before) else steps[|steps| - 1]
    decreases |steps|
  {
    if steps != [] {
      var rest, last := steps[..|steps| - 1], steps[|steps| - 1];
      AfterAnyRewrites(m, hosts, rest);
      RewriteShows(m, Rewrites(m, hosts, rest), last);
      RewriteKeepsForeign(m, Rewrites(m, hosts, rest), last);
      RewriteClutters(m, Rewrites(m, hosts, rest), last);
    }
  }

  // --------------------------------------------------------- the daemon's marks

  function EntryLine(ip: string, name: string): string { ip + "\t" + name }

  /** Other people's lines, trimmed, in order. */
  function Theirs(ls: seq<string>): seq<string>
  {
    if ls == [] then []
    else
      var l := TrimSpace(ls[|ls| - 1]);
      Theirs(ls[..|ls| - 1])
      + if l == "" || l == "# Compute Domain Daemon mappings" || Contains(l, "compute-domain-daemon-") then [] else [l]
  }

  /** The lines that mention a daemon name, as they stand. */
  function Mentioning(ls: seq<string>): seq<string>
  {
    if ls == [] then []
    else
      var l := ls[|ls| - 1];
      Mentioning(ls[..|ls| - 1]) + if Contains(l, "compute-domain-daemon-") then [l] else []
  }

  /** What a rewrite leaves of a file: the lines that do not mention a daemon name, trimmed. */
  function Remaining(ls: seq<string>): seq<string>
  {
    if ls == [] then []
    else
      var l := TrimSpace(ls[|ls| - 1]);
      Remaining(ls[..|ls| - 1]) + if Contains(l, "compute-domain-daemon-") then [] else [l]
  }

  /** What the views show of a hosts file. */
  lemma {:induction false} ViewsShow(ls: seq<string>)
    ensures Look(MARKS, Foreign, ls) == Theirs(ls) && Look(MARKS, Mappings, ls) == Mentioning(ls)
    ensures Look(MARKS, Carried, ls) == Remaining(ls)
  {
    if ls != [] {
      ViewsShow(ls[..|ls| - 1]);
    }
  }

  lemma SeparatorLacks(c: char)
    requires c == '\n' || c == 'c'
    ensures forall i :: 0 <= i < |MARKS.separator| ==> MARKS.separator[i] != c
  {
  }

  lemma MarksAreSane()
    ensures Sane(MARKS)
  {
    SeparatorLacks('\n');
    SeparatorLacks('c');
    var s, p := MARKS.separator, MARKS.prefix;
    forall i | 0 <= i <= |s| - |p| ensures s[i..][..|p|] != p {
      assert s[i..][..|p|][0] == s[i];
    }
  }

  lemma NameIsClean(i: nat)
    ensures OneLine(NameOf(i)) && NameOf(i)[0] == 'c' && IsDigit(NameOf(i)[|NameOf(i)| - 1])
  {
  }

  lemma {:induction false} TrimLeftKeepsTail(x: string, tail: string)
    requires tail != "" && !IsSpace(tail[0])
    ensures exists y :: TrimLeft(x + tail) == y + tail
  {
    if x == "" {
      assert x + tail == tail && TrimLeft(tail) == "" + tail;
    } else if IsSpace(x[0]) {
      assert (x + tail)[1..] == x[1..] + tail;
      TrimLeftKeepsTail(x[1..], tail);
    } else {
      assert TrimLeft(x + tail) == x + tail;
    }
  }

  lemma EndsInMapping(m: Marks, x: string, name: string)
    requires HasPrefix(name, m.prefix)
    ensures IsMapping(m, x + name)
  {
    assert (x + name)[|x|..] == name;
  }

  lemma EntryIsMapping(m: Marks, ip: string, name: string)
    requires OneLine(ip) && OneLine(name) && HasPrefix(name, m.prefix)
    requires name != "" && !IsSpace(name[0]) && !IsSpace(name[|name| - 1])
    ensures AreEntries(m, [EntryLine(ip, name)])
  {
    TrimLeftKeepsTail(ip + "\t", name);
    var y :| TrimLeft(EntryLine(ip, name)) == y + name;
    assert TrimSpace(EntryLine(ip, name)) == y + name;
    EndsInMapping(m, ip + "\t", name);
    EndsInMapping(m, y, name);
  }

  /** Every entry that a mapping of daemon names gives rise to is recognised as such later. */
  lemma DaemonEntryIsMapping(ip: string, i: nat)
    requires OneLine(ip)
    ensures AreEntries(MARKS, [EntryLine(ip, NameOf(i))])
  {
    NameIsClean(i);
    EntryIsMapping(MARKS, ip, NameOf(i));
  }

  // ------------------------------------------------------------------- mapping

  /** Addresses of the clique with the name of the index; of two members with one address the later counts. */
  function MappingOf(ms: Members, clique: string): map<string, string>
    requires Indexed(ms, clique)
  {
    if ms == [] then map[]
    else
      var rest, last := ms[..|ms| - 1], ms[|ms| - 1];
      assert last in ms;
      if last.clique == clique then MappingOf(rest, clique)[last.ip := NameOf(last.index)] else MappingOf(rest, clique)
  }

  predicate Indexed(ms: Members, clique: string)
  {
    forall m :: m in ms && m.clique == clique ==> m.index >= 0
  }

  /** Every entry comes from a member. */
  lemma {:induction false} EntryHasMember(ms: Members, clique: string, ip: string) returns (m: Member)
    requires Indexed(ms, clique) && ip in MappingOf(ms, clique)
    ensures m in ms && m.clique == clique && m.ip == ip && MappingOf(ms, clique)[ip] == NameOf(m.index)
  {
    var rest, last := ms[..|ms| - 1], ms[|ms| - 1];
    if last.clique == clique && last.ip == ip {
      m := last;
    } else {
      m := EntryHasMember(rest, clique, ip);
    }
  }

  /** Every member of the clique makes an entry. */
  lemma {:induction false} MemberHasEntry(ms: Members, clique: string, m: Member)
    requires Indexed(ms, clique) && m in ms && m.clique == clique
    ensures m.ip in MappingOf(ms, clique)
  {
    if m != ms[|ms| - 1] { MemberHasEntry(ms[..|ms| - 1], clique, m); }
  }

  /** Of several members with one address the last counts. */
  lemma {:induction false} LastMemberCounts(ms: Members, clique: string, k: nat)
    requires Indexed(ms, clique) && k < |ms| && ms[k].clique == clique
    requires forall j :: k < j < |ms| ==> ms[j].clique != clique || ms[j].ip != ms[k].ip
    ensures ms[k].index >= 0 && ms[k].ip in MappingOf(ms, clique)
    ensures MappingOf(ms, clique)[ms[k].ip] == NameOf(ms[k].index)
  {
    assert ms[k] in ms;
    if k < |ms| - 1 { LastMemberCounts(ms[..|ms| - 1], clique, k); }
  }

  /** Every member of the clique has an index that gives a name. */
  predicate Nameable(max: nat, ms: Members, clique: string)
  {
    forall m :: m in ms && m.clique == clique ==> 0 <= m.index < max
  }

  /**
   * For every version of every member list: naming never fails, every name is in the nodes file, and when the pods'
   * addresses are distinct two addresses never get the same name, so the mapping is a bijection.
   */
  lemma NamesAreABijection(cfg: Config, log: Log, v: nat, clique: string)
    requires History(cfg, log) && v < |log| && log[v].Some? && clique != ""
    ensures var ms := log[v].value;
            && Nameable(cfg.max, ms, clique)
            && (forall ip :: ip in MappingOf(ms, clique) <==> HasIP(ms, clique, ip))
            && (forall ip :: ip in MappingOf(ms, clique) ==> MappingOf(ms, clique)[ip] in NodesConfig(cfg.max))
            && (DistinctIPs(ms, clique) ==>
                  forall ip, ip' :: ip in MappingOf(ms, clique) && ip' in MappingOf(ms, clique) ==>
                    MappingOf(ms, clique)[ip] == MappingOf(ms, clique)[ip'] ==> ip == ip')
  {
    var ms := log[v].value;
    EveryVersionIsConsistent(cfg, log, v);
    forall m | m in ms && m.clique == clique ensures 0 <= m.index < cfg.max {
      var k :| 0 <= k < |ms| && ms[k] == m;
    }
    var names := MappingOf(ms, clique);
    forall ip | ip in names ensures names[ip] in NodesConfig(cfg.max) && HasIP(ms, clique, ip) {
      var m := EntryHasMember(ms, clique, ip);
      assert NodesConfig(cfg.max)[m.index] == names[ip];
    }
    forall ip | HasIP(ms, clique, ip) ensures ip in names {
      var m :| m in ms && m.clique == clique && m.ip == ip;
      MemberHasEntry(ms, clique, m);
    }
    forall ip, ip' | ip in names && ip' in names && names[ip] == names[ip'] ensures ip == ip' {
      SameNameSameAddress(cfg.max, ms, clique, ip, ip');
    }
  }

  lemma SameNameSameAddress(max: nat, ms: Members, clique: string, ip: string, ip': string)
    requires Consistent(max, ms) && Nameable(max, ms, clique) && clique != ""
    requires ip in MappingOf(ms, clique) && ip' in MappingOf(ms, clique)
    requires MappingOf(ms, clique)[ip] == MappingOf(ms, clique)[ip']
    ensures ip == ip'
  {
    var m := EntryHasMember(ms, clique, ip);
    var m' := EntryHasMember(ms, clique, ip');
    NameOfIsInjective(m.index, m'.index);
    SameIndexSameMember(max, ms, m, m');
  }

  lemma SameIndexSameMember(max: nat, ms: Members, a: Member, b: Member)
    requires Consistent(max, ms) && a in ms && b in ms && a.clique == b.clique != "" && a.index == b.index
    ensures a == b
  {
  }

  /**
   * A member that stays listed and keeps its address has the same name in the mappings made from any two versions:
   * the names agree across nodes.
   */
  lemma NamesAgreeAcrossVersions(cfg: Config, log: Log, v: nat, w: nat, clique: string, a: Member, b: Member)
    requires History(cfg, log) && v <= w < |log| && log[v].Some? && log[w].Some? && clique != ""
    requires ListedThroughout(log, v, w, a.node)
    requires a in log[v].value && a.clique == clique && b in log[w].value && b.node == a.node && b.clique != ""
    requires b.ip == a.ip
    requires DistinctIPs(log[v].value, clique) && DistinctIPs(log[w].value, clique)
    ensures Nameable(cfg.max, log[v].value, clique) && Nameable(cfg.max, log[w].value, clique)
    ensures var p, q := MappingOf(log[v].value, clique), MappingOf(log[w].value, clique);
            a.ip in p && a.ip in q && p[a.ip] == q[a.ip]
  {
    NamesAreABijection(cfg, log, v, clique);
    NamesAreABijection(cfg, log, w, clique);
    IndexIsStable(cfg, log, v, w, a.node, a, b);
    NameOfAddress(log[v].value, clique, a);
    NameOfAddress(log[w].value, clique, b);
  }

  /** A change that comparing IP sets hides is one of the mapping: the same addresses, some of them with other names. */
  lemma HiddenChangeIsAnotherMapping(cfg: Config, log: Log, v: nat, w: nat, clique: string)
    requires HiddenChange(cfg, log, v, w, clique) && clique != "" && DistinctIPs(log[v].value, clique)
    ensures Nameable(cfg.max, log[v].value, clique) && Nameable(cfg.max, log[w].value, clique)
    ensures var before, after := MappingOf(log[v].value, clique), MappingOf(log[w].value, clique);
            before != after && forall ip :: ip in before <==> ip in after
  {
    var a, b := log[v].value, log[w].value;
    NamesAreABijection(cfg, log, v, clique);
    NamesAreABijection(cfg, log, w, clique);
    var m, n :| m in a && n in b && m.clique == clique && n.clique == clique && m.ip == n.ip && m.index != n.index;
    OtherIndexOtherName(a, b, clique, m, n);
  }

  lemma OtherIndexOtherName(a: Members, b: Members, clique: string, m: Member, n: Member)
    requires DistinctIPs(a, clique) && DistinctIPs(b, clique)
    requires Indexed(a, clique) && Indexed(b, clique)
    requires m in a && n in b && m.clique == clique && n.clique == clique && m.ip == n.ip && m.index != n.index
    ensures MappingOf(a, clique) != MappingOf(b, clique)
  {
    NameOfAddress(a, clique, m);
    NameOfAddress(b, clique, n);
    if NameOf(m.index) == NameOf(n.index) { NameOfIsInjective(m.index, n.index); }
  }

  lemma NameOfAddress(ms: Members, clique: string, m: Member)
    requires DistinctIPs(ms, clique) && Indexed(ms, clique) && m in ms && m.clique == clique
    ensures m.ip in MappingOf(ms, clique) && MappingOf(ms, clique)[m.ip] == NameOf(m.index)
  {
    MemberHasEntry(ms, clique, m);
    var n := EntryHasMember(ms, clique, m.ip);
    assert n == m;
  }

  // ----------------------------------------------------------------- the manager

  /** The static nodes file, line by line. */
  function NodesConfig(max: nat): (names: seq<string>)
    ensures |names| == max && forall i :: 0 <= i < max ==> names[i] == NameOf(i)
  {
    if max == 0 then [] else NodesConfig(max - 1) + [NameOf(max - 1)]
  }

  function EntryLines(names: map<string, string>, order: seq<string>): (ls: seq<string>)
    requires forall ip :: ip in order ==> ip in names
    ensures |ls| == |order|
  {
    seq(|order|, i requires 0 <= i < |order| => EntryLine(order[i], names[order[i]]))
  }

  /** The order lists each address of the map once. */
  ghost predicate Lists(names: map<string, string>, order: seq<string>)
  {
    && (forall ip :: ip in order <==> ip in names)
    && (forall i, j :: 0 <= i < j < |order| ==> order[i] != order[j])
  }

  /** The lines of the file that mention a daemon name are the entries of this map, each once. */
  ghost predicate Shows(names: map<string, string>, hosts: string)
  {
    exists order :: Lists(names, order) && Look(MARKS, Mappings, Split(hosts)) == EntryLines(names, order)
  }

  /** As many lines as addresses, and in each the address, a tab and the name. */
  ghost predicate AreLines(ls: seq<string>, names: map<string, string>, order: seq<string>)
  {
    |ls| == |order| && forall i :: 0 <= i < |order| ==>
      order[i] in names && ls[i] == order[i] + "\t" + names[order[i]]
  }

  lemma ShownLines(names: map<string, string>, hosts: string)
    ensures Shows(names, hosts) <==>
            exists order :: Lists(names, order) && AreLines(Mentioning(Split(hosts)), names, order)
  {
    ViewsShow(Split(hosts));
    if order :| Lists(names, order) && Look(MARKS, Mappings, Split(hosts)) == EntryLines(names, order) {
      assert AreLines(Mentioning(Split(hosts)), names, order);
    }
    if order :| Lists(names, order) && AreLines(Mentioning(Split(hosts)), names, order) {
      assert Mentioning(Split(hosts)) == EntryLines(names, order);
    }
  }

  ghost predicate OneLineAddresses(ms: Members) { forall m :: m in ms ==> OneLine(m.ip) }

  class DNSNameManager {
    const cliqueID: string
    const max: nat
    var ipToDNSName: map<string, string>
    /** Content of the hosts file and of the nodes file. */
    var hosts: string
    var nodes: string

    constructor (cliqueID: string, max: nat, hosts: string)
      ensures this.cliqueID == cliqueID && this.max == max && ipToDNSName == map[] && this.hosts == hosts
      ensures Look(MARKS, Mappings, Split(hosts)) == [] ==> Shows(ipToDNSName, hosts)
    {
      this.cliqueID, this.max, this.hosts := cliqueID, max, hosts;
      ipToDNSName, nodes := map[], "";
      if Look(MARKS, Mappings, Split(hosts)) == [] { CleanFileShowsNothing(hosts); }
    }

    method ConstructDNSName(d: Member) returns (r: Result<string>)
      ensures r.Ok? <==> 0 <= d.index < max
      ensures r.Ok? ==> d.index >= 0 && r.value == NameOf(d.index)
      ensures r.Ok? ==>
          && |r.value| >= 22 && r.value[..22] == "compute-domain-daemon-" && IsNumeral(r.value[22..])
          && Value(r.value[22..]) == d.index && (d.index < 10000 ==> |r.value| == 26)
    {
      if d.index < 0 { return Err("invalid index"); }
      if d.index >= max { return Err("invalid index, must be less than the maximum"); }
      r := Ok(DNS_NAME_PREFIX + Padded4(d.index));
      assert |DNS_NAME_PREFIX| == 22 && r.value[22..] == Padded4(d.index);
      ValueOfPadded4(d.index);
      if d.index < 10000 { Padded4HasFour(d.index); }
    }

    method OwnClique(daemons: Members) returns (own: Members)
      ensures own == Filter(daemons, OfClique(cliqueID))
    {
      own := [];
      for n := 0 to |daemons|
        invariant own == Filter(daemons[..n], OfClique(cliqueID))
      {
        assert daemons[..n + 1][..n] == daemons[..n];
        if daemons[n].clique == cliqueID {
          own := own + [daemons[n]];
        }
      }
      assert daemons[..|daemons|] == daemons;
    }

    method BuildMapping(daemons: Members) returns (r: Result<map<string, string>>)
      ensures r.Ok? <==> Nameable(max, daemons, cliqueID)
      ensures r.Ok? ==> r.value == MappingOf(daemons, cliqueID)
    {
      var own := OwnClique(daemons);
      var names: map<string, string> := map[];
      FilterKeepsNameable(max, daemons, cliqueID);
      for n := 0 to |own|
        invariant Nameable(max, own[..n], cliqueID)
        invariant names == MappingOf(own[..n], cliqueID)
      {
        assert own[n] in own;
        var name := ConstructDNSName(own[n]);
        MappingStep(max, own, n, cliqueID);
        if name.Err? { return Err("failed to allocate DNS name"); }
        names := names[own[n].ip := name.value];
      }
      assert own[..|own|] == own;
      FilterKeepsMapping(max, daemons, cliqueID);
      r := Ok(names);
    }

    /**
     * Naming fails exactly when some member of the clique has no valid index. The file is rewritten exactly when the
     * map has changed; `order` is the order in which the map was walked. After an error while writing the map has
     * changed and the file may hold anything.
     */
    method UpdateDNSNameMappings(daemons: Members) returns (r: Result<bool>, ghost order: seq<string>)
      modifies `ipToDNSName, `hosts
      ensures !Nameable(max, daemons, cliqueID) ==> r.Err? && ipToDNSName == old(ipToDNSName) && hosts == old(hosts)
      ensures Nameable(max, daemons, cliqueID) ==> ipToDNSName == MappingOf(daemons, cliqueID)
      ensures Nameable(max, daemons, cliqueID) && ipToDNSName == old(ipToDNSName) ==>
          r == Ok(false) && hosts == old(hosts)
      ensures r == Ok(true) ==> ipToDNSName != old(ipToDNSName) && Lists(ipToDNSName, order)
      ensures r == Ok(true) ==> hosts == Rewrite(MARKS, old(hosts), EntryLines(ipToDNSName, order))
      ensures r == Ok(false) ==> ipToDNSName == old(ipToDNSName)
    {
      order := [];
      var built := BuildMapping(daemons);
      if built.Err? { return Err(built.message), []; }
      var names := built.value;
      if names == ipToDNSName { return Ok(false), []; }
      ipToDNSName := names;
      var written;
      written, order := UpdateHostsFile();
      r := if written then Ok(true) else Err("failed to update the hosts file");
    }

    method PreserveLines() returns (content: string)
      ensures content == Unlines(Look(MARKS, Carried, Split(hosts)))
    {
      var lines := Split(hosts);
      var preserved: seq<string> := [];
      for n := 0 to |lines|
        invariant preserved == Look(MARKS, Carried, lines[..n])
      {
        assert lines[..n + 1][..n] == lines[..n];
        var line := TrimSpace(lines[n]);
        if Contains(line, DNS_NAME_PREFIX) { continue; }
        preserved := preserved + [line];
      }
      assert lines[..|lines|] == lines;
      content := "";
      for n := 0 to |preserved|
        invariant content == Unlines(preserved[..n])
      {
        assert preserved[..n + 1][..n] == preserved[..n];
        content := content + preserved[n];
        content := content + "\n";
      }
      assert preserved[..|preserved|] == preserved;
    }

    /** The entries of the map, below what is there already, in any order. */
    method AppendEntries(head: string, ghost above: seq<string>) returns (content: string, ghost order: seq<string>)
      requires head == Unlines(above)
      ensures Lists(ipToDNSName, order) && content == Unlines(above + EntryLines(ipToDNSName, order))
    {
      content, order := head, [];
      var todo := ipToDNSName.Keys;
      assert above + EntryLines(ipToDNSName, order) == above;
      while todo != {}
        invariant todo <= ipToDNSName.Keys
        invariant forall ip :: ip in order <==> ip in ipToDNSName && ip !in todo
        invariant forall i, j :: 0 <= i < j < |order| ==> order[i] != order[j]
        invariant content == Unlines(above + EntryLines(ipToDNSName, order))
        decreases |todo|
      {
        var ip :| ip in todo;
        todo := todo - {ip};
        EntryLinesAppend(above, ipToDNSName, order, ip);
        content := content + EntryLine(ip, ipToDNSName[ip]) + "\n";
        order := order + [ip];
      }
    }

    /**
     * An error in reading leaves the file alone; one in writing comes after the file was truncated, and may leave
     * anything.
     */
    method UpdateHostsFile() returns (ok: bool, ghost order: seq<string>)
      modifies `hosts
      ensures ok ==> Lists(ipToDNSName, order) && hosts == Rewrite(MARKS, old(hosts), EntryLines(ipToDNSName, order))
    {
      if * { return false, []; }
      var content := PreserveLines();
      ghost var kept := Look(MARKS, Carried, Split(hosts));
      UnlinesAppend(kept, MARKS.separator);
      content, order := AppendEntries(content + MARKS.separator + "\n", kept + [MARKS.separator]);
      if * {
        hosts := *;
        return false, order;
      }
      hosts := content;
      ok := true;
    }

    /** The member list gives a map that is not this one. */
    ghost predicate GivesAnother(ms: Members, names: map<string, string>)
    {
      Nameable(max, ms, cliqueID) && MappingOf(ms, cliqueID) != names
    }

    /** None of the first n lists does. */
    ghost predicate NoneGivesAnother(updates: seq<Members>, n: nat, names: map<string, string>)
      requires n <= |updates|
    {
      forall i :: 0 <= i < n ==> !GivesAnother(updates[i], names)
    }

    /** One turn of the daemon's update loop: a list that changes the map makes the file show it, whatever it held. */
    method HandleUpdate(daemons: Members) returns (ok: bool)
      requires OneLineAddresses(daemons)
      modifies `ipToDNSName, `hosts
      ensures ok ==> Nameable(max, daemons, cliqueID) && ipToDNSName == MappingOf(daemons, cliqueID)
      ensures if GivesAnother(daemons, old(ipToDNSName)) then ok ==> Shows(ipToDNSName, hosts)
              else ipToDNSName == old(ipToDNSName) && hosts == old(hosts)
    {
      ghost var before := hosts;
      var updated; ghost var order;
      updated, order := UpdateDNSNameMappings(daemons);
      if updated.Err? { return false; }
      if updated.value { UpdatedFileShowsTheMap(before, daemons, cliqueID, order); }
      // Starting the child may fail, which ends the loop.
      ok := *;
    }

    /**
     * The daemon's update loop, which ends with the first error. Whatever the file holds at first, the first list that
     * changes the map makes the file show it, and from then on it shows the map of the last list received.
     */
    method UpdateLoop(updates: seq<Members>) returns (ok: bool)
      requires forall i :: 0 <= i < |updates| ==> OneLineAddresses(updates[i])
      modifies `ipToDNSName, `hosts
      ensures ok && updates != [] ==>
        Nameable(max, updates[|updates| - 1], cliqueID) && ipToDNSName == MappingOf(updates[|updates| - 1], cliqueID)
      ensures if NoneGivesAnother(updates, |updates|, old(ipToDNSName))
              then ipToDNSName == old(ipToDNSName) && hosts == old(hosts)
              else ok ==> Shows(ipToDNSName, hosts)
      ensures ok && old(Shows(ipToDNSName, hosts)) ==> Shows(ipToDNSName, hosts)
    {
      ghost var names := ipToDNSName;
      for n := 0 to |updates|
        invariant n > 0 ==>
            Nameable(max, updates[n - 1], cliqueID) && ipToDNSName == MappingOf(updates[n - 1], cliqueID)
        invariant if NoneGivesAnother(updates, n, names) then ipToDNSName == names && hosts == old(hosts)
                  else Shows(ipToDNSName, hosts)
      {
        var handled := HandleUpdate(updates[n]);
        if !handled { return false; }
      }
      ok := true;
    }

    /** All possible names, one per line, in order; after an error the file may hold anything. */
    method WriteNodesConfig() returns (ok: bool)
      modifies `nodes
      ensures ok ==> Split(nodes) == NodesConfig(max) + [""]
    {
      if * { return false; }
      nodes := "";
      for i := 0 to max
        invariant nodes == Unlines(NodesConfig(i))
      {
        if * {
          nodes := *;
          return false;
        }
        UnlinesAppend(NodesConfig(i), NameOf(i));
        nodes := nodes + NameOf(i) + "\n";
      }
      NodesConfigSplits(max);
      ok := true;
    }
  }

  lemma EntryLinesAppend(above: seq<string>, names: map<string, string>, order: seq<string>, ip: string)
    requires ip in names && forall q :: q in order ==> q in names
    ensures Unlines(above + EntryLines(names, order + [ip]))
         == Unlines(above + EntryLines(names, order)) + EntryLine(ip, names[ip]) + "\n"
  {
    assert EntryLines(names, order + [ip]) == EntryLines(names, order) + [EntryLine(ip, names[ip])];
    assert above + EntryLines(names, order + [ip]) == above + EntryLines(names, order) + [EntryLine(ip, names[ip])];
    UnlinesAppend(above + EntryLines(names, order), EntryLine(ip, names[ip]));
  }

  /** A file that mentions no daemon name shows the empty map, with which the daemon begins. */
  lemma CleanFileShowsNothing(hosts: string)
    requires Look(MARKS, Mappings, Split(hosts)) == []
    ensures Shows(map[], hosts)
  {
    assert Lists(map[], []) && EntryLines(map[], []) == [];
  }

  lemma NodesConfigSplits(max: nat)
    ensures Split(Unlines(NodesConfig(max))) == NodesConfig(max) + [""]
  {
    forall i | 0 <= i < max ensures OneLine(NodesConfig(max)[i]) { NameIsClean(i); }
    SplitUndoesUnlines(NodesConfig(max));
  }

  lemma UnlinesAppend(ls: seq<string>, l: string)
    ensures Unlines(ls + [l]) == Unlines(ls) + l + "\n"
  {
  }

  lemma MappingStep(max: nat, ms: Members, n: nat, clique: string)
    requires n < |ms| && ms[n].clique == clique && Nameable(max, ms[..n], clique)
    ensures Nameable(max, ms[..n + 1], clique) <==> 0 <= ms[n].index < max
    ensures 0 <= ms[n].index < max ==>
        MappingOf(ms[..n + 1], clique) == MappingOf(ms[..n], clique)[ms[n].ip := NameOf(ms[n].index)]
  {
    var next := ms[..n + 1];
    assert next[..|next| - 1] == ms[..n] && next[|next| - 1] == ms[n];
    assert forall m :: m in next <==> m in ms[..n] || m == ms[n];
  }

  lemma FilterKeepsNameable(max: nat, ms: Members, clique: string)
    ensures Nameable(max, Filter(ms, OfClique(clique)), clique) <==> Nameable(max, ms, clique)
  {
  }

  lemma MappingSnoc(ms: Members, last: Member, clique: string)
    requires (forall m :: m in ms && m.clique == clique ==> m.index >= 0) && last.clique == clique && last.index >= 0
    ensures MappingOf(ms + [last], clique) == MappingOf(ms, clique)[last.ip := NameOf(last.index)]
  {
    assert (ms + [last])[..|ms|] == ms;
  }

  lemma {:induction false} FilterKeepsMapping(max: nat, ms: Members, clique: string)
    requires Nameable(max, ms, clique) && Nameable(max, Filter(ms, OfClique(clique)), clique)
    ensures MappingOf(Filter(ms, OfClique(clique)), clique) == MappingOf(ms, clique)
  {
    if ms != [] {
      var rest, last := ms[..|ms| - 1], ms[|ms| - 1];
      FilterKeepsNameable(max, rest, clique);
      FilterKeepsMapping(max, rest, clique);
      var kept, all := Filter(rest, OfClique(clique)), Filter(ms, OfClique(clique));
      if last.clique == clique {
        assert all == kept + [last];
        MappingSnoc(kept, last, clique);
      } else {
        assert all == kept;
      }
    }
  }

  /** What a rewrite makes of a mapping of this clique is recognised by the next one. */
  lemma MappingLinesAreEntries(ms: Members, clique: string, order: seq<string>)
    requires forall m :: m in ms && m.clique == clique ==> m.index >= 0 && OneLine(m.ip)
    requires Lists(MappingOf(ms, clique), order)
    ensures AreEntries(MARKS, EntryLines(MappingOf(ms, clique), order))
  {
    var names := MappingOf(ms, clique);
    forall i | 0 <= i < |order| ensures AreEntries(MARKS, [EntryLine(order[i], names[order[i]])]) {
      assert order[i] in order;
      var m := EntryHasMember(ms, clique, order[i]);
      DaemonEntryIsMapping(order[i], m.index);
    }
    forall i | 0 <= i < |order|
      ensures var l := EntryLine(order[i], names[order[i]]);
              OneLine(l) && IsMapping(MARKS, l) && IsMapping(MARKS, TrimSpace(l))
    {
      assert [EntryLine(order[i], names[order[i]])][0] == EntryLine(order[i], names[order[i]]);
    }
  }

  /** The whole file after an update: what remains, the separator, the entries, and the end of the last line. */
  lemma UpdatedFileIs(hosts: string, ms: Members, clique: string, order: seq<string>) returns (lines: seq<string>)
    requires forall m :: m in ms && m.clique == clique ==> m.index >= 0 && OneLine(m.ip)
    requires Lists(MappingOf(ms, clique), order)
    ensures AreLines(lines, MappingOf(ms, clique), order)
    ensures Split(Rewrite(MARKS, hosts, EntryLines(MappingOf(ms, clique), order)))
         == Remaining(Split(hosts)) + [MARKS.separator] + lines + [""]
  {
    lines := EntryLines(MappingOf(ms, clique), order);
    MarksAreSane();
    MappingLinesAreEntries(ms, clique, order);
    ViewsShow(Split(hosts));
    RewrittenLines(MARKS, hosts, lines);
  }

  /**
   * After an update of the file its mapping lines are the entries of the new map, and everybody else's lines are as
   * before.
   */
  lemma UpdatedFileShowsTheMap(hosts: string, ms: Members, clique: string, order: seq<string>)
    requires forall m :: m in ms && m.clique == clique ==> m.index >= 0 && OneLine(m.ip)
    requires Lists(MappingOf(ms, clique), order)
    ensures var after := Split(Rewrite(MARKS, hosts, EntryLines(MappingOf(ms, clique), order)));
            && Look(MARKS, Mappings, after) == EntryLines(MappingOf(ms, clique), order)
            && Look(MARKS, Foreign, after) == Look(MARKS, Foreign, Split(hosts))
    ensures var after := Split(Rewrite(MARKS, hosts, EntryLines(MappingOf(ms, clique), order)));
            Theirs(after) == Theirs(Split(hosts)) && AreLines(Mentioning(after), MappingOf(ms, clique), order)
  {
    ViewsShow(Split(hosts));
    ViewsShow(Split(Rewrite(MARKS, hosts, EntryLines(MappingOf(ms, clique), order))));
    MarksAreSane();
    MappingLinesAreEntries(ms, clique, order);
    RewriteShows(MARKS, hosts, EntryLines(MappingOf(ms, clique), order));
    RewriteKeepsForeign(MARKS, hosts, EntryLines(MappingOf(ms, clique), order));
  }
}

/** Which opaque config applies to which allocation result: the loops of both plugins and what they amount to. */
module ConfigResolution {
  import opened Text
  import opened ResourceApi

  datatype PluginKind = GpuPlugin | ComputeDomainPlugin

  datatype OpaqueDeviceConfig = OpaqueDeviceConfig(requests: seq<string>, kind: ConfigKind)

  /**
   * A config type that a plugin knows is refused for devices of another type; types it does not know are not checked
   * here.
   */
  predicate Suits(plugin: PluginKind, c: ConfigKind, d: DeviceKind)
  {
    match (plugin, c)
    case (GpuPlugin, GpuConfig) => d == GpuDevice
    case (GpuPlugin, MigDeviceConfig) => d == MigDevice
    case (GpuPlugin, VfioDeviceConfig) => d == VfioDevice
    case (ComputeDomainPlugin, ChannelConfig) => d == ChannelDevice
    case (ComputeDomainPlugin, DaemonConfig) => d == DaemonDevice
    case _ => true
  }

  // ------------------------------------------------------- ranking the configs

  /** Position i of the allocation's config list outranks position j. */
  predicate Outranks(configs: seq<AllocConfig>, i: nat, j: nat)
    requires i < |configs| && j < |configs|
  {
    if configs[i].source == configs[j].source then i > j else configs[i].source.FromClaim?
  }

  ghost predicate Lists(positions: seq<nat>, i: nat)
  {
    exists k :: 0 <= k < |positions| && positions[k] == i
  }

  lemma ListsAppend(positions: seq<nat>, n: nat)
    ensures forall i :: Lists(positions, i) ==> Lists(positions + [n], i)
    ensures Lists(positions + [n], n)
  {
    var longer := positions + [n];
    assert longer[|positions|] == n;
    forall i | Lists(positions, i) ensures Lists(longer, i) {
      var k :| 0 <= k < |positions| && positions[k] == i;
      assert longer[k] == i;
    }
  }

  predicate IsFor(driver: string, c: AllocConfig)
  {
    c.params.Some? && c.params.value.driver == driver
  }

  /**
   * The config list is unusable: an unknown source, non-opaque parameters, or parameters for this driver that do not
   * decode.
   */
  ghost predicate Unusable(driver: string, configs: seq<AllocConfig>)
  {
    exists i :: 0 <= i < |configs| &&
      (configs[i].source.UnknownSource? || configs[i].params.None?
        || (IsFor(driver, configs[i]) && configs[i].params.value.decoded.None?))
  }

  /** `ranked` lists this driver's configs from lowest to highest rank; `origin` says where each came from. */
  ghost predicate RankedFrom(driver: string, configs: seq<AllocConfig>, ranked: seq<OpaqueDeviceConfig>,
                             origin: seq<nat>)
  {
    && |origin| == |ranked|
    && (forall k :: 0 <= k < |origin| ==> Origin(driver, configs, ranked[k], origin[k]))
    && (forall k, l :: 0 <= k < l < |origin| && origin[k] < |configs| && origin[l] < |configs| ==>
      Outranks(configs, origin[l], origin[k]))
    && (forall i :: 0 <= i < |configs| && IsFor(driver, configs[i]) ==> Lists(origin, i))
  }

  ghost predicate Origin(driver: string, configs: seq<AllocConfig>, c: OpaqueDeviceConfig, i: nat)
  {
    i < |configs| && IsFor(driver, configs[i]) && configs[i].params.value.decoded == Some(c.kind)
      && configs[i].requests == c.requests
  }

  /** Class configs first, then claim configs, each in the order given; `at` are their positions. */
  ghost predicate Reordered(configs: seq<AllocConfig>, found: seq<AllocConfig>, at: seq<nat>)
  {
    && |at| == |found|
    && (forall k :: 0 <= k < |at| ==> at[k] < |configs| && configs[at[k]] == found[k])
    && (forall k, l :: 0 <= k < l < |at| && at[k] < |configs| && at[l] < |configs| ==> Outranks(configs, at[l], at[k]))
    && (forall i :: 0 <= i < |configs| ==> Lists(at, i))
  }

  method CandidateConfigs(possibleConfigs: seq<AllocConfig>) returns (r: Result<seq<AllocConfig>>, ghost at: seq<nat>)
    ensures r.Err? <==> exists i :: 0 <= i < |possibleConfigs| && possibleConfigs[i].source.UnknownSource?
    ensures r.Ok? ==> Reordered(possibleConfigs, r.value, at)
  {
    var classConfigs: seq<AllocConfig>, claimConfigs: seq<AllocConfig> := [], [];
    ghost var classAt: seq<nat>, claimAt: seq<nat> := [], [];
    at := [];
    for n := 0 to |possibleConfigs|
      invariant Positions(possibleConfigs, n, FromClass, classConfigs, classAt)
      invariant Positions(possibleConfigs, n, FromClaim, claimConfigs, claimAt)
      invariant forall i :: 0 <= i < n ==> !possibleConfigs[i].source.UnknownSource?
    {
      NextPosition(possibleConfigs, n, FromClass, classConfigs, classAt);
      NextPosition(possibleConfigs, n, FromClaim, claimConfigs, claimAt);
      match possibleConfigs[n].source
      case FromClass => classConfigs, classAt := classConfigs + [possibleConfigs[n]], classAt + [n];
      case FromClaim => claimConfigs, claimAt := claimConfigs + [possibleConfigs[n]], claimAt + [n];
      case UnknownSource => return Err("invalid config source"), [];
    }
    AllPositions(possibleConfigs, classConfigs, classAt, claimConfigs, claimAt);
    return Ok(classConfigs + claimConfigs), classAt + claimAt;
  }

  ghost predicate Undecodable(driver: string, c: AllocConfig)
  {
    c.params.None? || (IsFor(driver, c) && c.params.value.decoded.None?)
  }

  /** Positions of the candidates for this driver among the first n. */
  ghost predicate Kept(driver: string, candidates: seq<AllocConfig>, n: nat, kept: seq<OpaqueDeviceConfig>,
                       from: seq<nat>)
    requires n <= |candidates|
  {
    && |from| == |kept|
    && (forall k :: 0 <= k < |from| ==> from[k] < n && Origin(driver, candidates, kept[k], from[k]))
    && (forall k, l :: 0 <= k < l < |from| ==> from[k] < from[l])
    && (forall m :: 0 <= m < n && IsFor(driver, candidates[m]) ==> Lists(from, m))
  }

  lemma NextKept(driver: string, candidates: seq<AllocConfig>, n: nat, kept: seq<OpaqueDeviceConfig>, from: seq<nat>)
    requires n < |candidates| && Kept(driver, candidates, n, kept, from)
    ensures !IsFor(driver, candidates[n]) ==> Kept(driver, candidates, n + 1, kept, from)
    ensures IsFor(driver, candidates[n]) && candidates[n].params.value.decoded.Some? ==>
              var next := OpaqueDeviceConfig(candidates[n].requests, candidates[n].params.value.decoded.value);
              Kept(driver, candidates, n + 1, kept + [next], from + [n])
  {
    ListsAppend(from, n);
  }

  method DecodeConfigs(driver: string, candidates: seq<AllocConfig>)
    returns (r: Result<seq<OpaqueDeviceConfig>>, ghost from: seq<nat>)
    ensures r.Err? <==> exists i :: 0 <= i < |candidates| && Undecodable(driver, candidates[i])
    ensures r.Ok? ==> Kept(driver, candidates, |candidates|, r.value, from)
  {
    var resultConfigs: seq<OpaqueDeviceConfig> := [];
    from := [];
    for n := 0 to |candidates|
      invariant Kept(driver, candidates, n, resultConfigs, from)
      invariant forall m :: 0 <= m < n ==> !Undecodable(driver, candidates[m])
    {
      NextKept(driver, candidates, n, resultConfigs, from);
      if candidates[n].params.None? {
        return Err("only opaque parameters are supported by this driver"), [];
      }
      if candidates[n].params.value.driver == driver {
        if candidates[n].params.value.decoded.None? {
          return Err("error decoding config parameters"), [];
        }
        resultConfigs := resultConfigs
          + [OpaqueDeviceConfig(candidates[n].requests, candidates[n].params.value.decoded.value)];
        from := from + [n];
      }
    }
    r := Ok(resultConfigs);
  }

  method GetOpaqueDeviceConfigs(driver: string, possibleConfigs: seq<AllocConfig>)
    returns (r: Result<seq<OpaqueDeviceConfig>>, ghost origin: seq<nat>)
    ensures r.Err? <==> Unusable(driver, possibleConfigs)
    ensures r.Ok? ==> RankedFrom(driver, possibleConfigs, r.value, origin)
  {
    origin := [];
    var candidates, at := CandidateConfigs(possibleConfigs);
    if candidates.Err? {
      return Err(candidates.message), [];
    }
    ghost var from;
    r, from := DecodeConfigs(driver, candidates.value);
    ReorderingKeepsUnusable(driver, possibleConfigs, candidates.value, at);
    if r.Ok? {
      origin := seq(|from|, k requires 0 <= k < |from| && from[k] < |at| => at[from[k]]);
      KeptIsRanked(driver, possibleConfigs, candidates.value, at, r.value, from, origin);
    }
  }

  lemma ReorderingKeepsUnusable(driver: string, configs: seq<AllocConfig>, candidates: seq<AllocConfig>, at: seq<nat>)
    requires Reordered(configs, candidates, at) && forall i :: 0 <= i < |configs| ==> !configs[i].source.UnknownSource?
    ensures Unusable(driver, configs) <==> exists k :: 0 <= k < |candidates| && Undecodable(driver, candidates[k])
  {
    if i :| 0 <= i < |configs| && Undecodable(driver, configs[i]) {
      assert Lists(at, i);
      var k :| 0 <= k < |at| && at[k] == i;
      assert Undecodable(driver, candidates[k]);
    }
    if k :| 0 <= k < |candidates| && Undecodable(driver, candidates[k]) {
      assert Undecodable(driver, configs[at[k]]);
    }
  }

  lemma KeptIsRanked(driver: string, configs: seq<AllocConfig>, candidates: seq<AllocConfig>, at: seq<nat>,
                     kept: seq<OpaqueDeviceConfig>, from: seq<nat>, origin: seq<nat>)
    requires Reordered(configs, candidates, at) && Kept(driver, candidates, |candidates|, kept, from)
    requires |origin| == |from| && forall k :: 0 <= k < |from| ==> origin[k] == at[from[k]]
    ensures RankedFrom(driver, configs, kept, origin)
  {
    forall k | 0 <= k < |origin| ensures Origin(driver, configs, kept[k], origin[k]) {
      assert Origin(driver, candidates, kept[k], from[k]);
    }
    forall i | 0 <= i < |configs| && IsFor(driver, configs[i]) ensures Lists(origin, i) {
      assert Lists(at, i);
      var m :| 0 <= m < |at| && at[m] == i;
      assert Lists(from, m);
      var k :| 0 <= k < |from| && from[k] == m;
      assert origin[k] == i;
    }
  }

  /** `at` lists, in order, the positions below n of the configs from one source, and `found` the configs there. */
  ghost predicate Positions(configs: seq<AllocConfig>, n: nat, source: ConfigSource, found: seq<AllocConfig>,
                            at: seq<nat>)
    requires n <= |configs|
  {
    && |found| == |at|
    && (forall k :: 0 <= k < |at| ==> at[k] < n && configs[at[k]] == found[k] && found[k].source == source)
    && (forall k, l :: 0 <= k < l < |at| ==> at[k] < at[l])
    && (forall i :: 0 <= i < n && configs[i].source == source ==> Lists(at, i))
  }

  lemma NextPosition(configs: seq<AllocConfig>, n: nat, source: ConfigSource, found: seq<AllocConfig>, at: seq<nat>)
    requires n < |configs| && Positions(configs, n, source, found, at)
    ensures if configs[n].source == source then Positions(configs, n + 1, source, found + [configs[n]], at + [n])
            else Positions(configs, n + 1, source, found, at)
  {
    ListsAppend(at, n);
  }

  lemma AllPositions(configs: seq<AllocConfig>, classes: seq<AllocConfig>, classAt: seq<nat>, claims: seq<AllocConfig>,
                     claimAt: seq<nat>)
    requires Positions(configs, |configs|, FromClass, classes, classAt)
    requires Positions(configs, |configs|, FromClaim, claims, claimAt)
    requires forall i :: 0 <= i < |configs| ==> !configs[i].source.UnknownSource?
    ensures Reordered(configs, classes + claims, classAt + claimAt)
  {
    var at := classAt + claimAt;
    forall i | 0 <= i < |configs| ensures Lists(at, i) {
      if configs[i].source.FromClass? {
        assert Lists(classAt, i);
        var k :| 0 <= k < |classAt| && classAt[k] == i;
        assert at[k] == i;
      } else {
        assert Lists(claimAt, i);
        var k :| 0 <= k < |claimAt| && claimAt[k] == i;
        assert at[|classAt| + k] == i;
      }
    }
  }

  // ---------------------------------------------------- picking one per result

  /**
   * Config c comes into question for a request of a device of kind d: it names the request, or names none and has the
   * right type.
   */
  predicate Applies(plugin: PluginKind, c: OpaqueDeviceConfig, request: string, d: DeviceKind)
  {
    request in c.requests || (c.requests == [] && Suits(plugin, c.kind, d))
  }

  /** The last config that applies, or -1. */
  function Winner(plugin: PluginKind, configs: seq<OpaqueDeviceConfig>, request: string, d: DeviceKind): (w: int)
    ensures -1 <= w < |configs|
    ensures w >= 0 ==> Applies(plugin, configs[w], request, d)
    ensures forall k :: w < k < |configs| ==> !Applies(plugin, configs[k], request, d)
  {
    if configs == [] then -1
    else if Applies(plugin, configs[|configs| - 1], request, d) then |configs| - 1
    else Winner(plugin, configs[..|configs| - 1], request, d)
  }

  /** Identity of a config object: where it stands in the list. */
  datatype ConfigRef = NoConfig | ConfigRef(index: nat)

  datatype Ctx = Ctx(plugin: PluginKind, driver: string, kinds: map<string, DeviceKind>,
      configs: seq<OpaqueDeviceConfig>)

  function WinnerOf(x: Ctx, r: AllocResult): (w: ConfigRef)
    ensures w.ConfigRef? ==> w.index < |x.configs|
  {
    if r.device !in x.kinds then NoConfig
    else
      var w := Winner(x.plugin, x.configs, r.request, x.kinds[r.device]);
      if w < 0 then NoConfig else ConfigRef(w)
  }

  /** The result cannot be served: unknown device, or the winning config names the request but has the wrong type. */
  predicate Refused(x: Ctx, r: AllocResult)
  {
    r.driver == x.driver &&
    (r.device !in x.kinds || (WinnerOf(x, r).ConfigRef?
      && !Suits(x.plugin, x.configs[WinnerOf(x, r).index].kind, x.kinds[r.device])))
  }

  /** This driver's results whose winner is in `ws`, in order. */
  function Served(x: Ctx, results: seq<AllocResult>, ws: set<ConfigRef>): seq<AllocResult>
  {
    if results == [] then []
    else
      var last := results[|results| - 1];
      Served(x, results[..|results| - 1], ws) + if last.driver == x.driver && WinnerOf(x, last) in ws then [last]
        else []
  }

  type Groups = map<ConfigRef, seq<AllocResult>>

  /** Each group holds exactly the results its config won, in order, and there is no empty group. */
  ghost predicate GroupedByWinner(x: Ctx, results: seq<AllocResult>, groups: Groups)
  {
    forall w :: (if w in groups then groups[w] else []) == (if w.ConfigRef? then Served(x, results, {w}) else [])
      && (w in groups ==> groups[w] != [])
  }

  method PickConfig(x: Ctx, r: AllocResult) returns (res: Result<ConfigRef>)
    requires r.driver == x.driver && r.device in x.kinds
    ensures res.Err? <==> Refused(x, r)
    ensures res.Ok? ==> res.value == WinnerOf(x, r)
  {
    var d := x.kinds[r.device];
    var k := |x.configs|;
    while k > 0
      invariant 0 <= k <= |x.configs|
      invariant forall j :: k <= j < |x.configs| ==> !Applies(x.plugin, x.configs[j], r.request, d)
    {
      k := k - 1;
      var c := x.configs[k];
      if r.request in c.requests {
        WinnerIsTheLast(x, r, k);
        if !Suits(x.plugin, c.kind, d) { return Err("cannot apply config to device"); }
        return Ok(ConfigRef(k));
      }
      if |c.requests| == 0 && Suits(x.plugin, c.kind, d) {
        WinnerIsTheLast(x, r, k);
        return Ok(ConfigRef(k));
      }
    }
    return Ok(NoConfig);
  }

  lemma WinnerIsTheLast(x: Ctx, r: AllocResult, k: nat)
    requires r.device in x.kinds && k < |x.configs| && Applies(x.plugin, x.configs[k], r.request, x.kinds[r.device])
    requires forall j :: k < j < |x.configs| ==> !Applies(x.plugin, x.configs[j], r.request, x.kinds[r.device])
    ensures WinnerOf(x, r) == ConfigRef(k)
  {
  }

  /** The groups after one more result. */
  function Grouped(x: Ctx, groups: Groups, r: AllocResult): Groups
  {
    var w := WinnerOf(x, r);
    if r.driver != x.driver || w.NoConfig? then groups
    else groups[w := (if w in groups then groups[w] else []) + [r]]
  }

  lemma NextGrouped(x: Ctx, results: seq<AllocResult>, n: nat, groups: Groups)
    requires n < |results| && GroupedByWinner(x, results[..n], groups)
    ensures GroupedByWinner(x, results[..n + 1], Grouped(x, groups, results[n]))
  {
    assert results[..n + 1][..n] == results[..n] && results[..n + 1][n] == results[n];
  }

  method GetConfigResultsMap(x: Ctx, results: seq<AllocResult>) returns (r: Result<Groups>)
    ensures r.Err? <==> exists i :: 0 <= i < |results| && Refused(x, results[i])
    ensures r.Ok? ==> GroupedByWinner(x, results, r.value)
  {
    var groups: Groups := map[];
    for n := 0 to |results|
      invariant GroupedByWinner(x, results[..n], groups)
      invariant forall i :: 0 <= i < n ==> !Refused(x, results[i])
    {
      var result := results[n];
      NextGrouped(x, results, n, groups);
      if result.driver == x.driver {
        if result.device !in x.kinds {
          assert Refused(x, results[n]);
          return Err("device is not allocatable");
        }
        var c := PickConfig(x, result);
        if c.Err? {
          assert Refused(x, results[n]);
          return Err(c.message);
        }
        if c.value.ConfigRef? {
          groups := groups[c.value := (if c.value in groups then groups[c.value] else []) + [result]];
        }
      }
    }
    assert results[..|results|] == results;
    r := Ok(groups);
  }

  // ------------------------------------------------------------- main results

  /** Defaults go in front: they have the lowest rank and name no request. */
  function Defaults(plugin: PluginKind, passthrough: bool): seq<OpaqueDeviceConfig>
  {
    match plugin
    case GpuPlugin =>
      (if passthrough then [OpaqueDeviceConfig([], VfioDeviceConfig)] else [])
      + [OpaqueDeviceConfig([], MigDeviceConfig), OpaqueDeviceConfig([], GpuConfig)]
    case ComputeDomainPlugin => [OpaqueDeviceConfig([], DaemonConfig), OpaqueDeviceConfig([], ChannelConfig)]
  }

  /**
   * Declaratively: position i of the allocation's list applies to the result and no applicable position outranks it.
   */
  ghost predicate Highest(x: Ctx, configs: seq<AllocConfig>, r: AllocResult, i: nat)
    requires r.device in x.kinds
  {
    AppliesAt(x, configs, r, i) && forall j :: AppliesAt(x, configs, r, j) && j != i ==> Outranks(configs, i, j)
  }

  ghost predicate AppliesAt(x: Ctx, configs: seq<AllocConfig>, r: AllocResult, i: nat)
    requires r.device in x.kinds
  {
    && i < |configs| && IsFor(x.driver, configs[i]) && configs[i].params.value.decoded.Some?
    && Applies(x.plugin, OpaqueDeviceConfig(configs[i].requests, configs[i].params.value.decoded.value), r.request,
      x.kinds[r.device])
  }

  /**
   * The winner is the declared one: when some config of the allocation applies, the winner is the one of highest rank
   * (claim over class, later over earlier); when none does, it is a default.
   */
  lemma WinnerIsTheHighestRanked(x: Ctx, configs: seq<AllocConfig>, defaults: seq<OpaqueDeviceConfig>,
                                 ranked: seq<OpaqueDeviceConfig>, origin: seq<nat>, r: AllocResult)
    requires x.configs == defaults + ranked && RankedFrom(x.driver, configs, ranked, origin) && r.device in x.kinds
    requires !Unusable(x.driver, configs)
    ensures var w := WinnerOf(x, r);
            if w.ConfigRef? && w.index >= |defaults| then Highest(x, configs, r, origin[w.index - |defaults|])
            else forall i :: !AppliesAt(x, configs, r, i)
    ensures var w := WinnerOf(x, r);
            w.ConfigRef? && w.index >= |defaults| ==>
              var i := origin[w.index - |defaults|];
              forall j: nat :: j < |configs| && j != i && AppliesAt(x, configs, r, j) ==>
                if configs[j].source.FromClaim? then configs[i].source.FromClaim? && j < i
                else configs[i].source.FromClaim? || j < i
  {
    var w := if WinnerOf(x, r).ConfigRef? then WinnerOf(x, r).index else -1;
    if w >= |defaults| {
      var i := origin[w - |defaults|];
      assert Origin(x.driver, configs, ranked[w - |defaults|], i);
      assert x.configs[w] == ranked[w - |defaults|];
    }
    forall j | AppliesAt(x, configs, r, j)
      ensures w >= |defaults| && (j != origin[w - |defaults|] ==> Outranks(configs, origin[w - |defaults|], j))
    {
      assert Lists(origin, j);
      var k :| 0 <= k < |origin| && origin[k] == j;
      assert Origin(x.driver, configs, ranked[k], j);
      assert x.configs[|defaults| + k] == ranked[k];
      assert Applies(x.plugin, x.configs[|defaults| + k], r.request, x.kinds[r.device]);
    }
    assert forall j :: 0 <= j < |configs| ==> !configs[j].source.UnknownSource?;
  }

  /** The config types of a plugin that are refused for a device; every other config may be named for any request. */
  ghost predicate WrongType(plugin: PluginKind, c: ConfigKind, d: DeviceKind)
  {
    if plugin.GpuPlugin? then
      || (c.GpuConfig? && !d.GpuDevice?) || (c.MigDeviceConfig? && !d.MigDevice?)
      || (c.VfioDeviceConfig? && !d.VfioDevice?)
    else (c.ChannelConfig? && !d.ChannelDevice?) || (c.DaemonConfig? && !d.DaemonDevice?)
  }

  /** No config behind position k has anything to say about the request. */
  ghost predicate NothingBehind(x: Ctx, r: AllocResult, k: nat)
  {
    forall j :: k < j < |x.configs| ==> x.configs[j].requests != [] && r.request !in x.configs[j].requests
  }

  /** A config that names the request wins, and has the result refused if it is of the wrong type. */
  lemma NamedConfigWins(x: Ctx, r: AllocResult, k: nat)
    requires r.driver == x.driver && r.device in x.kinds && k < |x.configs| && r.request in x.configs[k].requests
    requires NothingBehind(x, r, k)
    ensures WinnerOf(x, r) == ConfigRef(k)
    ensures Refused(x, r) <==> WrongType(x.plugin, x.configs[k].kind, x.kinds[r.device])
  {
    WinnerIsTheLast(x, r, k);
  }

  /** A config for all requests wins if it is of the right type, and is passed over if not. */
  lemma GeneralConfigWinsItsType(x: Ctx, r: AllocResult, k: nat)
    requires r.driver == x.driver && r.device in x.kinds && k < |x.configs| && x.configs[k].requests == []
    requires NothingBehind(x, r, k)
    ensures WinnerOf(x, r) == ConfigRef(k) <==> !WrongType(x.plugin, x.configs[k].kind, x.kinds[r.device])
  {
    if Applies(x.plugin, x.configs[k], r.request, x.kinds[r.device]) {
      WinnerIsTheLast(x, r, k);
    }
  }

  /** Position k is the only one of the allocation's list that says anything about the request to this driver. */
  ghost predicate OnlyVoice(driver: string, configs: seq<AllocConfig>, request: string, k: nat)
  {
    && k < |configs| && IsFor(driver, configs[k]) && request in configs[k].requests
    && configs[k].params.value.decoded.Some?
    && forall j :: 0 <= j < |configs| && j != k && IsFor(driver, configs[j]) ==>
      configs[j].requests != [] && request !in configs[j].requests
  }

  lemma OnlyVoiceDecides(x: Ctx, configs: seq<AllocConfig>, defaults: seq<OpaqueDeviceConfig>,
                         ranked: seq<OpaqueDeviceConfig>, origin: seq<nat>, r: AllocResult, k: nat)
    requires x.configs == defaults + ranked && RankedFrom(x.driver, configs, ranked, origin)
    requires r.driver == x.driver && r.device in x.kinds && OnlyVoice(x.driver, configs, r.request, k)
    ensures Refused(x, r) <==> WrongType(x.plugin, configs[k].params.value.decoded.value, x.kinds[r.device])
  {
    assert Lists(origin, k);
    var l :| 0 <= l < |origin| && origin[l] == k;
    assert Origin(x.driver, configs, ranked[l], k);
    assert x.configs[|defaults| + l] == ranked[l];
    forall j | |defaults| + l < j < |x.configs|
      ensures x.configs[j].requests != [] && r.request !in x.configs[j].requests
    {
      assert x.configs[j] == ranked[j - |defaults|];
      assert Origin(x.driver, configs, ranked[j - |defaults|], origin[j - |defaults|]);
      assert Outranks(configs, origin[j - |defaults|], origin[l]);
    }
    NamedConfigWins(x, r, |defaults| + l);
  }

  /** If the allocation says nothing about a request, its device gets the default of its own type. */
  lemma DefaultOfItsType(x: Ctx, passthrough: bool, ranked: seq<OpaqueDeviceConfig>, r: AllocResult)
    requires x.configs == Defaults(x.plugin, passthrough) + ranked && r.driver == x.driver && r.device in x.kinds
    requires forall j :: 0 <= j < |ranked| ==> ranked[j].requests != [] && r.request !in ranked[j].requests
    ensures !Refused(x, r)
    ensures var (w, d) := (WinnerOf(x, r), x.kinds[r.device]);
            && (x.plugin.GpuPlugin? && d.GpuDevice? ==> w.ConfigRef? && x.configs[w.index].kind.GpuConfig?)
            && (x.plugin.GpuPlugin? && d.MigDevice? ==> w.ConfigRef? && x.configs[w.index].kind.MigDeviceConfig?)
            && (x.plugin.GpuPlugin? && d.VfioDevice? ==>
                  if passthrough then w.ConfigRef? && x.configs[w.index].kind.VfioDeviceConfig? else w.NoConfig?)
            && (x.plugin.ComputeDomainPlugin? && d.ChannelDevice? ==>
                  w.ConfigRef? && x.configs[w.index].kind.ChannelConfig?)
            && (x.plugin.ComputeDomainPlugin? && d.DaemonDevice? ==>
                  w.ConfigRef? && x.configs[w.index].kind.DaemonConfig?)
  {
    var defaults := Defaults(x.plugin, passthrough);
    forall j | |defaults| <= j < |x.configs| ensures !Applies(x.plugin, x.configs[j], r.request, x.kinds[r.device]) {
      assert x.configs[j] == ranked[j - |defaults|];
    }
    forall j | 0 <= j < |defaults| ensures x.configs[j] == defaults[j] {}
    if HasDefault(x.plugin, x.kinds[r.device]) {
      DefaultsCoverAll(x, passthrough, ranked, r);
    } else if passthrough && x.plugin.GpuPlugin? && x.kinds[r.device].VfioDevice? {
      assert Applies(x.plugin, x.configs[0], r.request, x.kinds[r.device]);
    }
  }

  /** The devices served, each as often as some result of this driver asks for it. */
  function ServedDevices(x: Ctx, results: seq<AllocResult>, ws: set<ConfigRef>): multiset<string>
  {
    multiset(DevicesOf(Served(x, results, ws)))
  }

  lemma ServedStep(x: Ctx, results: seq<AllocResult>, ws: set<ConfigRef>)
    requires results != []
    ensures var last := results[|results| - 1];
            ServedDevices(x, results, ws) == ServedDevices(x, results[..|results| - 1], ws)
              + if last.driver == x.driver && WinnerOf(x, last) in ws then multiset{last.device} else multiset{}
  {
    var rest, last := results[..|results| - 1], results[|results| - 1];
    if last.driver == x.driver && WinnerOf(x, last) in ws {
      DevicesOfAppend(Served(x, rest, ws), last);
      assert DevicesOf(Served(x, results, ws)) == DevicesOf(Served(x, rest, ws)) + [last.device];
    } else {
      assert Served(x, results, ws) == Served(x, rest, ws);
    }
  }

  lemma {:induction false} ServedSplits(x: Ctx, results: seq<AllocResult>, ws: set<ConfigRef>, w: ConfigRef)
    requires w !in ws
    ensures ServedDevices(x, results, ws + {w}) == ServedDevices(x, results, ws) + ServedDevices(x, results, {w})
  {
    if results != [] {
      ServedSplits(x, results[..|results| - 1], ws, w);
      ServedStep(x, results, ws + {w});
      ServedStep(x, results, ws);
      ServedStep(x, results, {w});
    }
  }

  /**
   * The groups partition the served results: walking through them in any order meets each device as often as it was
   * served.
   */
  lemma NextGroup(x: Ctx, results: seq<AllocResult>, groups: Groups, todo: set<ConfigRef>, w: ConfigRef)
    requires GroupedByWinner(x, results, groups) && todo <= groups.Keys && w in todo
    ensures ServedDevices(x, results, groups.Keys - (todo - {w})) == ServedDevices(x, results, groups.Keys - todo)
        + multiset(DevicesOf(groups[w]))
  {
    ServedSplits(x, results, groups.Keys - todo, w);
    assert (groups.Keys - todo) + {w} == groups.Keys - (todo - {w});
    assert w in groups;
  }

  lemma {:induction false} ServedByNone(x: Ctx, results: seq<AllocResult>)
    ensures Served(x, results, {}) == []
  {
    if results != [] { ServedByNone(x, results[..|results| - 1]); }
  }

  /** Device types that a default config suits. */
  predicate HasDefault(plugin: PluginKind, d: DeviceKind)
  {
    match plugin
    case GpuPlugin => d.GpuDevice? || d.MigDevice?
    case ComputeDomainPlugin => d.ChannelDevice? || d.DaemonDevice?
  }

  lemma DefaultsCoverAll(x: Ctx, passthrough: bool, ranked: seq<OpaqueDeviceConfig>, r: AllocResult)
    requires x.configs == Defaults(x.plugin, passthrough) + ranked && r.device in x.kinds
    requires HasDefault(x.plugin, x.kinds[r.device])
    ensures WinnerOf(x, r).ConfigRef?
  {
    var defaults := Defaults(x.plugin, passthrough);
    var k := if x.plugin.GpuPlugin? && x.kinds[r.device].MigDevice? then |defaults| - 2
             else if x.plugin.ComputeDomainPlugin? && x.kinds[r.device].DaemonDevice? then 0
             else |defaults| - 1;
    assert x.configs[k] == defaults[k];
    assert Applies(x.plugin, x.configs[k], r.request, x.kinds[r.device]);
  }

  lemma {:induction false} WonGroupsExist(x: Ctx, results: seq<AllocResult>, i: nat)
    requires i < |results| && results[i].driver == x.driver
    ensures Served(x, results, {WinnerOf(x, results[i])}) != []
  {
    if i < |results| - 1 { WonGroupsExist(x, results[..|results| - 1], i); }
  }

  lemma {:induction false} AllWonAreServed(x: Ctx, results: seq<AllocResult>, ws: set<ConfigRef>)
    requires forall i :: 0 <= i < |results| && results[i].driver == x.driver ==> WinnerOf(x, results[i]) in ws
    ensures Served(x, results, ws) == OfDriver(x.driver, results)
  {
    if results != [] { AllWonAreServed(x, results[..|results| - 1], ws); }
  }

  /** With the defaults in front, every result of this driver is in some group: nothing is silently dropped. */
  lemma EveryResultIsServed(x: Ctx, passthrough: bool, ranked: seq<OpaqueDeviceConfig>, results: seq<AllocResult>,
                            groups: Groups)
    requires x.configs == Defaults(x.plugin, passthrough) + ranked && forall d :: d in x.kinds ==>
        HasDefault(x.plugin, x.kinds[d])
    requires GroupedByWinner(x, results, groups) && forall i :: 0 <= i < |results| ==> !Refused(x, results[i])
    ensures Served(x, results, groups.Keys) == OfDriver(x.driver, results)
  {
    forall i | 0 <= i < |results| && results[i].driver == x.driver ensures WinnerOf(x, results[i]) in groups.Keys {
      assert !Refused(x, results[i]);
      DefaultsCoverAll(x, passthrough, ranked, results[i]);
      WonGroupsExist(x, results, i);
    }
    AllWonAreServed(x, results, groups.Keys);
  }

  /** A result is in a group if and only if it is one of this driver's and the config of the group won it. */
  lemma GroupedExactly(x: Ctx, results: seq<AllocResult>, groups: Groups, r: AllocResult)
    requires GroupedByWinner(x, results, groups) && r in results && r.driver == x.driver
    ensures forall w :: w in groups ==> (r in groups[w] <==> WinnerOf(x, r) == w)
    ensures WinnerOf(x, r).ConfigRef? ==> WinnerOf(x, r) in groups
  {
    forall w | w in groups ensures r in groups[w] <==> WinnerOf(x, r) == w {
      ServedExactly(x, results, {w}, r);
    }
    var w := WinnerOf(x, r);
    if w.ConfigRef? {
      ServedExactly(x, results, {w}, r);
    }
  }

  lemma ServedAreOurs(x: Ctx, results: seq<AllocResult>, ws: set<ConfigRef>, r: AllocResult)
    requires r in Served(x, results, ws)
    ensures r in results && r.driver == x.driver && WinnerOf(x, r) in ws
  {
    ServedExactly(x, results, ws, r);
  }

  lemma {:induction false} ServedExactly(x: Ctx, results: seq<AllocResult>, ws: set<ConfigRef>, r: AllocResult)
    ensures r in Served(x, results, ws) <==> r in results && r.driver == x.driver && WinnerOf(x, r) in ws
  {
    if results != [] {
      var rest, last := results[..|results| - 1], results[|results| - 1];
      ServedExactly(x, rest, ws, r);
      assert results == rest + [last];
    }
  }
}

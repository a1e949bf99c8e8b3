/** The two ways to publish partitionable devices, and what every published consumption refers to. */
module ResourceSlices {
  import opened Text
  import opened MigNames
  import opened CounterSums
  import opened Partitions

  datatype Allocatable = Whole(gpu: Gpu) | Mig(parent: Gpu, partition: Partition)

  function Parent(a: Allocatable): Gpu { match a case Whole(g) => g case Mig(g, _) => g }

  function CanonicalName(a: Allocatable): string
  {
    match a
    case Whole(g) => GpuName(g.minor)
    case Mig(g, p) => ToCanonicalName(MigSpecTuple(g.minor, "", p.profileID, p.placement.start), p.profile)
  }

  datatype Device = Device(name: string, consumes: seq<CounterSet>)

  datatype Slice = Slice(counters: seq<CounterSet>, devices: seq<Device>)

  /** Devices by PCI bus ID of their GPU, then by name. */
  type PerGPU = map<string, map<string, Allocatable>>

  /** Sorted keys: each key once, in an order that depends on the keys alone. */
  ghost predicate Sorts(sorted: set<string> -> seq<string>)
  {
    forall keys :: SameElements(sorted(keys), keys)
  }

  ghost predicate SameElements(order: seq<string>, keys: set<string>)
  {
    && (forall k :: k in order <==> k in keys)
    && forall i, j :: 0 <= i < j < |order| ==> order[i] != order[j]
  }

  ghost function SetsOf(g: Gpu, name: Dimension -> string): seq<CounterSet>
    requires GoodNaming(name)
  {
    if g.maxCapacities == map[] then []
      else [CounterSet(GetSharedCounterSetName(g.minor), CountersOf(GpuShare(g, name)))]
  }

  ghost function Announced(a: Allocatable, name: Dimension -> string): Device
    requires GoodNaming(name)
  {
    match a
    case Whole(g) => Device(CanonicalName(a), SetsOf(g, name))
    case Mig(g, p) => Device(CanonicalName(a),
      [CounterSet(GetSharedCounterSetName(g.minor), CountersOf(PartitionShare(p, name)))])
  }

  method PartGetDevice(a: Allocatable, name: Dimension -> string) returns (d: Device)
    requires GoodNaming(name)
    ensures d == Announced(a, name)
  {
    match a
    case Whole(g) =>
      var consumes := PartSharedCounterSets(g, name);
      d := Device(CanonicalName(a), consumes);
    case Mig(g, p) =>
      var consumes := PartitionConsumesCounters(g, p, name);
      d := Device(CanonicalName(a), consumes);
  }

  ghost function AnnouncedIn(devices: map<string, Allocatable>, order: seq<string>,
                             name: Dimension -> string): seq<Device>
    requires GoodNaming(name)
  {
    if order == [] then []
    else
      var last := order[|order| - 1];
      AnnouncedIn(devices, order[..|order| - 1], name) + if last in devices then [Announced(devices[last], name)]
        else []
  }

  /** The counter sets of one GPU, taken from whichever of its devices comes first. */
  ghost function SetsIn(devices: map<string, Allocatable>, order: seq<string>,
                        name: Dimension -> string): seq<CounterSet>
    requires GoodNaming(name)
  {
    if order == [] || order[0] !in devices then [] else SetsOf(Parent(devices[order[0]]), name)
  }

  /** The devices of one GPU in order, and the GPU they belong to. */
  method DevicesOfGpu(devices: map<string, Allocatable>, order: seq<string>, name: Dimension -> string)
    returns (ds: seq<Device>, gpu: Option<Gpu>)
    requires GoodNaming(name) && SameElements(order, devices.Keys)
    ensures ds == AnnouncedIn(devices, order, name)
    ensures gpu == if order == [] then None else Some(Parent(devices[order[0]]))
  {
    ds, gpu := [], None;
    for n := 0 to |order|
      invariant ds == AnnouncedIn(devices, order[..n], name)
      invariant gpu == if n == 0 then None else Some(Parent(devices[order[0]]))
    {
      assert order[n] in order && order[..n + 1][..n] == order[..n];
      var a := devices[order[n]];
      if gpu.None? {
        match a
        case Whole(g) => gpu := Some(g);
        case Mig(parent, _) => gpu := Some(parent);
      }
      var d := PartGetDevice(a, name);
      ds := ds + [d];
    }
    assert order[..|order|] == order;
  }

  function AllDevices(slices: seq<Slice>): seq<Device> { FlatMap((s: Slice) => s.devices, slices) }

  function AllCounters(slices: seq<Slice>): seq<CounterSet> { FlatMap((s: Slice) => s.counters, slices) }

  /** What is published, however it is cut into slices: GPU by GPU, device by device. */
  ghost function DevicesIn(per: PerGPU, buses: seq<string>, sorted: set<string> -> seq<string>,
                           name: Dimension -> string): seq<Device>
    requires GoodNaming(name)
  {
    if buses == [] then []
    else
      var last := buses[|buses| - 1];
      DevicesIn(per, buses[..|buses| - 1], sorted, name) + if last in per
        then AnnouncedIn(per[last], sorted(per[last].Keys), name) else []
  }

  ghost function CountersIn(per: PerGPU, buses: seq<string>, sorted: set<string> -> seq<string>,
                            name: Dimension -> string): seq<CounterSet>
    requires GoodNaming(name)
  {
    if buses == [] then []
    else
      var last := buses[|buses| - 1];
      CountersIn(per, buses[..|buses| - 1], sorted, name) + if last in per
        then SetsIn(per[last], sorted(per[last].Keys), name) else []
  }

  lemma NextBus(per: PerGPU, buses: seq<string>, n: nat, sorted: set<string> -> seq<string>, name: Dimension -> string)
    requires GoodNaming(name) && n < |buses| && buses[n] in per
    ensures DevicesIn(per, buses[..n + 1], sorted, name) == DevicesIn(per, buses[..n], sorted, name)
        + AnnouncedIn(per[buses[n]], sorted(per[buses[n]].Keys), name)
    ensures CountersIn(per, buses[..n + 1], sorted, name) == CountersIn(per, buses[..n], sorted, name)
        + SetsIn(per[buses[n]], sorted(per[buses[n]].Keys), name)
  {
    var next := buses[..n + 1];
    assert next[..|next| - 1] == buses[..n] && next[|next| - 1] == buses[n];
  }

  lemma SliceAppended(slices: seq<Slice>, s: Slice)
    ensures AllDevices(slices + [s]) == AllDevices(slices) + s.devices
    ensures AllCounters(slices + [s]) == AllCounters(slices) + s.counters
  {
  }

  /** One slice with all counter sets, then one slice of devices per GPU. */
  method GenerateSplitResourceSlices(per: PerGPU, sorted: set<string> -> seq<string>, name: Dimension -> string)
    returns (slices: seq<Slice>)
    requires GoodNaming(name) && Sorts(sorted)
    ensures AllDevices(slices) == DevicesIn(per, sorted(per.Keys), sorted, name)
    ensures AllCounters(slices) == CountersIn(per, sorted(per.Keys), sorted, name)
    ensures |slices| == |sorted(per.Keys)| + 1 && slices[0].devices == [] && forall i :: 0 < i < |slices| ==>
        slices[i].counters == []
  {
    var buses := sorted(per.Keys);
    var gpuslices: seq<Slice> := [];
    var allCounterSets: seq<CounterSet> := [];
    assert SameElements(buses, per.Keys);
    for n := 0 to |buses|
      invariant |gpuslices| == n && forall i :: 0 <= i < n ==> gpuslices[i].counters == []
      invariant AllDevices(gpuslices) == DevicesIn(per, buses[..n], sorted, name)
      invariant allCounterSets == CountersIn(per, buses[..n], sorted, name)
    {
      assert buses[n] in buses;
      var devices := per[buses[n]];
      assert SameElements(sorted(devices.Keys), devices.Keys);
      var ds, gpu := DevicesOfGpu(devices, sorted(devices.Keys), name);
      if gpu.Some? {
        var sets := PartSharedCounterSets(gpu.value, name);
        allCounterSets := allCounterSets + sets;
      }
      NextBus(per, buses, n, sorted, name);
      SliceAppended(gpuslices, Slice([], ds));
      gpuslices := gpuslices + [Slice([], ds)];
    }
    assert buses[..|buses|] == buses;
    slices := [Slice(allCounterSets, [])] + gpuslices;
    CountersOfSplit(allCounterSets, gpuslices);
  }

  lemma CountersOfSplit(sets: seq<CounterSet>, slices: seq<Slice>)
    requires forall i :: 0 <= i < |slices| ==> slices[i].counters == []
    ensures AllCounters([Slice(sets, [])] + slices) == sets
    ensures AllDevices([Slice(sets, [])] + slices) == AllDevices(slices)
  {
    var head := Slice(sets, []);
    FlatMapConcat((s: Slice) => s.counters, [head], slices);
    FlatMapConcat((s: Slice) => s.devices, [head], slices);
    FlatMapOne((s: Slice) => s.counters, head);
    FlatMapOne((s: Slice) => s.devices, head);
    NoCounters(slices);
  }

  lemma {:induction false} NoCounters(slices: seq<Slice>)
    requires forall i :: 0 <= i < |slices| ==> slices[i].counters == []
    ensures AllCounters(slices) == []
  {
    if slices != [] { NoCounters(slices[..|slices| - 1]); }
  }

  /** One slice per GPU, with its counter sets and its devices. */
  method GenerateCombinedResourceSlices(per: PerGPU, sorted: set<string> -> seq<string>, name: Dimension -> string)
    returns (slices: seq<Slice>)
    requires GoodNaming(name) && Sorts(sorted)
    ensures AllDevices(slices) == DevicesIn(per, sorted(per.Keys), sorted, name)
    ensures AllCounters(slices) == CountersIn(per, sorted(per.Keys), sorted, name)
    ensures |slices| == |sorted(per.Keys)|
  {
    var buses := sorted(per.Keys);
    slices := [];
    assert SameElements(buses, per.Keys);
    for n := 0 to |buses|
      invariant |slices| == n
      invariant AllDevices(slices) == DevicesIn(per, buses[..n], sorted, name)
      invariant AllCounters(slices) == CountersIn(per, buses[..n], sorted, name)
    {
      assert buses[n] in buses;
      var devices := per[buses[n]];
      assert SameElements(sorted(devices.Keys), devices.Keys);
      var ds, gpu := DevicesOfGpu(devices, sorted(devices.Keys), name);
      var sets: seq<CounterSet> := [];
      if gpu.Some? {
        sets := PartSharedCounterSets(gpu.value, name);
      }
      NextBus(per, buses, n, sorted, name);
      SliceAppended(slices, Slice(sets, ds));
      slices := slices + [Slice(sets, ds)];
    }
    assert buses[..|buses|] == buses;
  }

  // ------------------------------------------------ what consumption refers to

  /**
   * The partition is one of those the GPU's maxima were taken over, and its placement ends within the inferred slice
   * count.
   */
  ghost predicate Belongs(g: Gpu, p: Partition)
  {
    && (exists parts :: p in parts && IsMaxCaps(parts, g.maxCapacities))
    && p.placement.start + p.placement.size <= g.memSliceCount
  }

  /** What enumeration guarantees: one GPU per bus ID, one bus ID per minor, and partitions that belong to their GPU. */
  ghost predicate Enumerated(per: PerGPU, gpus: map<string, Gpu>)
  {
    && (forall b :: b in per ==> b in gpus && gpus[b].minor <= MAX_INT)
    && (forall b, d :: b in per && d in per[b] ==> Parent(per[b][d]) == gpus[b])
    && (forall b, d :: b in per && d in per[b] && per[b][d].Mig? ==> Belongs(gpus[b], per[b][d].partition))
    && (forall b, b' :: b in per && b' in per && b != b' ==> gpus[b].minor != gpus[b'].minor)
  }

  lemma CounterSetNamesAreInjective(m: nat, n: nat)
    requires m <= MAX_INT && n <= MAX_INT && GetSharedCounterSetName(m) == GetSharedCounterSetName(n)
    ensures m == n
  {
    CounterSetNameOf(m);
    CounterSetNameOf(n);
    var a, b := GetSharedCounterSetName(m), GetSharedCounterSetName(n);
    assert a[4..|a| - 12] == Decimal(m) && b[4..|b| - 12] == Decimal(n);
    ValueOfDecimal(m);
    ValueOfDecimal(n);
  }

  lemma {:induction false} DeviceComesFrom(devices: map<string, Allocatable>, order: seq<string>,
                                           name: Dimension -> string, d: Device)
    requires GoodNaming(name) && d in AnnouncedIn(devices, order, name)
    ensures exists k :: k in devices && k in order && d == Announced(devices[k], name)
  {
    var last := order[|order| - 1];
    if last !in devices || d != Announced(devices[last], name) {
      DeviceComesFrom(devices, order[..|order| - 1], name, d);
    }
  }

  lemma {:induction false} PublishedDeviceComesFrom(per: PerGPU, buses: seq<string>,
                                                    sorted: set<string> -> seq<string>, name: Dimension -> string,
                                                      d: Device)
    requires GoodNaming(name) && d in DevicesIn(per, buses, sorted, name)
    ensures exists b, k :: b in buses && b in per && k in per[b] && d == Announced(per[b][k], name)
  {
    var last := buses[|buses| - 1];
    if last in per && d in AnnouncedIn(per[last], sorted(per[last].Keys), name) {
      DeviceComesFrom(per[last], sorted(per[last].Keys), name, d);
    } else {
      PublishedDeviceComesFrom(per, buses[..|buses| - 1], sorted, name, d);
    }
  }

  lemma FirstIsThere(sorted: set<string> -> seq<string>, keys: set<string>)
    requires Sorts(sorted)
    ensures SameElements(sorted(keys), keys) && (sorted(keys) != [] ==> sorted(keys)[0] in keys)
    ensures (keys != {} ==> sorted(keys) != [])
  {
  }

  // ------------------------------------------------------------- nothing is left out

  /** Each allocatable device by bus ID and name, in the order of publication. */
  ghost function KeysIn(per: PerGPU, buses: seq<string>, sorted: set<string> -> seq<string>): seq<(string, string)>
  {
    if buses == [] then []
    else
      var last := buses[|buses| - 1];
      KeysIn(per, buses[..|buses| - 1], sorted) + if last in per then PairsOf(last, sorted(per[last].Keys)) else []
  }

  function PairsOf(b: string, order: seq<string>): (pairs: seq<(string, string)>)
    ensures |pairs| == |order| && forall i :: 0 <= i < |order| ==> pairs[i] == (b, order[i])
  {
    seq(|order|, i requires 0 <= i < |order| => (b, order[i]))
  }

  /** Two lists correspond element by element. */
  ghost predicate Matched<A(!new), B(!new)>(rel: (A, B) -> bool, xs: seq<A>, ys: seq<B>)
  {
    |xs| == |ys| && forall i :: 0 <= i < |xs| ==> rel(xs[i], ys[i])
  }

  lemma MatchedConcat<A(!new), B(!new)>(rel: (A, B) -> bool, xs: seq<A>, ys: seq<B>, xs': seq<A>, ys': seq<B>)
    requires Matched(rel, xs, ys) && Matched(rel, xs', ys')
    ensures Matched(rel, xs + xs', ys + ys')
  {
  }

  /** The device is the announcement of the allocatable one under this bus ID and name. */
  ghost function Announces(per: PerGPU, name: Dimension -> string): ((string, string), Device) -> bool
    requires GoodNaming(name)
  {
    (key: (string, string), d: Device) =>
      key.0 in per && key.1 in per[key.0] && GoodNaming(name) && d == Announced(per[key.0][key.1], name)
  }

  lemma {:induction false} BusFollowsKeys(per: PerGPU, b: string, order: seq<string>, name: Dimension -> string)
    requires GoodNaming(name) && b in per && forall k :: k in order ==> k in per[b]
    ensures Matched(Announces(per, name), PairsOf(b, order), AnnouncedIn(per[b], order, name))
  {
    if order != [] {
      var rest, last := order[..|order| - 1], order[|order| - 1];
      BusFollowsKeys(per, b, rest, name);
      OneFollowsKey(per, b, last, name);
      MatchedConcat(Announces(per, name), PairsOf(b, rest), AnnouncedIn(per[b], rest, name),
                    [(b, last)], [Announced(per[b][last], name)]);
      assert PairsOf(b, order) == PairsOf(b, rest) + [(b, last)];
    }
  }

  lemma OneFollowsKey(per: PerGPU, b: string, k: string, name: Dimension -> string)
    requires GoodNaming(name) && b in per && k in per[b]
    ensures Matched(Announces(per, name), [(b, k)], [Announced(per[b][k], name)])
  {
  }

  lemma {:induction false} DevicesFollowKeys(per: PerGPU, buses: seq<string>, sorted: set<string> -> seq<string>,
                                             name: Dimension -> string)
    requires GoodNaming(name) && Sorts(sorted)
    ensures Matched(Announces(per, name), KeysIn(per, buses, sorted), DevicesIn(per, buses, sorted, name))
  {
    if buses != [] {
      var rest, last := buses[..|buses| - 1], buses[|buses| - 1];
      DevicesFollowKeys(per, rest, sorted, name);
      if last in per {
        var order := sorted(per[last].Keys);
        FirstIsThere(sorted, per[last].Keys);
        BusFollowsKeys(per, last, order, name);
        MatchedConcat(Announces(per, name), KeysIn(per, rest, sorted), DevicesIn(per, rest, sorted, name),
                      PairsOf(last, order), AnnouncedIn(per[last], order, name));
      }
    }
  }

  ghost predicate IsSetOf(g: Gpu, c: CounterSet, caps: Capacities, start: nat, size: nat, name: Dimension -> string)
  {
    && (g.minor <= MAX_INT ==> c.name == "gpu-" + Decimal(g.minor) + "-counter-set")
    && CountersAre(c.counters, caps, start, size, name)
  }

  /** The name as others read it. */
  function NameOfAllocatable(a: Allocatable): string
  {
    match a
    case Whole(g) => "gpu-" + Decimal(g.minor)
    case Mig(g, p) => "gpu-" + Decimal(g.minor) + "-mig-" + ProfileLabel(p.profile) + "-" + Decimal(p.profileID) + "-"
                        + Decimal(p.placement.start)
  }

  /**
   * What is published for a device. A MIG device's name tells its GPU, its profile ID and its start, in this order, and
   * reads back as them; what it consumes are its profile's capacities and the slices of its placement.
   */
  ghost predicate IsPublishedAs(a: Allocatable, d: Device, name: Dimension -> string)
  {
    match a
    case Whole(g) =>
      && d.name == NameOfAllocatable(a)
      && (if g.maxCapacities == map[] then d.consumes == []
          else |d.consumes| == 1 && IsSetOf(g, d.consumes[0], g.maxCapacities, 0, g.memSliceCount, name))
    case Mig(g, p) =>
      && d.name == NameOfAllocatable(a)
      && (HasAlnum(p.profile) && g.minor <= MAX_INT && p.profileID <= MAX_INT && p.placement.start <= MAX_INT ==>
            NewMigSpecTupleFromCanonicalName(d.name)
              == Some(MigSpecTuple(g.minor, "", p.profileID, p.placement.start)))
      && |d.consumes| == 1
      && IsSetOf(g, d.consumes[0], CommonCapacitiesMig(p.gi), p.placement.start, p.placement.size, name)
  }

  lemma AnnouncedAsPublished(a: Allocatable, name: Dimension -> string)
    requires GoodNaming(name)
    ensures IsPublishedAs(a, Announced(a, name), name)
  {
    var g := Parent(a);
    if g.minor <= MAX_INT { CounterSetNameOf(g.minor); }
    match a
    case Whole(_) => GpuShareIs(g, name);
    case Mig(_, p) =>
      var m := MigSpecTuple(g.minor, "", p.profileID, p.placement.start);
      PartitionShareIs(p, name);
      CanonicalNameLayout(m, p.profile);
      ParseUndoesPrint(m, p.profile);
  }

  /** The device is published for the allocatable one under this bus ID and name. */
  ghost function Publishes(per: PerGPU, name: Dimension -> string): ((string, string), Device) -> bool
  {
    (key: (string, string), d: Device) =>
      key.0 in per && key.1 in per[key.0] && IsPublishedAs(per[key.0][key.1], d, name)
  }

  predicate Once(keys: seq<(string, string)>) { forall i, j :: 0 <= i < j < |keys| ==> keys[i] != keys[j] }

  lemma {:induction false} KeysOnce(per: PerGPU, buses: seq<string>, sorted: set<string> -> seq<string>)
    requires Sorts(sorted) && forall i, j :: 0 <= i < j < |buses| ==> buses[i] != buses[j]
    ensures Once(KeysIn(per, buses, sorted))
    ensures forall b, k :: (b, k) in KeysIn(per, buses, sorted) <==> b in buses && b in per && k in per[b]
  {
    if buses != [] {
      var rest, last := buses[..|buses| - 1], buses[|buses| - 1];
      KeysOnce(per, rest, sorted);
      if last in per {
        PairsOnce(per, last, sorted(per[last].Keys));
        OnceAppend(KeysIn(per, rest, sorted), PairsOf(last, sorted(per[last].Keys)), last);
      }
      assert buses == rest + [last];
    }
  }

  lemma PairsOnce(per: PerGPU, b: string, order: seq<string>)
    requires b in per && SameElements(order, per[b].Keys)
    ensures Once(PairsOf(b, order)) && forall c, k :: (c, k) in PairsOf(b, order) <==> c == b && k in per[b]
  {
    forall k | k in per[b] ensures (b, k) in PairsOf(b, order) {
      assert k in order;
      var i :| 0 <= i < |order| && order[i] == k;
      assert PairsOf(b, order)[i] == (b, k);
    }
    forall p | p in PairsOf(b, order) ensures p.0 == b && p.1 in per[b] {
      var i :| 0 <= i < |order| && PairsOf(b, order)[i] == p;
      assert order[i] in order;
    }
  }

  lemma OnceAppend(keys: seq<(string, string)>, more: seq<(string, string)>, b: string)
    requires Once(keys) && Once(more)
    requires (forall k :: k in keys ==> k.0 != b) && forall k :: k in more ==> k.0 == b
    ensures Once(keys + more)
  {
  }

  /**
   * Every allocatable device of every GPU is published, once: the published devices stand in one-to-one correspondence
   * with the allocatable ones, each as its own announcement.
   */
  lemma EveryDeviceIsPublishedOnce(per: PerGPU, sorted: set<string> -> seq<string>, name: Dimension -> string)
    requires GoodNaming(name) && Sorts(sorted)
    ensures var ds, keys := DevicesIn(per, sorted(per.Keys), sorted, name), KeysIn(per, sorted(per.Keys), sorted);
            && Matched(Announces(per, name), keys, ds) && Matched(Publishes(per, name), keys, ds)
            && Once(keys) && forall b, k :: (b, k) in keys <==> b in per && k in per[b]
  {
    FirstIsThere(sorted, per.Keys);
    DevicesFollowKeys(per, sorted(per.Keys), sorted, name);
    KeysOnce(per, sorted(per.Keys), sorted);
    var ds, keys := DevicesIn(per, sorted(per.Keys), sorted, name), KeysIn(per, sorted(per.Keys), sorted);
    forall i | 0 <= i < |ds| ensures Publishes(per, name)(keys[i], ds[i]) {
      assert Announces(per, name)(keys[i], ds[i]);
      AnnouncedAsPublished(per[keys[i].0][keys[i].1], name);
    }
  }

  /** Enumeration keys each device by its canonical name. */
  ghost predicate KeyedByName(per: PerGPU)
  {
    forall b, k :: b in per && k in per[b] ==> k == NameOfAllocatable(per[b][k])
  }

  /** Then what is published under a name is found under that name when a claim for it comes. */
  lemma PublishedNameIsTheKey(per: PerGPU, sorted: set<string> -> seq<string>, name: Dimension -> string, i: nat)
    requires GoodNaming(name) && Sorts(sorted) && KeyedByName(per)
    requires i < |DevicesIn(per, sorted(per.Keys), sorted, name)|
    ensures var d := DevicesIn(per, sorted(per.Keys), sorted, name)[i];
            exists b :: b in per && d.name in per[b] && IsPublishedAs(per[b][d.name], d, name)
  {
    EveryDeviceIsPublishedOnce(per, sorted, name);
    var ds, keys := DevicesIn(per, sorted(per.Keys), sorted, name), KeysIn(per, sorted(per.Keys), sorted);
    assert Publishes(per, name)(keys[i], ds[i]);
  }

  /** The sets published for one bus ID are those of its GPU, if it has any devices. */
  lemma SetsAreOfItsGpu(per: PerGPU, gpus: map<string, Gpu>, b: string, sorted: set<string> -> seq<string>,
                        name: Dimension -> string)
    requires GoodNaming(name) && Sorts(sorted) && Enumerated(per, gpus) && b in per
    ensures SetsIn(per[b], sorted(per[b].Keys), name) == if per[b] == map[] then [] else SetsOf(gpus[b], name)
  {
  }

  lemma {:induction false} SetComesFrom(per: PerGPU, gpus: map<string, Gpu>, buses: seq<string>,
                                        sorted: set<string> -> seq<string>, name: Dimension -> string, c: CounterSet)
    requires GoodNaming(name) && Sorts(sorted) && Enumerated(per, gpus) && c in CountersIn(per, buses, sorted, name)
    ensures exists b :: b in buses && b in per && c in SetsOf(gpus[b], name)
  {
    var last := buses[|buses| - 1];
    if last in per && c in SetsIn(per[last], sorted(per[last].Keys), name) {
      SetsAreOfItsGpu(per, gpus, last, sorted, name);
    } else {
      SetComesFrom(per, gpus, buses[..|buses| - 1], sorted, name, c);
    }
  }

  lemma {:induction false} SetIsPublished(per: PerGPU, gpus: map<string, Gpu>, buses: seq<string>,
                                          sorted: set<string> -> seq<string>, name: Dimension -> string, b: string)
    requires GoodNaming(name) && Sorts(sorted) && Enumerated(per, gpus) && b in buses && b in per && per[b] != map[]
    ensures forall c :: c in SetsOf(gpus[b], name) ==> c in CountersIn(per, buses, sorted, name)
  {
    if b == buses[|buses| - 1] {
      SetsAreOfItsGpu(per, gpus, b, sorted, name);
    } else {
      SetIsPublished(per, gpus, buses[..|buses| - 1], sorted, name, b);
    }
  }

  /** The published counter sets are those of the GPUs with devices and partitions: everything such a GPU has. */
  lemma SetsAreThoseOfTheGpus(per: PerGPU, gpus: map<string, Gpu>, sorted: set<string> -> seq<string>,
                              name: Dimension -> string)
    requires GoodNaming(name) && Sorts(sorted) && Enumerated(per, gpus)
    ensures var sets := CountersIn(per, sorted(per.Keys), sorted, name);
            && (forall c :: c in sets ==>
                  exists b :: b in per && IsSetOf(gpus[b], c, gpus[b].maxCapacities, 0, gpus[b].memSliceCount, name))
            && forall b :: b in per && per[b] != map[] && gpus[b].maxCapacities != map[] ==>
              exists c :: c in sets && IsSetOf(gpus[b], c, gpus[b].maxCapacities, 0, gpus[b].memSliceCount, name)
  {
    var buses := sorted(per.Keys);
    var sets := CountersIn(per, buses, sorted, name);
    FirstIsThere(sorted, per.Keys);
    forall c | c in sets
      ensures exists b :: b in per && IsSetOf(gpus[b], c, gpus[b].maxCapacities, 0, gpus[b].memSliceCount, name)
    {
      SetComesFrom(per, gpus, buses, sorted, name, c);
      var b :| b in buses && b in per && c in SetsOf(gpus[b], name);
      SetOfGpu(gpus[b], name, c);
    }
    forall b | b in per && per[b] != map[] && gpus[b].maxCapacities != map[]
      ensures exists c :: c in sets && IsSetOf(gpus[b], c, gpus[b].maxCapacities, 0, gpus[b].memSliceCount, name)
    {
      SetIsPublished(per, gpus, buses, sorted, name, b);
      var c := SetsOf(gpus[b], name)[0];
      assert c in SetsOf(gpus[b], name);
      SetOfGpu(gpus[b], name, c);
    }
  }

  lemma SetOfGpu(g: Gpu, name: Dimension -> string, c: CounterSet)
    requires GoodNaming(name) && c in SetsOf(g, name)
    ensures IsSetOf(g, c, g.maxCapacities, 0, g.memSliceCount, name)
  {
    if g.minor <= MAX_INT { CounterSetNameOf(g.minor); }
    GpuShareIs(g, name);
  }

  ghost predicate DistinctNames(sets: seq<CounterSet>)
  {
    forall i, j :: 0 <= i < j < |sets| ==> sets[i].name != sets[j].name
  }

  lemma DistinctNamesAppend(sets: seq<CounterSet>, c: CounterSet)
    requires DistinctNames(sets) && forall s :: s in sets ==> s.name != c.name
    ensures DistinctNames(sets + [c])
  {
  }

  lemma OtherMinorOtherName(m: nat, n: nat)
    requires m <= MAX_INT && n <= MAX_INT && m != n
    ensures GetSharedCounterSetName(m) != GetSharedCounterSetName(n)
  {
    if GetSharedCounterSetName(m) == GetSharedCounterSetName(n) { CounterSetNamesAreInjective(m, n); }
  }

  /** A set published for other bus IDs has another name. */
  lemma SetOfAnotherBus(per: PerGPU, gpus: map<string, Gpu>, rest: seq<string>, last: string,
                        sorted: set<string> -> seq<string>, name: Dimension -> string, s: CounterSet)
    requires GoodNaming(name) && Sorts(sorted) && Enumerated(per, gpus) && last !in rest && last in per
    requires s in CountersIn(per, rest, sorted, name)
    ensures s.name != GetSharedCounterSetName(gpus[last].minor)
  {
    SetComesFrom(per, gpus, rest, sorted, name, s);
    var b :| b in rest && b in per && s in SetsOf(gpus[b], name);
    SetOfBus(per, gpus, b, last, name, s);
  }

  lemma SetOfBus(per: PerGPU, gpus: map<string, Gpu>, b: string, other: string, name: Dimension -> string,
                 s: CounterSet)
    requires GoodNaming(name) && Enumerated(per, gpus) && b in per && other in per && b != other
    requires s in SetsOf(gpus[b], name)
    ensures s.name != GetSharedCounterSetName(gpus[other].minor)
  {
    OtherMinorOtherName(gpus[b].minor, gpus[other].minor);
  }

  /** No two published counter sets have the same name. */
  lemma {:induction false} SetNamesDiffer(per: PerGPU, gpus: map<string, Gpu>, buses: seq<string>,
                                          sorted: set<string> -> seq<string>, name: Dimension -> string)
    requires GoodNaming(name) && Sorts(sorted) && Enumerated(per, gpus) && forall i, j :: 0 <= i < j < |buses| ==>
        buses[i] != buses[j]
    ensures DistinctNames(CountersIn(per, buses, sorted, name))
  {
    if buses != [] {
      var rest, last := buses[..|buses| - 1], buses[|buses| - 1];
      SetNamesDiffer(per, gpus, rest, sorted, name);
      var before, all := CountersIn(per, rest, sorted, name), CountersIn(per, buses, sorted, name);
      if last in per {
        SetsAreOfItsGpu(per, gpus, last, sorted, name);
      }
      if last in per && per[last] != map[] && SetsOf(gpus[last], name) != [] {
        var c := SetsOf(gpus[last], name)[0];
        forall s | s in before ensures s.name != c.name { SetOfAnotherBus(per, gpus, rest, last, sorted, name, s); }
        DistinctNamesAppend(before, c);
        assert all == before + [c];
      } else {
        assert all == before;
      }
    }
  }

  /** Every counter of the consumption is in the set, with at least that value. */
  ghost predicate Covers(published: CounterSet, c: CounterSet)
  {
    published.name == c.name && forall n :: n in c.counters ==>
      n in published.counters && c.counters[n] <= published.counters[n]
  }

  lemma CapacityIsCovered(g: Gpu, p: Partition, name: Dimension -> string, n: string)
    requires GoodNaming(name) && Belongs(g, p) && n in PartitionShare(p, name).caps
    ensures n in GpuShare(g, name).caps && PartitionShare(p, name).caps[n] <= GpuShare(g, name).caps[n]
  {
    var parts :| p in parts && IsMaxCaps(parts, g.maxCapacities);
    var d :| d in CommonCapacitiesMig(p.gi) && n == name(d);
    EveryDimensionIsPresent(p.gi);
    assert IsMaxAmount(parts, d, g.maxCapacities[d]);
  }

  lemma CounterIsCovered(g: Gpu, p: Partition, name: Dimension -> string, n: string)
    requires GoodNaming(name) && Belongs(g, p) && n in CountersOf(PartitionShare(p, name))
    ensures n in CountersOf(GpuShare(g, name))
    ensures CountersOf(PartitionShare(p, name))[n] <= CountersOf(GpuShare(g, name))[n]
  {
    var whole, part := GpuShare(g, name), PartitionShare(p, name);
    if i: nat :| n == MemsliceCounterName(i) {
      CountersOfShare(part, i);
      CountersOfShare(whole, i);
    } else {
      CapsOfShare(part, n);
      CapsOfShare(whole, n);
      CapacityIsCovered(g, p, name, n);
    }
  }

  lemma PartitionIsCovered(g: Gpu, p: Partition, name: Dimension -> string)
    requires GoodNaming(name) && Belongs(g, p)
    ensures SetsOf(g, name) != []
    ensures Covers(SetsOf(g, name)[0],
        CounterSet(GetSharedCounterSetName(g.minor), CountersOf(PartitionShare(p, name))))
  {
    var parts :| p in parts && IsMaxCaps(parts, g.maxCapacities);
    assert Memory in g.maxCapacities;
    var part := CountersOf(PartitionShare(p, name));
    forall n | n in part ensures n in CountersOf(GpuShare(g, name)) && part[n] <= CountersOf(GpuShare(g, name))[n] {
      CounterIsCovered(g, p, name, n);
    }
  }

  /**
   * Whatever a published device consumes names exactly one published counter set, and that set has every consumed
   * counter with at least the consumed value. It holds of either way of cutting slices, for both publish these
   * devices and sets.
   */
  lemma EveryConsumptionIsPublished(per: PerGPU, gpus: map<string, Gpu>, sorted: set<string> -> seq<string>,
                                    name: Dimension -> string, d: Device, c: CounterSet)
    requires GoodNaming(name) && Sorts(sorted) && Enumerated(per, gpus)
    requires d in DevicesIn(per, sorted(per.Keys), sorted, name) && c in d.consumes
    ensures exists s :: s in CountersIn(per, sorted(per.Keys), sorted, name) && Covers(s, c)
    ensures DistinctNames(CountersIn(per, sorted(per.Keys), sorted, name))
  {
    FirstIsThere(sorted, per.Keys);
    SetNamesDiffer(per, gpus, sorted(per.Keys), sorted, name);
    ConsumptionIsCovered(per, gpus, sorted(per.Keys), sorted, name, d, c);
  }

  lemma ConsumptionIsCovered(per: PerGPU, gpus: map<string, Gpu>, buses: seq<string>,
                             sorted: set<string> -> seq<string>, name: Dimension -> string, d: Device, c: CounterSet)
    requires GoodNaming(name) && Sorts(sorted) && Enumerated(per, gpus)
    requires d in DevicesIn(per, buses, sorted, name) && c in d.consumes
    ensures exists s :: s in CountersIn(per, buses, sorted, name) && Covers(s, c)
  {
    PublishedDeviceComesFrom(per, buses, sorted, name, d);
    var b, k :| b in buses && b in per && k in per[b] && d == Announced(per[b][k], name);
    DeviceIsCovered(per[b][k], name, c);
    var s :| s in SetsOf(gpus[b], name) && Covers(s, c);
    SetIsPublished(per, gpus, buses, sorted, name, b);
  }

  lemma DeviceIsCovered(a: Allocatable, name: Dimension -> string, c: CounterSet)
    requires GoodNaming(name) && c in Announced(a, name).consumes && (a.Mig? ==> Belongs(a.parent, a.partition))
    ensures exists s :: s in SetsOf(Parent(a), name) && Covers(s, c)
  {
    match a
    case Whole(g) => assert c in SetsOf(g, name) && Covers(c, c);
    case Mig(g, p) =>
      PartitionIsCovered(g, p, name);
      assert SetsOf(g, name)[0] in SetsOf(g, name);
  }
}

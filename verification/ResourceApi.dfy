/** The parts of a resource claim's allocation that both kubelet plugins read. */
module ResourceApi {
  import opened Text

  datatype AllocResult = AllocResult(request: string, driver: string, pool: string, device: string, adminAccess: bool)

  datatype ConfigSource = FromClass | FromClaim | UnknownSource

  datatype ConfigKind = GpuConfig | MigDeviceConfig | VfioDeviceConfig | ChannelConfig | DaemonConfig | OtherConfig

  datatype DeviceKind = GpuDevice | MigDevice | VfioDevice | ChannelDevice | DaemonDevice | UnknownDevice

  /**
   * Opaque parameters: the driver they are for, and the object they decode to (None: they do not decode), by the
   * decoder that refuses unknown fields and by the one that passes over them.
   */
  datatype Opaque = Opaque(driver: string, decoded: Option<ConfigKind>, lenient: Option<ConfigKind>)

  datatype AllocConfig = AllocConfig(source: ConfigSource, requests: seq<string>, params: Option<Opaque>)

  datatype Claim = Claim(uid: string, name: string, namespace: string, results: seq<AllocResult>,
      configs: seq<AllocConfig>)

  /** The list as the decoder reads it that passes over unknown fields. */
  function Leniently(configs: seq<AllocConfig>): (read: seq<AllocConfig>)
    ensures |read| == |configs|
    ensures forall i :: 0 <= i < |configs| && configs[i].params.Some? ==>
        read[i].params == Some(configs[i].params.value.(decoded := configs[i].params.value.lenient))
    ensures forall i :: 0 <= i < |configs| ==> read[i] == configs[i].(params := read[i].params)
  {
    seq(|configs|, i requires 0 <= i < |configs| =>
      if configs[i].params.None? then configs[i]
      else configs[i].(params := Some(configs[i].params.value.(decoded := configs[i].params.value.lenient))))
  }

  function DevicesOf(results: seq<AllocResult>): (devices: seq<string>)
    ensures |devices| == |results| && forall i :: 0 <= i < |results| ==> devices[i] == results[i].device
  {
    seq(|results|, i requires 0 <= i < |results| => results[i].device)
  }

  lemma DevicesOfAppend(results: seq<AllocResult>, r: AllocResult)
    ensures DevicesOf(results + [r]) == DevicesOf(results) + [r.device]
  {
  }

  /** The results of one driver, in order. */
  function OfDriver(driver: string, results: seq<AllocResult>): seq<AllocResult>
  {
    if results == [] then []
    else
      var last := results[|results| - 1];
      OfDriver(driver, results[..|results| - 1]) + if last.driver == driver then [last] else []
  }

  /** Which of the results ask this driver for the device. */
  function Asking(driver: string, results: seq<AllocResult>, device: string): set<nat>
  {
    set i: nat | i < |results| && results[i].driver == driver && results[i].device == device
  }

  lemma AskingGrows(driver: string, rest: seq<AllocResult>, last: AllocResult, device: string)
    ensures Asking(driver, rest + [last], device) == Asking(driver, rest, device)
              + if last.driver == driver && last.device == device then {|rest|} else {}
  {
    var all := rest + [last];
    forall i: nat | i < |rest| ensures all[i] == rest[i] {}
    assert all[|rest|] == last;
  }

  lemma OfDriverGrows(driver: string, rest: seq<AllocResult>, last: AllocResult, device: string)
    ensures multiset(DevicesOf(OfDriver(driver, rest + [last])))[device]
         == multiset(DevicesOf(OfDriver(driver, rest)))[device]
              + if last.driver == driver && last.device == device then 1 else 0
  {
    assert (rest + [last])[..|rest|] == rest;
    if last.driver == driver {
      DevicesOfAppend(OfDriver(driver, rest), last);
    } else {
      assert OfDriver(driver, rest + [last]) == OfDriver(driver, rest);
    }
  }

  /** A device is among the driver's results as often as some result asks for it. */
  lemma {:induction false} OfDriverCounts(driver: string, results: seq<AllocResult>, device: string)
    ensures multiset(DevicesOf(OfDriver(driver, results)))[device] == |Asking(driver, results, device)|
  {
    if results == [] {
      assert Asking(driver, results, device) == {};
    } else {
      var rest, last := results[..|results| - 1], results[|results| - 1];
      assert rest + [last] == results;
      OfDriverCounts(driver, rest, device);
      OfDriverGrows(driver, rest, last, device);
      AskingGrows(driver, rest, last, device);
    }
  }

  /** Both ask the driver for one device, neither of them with admin access. */
  predicate ShareADevice(driver: string, a: seq<AllocResult>, b: seq<AllocResult>)
  {
    exists i, j :: 0 <= i < |a| && 0 <= j < |b| && a[i].device == b[j].device
      && a[i].driver == driver && b[j].driver == driver && !a[i].adminAccess && !b[j].adminAccess
  }

  lemma SharingIsWantingTheSame(driver: string, a: seq<AllocResult>, b: seq<AllocResult>)
    ensures ShareADevice(driver, a, b) <==>
            exists d :: RequestsNonAdmin(driver, a, d) && RequestsNonAdmin(driver, b, d)
  {
    if ShareADevice(driver, a, b) {
      var i, j :| 0 <= i < |a| && 0 <= j < |b| && a[i].device == b[j].device
                  && a[i].driver == driver && b[j].driver == driver && !a[i].adminAccess && !b[j].adminAccess;
      assert RequestsNonAdmin(driver, a, a[i].device) && RequestsNonAdmin(driver, b, a[i].device);
    }
  }

  /** The device is requested from the driver without admin access. */
  predicate RequestsNonAdmin(driver: string, results: seq<AllocResult>, device: string)
  {
    exists i :: 0 <= i < |results| && results[i].driver == driver && !results[i].adminAccess
      && results[i].device == device
  }
}

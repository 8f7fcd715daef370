/**
 * The aggregation logic of the report: the device filters, the device-type
 * histogram, the switch port accounting, the VLAN set and the per-location
 * status counts, each as a specification function; the loops of the source as
 * methods proved against those functions; and the lemmas that say what the
 * functions compute.
 */
module Statistics {
  import opened Wrappers
  import opened Seqs
  import opened Dicts
  import opened Devices

  const OfflineStatus: string := "offline"
  const WarningStatus: string := "warning"
  const OnlineStatus: string := "online"
  const SwitchType: string := "switch"
  /** The histogram key of a device without a type. */
  const UnknownType: string := "okänd"
  /** Devices with fewer days of uptime than this are listed as low uptime. */
  const LowUptimeDays: int := 30
  /** The uptime assumed for a device that reports none. */
  const MissingUptime: int := 9999
  /** Switches using strictly more than this percentage of their ports are listed. */
  const HighUsagePercent: int := 80

  // ---------------------------------------------------------------- filters

  predicate IsOffline(d: Device) { d.raw.status == Some(OfflineStatus) }
  predicate IsWarning(d: Device) { d.raw.status == Some(WarningStatus) }
  predicate IsOnline(d: Device) { d.raw.status == Some(OnlineStatus) }

  function Uptime(d: Device): int { d.raw.uptimeDays.GetOr(MissingUptime) }
  predicate IsLowUptime(d: Device) { Uptime(d) < LowUptimeDays }

  /** A switch whose `ports` value is a record: the only devices port accounting looks at. */
  predicate IsPortedSwitch(d: Device) { d.raw.deviceType == Some(SwitchType) && d.raw.ports.Some? }

  /**
   * The integer form of `used / total * 100 > 80`, taken only when `total > 0`.
   */
  predicate IsHighUsage(d: Device) {
    && IsPortedSwitch(d)
    && d.raw.ports.value.Total() > 0
    && d.raw.ports.value.Used() * 100 > HighUsagePercent * d.raw.ports.value.Total()
  }

  predicate AtDatacenter(d: Device) { d.site == Some("Datacenter") }
  predicate AtHeadOffice(d: Device) { d.site == Some("Huvudkontor") }

  function OfflineDevices(devices: seq<Device>): seq<Device> { Filter(devices, IsOffline) }
  function WarningDevices(devices: seq<Device>): seq<Device> { Filter(devices, IsWarning) }
  function LowUptimeDevices(devices: seq<Device>): seq<Device> { Filter(devices, IsLowUptime) }
  function PortedSwitches(devices: seq<Device>): seq<Device> { Filter(devices, IsPortedSwitch) }
  function HighUsageSwitches(devices: seq<Device>): seq<Device> { Filter(devices, IsHighUsage) }

  /** No device is both offline and in warning, so the two lists share nothing and fit in the input. */
  lemma OfflineWarningDisjoint(devices: seq<Device>)
    ensures forall d :: d in OfflineDevices(devices) ==> d !in WarningDevices(devices)
    ensures |OfflineDevices(devices)| + |WarningDevices(devices)| <= |devices|
  {
    FilterDisjointCount(devices, IsOffline, IsWarning);
  }

  /** Low uptime is a reported uptime strictly below 30 days; a missing uptime never qualifies. */
  lemma LowUptimeExact(devices: seq<Device>)
    ensures forall d :: d in LowUptimeDevices(devices) <==>
      d in devices && d.raw.uptimeDays.Some? && d.raw.uptimeDays.value < LowUptimeDays
  {
    assert MissingUptime >= LowUptimeDays;
  }

  /** Multiplying by a positive number keeps a strict comparison. */
  lemma ScalePositive(a: real, b: real, t: real)
    requires t > 0.0
    ensures a > b <==> a * t > b * t
  {
    assert (a - b) * t == a * t - b * t;
    if a > b {
      assert (a - b) * t > 0.0;
    } else {
      assert (b - a) * t >= 0.0;
    }
  }

  /**
   * For a positive total the integer test agrees with the percentage computed in
   * exact arithmetic, including at the 80% boundary, where both are false.
   */
  lemma ThresholdAgreesWithRatio(used: int, total: int)
    requires total > 0
    ensures (used as real) / (total as real) * 100.0 > 80.0 <==> used * 100 > HighUsagePercent * total
  {
    var t := total as real;
    var u := used as real;
    var q := u / t;
    assert q * t == u;
    ScalePositive(q * 100.0, 80.0, t);
    assert q * 100.0 * t == u * 100.0;
    assert (used * 100) as real == u * 100.0;
    assert (HighUsagePercent * total) as real == 80.0 * t;
  }

  /**
   * A high-usage switch has a port record with a positive total and more than
   * 80% of it used; a switch at exactly 80%, or with a total of 0, is not one.
   */
  lemma HighUsageExact(devices: seq<Device>)
    ensures forall d :: d in HighUsageSwitches(devices) <==>
      && d in devices && d.raw.deviceType == Some(SwitchType) && d.raw.ports.Some?
      && d.raw.ports.value.Total() > 0
      && d.raw.ports.value.Used() * 100 > HighUsagePercent * d.raw.ports.value.Total()
    ensures forall d :: (d in devices && d.raw.ports.Some? &&
      d.raw.ports.value.Used() * 100 == HighUsagePercent * d.raw.ports.value.Total()) ==> d !in HighUsageSwitches(devices)
    ensures forall d :: d in HighUsageSwitches(devices) <==>
      && d in devices && IsPortedSwitch(d) && d.raw.ports.value.Total() > 0
      && (d.raw.ports.value.Used() as real) / (d.raw.ports.value.Total() as real) * 100.0 > 80.0
  {
    forall d | d in devices && IsPortedSwitch(d) && d.raw.ports.value.Total() > 0 {
      ThresholdAgreesWithRatio(d.raw.ports.value.Used(), d.raw.ports.value.Total());
    }
  }

  /**
   * The loop building the list of high-usage switches and the `high_found` flag
   * (network_report.py:313-322; the same loop builds `high_port_switches` at 46-54).
   */
  method HighUsageScan(devices: seq<Device>) returns (high: seq<Device>, highFound: bool)
    ensures high == HighUsageSwitches(devices)
    ensures highFound <==> high != []
  {
    high, highFound := [], false;
    var i := 0;
    while i < |devices|
      invariant 0 <= i <= |devices|
      invariant high == Filter(devices[..i], IsHighUsage)
      invariant highFound <==> high != []
    {
      var d := devices[i];
      assert devices[..i + 1] == devices[..i] + [d];
      if d.raw.deviceType == Some(SwitchType) && d.raw.ports.Some? {
        var total := d.raw.ports.value.Total();
        var used := d.raw.ports.value.Used();
        if total > 0 && used * 100 > HighUsagePercent * total {
          highFound := true;
          high := high + [d];
        }
      }
      i := i + 1;
    }
    assert devices[..i] == devices;
  }

  // ---------------------------------------------------------------- device types

  function TypeKey(d: Device): string { d.raw.deviceType.GetOr(UnknownType) }

  /** The histogram key of every device, in device order. */
  function TypeKeys(devices: seq<Device>): (r: seq<string>)
    ensures |r| == |devices|
    decreases |devices|
  {
    if devices == [] then []
    else TypeKeys(devices[..|devices| - 1]) + [TypeKey(devices[|devices| - 1])]
  }

  function NatValue(n: nat): int { n }

  /** `stats[t] = stats.get(t, 0) + 1` for the type of every device, in device order. */
  function TypeCounts(devices: seq<Device>): (r: Dict<string, nat>)
    ensures r.Valid()
    decreases |devices|
  {
    if devices == [] then Empty()
    else
      var stats := TypeCounts(devices[..|devices| - 1]);
      var t := TypeKey(devices[|devices| - 1]);
      stats.Put(t, stats.Get(t, 0) + 1)
  }

  /** The histogram keys are the distinct types, each once, in first-seen order. */
  lemma {:induction false} TypeCountsOrder(devices: seq<Device>)
    ensures TypeCounts(devices).order == FirstSeen(TypeKeys(devices))
    decreases |devices|
  {
    if devices != [] {
      var init := devices[..|devices| - 1];
      TypeCountsOrder(init);
      assert TypeKeys(devices)[..|devices| - 1] == TypeKeys(init);
    }
  }

  /** Each type is counted as often as it occurs among the devices. */
  lemma {:induction false} TypeCountsValues(devices: seq<Device>)
    ensures forall t :: t in TypeCounts(devices).values ==>
      TypeCounts(devices).values[t] == multiset(TypeKeys(devices))[t]
    decreases |devices|
  {
    if devices != [] {
      var init := devices[..|devices| - 1];
      var t := TypeKey(devices[|devices| - 1]);
      TypeCountsValues(init);
      TypeCountsOrder(init);
      assert TypeKeys(devices) == TypeKeys(init) + [t];
      assert t !in TypeCounts(init).values ==> multiset(TypeKeys(init))[t] == 0;
    }
  }

  /** The counts of the histogram add up to the number of devices. */
  lemma {:induction false} TypeCountsSum(devices: seq<Device>)
    ensures TypeCounts(devices).Sum(NatValue) == |devices|
    decreases |devices|
  {
    if devices != [] {
      var init := devices[..|devices| - 1];
      var t := TypeKey(devices[|devices| - 1]);
      var stats := TypeCounts(init);
      TypeCountsSum(init);
      SumPut(stats, t, stats.Get(t, 0) + 1, NatValue);
    }
  }

  /** The loop of `write_device_type_stats` (network_report.py:242-245). */
  method DeviceTypeStats(devices: seq<Device>) returns (stats: Dict<string, nat>)
    ensures stats == TypeCounts(devices)
  {
    stats := Empty();
    var i := 0;
    while i < |devices|
      invariant 0 <= i <= |devices|
      invariant stats == TypeCounts(devices[..i])
    {
      assert devices[..i + 1][..i] == devices[..i];
      var t := devices[i].raw.deviceType.GetOr(UnknownType);
      stats := stats.Put(t, stats.Get(t, 0) + 1);
      i := i + 1;
    }
    assert devices[..i] == devices;
  }

  // ---------------------------------------------------------------- port accounting

  /** Per-site accumulator: number of ported switches, used ports, total ports. */
  datatype Tally = Tally(switches: nat, used: int, total: int)

  function TallySwitches(t: Tally): int { t.switches }
  function TallyUsed(t: Tally): int { t.used }
  function TallyTotal(t: Tally): int { t.total }

  /** `total_ports`: the sum of `total` over ported switches, a zero total included. */
  function TotalPorts(devices: seq<Device>): int
    decreases |devices|
  {
    if devices == [] then 0
    else
      var d := devices[|devices| - 1];
      TotalPorts(devices[..|devices| - 1]) + (if IsPortedSwitch(d) then d.raw.ports.value.Total() else 0)
  }

  /** `used_ports`: the sum of `used` over ported switches. */
  function UsedPorts(devices: seq<Device>): int
    decreases |devices|
  {
    if devices == [] then 0
    else
      var d := devices[|devices| - 1];
      UsedPorts(devices[..|devices| - 1]) + (if IsPortedSwitch(d) then d.raw.ports.value.Used() else 0)
  }

  /** The site of every device, in device order. */
  function Sites(devices: seq<Device>): (r: seq<Option<string>>)
    ensures |r| == |devices|
    ensures forall i :: 0 <= i < |r| ==> r[i] == devices[i].site
    decreases |devices|
  {
    if devices == [] then []
    else Sites(devices[..|devices| - 1]) + [devices[|devices| - 1].site]
  }

  /** The devices whose site is `site`, in device order. */
  function AtSite(devices: seq<Device>, site: Option<string>): (r: seq<Device>)
    ensures forall d :: d in r <==> d in devices && d.site == site
    decreases |devices|
  {
    if devices == [] then []
    else
      var init := devices[..|devices| - 1];
      var d := devices[|devices| - 1];
      assert devices == init + [d];
      AtSite(init, site) + (if d.site == site then [d] else [])
  }

  /** Adds one ported switch to the entry of its site, creating the entry first if needed. */
  function Account(perSite: Dict<Option<string>, Tally>, d: Device): (r: Dict<Option<string>, Tally>)
    requires perSite.Valid() && IsPortedSwitch(d)
    ensures r.Valid()
  {
    var s := perSite.Get(d.site, Tally(0, 0, 0));
    perSite.Put(d.site, Tally(s.switches + 1, s.used + d.raw.ports.value.Used(), s.total + d.raw.ports.value.Total()))
  }

  /** `per_site` after the loop of `write_port_usage_stats`. */
  function SitePorts(devices: seq<Device>): (r: Dict<Option<string>, Tally>)
    ensures r.Valid()
    decreases |devices|
  {
    if devices == [] then Empty()
    else
      var perSite := SitePorts(devices[..|devices| - 1]);
      var d := devices[|devices| - 1];
      if IsPortedSwitch(d) then Account(perSite, d) else perSite
  }

  /** The loop of `write_port_usage_stats` (network_report.py:259-282). */
  method PortUsage(devices: seq<Device>) returns (totalPorts: int, usedPorts: int, perSite: Dict<Option<string>, Tally>)
    ensures totalPorts == TotalPorts(devices)
    ensures usedPorts == UsedPorts(devices)
    ensures perSite == SitePorts(devices)
  {
    totalPorts, usedPorts, perSite := 0, 0, Empty();
    var i := 0;
    while i < |devices|
      invariant 0 <= i <= |devices|
      invariant totalPorts == TotalPorts(devices[..i])
      invariant usedPorts == UsedPorts(devices[..i])
      invariant perSite == SitePorts(devices[..i])
    {
      var d := devices[i];
      assert devices[..i + 1][..i] == devices[..i];
      i := i + 1;
      if d.raw.deviceType != Some(SwitchType) {
        continue;
      }
      if !d.raw.ports.Some? {
        continue;
      }
      var total := d.raw.ports.value.Total();
      var used := d.raw.ports.value.Used();
      totalPorts := totalPorts + total;
      usedPorts := usedPorts + used;
      var site := d.site;
      if site !in perSite.values {
        perSite := perSite.Put(site, Tally(0, 0, 0));
      }
      var s := perSite.values[site];
      perSite := perSite.Put(site, Tally(s.switches + 1, s.used + used, s.total + total));
    }
    assert devices[..i] == devices;
  }

  /** Accounting one switch adds its ports and one switch to the per-site sums. */
  lemma AccountSums(perSite: Dict<Option<string>, Tally>, d: Device)
    requires perSite.Valid() && IsPortedSwitch(d)
    ensures Account(perSite, d).Sum(TallyUsed) == perSite.Sum(TallyUsed) + d.raw.ports.value.Used()
    ensures Account(perSite, d).Sum(TallyTotal) == perSite.Sum(TallyTotal) + d.raw.ports.value.Total()
    ensures Account(perSite, d).Sum(TallySwitches) == perSite.Sum(TallySwitches) + 1
  {
    var s := perSite.Get(d.site, Tally(0, 0, 0));
    var v := Tally(s.switches + 1, s.used + d.raw.ports.value.Used(), s.total + d.raw.ports.value.Total());
    assert Account(perSite, d) == perSite.Put(d.site, v);
    assert Account(perSite, d).Sum(TallyUsed) == perSite.Sum(TallyUsed) + d.raw.ports.value.Used() by {
      SumPut(perSite, d.site, v, TallyUsed);
    }
    assert Account(perSite, d).Sum(TallyTotal) == perSite.Sum(TallyTotal) + d.raw.ports.value.Total() by {
      SumPut(perSite, d.site, v, TallyTotal);
    }
    assert Account(perSite, d).Sum(TallySwitches) == perSite.Sum(TallySwitches) + 1 by {
      SumPut(perSite, d.site, v, TallySwitches);
    }
  }

  /** The per-site used and total ports add up to the global `used_ports` and `total_ports`. */
  lemma {:induction false} PortSumsConserved(devices: seq<Device>)
    ensures SitePorts(devices).Sum(TallyUsed) == UsedPorts(devices)
    ensures SitePorts(devices).Sum(TallyTotal) == TotalPorts(devices)
    decreases |devices|
  {
    if devices != [] {
      var init := devices[..|devices| - 1];
      var d := devices[|devices| - 1];
      PortSumsConserved(init);
      if IsPortedSwitch(d) {
        AccountSums(SitePorts(init), d);
      }
    }
  }

  /** The per-site switch counts add up to the number of ported switches, a total of 0 included. */
  lemma {:induction false} SwitchCountConserved(devices: seq<Device>)
    ensures SitePorts(devices).Sum(TallySwitches) == |PortedSwitches(devices)|
    decreases |devices|
  {
    if devices != [] {
      var init := devices[..|devices| - 1];
      var d := devices[|devices| - 1];
      SwitchCountConserved(init);
      if IsPortedSwitch(d) {
        AccountSums(SitePorts(init), d);
      }
    }
  }

  /** The per-site entries appear in the order their site was first seen among the ported switches. */
  lemma {:induction false} SiteOrderFirstSeen(devices: seq<Device>)
    ensures SitePorts(devices).order == FirstSeen(Sites(PortedSwitches(devices)))
    decreases |devices|
  {
    if devices != [] {
      var init := devices[..|devices| - 1];
      var d := devices[|devices| - 1];
      SiteOrderFirstSeen(init);
      var switches := PortedSwitches(init);
      if IsPortedSwitch(d) {
        var sites := Sites(switches);
        assert PortedSwitches(devices) == switches + [d];
        assert Sites(switches + [d]) == sites + [d.site] by {
          assert (switches + [d])[..|switches|] == switches;
        }
        FirstSeenSnoc(sites, d.site);
        assert SitePorts(devices) == Account(SitePorts(init), d);
        assert d.site in SitePorts(init).values <==> d.site in sites;
      } else {
        assert PortedSwitches(devices) == switches;
      }
    }
  }

  /** Some switch with a ports record comes from a location without a `site`. */
  predicate SitelessSwitch(devices: seq<Device>) {
    exists d :: d in devices && IsPortedSwitch(d) && d.site == None
  }

  /** `per_site` has a `None` key exactly when some ported switch has no site. */
  lemma SitelessSwitchKey(devices: seq<Device>)
    ensures None in SitePorts(devices).order <==> SitelessSwitch(devices)
  {
    SiteOrderFirstSeen(devices);
    var switches := PortedSwitches(devices);
    var sites := Sites(switches);
    if None in sites {
      var i :| 0 <= i < |sites| && sites[i] == None;
      assert switches[i] in switches;
    }
    if SitelessSwitch(devices) {
      var d :| d in devices && IsPortedSwitch(d) && d.site == None;
      assert d in switches;
      var i :| 0 <= i < |switches| && switches[i] == d;
      assert sites[i] == None;
    }
  }

  /** Accounting a switch changes the entry of its own site and no other. */
  lemma AccountGet(perSite: Dict<Option<string>, Tally>, d: Device, site: Option<string>)
    requires perSite.Valid() && IsPortedSwitch(d)
    ensures Account(perSite, d).Get(site, Tally(0, 0, 0)) ==
      var s := perSite.Get(site, Tally(0, 0, 0));
      if d.site == site then Tally(s.switches + 1, s.used + d.raw.ports.value.Used(), s.total + d.raw.ports.value.Total())
      else s
  {
  }

  /** The entry of `site` counts exactly the ported switches at `site`. */
  lemma {:induction false} SitePortsSwitches(devices: seq<Device>, site: Option<string>)
    ensures SitePorts(devices).Get(site, Tally(0, 0, 0)).switches == |PortedSwitches(AtSite(devices, site))|
    decreases |devices|
  {
    if devices != [] {
      var init := devices[..|devices| - 1];
      var d := devices[|devices| - 1];
      SitePortsSwitches(init, site);
      var here := AtSite(init, site);
      if IsPortedSwitch(d) {
        AccountGet(SitePorts(init), d, site);
      }
      if d.site == site {
        var at := here + [d];
        assert AtSite(devices, site) == at;
        assert at[..|at| - 1] == here;
      } else {
        assert AtSite(devices, site) == here;
      }
    }
  }

  /** The entry of `site` holds the used ports of exactly the ported switches at `site`. */
  lemma {:induction false} SitePortsUsed(devices: seq<Device>, site: Option<string>)
    ensures SitePorts(devices).Get(site, Tally(0, 0, 0)).used == UsedPorts(AtSite(devices, site))
    decreases |devices|
  {
    if devices != [] {
      var init := devices[..|devices| - 1];
      var d := devices[|devices| - 1];
      SitePortsUsed(init, site);
      var here := AtSite(init, site);
      if IsPortedSwitch(d) {
        AccountGet(SitePorts(init), d, site);
      }
      if d.site == site {
        var at := here + [d];
        assert AtSite(devices, site) == at;
        assert at[..|at| - 1] == here;
      } else {
        assert AtSite(devices, site) == here;
      }
    }
  }

  /** The entry of `site` holds the total ports of exactly the ported switches at `site`. */
  lemma {:induction false} SitePortsTotal(devices: seq<Device>, site: Option<string>)
    ensures SitePorts(devices).Get(site, Tally(0, 0, 0)).total == TotalPorts(AtSite(devices, site))
    decreases |devices|
  {
    if devices != [] {
      var init := devices[..|devices| - 1];
      var d := devices[|devices| - 1];
      SitePortsTotal(init, site);
      var here := AtSite(init, site);
      if IsPortedSwitch(d) {
        AccountGet(SitePorts(init), d, site);
      }
      if d.site == site {
        var at := here + [d];
        assert AtSite(devices, site) == at;
        assert at[..|at| - 1] == here;
      } else {
        assert AtSite(devices, site) == here;
      }
    }
  }

  /**
   * Each per-site entry holds exactly the switch count, used ports and total ports
   * of the ported switches at that site; a site without one has no entry.
   */
  lemma SitePortsEntry(devices: seq<Device>, site: Option<string>)
    ensures SitePorts(devices).Get(site, Tally(0, 0, 0))
         == Tally(|PortedSwitches(AtSite(devices, site))|, UsedPorts(AtSite(devices, site)), TotalPorts(AtSite(devices, site)))
  {
    SitePortsSwitches(devices, site);
    SitePortsUsed(devices, site);
    SitePortsTotal(devices, site);
  }

  /** With port counts that are not negative, every accumulated total is not negative either. */
  predicate PortsNonNegative(d: Device) {
    d.raw.ports.Some? ==> d.raw.ports.value.Total() >= 0 && d.raw.ports.value.Used() >= 0
  }

  lemma {:induction false} TotalPortsNonNegative(devices: seq<Device>)
    requires forall d :: d in devices ==> PortsNonNegative(d)
    ensures TotalPorts(devices) >= 0
    decreases |devices|
  {
    if devices != [] {
      var init := devices[..|devices| - 1];
      assert devices == init + [devices[|devices| - 1]];
      assert PortsNonNegative(devices[|devices| - 1]);
      TotalPortsNonNegative(init);
    }
  }

  // ---------------------------------------------------------------- VLANs

  /** The VLAN list of a device, empty when its `vlans` value is absent or not a list. */
  function DeviceVlans(d: Device): seq<int> {
    if d.raw.vlans.Some? then d.raw.vlans.value else []
  }

  /** Every VLAN identifier listed by the devices, duplicates included, in device order. */
  function VlanIds(devices: seq<Device>): seq<int>
    decreases |devices|
  {
    if devices == [] then []
    else VlanIds(devices[..|devices| - 1]) + DeviceVlans(devices[|devices| - 1])
  }

  /** An identifier is collected iff some device lists it in a `vlans` list. */
  lemma {:induction false} VlanIdsMembership(devices: seq<Device>)
    ensures forall v :: v in VlanIds(devices) <==>
      exists d :: d in devices && d.raw.vlans.Some? && v in d.raw.vlans.value
    decreases |devices|
  {
    if devices != [] {
      var init := devices[..|devices| - 1];
      var d := devices[|devices| - 1];
      assert devices == init + [d];
      VlanIdsMembership(init);
    }
  }

  /** The loop of `write_vlan_overview` that fills the set (network_report.py:337-343). */
  method CollectVlans(devices: seq<Device>) returns (vlans: set<int>)
    ensures forall v :: v in vlans <==> v in VlanIds(devices)
  {
    vlans := {};
    var i := 0;
    while i < |devices|
      invariant 0 <= i <= |devices|
      invariant forall v :: v in vlans <==> v in VlanIds(devices[..i])
    {
      var d := devices[i];
      assert devices[..i + 1][..i] == devices[..i];
      if d.raw.vlans.Some? {
        var list := d.raw.vlans.value;
        var j := 0;
        while j < |list|
          invariant 0 <= j <= |list|
          invariant forall v :: v in vlans <==> v in VlanIds(devices[..i]) || v in list[..j]
        {
          assert list[..j + 1] == list[..j] + [list[j]];
          vlans := vlans + {list[j]};
          j := j + 1;
        }
        assert list[..j] == list;
      }
      i := i + 1;
    }
    assert devices[..i] == devices;
  }

  // ---------------------------------------------------------------- per-location status counts

  /** `sum(1 for d in devices if d.get("status") == status)` */
  function CountStatus(raws: seq<RawDevice>, status: string): nat
    decreases |raws|
  {
    if raws == [] then 0
    else CountStatus(raws[..|raws| - 1], status) + (if raws[|raws| - 1].status == Some(status) then 1 else 0)
  }

  /** Counts of distinct statuses never exceed the number of devices. */
  lemma {:induction false} StatusCountsBounded(raws: seq<RawDevice>)
    ensures CountStatus(raws, OnlineStatus) + CountStatus(raws, OfflineStatus) + CountStatus(raws, WarningStatus) <= |raws|
    decreases |raws|
  {
    if raws != [] {
      StatusCountsBounded(raws[..|raws| - 1]);
    }
  }

  /**
   * The per-location offline count agrees with the global offline list: counting
   * a location's own devices gives the number of its tagged copies that are offline.
   */
  lemma {:induction false} CountStatusTagged(site: Option<string>, city: Option<string>, raws: seq<RawDevice>)
    ensures CountStatus(raws, OfflineStatus) == |OfflineDevices(Tag(site, city, raws))|
    ensures CountStatus(raws, WarningStatus) == |WarningDevices(Tag(site, city, raws))|
    ensures CountStatus(raws, OnlineStatus) == |Filter(Tag(site, city, raws), IsOnline)|
    decreases |raws|
  {
    if raws != [] {
      var init := raws[..|raws| - 1];
      CountStatusTagged(site, city, init);
      var tagged := Tag(site, city, init);
      assert (tagged + [Device(raws[|raws| - 1], site, city)])[..|tagged|] == tagged;
    }
  }
}

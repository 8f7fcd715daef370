/**
 * Concrete inventories and what the report makes of them: a nearly full switch,
 * a single offline device, a switch without ports, overlapping VLAN lists, and a
 * switch at a location without a site.
 */
module Scenarios {
  import opened Wrappers
  import opened Seqs
  import opened Devices
  import opened Statistics
  import opened Report


  function Switch(hostname: string, total: int, used: int): RawDevice {
    RawDevice(Some(hostname), None, Some(SwitchType), Some(OnlineStatus), None, Some(Ports(Some(total), Some(used))), None)
  }

  function Plain(hostname: string, status: string, vlans: Option<seq<int>>): RawDevice {
    RawDevice(Some(hostname), None, Some("router"), Some(status), None, None, vlans)
  }

  function OneLocation(raws: seq<RawDevice>): seq<Device> {
    Flatten([Location(Some("HQ"), None, None, raws)])
  }

  lemma OneLocationDevices(raws: seq<RawDevice>)
    ensures OneLocation(raws) == Tag(Some("HQ"), None, raws)
  {
    var locations := [Location(Some("HQ"), None, None, raws)];
    assert OneLocation(raws) == Flatten(locations);
    assert locations[..|locations| - 1] == [];
    assert Flatten(locations) == Flatten([]) + Tag(Some("HQ"), None, raws);
  }

  /** A switch using 9 of its 10 ports is a high-usage switch and its ports are the global totals. */
  lemma NearlyFullSwitch()
    ensures var devices := OneLocation([Switch("SW1", 10, 9)]);
      && TotalPorts(devices) == 10 && UsedPorts(devices) == 9
      && HighUsageSwitches(devices) == devices
      && PortSection(devices)[1] == PortTotals(9, 10, Ratio(9, 10))
  {
    var devices := OneLocation([Switch("SW1", 10, 9)]);
    OneLocationDevices([Switch("SW1", 10, 9)]);
    assert devices == [Device(Switch("SW1", 10, 9), Some("HQ"), None)];
    assert devices[..0] == [];
  }

  /** One offline device: the offline list holds exactly it and the warning list shows its notice. */
  lemma SingleOffline()
    ensures var devices := OneLocation([Plain("R1", OfflineStatus, None), Plain("R2", OnlineStatus, None)]);
      && OfflineDevices(devices) == [devices[0]]
      && NoneFound(NoWarning) in ProblemSection(devices)
      && NoneFound(NoOffline) !in ProblemSection(devices)
  {
    var raws := [Plain("R1", OfflineStatus, None), Plain("R2", OnlineStatus, None)];
    var devices := OneLocation(raws);
    OneLocationDevices(raws);
    assert raws[..1] == [raws[0]];
    assert devices == [Device(raws[0], Some("HQ"), None), Device(raws[1], Some("HQ"), None)];
    assert devices[..1] == [devices[0]];
    assert devices[..1][..0] == [];
    assert Filter(devices[..1], IsOffline) == [devices[0]];
    assert OfflineDevices(devices) == [devices[0]];
    assert Filter(devices[..1], IsWarning) == [];
    assert WarningDevices(devices) == [];
    ProblemSectionShape(devices);
  }

  /** A sole switch whose ports total 0 leaves no port data, and is not a high-usage switch. */
  lemma EmptySwitch()
    ensures var devices := OneLocation([Switch("SW0", 0, 0)]);
      && TotalPorts(devices) == 0
      && HighUsageSwitches(devices) == []
      && NoneFound(NoPortData) in PortSection(devices)
  {
    var devices := OneLocation([Switch("SW0", 0, 0)]);
    OneLocationDevices([Switch("SW0", 0, 0)]);
    assert devices == [Device(Switch("SW0", 0, 0), Some("HQ"), None)];
    assert devices[..0] == [];
    PortSectionShape(devices);
  }

  function OverlappingDevices(): seq<Device> {
    OneLocation([Plain("A", OnlineStatus, Some([10, 20])), Plain("B", OnlineStatus, Some([20, 30]))])
  }

  lemma OverlappingIds()
    ensures VlanIds(OverlappingDevices()) == [10, 20, 20, 30]
  {
    var raws := [Plain("A", OnlineStatus, Some([10, 20])), Plain("B", OnlineStatus, Some([20, 30]))];
    var devices := OverlappingDevices();
    OneLocationDevices(raws);
    assert raws[..1] == [raws[0]];
    assert devices == [Device(raws[0], Some("HQ"), None), Device(raws[1], Some("HQ"), None)];
    assert devices[..1] == [devices[0]];
    assert devices[..1][..0] == [];
    assert VlanIds(devices[..1]) == [10, 20];
  }

  lemma OverlappingSorted()
    ensures SortedIds([10, 20, 20, 30]) == [10, 20, 30]
  {
    var ids := [10, 20, 20, 30];
    assert ids[..3] == [10, 20, 20];
    assert ids[..3][..2] == [10, 20];
    assert ids[..3][..2][..1] == [10];
    assert SortedIds([10]) == [10] by {
      assert [10][..0] == [];
    }
    assert SortedIds([10, 20]) == [10, 20] by {
      assert [10, 20][..1] == [10];
      assert InsertSorted(20, [10]) == [10] + InsertSorted(20, []);
    }
    assert SortedIds([10, 20, 20]) == [10, 20] by {
      assert [10, 20, 20][..2] == [10, 20];
      assert InsertSorted(20, [10, 20]) == [10] + InsertSorted(20, [20]);
    }
    assert SortedIds(ids) == [10, 20, 30] by {
      assert InsertSorted(30, [10, 20]) == [10] + InsertSorted(30, [20]);
      assert InsertSorted(30, [20]) == [20] + InsertSorted(30, []);
    }
  }

  /** The VLAN lists [10, 20] and [20, 30] give the three identifiers 10, 20, 30. */
  lemma OverlappingVlans()
    ensures VlanListing(OverlappingDevices()) == [10, 20, 30]
    ensures VlanSection(OverlappingDevices()) == [Title(VlanOverview), VlanCount(3), VlanList([10, 20, 30])]
  {
    OverlappingIds();
    OverlappingSorted();
  }

  function SitelessInventory(): Inventory {
    Inventory(None, None, [Location(None, None, None, [Switch("SW1", 10, 9)])])
  }

  lemma SitelessDevices()
    ensures Flatten(SitelessInventory().locations) == [Device(Switch("SW1", 10, 9), None, None)]
  {
    var locations := SitelessInventory().locations;
    assert locations[..|locations| - 1] == [];
    assert Flatten(locations) == Flatten([]) + Tag(None, None, [Switch("SW1", 10, 9)]);
  }

  /**
   * A switch at a location without a `site`: the per-site key is `None`, whose row
   * raises, so the port section stops after its label.
   */
  lemma SitelessPorts()
    ensures PortSection(Flatten(SitelessInventory().locations))
      == [Title(SwitchPorts), PortTotals(9, 10, Ratio(9, 10)), Label(PerSiteHeading), Aborted]
  {
    SitelessDevices();
    var d := Device(Switch("SW1", 10, 9), None, None);
    var devices := [d];
    assert devices[..0] == [];
    assert IsPortedSwitch(d) && d.raw.ports.value.Total() == 10 && d.raw.ports.value.Used() == 9;
    assert TotalPorts(devices) == 10;
    assert UsedPorts(devices) == 9;
    var perSite := SitePorts(devices);
    assert perSite == Account(SitePorts([]), d);
    assert perSite.order == [None];
    assert FirstUnnamed(perSite.order) == 0;
    var high := HighUsageSwitches(devices);
    assert forall i :: 0 <= i < |high| ==> high[i] in high;
    assert SiteRows(perSite, 0) == [];
    assert AfterSites(true, high) == [Aborted];
    assert PortSection(devices) == PortLayout(10, 9, perSite, high);
  }

  /** The same inventory gives a report with no executive summary. */
  lemma SitelessLocation()
    ensures Title(Summary) !in ReportBody(SitelessInventory())
  {
    SitelessDevices();
    var d := Device(Switch("SW1", 10, 9), None, None);
    assert [d][..0] == [];
    assert TotalPorts([d]) == 10;
    assert SitelessSwitch([d]) by {
      assert d in [d];
    }
    ReportStops(SitelessInventory());
  }
}

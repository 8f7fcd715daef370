/**
 * The report sections, rendered abstractly: each section is the sequence of
 * lines it emits, a line being the choice of branch and row rather than its
 * exact text. The lemmas state which rows and notices each section emits.
 */
module Report {
  import opened Wrappers
  import opened Seqs
  import opened Dicts
  import opened Devices
  import opened Statistics

  datatype Section =
    | Problems | Uptime | DeviceTypes | SwitchPorts | HighUsage | VlanOverview | SitesOverview | Summary

  /** The explicit "none found" lines. */
  datatype Notice = NoOffline | NoWarning | NoLowUptime | NoPortData | NoHighUsage | NoVlans

  /** A printed percentage: the literal 0, or `part / whole * 100`. */
  datatype Percent = ZeroPercent | Ratio(part: int, whole: int)

  /** The four counts at the top of the executive summary. */
  datatype Gauge = OfflineCount | WarningCount | LowUptimeCount | HighUsageCount

  /** The fixed narrative sentences of the executive summary. */
  datatype Sentence =
    | OfflineNeedTroubleshooting(count: nat)
    | NoOfflineNow
    | DatacenterCapacity
    | HeadOfficeCapacity
    | UnstableUptime

  datatype SiteSummary = SiteSummary(
    site: string, city: string, contact: string,
    total: nat, online: nat, offline: nat, warning: nat)

  /** The fixed sub-headings: the two status lists, the per-site block, the summary text. */
  datatype Caption = OfflineHeading | WarningHeading | PerSiteHeading | SummaryHeading

  datatype Line =
    | Title(section: Section)
    | Label(caption: Caption)
    | NoneFound(notice: Notice)
    | DeviceRow(device: Device)
    | TypeRow(deviceType: string, count: nat)
    | PortTotals(used: int, total: int, percent: Percent)
    | SitePortRow(site: Option<string>, switches: nat, used: int, total: int, percent: Percent)
    | HighUsageRow(device: Device, used: int, total: int, percent: Percent)
    | VlanCount(count: nat)
    | VlanList(ids: seq<int>)
    | SiteBlock(summary: SiteSummary)
    | Headline(gauge: Gauge, count: nat)
    | Narrative(sentence: Sentence)
    /** Where writing stops: a row raised TypeError and nothing after it is written. */
    | Aborted

  // ---------------------------------------------------------------- device listings

  /** One row per device, in order. */
  function DeviceRows(devices: seq<Device>): (r: seq<Line>)
    ensures |r| == |devices|
    ensures forall l :: l in r ==> l.DeviceRow?
    decreases |devices|
  {
    if devices == [] then []
    else
      var init := devices[..|devices| - 1];
      var rows := DeviceRows(init);
      assert forall l :: l in rows + [DeviceRow(devices[|devices| - 1])] ==> l in rows || l.DeviceRow?;
      rows + [DeviceRow(devices[|devices| - 1])]
  }

  /** The rows of a list, or its "none found" line when it is empty. */
  function Listing(devices: seq<Device>, notice: Notice): seq<Line> {
    if devices == [] then [NoneFound(notice)] else DeviceRows(devices)
  }

  /** The devices of the device rows among `lines`, in order. */
  function RowDevices(lines: seq<Line>): seq<Device>
    decreases |lines|
  {
    if lines == [] then []
    else
      var l := lines[|lines| - 1];
      RowDevices(lines[..|lines| - 1]) + (if l.DeviceRow? then [l.device] else [])
  }

  lemma {:induction false} RowDevicesAppend(a: seq<Line>, b: seq<Line>)
    ensures RowDevices(a + b) == RowDevices(a) + RowDevices(b)
    decreases |b|
  {
    if b == [] {
      assert a + b == a;
    } else {
      assert (a + b)[..|a + b| - 1] == a + b[..|b| - 1];
      RowDevicesAppend(a, b[..|b| - 1]);
    }
  }

  lemma {:induction false} RowDevicesOfRows(devices: seq<Device>)
    ensures RowDevices(DeviceRows(devices)) == devices
    decreases |devices|
  {
    if devices != [] {
      var init := devices[..|devices| - 1];
      RowDevicesOfRows(init);
      var rows := DeviceRows(init);
      assert (rows + [DeviceRow(devices[|devices| - 1])])[..|rows|] == rows;
    }
  }

  lemma {:induction false} RowDevicesNone(lines: seq<Line>)
    requires forall i :: 0 <= i < |lines| ==> !lines[i].DeviceRow?
    ensures RowDevices(lines) == []
    decreases |lines|
  {
    if lines != [] {
      RowDevicesNone(lines[..|lines| - 1]);
    }
  }

  /** A listing shows exactly the listed devices, and its notice exactly when there are none. */
  lemma {:induction false} ListingShape(devices: seq<Device>, notice: Notice)
    ensures RowDevices(Listing(devices, notice)) == devices
    ensures NoneFound(notice) in Listing(devices, notice) <==> devices == []
  {
    if devices == [] {
      RowDevicesNone([NoneFound(notice)]);
    } else {
      RowDevicesOfRows(devices);
    }
  }

  // ---------------------------------------------------------------- problem devices

  /** The problem section for the given offline and warning lists. */
  function ProblemLayout(offline: seq<Device>, warning: seq<Device>): seq<Line> {
    [Title(Problems), Label(OfflineHeading)]
    + Listing(offline, NoOffline)
    + [Label(WarningHeading)]
    + Listing(warning, NoWarning)
  }

  /** `write_problem_devices` */
  function ProblemSection(devices: seq<Device>): seq<Line> {
    ProblemLayout(OfflineDevices(devices), WarningDevices(devices))
  }

  lemma {:induction false} ProblemLayoutShape(offline: seq<Device>, warning: seq<Device>)
    ensures RowDevices(ProblemLayout(offline, warning)) == offline + warning
    ensures NoneFound(NoOffline) in ProblemLayout(offline, warning) <==> offline == []
    ensures NoneFound(NoWarning) in ProblemLayout(offline, warning) <==> warning == []
  {
    var head := [Title(Problems), Label(OfflineHeading)];
    var first := Listing(offline, NoOffline);
    var mid := [Label(WarningHeading)];
    var second := Listing(warning, NoWarning);
    ListingShape(offline, NoOffline);
    ListingShape(warning, NoWarning);
    assert ProblemLayout(offline, warning) == head + first + mid + second;
    assert RowDevices(head + first + mid + second) == offline + warning by {
      RowDevicesNone(head);
      RowDevicesNone(mid);
      RowDevicesAppend(head, first);
      assert RowDevices(head + first) == offline;
      RowDevicesAppend(head + first, mid);
      assert RowDevices(head + first + mid) == offline;
      RowDevicesAppend(head + first + mid, second);
    }
    assert NoneFound(NoOffline) !in second;
    assert NoneFound(NoWarning) !in first;
  }

  /**
   * After the title and the offline heading comes the offline listing; the warning
   * heading follows it, and the warning listing closes the section.
   */
  lemma ProblemLayoutBlocks(offline: seq<Device>, warning: seq<Device>)
    ensures var layout := ProblemLayout(offline, warning);
      var first := Listing(offline, NoOffline);
      && layout[..2] == [Title(Problems), Label(OfflineHeading)]
      && layout[2..2 + |first|] == first
      && layout[2 + |first|] == Label(WarningHeading)
      && layout[3 + |first|..] == Listing(warning, NoWarning)
  {
    var head := [Title(Problems), Label(OfflineHeading)];
    var first := Listing(offline, NoOffline);
    var mid := [Label(WarningHeading)];
    var second := Listing(warning, NoWarning);
    var layout := head + first + mid + second;
    assert layout == ProblemLayout(offline, warning);
    assert layout[..2] == head;
    assert layout[2..2 + |first|] == first;
    assert layout[3 + |first|..] == second;
  }

  /**
   * The rows are the offline devices, then the warning devices, each in device
   * order; each list shows its "none" line exactly when it is empty, so a list
   * is followed by its rows or by its notice, never both.
   */
  lemma ProblemSectionShape(devices: seq<Device>)
    ensures RowDevices(ProblemSection(devices)) == OfflineDevices(devices) + WarningDevices(devices)
    ensures NoneFound(NoOffline) in ProblemSection(devices) <==> OfflineDevices(devices) == []
    ensures NoneFound(NoWarning) in ProblemSection(devices) <==> WarningDevices(devices) == []
  {
    ProblemLayoutShape(OfflineDevices(devices), WarningDevices(devices));
  }

  // ---------------------------------------------------------------- low uptime

  /** `write_low_uptime` */
  function UptimeSection(devices: seq<Device>): seq<Line> {
    [Title(Uptime)] + Listing(LowUptimeDevices(devices), NoLowUptime)
  }

  /**
   * The rows are the devices that report fewer than 30 days of uptime, in device
   * order; the notice appears exactly when there are none.
   */
  lemma {:induction false} UptimeSectionShape(devices: seq<Device>)
    ensures RowDevices(UptimeSection(devices)) == LowUptimeDevices(devices)
    ensures forall d :: d in RowDevices(UptimeSection(devices)) ==>
      d.raw.uptimeDays.Some? && d.raw.uptimeDays.value < LowUptimeDays
    ensures NoneFound(NoLowUptime) in UptimeSection(devices) <==> LowUptimeDevices(devices) == []
  {
    var low := LowUptimeDevices(devices);
    ListingShape(low, NoLowUptime);
    RowDevicesNone([Title(Uptime)]);
    RowDevicesAppend([Title(Uptime)], Listing(low, NoLowUptime));
    LowUptimeExact(devices);
  }

  // ---------------------------------------------------------------- device types

  /** `write_device_type_stats`: one row per histogram entry, in key order. */
  function TypeSection(devices: seq<Device>): seq<Line> {
    var stats := TypeCounts(devices);
    [Title(DeviceTypes)]
    + seq(|stats.order|, i requires 0 <= i < |stats.order| => TypeRow(stats.order[i], stats.values[stats.order[i]]))
  }

  /**
   * One row per distinct type, in first-seen order, each with the number of
   * devices of that type (a missing type counted as "okänd").
   */
  lemma TypeSectionShape(devices: seq<Device>)
    ensures |TypeSection(devices)| == 1 + |FirstSeen(TypeKeys(devices))|
    ensures forall i :: 1 <= i < |TypeSection(devices)| ==>
      TypeSection(devices)[i] == TypeRow(FirstSeen(TypeKeys(devices))[i - 1],
                                         multiset(TypeKeys(devices))[FirstSeen(TypeKeys(devices))[i - 1]])
  {
    var stats := TypeCounts(devices);
    var keys := TypeKeys(devices);
    TypeCountsOrder(devices);
    TypeCountsValues(devices);
    var section := TypeSection(devices);
    assert |section| == 1 + |stats.order|;
    forall i | 1 <= i < |section|
      ensures section[i] == TypeRow(FirstSeen(keys)[i - 1], multiset(keys)[FirstSeen(keys)[i - 1]])
    {
      var t := stats.order[i - 1];
      assert t in stats.values;
      assert section[i] == TypeRow(t, stats.values[t]);
    }
  }

  // ---------------------------------------------------------------- port usage

  function SitePercent(t: Tally): Percent {
    if t.total == 0 then ZeroPercent else Ratio(t.used, t.total)
  }

  function SiteRow(site: Option<string>, t: Tally): Line {
    SitePortRow(site, t.switches, t.used, t.total, SitePercent(t))
  }

  /**
   * The position of the first per-site key that is not a site name (`None`, from
   * a location without a `site`), or the number of keys when every key is named.
   */
  function FirstUnnamed(order: seq<Option<string>>): (k: nat)
    ensures k <= |order|
    ensures forall i :: 0 <= i < k ==> order[i].Some?
    ensures k < |order| ==> order[k] == None
    ensures k == |order| <==> None !in order
    decreases |order|
  {
    if order == [] then 0
    else if order[0] == None then 0
    else 1 + FirstUnnamed(order[1..])
  }

  /** The rows of the first `count` per-site entries, in key order. */
  function SiteRows(perSite: Dict<Option<string>, Tally>, count: nat): seq<Line>
    requires perSite.Valid() && count <= |perSite.order|
  {
    seq(count, i requires 0 <= i < count => SiteRow(perSite.order[i], perSite.values[perSite.order[i]]))
  }

  function HighUsageLine(d: Device): Line
    requires IsHighUsage(d)
  {
    var p := d.raw.ports.value;
    HighUsageRow(d, p.Used(), p.Total(), Ratio(p.Used(), p.Total()))
  }

  function HighUsageRows(switches: seq<Device>): (r: seq<Line>)
    requires forall i :: 0 <= i < |switches| ==> IsHighUsage(switches[i])
    ensures |r| == |switches|
    ensures forall i :: 0 <= i < |r| ==> r[i] == HighUsageLine(switches[i])
    decreases |switches|
  {
    if switches == [] then []
    else HighUsageRows(switches[..|switches| - 1]) + [HighUsageLine(switches[|switches| - 1])]
  }

  /** The high-usage block: its rows, or its notice when there are none. */
  function HighUsageTail(high: seq<Device>): seq<Line>
    requires forall i :: 0 <= i < |high| ==> IsHighUsage(high[i])
  {
    if high == [] then [NoneFound(NoHighUsage)] else HighUsageRows(high)
  }

  /**
   * What follows the written per-site rows: the exception raised by the row of an
   * unnamed site, or the high-usage title and block.
   */
  function AfterSites(raises: bool, high: seq<Device>): seq<Line>
    requires forall i :: 0 <= i < |high| ==> IsHighUsage(high[i])
  {
    if raises then [Aborted] else [Title(HighUsage)] + HighUsageTail(high)
  }

  /** The totals line and the "Per site" label. */
  function PortHead(total: int, used: int): seq<Line> {
    [Title(SwitchPorts), PortTotals(used, total, Ratio(used, total)), Label(PerSiteHeading)]
  }

  /**
   * The port section for the given global totals, per-site entries and high-usage
   * switches. The rows of the named sites before the first unnamed one are written;
   * formatting a `None` key with `:15` raises TypeError, which ends the output.
   */
  function PortLayout(total: int, used: int, perSite: Dict<Option<string>, Tally>, high: seq<Device>): seq<Line>
    requires perSite.Valid()
    requires forall i :: 0 <= i < |high| ==> IsHighUsage(high[i])
  {
    if total == 0 then [Title(SwitchPorts), NoneFound(NoPortData)]
    else
      var named := FirstUnnamed(perSite.order);
      PortHead(total, used) + SiteRows(perSite, named) + AfterSites(named < |perSite.order|, high)
  }

  /** `write_port_usage_stats`: global totals, per-site rows, then the high-usage list. */
  function PortSection(devices: seq<Device>): seq<Line> {
    var high := HighUsageSwitches(devices);
    assert forall i :: 0 <= i < |high| ==> high[i] in high;
    PortLayout(TotalPorts(devices), UsedPorts(devices), SitePorts(devices), high)
  }

  /** The devices of the high-usage rows among `lines`, in order. */
  function HighRowDevices(lines: seq<Line>): seq<Device>
    decreases |lines|
  {
    if lines == [] then []
    else
      var l := lines[|lines| - 1];
      HighRowDevices(lines[..|lines| - 1]) + (if l.HighUsageRow? then [l.device] else [])
  }

  lemma {:induction false} HighRowDevicesAppend(a: seq<Line>, b: seq<Line>)
    ensures HighRowDevices(a + b) == HighRowDevices(a) + HighRowDevices(b)
    decreases |b|
  {
    if b == [] {
      assert a + b == a;
    } else {
      assert (a + b)[..|a + b| - 1] == a + b[..|b| - 1];
      HighRowDevicesAppend(a, b[..|b| - 1]);
    }
  }

  lemma {:induction false} HighRowDevicesNone(lines: seq<Line>)
    requires forall i :: 0 <= i < |lines| ==> !lines[i].HighUsageRow?
    ensures HighRowDevices(lines) == []
    decreases |lines|
  {
    if lines != [] {
      HighRowDevicesNone(lines[..|lines| - 1]);
    }
  }

  lemma {:induction false} HighRowDevicesOfRows(switches: seq<Device>)
    requires forall i :: 0 <= i < |switches| ==> IsHighUsage(switches[i])
    ensures HighRowDevices(HighUsageRows(switches)) == switches
    decreases |switches|
  {
    if switches != [] {
      var init := switches[..|switches| - 1];
      HighRowDevicesOfRows(init);
      var rows := HighUsageRows(init);
      assert (rows + [HighUsageLine(switches[|switches| - 1])])[..|rows|] == rows;
    }
  }

  /** A printed percentage is either the literal 0 or a division by a non-zero total. */
  predicate Guarded(p: Percent) {
    p.Ratio? ==> p.whole != 0
  }

  /**
   * Every percentage on the line is computed with a safe denominator: the global one
   * with a non-zero total, a per-site one only for a non-zero total (0 otherwise), a
   * high-usage one with a positive total.
   */
  predicate DividesSafely(l: Line) {
    match l
    case PortTotals(_, total, p) => p.Ratio? && p.whole == total && total != 0
    case SitePortRow(_, _, _, total, p) => (p.ZeroPercent? <==> total == 0) && Guarded(p)
    case HighUsageRow(_, _, total, p) => p.Ratio? && p.whole == total && total > 0
    case _ => true
  }

  predicate PrintsPercent(l: Line) {
    l.PortTotals? || l.SitePortRow? || l.HighUsageRow?
  }

  lemma SiteRowsShape(perSite: Dict<Option<string>, Tally>, count: nat)
    requires perSite.Valid() && count <= |perSite.order|
    ensures |SiteRows(perSite, count)| == count
    ensures forall l :: l in SiteRows(perSite, count) ==> l.SitePortRow? && DividesSafely(l)
  {
  }

  lemma HighUsageTailRows(high: seq<Device>)
    requires forall i :: 0 <= i < |high| ==> IsHighUsage(high[i])
    ensures HighRowDevices(HighUsageTail(high)) == high
  {
    if high == [] {
      HighRowDevicesNone([NoneFound(NoHighUsage)]);
    } else {
      HighRowDevicesOfRows(high);
    }
  }

  /** Every line of the high-usage block is a row with a positive total, or the block is the notice alone. */
  lemma HighUsageTailLines(high: seq<Device>)
    requires forall i :: 0 <= i < |high| ==> IsHighUsage(high[i])
    ensures high == [] ==> HighUsageTail(high) == [NoneFound(NoHighUsage)]
    ensures high != [] ==> forall l :: l in HighUsageTail(high) ==> l.HighUsageRow? && DividesSafely(l)
  {
    if high != [] {
      var rows := HighUsageRows(high);
      forall l | l in rows ensures l.HighUsageRow? && DividesSafely(l) {
        var i :| 0 <= i < |rows| && rows[i] == l;
        assert l == HighUsageLine(high[i]);
      }
    }
  }

  lemma HighUsageTailShape(high: seq<Device>)
    requires forall i :: 0 <= i < |high| ==> IsHighUsage(high[i])
    ensures HighRowDevices(HighUsageTail(high)) == high
    ensures NoneFound(NoHighUsage) in HighUsageTail(high) <==> high == []
    ensures NoneFound(NoPortData) !in HighUsageTail(high)
    ensures forall l :: l in HighUsageTail(high) ==> DividesSafely(l) && !l.Aborted? && !l.Title?
  {
    HighUsageTailRows(high);
    HighUsageTailLines(high);
  }

  /** The high-usage block is its notice alone, or high-usage rows only. */
  lemma HighUsageTailKinds(high: seq<Device>)
    requires forall i :: 0 <= i < |high| ==> IsHighUsage(high[i])
    ensures forall i :: 0 <= i < |HighUsageTail(high)| ==>
      HighUsageTail(high)[i].HighUsageRow? || (high == [] && HighUsageTail(high)[i] == NoneFound(NoHighUsage))
  {
  }

  /** After the per-site rows come no high-usage rows when the section raises, and otherwise exactly `high`. */
  lemma AfterSitesRows(raises: bool, high: seq<Device>)
    requires forall i :: 0 <= i < |high| ==> IsHighUsage(high[i])
    ensures HighRowDevices(AfterSites(raises, high)) == (if raises then [] else high)
  {
    if raises {
      HighRowDevicesNone([Aborted]);
    } else {
      HighUsageTailRows(high);
      HighRowDevicesNone([Title(HighUsage)]);
      HighRowDevicesAppend([Title(HighUsage)], HighUsageTail(high));
    }
  }

  /**
   * After the per-site rows comes either the exception alone, or the high-usage
   * title followed by the high-usage rows or their notice.
   */
  lemma AfterSitesLines(raises: bool, high: seq<Device>)
    requires forall i :: 0 <= i < |high| ==> IsHighUsage(high[i])
    ensures NoneFound(NoHighUsage) in AfterSites(raises, high) <==> !raises && high == []
    ensures Aborted in AfterSites(raises, high) <==> raises
    ensures raises ==> AfterSites(raises, high) == [Aborted]
    ensures NoneFound(NoPortData) !in AfterSites(raises, high)
  {
    if !raises {
      var tail := HighUsageTail(high);
      HighUsageTailKinds(high);
      if high == [] {
        assert tail[0] == NoneFound(NoHighUsage);
      }
      assert forall l :: l in tail ==> l.HighUsageRow? || l == NoneFound(NoHighUsage) by {
        forall l | l in tail ensures l.HighUsageRow? || l == NoneFound(NoHighUsage) {
          var i :| 0 <= i < |tail| && tail[i] == l;
        }
      }
      assert high != [] ==> NoneFound(NoHighUsage) !in tail;
    }
  }

  lemma AfterSitesSafe(raises: bool, high: seq<Device>)
    requires forall i :: 0 <= i < |high| ==> IsHighUsage(high[i])
    ensures forall i :: 0 <= i < |AfterSites(raises, high)| ==> DividesSafely(AfterSites(raises, high)[i])
  {
    if !raises {
      var tail := HighUsageTail(high);
      HighUsageTailLines(high);
      assert forall i :: 0 <= i < |tail| ==> tail[i] in tail;
    }
  }

  lemma PortLayoutNoData(total: int, used: int, perSite: Dict<Option<string>, Tally>, high: seq<Device>)
    requires perSite.Valid()
    requires forall i :: 0 <= i < |high| ==> IsHighUsage(high[i])
    ensures NoneFound(NoPortData) in PortLayout(total, used, perSite, high) <==> total == 0
    ensures total == 0 ==> forall l :: l in PortLayout(total, used, perSite, high) ==> !PrintsPercent(l)
    ensures total == 0 ==>
      && Label(PerSiteHeading) !in PortLayout(total, used, perSite, high)
      && Title(HighUsage) !in PortLayout(total, used, perSite, high)
      && NoneFound(NoHighUsage) !in PortLayout(total, used, perSite, high)
  {
    if total != 0 {
      var named := FirstUnnamed(perSite.order);
      var sites := SiteRows(perSite, named);
      var after := AfterSites(named < |perSite.order|, high);
      assert PortHead(total, used) + sites + after == PortLayout(total, used, perSite, high);
      SiteRowsShape(perSite, named);
      AfterSitesLines(named < |perSite.order|, high);
      assert NoneFound(NoPortData) !in PortHead(total, used) + sites;
    }
  }

  lemma PortLayoutSafe(total: int, used: int, perSite: Dict<Option<string>, Tally>, high: seq<Device>)
    requires perSite.Valid()
    requires forall i :: 0 <= i < |high| ==> IsHighUsage(high[i])
    ensures forall l :: l in PortLayout(total, used, perSite, high) ==> DividesSafely(l)
  {
    if total != 0 {
      var head := PortHead(total, used);
      var named := FirstUnnamed(perSite.order);
      var sites := SiteRows(perSite, named);
      var after := AfterSites(named < |perSite.order|, high);
      assert head + sites + after == PortLayout(total, used, perSite, high);
      assert forall i :: 0 <= i < |sites| ==> DividesSafely(sites[i]);
      AfterSitesSafe(named < |perSite.order|, high);
      assert forall i :: 0 <= i < |head| ==> DividesSafely(head[i]);
      AllOfConcat(head, sites, after, DividesSafely);
    }
  }

  /**
   * With port data, the section stops with the exception exactly when some per-site
   * key is `None`; the exception is then its last line and no high-usage title follows.
   */
  lemma PortLayoutRaises(total: int, used: int, perSite: Dict<Option<string>, Tally>, high: seq<Device>)
    requires perSite.Valid()
    requires forall i :: 0 <= i < |high| ==> IsHighUsage(high[i])
    ensures Aborted in PortLayout(total, used, perSite, high) <==> total != 0 && None in perSite.order
    ensures Aborted in PortLayout(total, used, perSite, high) ==>
      var layout := PortLayout(total, used, perSite, high);
      && layout[|layout| - 1] == Aborted
      && Aborted !in layout[..|layout| - 1]
      && Title(HighUsage) !in layout
  {
    if total != 0 {
      var head := PortHead(total, used);
      var named := FirstUnnamed(perSite.order);
      var sites := SiteRows(perSite, named);
      var after := AfterSites(named < |perSite.order|, high);
      var layout := head + sites + after;
      assert layout == PortLayout(total, used, perSite, high);
      SiteRowsShape(perSite, named);
      AfterSitesLines(named < |perSite.order|, high);
      assert Aborted !in head + sites;
      if named < |perSite.order| {
        assert layout[..|layout| - 1] == head + sites;
        assert Title(HighUsage) !in head + sites;
      }
    }
  }

  lemma PortHeadNoHigh(total: int, used: int)
    ensures HighRowDevices(PortHead(total, used)) == []
  {
    HighRowDevicesNone(PortHead(total, used));
  }

  lemma SiteRowsNoHigh(perSite: Dict<Option<string>, Tally>, count: nat)
    requires perSite.Valid() && count <= |perSite.order|
    ensures HighRowDevices(SiteRows(perSite, count)) == []
  {
    var sites := SiteRows(perSite, count);
    assert forall i :: 0 <= i < |sites| ==> sites[i].SitePortRow?;
    HighRowDevicesNone(sites);
  }

  lemma {:induction false} PortLayoutHigh(total: int, used: int, perSite: Dict<Option<string>, Tally>, high: seq<Device>)
    requires perSite.Valid()
    requires forall i :: 0 <= i < |high| ==> IsHighUsage(high[i])
    requires total != 0
    ensures HighRowDevices(PortLayout(total, used, perSite, high)) == if None in perSite.order then [] else high
  {
    var head := PortHead(total, used);
    var named := FirstUnnamed(perSite.order);
    var sites := SiteRows(perSite, named);
    var after := AfterSites(named < |perSite.order|, high);
    assert head + sites + after == PortLayout(total, used, perSite, high);
    PortHeadNoHigh(total, used);
    SiteRowsNoHigh(perSite, named);
    HighRowDevicesOfLast(head, sites, after);
    AfterSitesRows(named < |perSite.order|, high);
    assert (named < |perSite.order|) == (None in perSite.order);
  }

  /** High-usage rows of three blocks, the first two of which have none. */
  lemma HighRowDevicesOfLast(head: seq<Line>, sites: seq<Line>, after: seq<Line>)
    requires HighRowDevices(head) == [] && HighRowDevices(sites) == []
    ensures HighRowDevices(head + sites + after) == HighRowDevices(after)
  {
    HighRowDevicesAppend(head, sites);
    HighRowDevicesAppend(head + sites, after);
  }

  /** A line that is in neither of the first two blocks is in the three only if it is in the last. */
  lemma InLastBlock(head: seq<Line>, sites: seq<Line>, after: seq<Line>, l: Line)
    requires l !in head && l !in sites
    ensures l in head + sites + after <==> l in after
  {
  }

  lemma PortLayoutHighNotice(total: int, used: int, perSite: Dict<Option<string>, Tally>, high: seq<Device>)
    requires perSite.Valid()
    requires forall i :: 0 <= i < |high| ==> IsHighUsage(high[i])
    requires total != 0
    ensures NoneFound(NoHighUsage) in PortLayout(total, used, perSite, high) <==> None !in perSite.order && high == []
  {
    var head := PortHead(total, used);
    var named := FirstUnnamed(perSite.order);
    var sites := SiteRows(perSite, named);
    var after := AfterSites(named < |perSite.order|, high);
    assert head + sites + after == PortLayout(total, used, perSite, high);
    assert NoneFound(NoHighUsage) !in head;
    SiteRowsShape(perSite, named);
    InLastBlock(head, sites, after, NoneFound(NoHighUsage));
    AfterSitesLines(named < |perSite.order|, high);
    assert (named < |perSite.order|) == (None in perSite.order);
  }

  /**
   * After the totals line and the label come the rows of the per-site entries in key
   * order, up to the first unnamed key; the line after them is the exception when
   * there is an unnamed key.
   */
  lemma PortLayoutSites(total: int, used: int, perSite: Dict<Option<string>, Tally>, high: seq<Device>)
    requires perSite.Valid()
    requires forall i :: 0 <= i < |high| ==> IsHighUsage(high[i])
    requires total != 0
    ensures forall i :: 0 <= i < FirstUnnamed(perSite.order) ==>
      && 3 + i < |PortLayout(total, used, perSite, high)|
      && PortLayout(total, used, perSite, high)[3 + i] == SiteRow(perSite.order[i], perSite.values[perSite.order[i]])
    ensures FirstUnnamed(perSite.order) < |perSite.order| ==>
      && 3 + FirstUnnamed(perSite.order) < |PortLayout(total, used, perSite, high)|
      && PortLayout(total, used, perSite, high)[3 + FirstUnnamed(perSite.order)] == Aborted
  {
    var head := PortHead(total, used);
    var named := FirstUnnamed(perSite.order);
    var sites := SiteRows(perSite, named);
    var after := AfterSites(named < |perSite.order|, high);
    var all := head + sites + after;
    assert all == PortLayout(total, used, perSite, high);
    forall i | 0 <= i < named
      ensures 3 + i < |all| && all[3 + i] == SiteRow(perSite.order[i], perSite.values[perSite.order[i]])
    {
      IndexOfConcat(head, sites, after, i);
    }
    if named < |perSite.order| {
      assert after == [Aborted];
      assert all[|head| + |sites|] == after[0];
    }
  }

  /**
   * With port data, the section opens with the title, the global totals line and
   * the "Per site" label; after the rows of the named sites comes either the
   * exception or the high-usage title and block, and nothing else.
   */
  lemma PortLayoutParts(total: int, used: int, perSite: Dict<Option<string>, Tally>, high: seq<Device>)
    requires perSite.Valid()
    requires forall i :: 0 <= i < |high| ==> IsHighUsage(high[i])
    requires total != 0
    ensures var layout := PortLayout(total, used, perSite, high);
      var named := FirstUnnamed(perSite.order);
      && 3 + named <= |layout|
      && layout[..3] == [Title(SwitchPorts), PortTotals(used, total, Ratio(used, total)), Label(PerSiteHeading)]
      && layout[3 + named..] == AfterSites(None in perSite.order, high)
  {
    var head := PortHead(total, used);
    var named := FirstUnnamed(perSite.order);
    var sites := SiteRows(perSite, named);
    var after := AfterSites(named < |perSite.order|, high);
    var layout := head + sites + after;
    assert layout == PortLayout(total, used, perSite, high);
    assert layout[..3] == head;
    assert layout[3 + named..] == after;
  }

  /**
   * The frame of a section with port data: the title, the global totals line with
   * the used and total ports of all ported switches and their ratio, the "Per site"
   * label, one per-site row for each named site before the first unnamed one, and
   * then exactly the exception or the high-usage title and block.
   */
  predicate PortSectionFrame(devices: seq<Device>) {
    var section := PortSection(devices);
    var named := FirstUnnamed(SitePorts(devices).order);
    var high := HighUsageSwitches(devices);
    && 3 + named <= |section|
    && section[..3] == [Title(SwitchPorts),
      PortTotals(UsedPorts(devices), TotalPorts(devices), Ratio(UsedPorts(devices), TotalPorts(devices))),
      Label(PerSiteHeading)]
    && (forall i :: 3 <= i < 3 + named ==> section[i].SitePortRow?)
    && (forall i :: 0 <= i < |high| ==> IsHighUsage(high[i]))
    && section[3 + named..] == AfterSites(SitelessSwitch(devices), high)
  }

  lemma PortSectionParts(devices: seq<Device>)
    requires TotalPorts(devices) != 0
    ensures PortSectionFrame(devices)
  {
    var high := HighUsageSwitches(devices);
    assert forall i :: 0 <= i < |high| ==> high[i] in high;
    SitelessSwitchKey(devices);
    PortLayoutParts(TotalPorts(devices), UsedPorts(devices), SitePorts(devices), high);
    PortLayoutSites(TotalPorts(devices), UsedPorts(devices), SitePorts(devices), high);
  }

  /**
   * The "no port data" notice appears exactly when the global total is 0, and
   * it then ends the section: no percentage, no per-site label and no high-usage
   * title or notice is printed. Every printed percentage divides by a
   * non-zero total. Otherwise the section raises exactly when some ported switch
   * has no site, and then prints no high-usage row; when it does not raise, the
   * high-usage rows are exactly the high-usage switches in device order, and their
   * notice appears exactly when there are none. With port data the section has
   * the frame above, whose totals line carries the global used and total ports.
   */
  lemma PortSectionShape(devices: seq<Device>)
    ensures NoneFound(NoPortData) in PortSection(devices) <==> TotalPorts(devices) == 0
    ensures TotalPorts(devices) == 0 ==> forall l :: l in PortSection(devices) ==> !PrintsPercent(l)
    ensures TotalPorts(devices) == 0 ==>
      && Label(PerSiteHeading) !in PortSection(devices)
      && Title(HighUsage) !in PortSection(devices)
      && NoneFound(NoHighUsage) !in PortSection(devices)
    ensures forall l :: l in PortSection(devices) ==> DividesSafely(l)
    ensures Aborted in PortSection(devices) <==> TotalPorts(devices) != 0 && SitelessSwitch(devices)
    ensures TotalPorts(devices) != 0 ==>
      && HighRowDevices(PortSection(devices)) == (if SitelessSwitch(devices) then [] else HighUsageSwitches(devices))
      && (NoneFound(NoHighUsage) in PortSection(devices) <==> !SitelessSwitch(devices) && HighUsageSwitches(devices) == [])
    ensures TotalPorts(devices) != 0 ==> PortSectionFrame(devices)
  {
    var high := HighUsageSwitches(devices);
    assert forall i :: 0 <= i < |high| ==> high[i] in high;
    SitelessSwitchKey(devices);
    PortLayoutNoData(TotalPorts(devices), UsedPorts(devices), SitePorts(devices), high);
    PortLayoutSafe(TotalPorts(devices), UsedPorts(devices), SitePorts(devices), high);
    PortLayoutRaises(TotalPorts(devices), UsedPorts(devices), SitePorts(devices), high);
    if TotalPorts(devices) != 0 {
      PortLayoutHigh(TotalPorts(devices), UsedPorts(devices), SitePorts(devices), high);
      PortLayoutHighNotice(TotalPorts(devices), UsedPorts(devices), SitePorts(devices), high);
      PortSectionParts(devices);
    }
  }

  /**
   * When the global total is not 0, the per-site rows follow the first-seen order of
   * the sites of the ported switches, up to the first site that is `None`; each row
   * holds the switch count, used ports and total ports of exactly the ported switches
   * at that site, and at the first `None` site the section raises.
   */
  lemma SiteRowsCorrect(devices: seq<Device>)
    requires TotalPorts(devices) != 0
    ensures forall i :: 0 <= i < FirstUnnamed(FirstSeen(Sites(PortedSwitches(devices)))) ==>
      var site := FirstSeen(Sites(PortedSwitches(devices)))[i];
      var at := AtSite(devices, site);
      && 3 + i < |PortSection(devices)|
      && PortSection(devices)[3 + i] == SiteRow(site, Tally(|PortedSwitches(at)|, UsedPorts(at), TotalPorts(at)))
    ensures var k := FirstUnnamed(FirstSeen(Sites(PortedSwitches(devices))));
      k < |FirstSeen(Sites(PortedSwitches(devices)))| ==> 3 + k < |PortSection(devices)| && PortSection(devices)[3 + k] == Aborted
  {
    var high := HighUsageSwitches(devices);
    assert forall i :: 0 <= i < |high| ==> high[i] in high;
    var perSite := SitePorts(devices);
    var keys := FirstSeen(Sites(PortedSwitches(devices)));
    var all := PortSection(devices);
    assert all == PortLayout(TotalPorts(devices), UsedPorts(devices), perSite, high);
    PortLayoutSites(TotalPorts(devices), UsedPorts(devices), perSite, high);
    SiteOrderFirstSeen(devices);
    forall i | 0 <= i < FirstUnnamed(keys)
      ensures && 3 + i < |all|
              && all[3 + i] == SiteRow(keys[i], Tally(|PortedSwitches(AtSite(devices, keys[i]))|,
                                                     UsedPorts(AtSite(devices, keys[i])),
                                                     TotalPorts(AtSite(devices, keys[i]))))
    {
      var site := keys[i];
      assert site == perSite.order[i];
      assert site in perSite.values;
      SitePortsEntry(devices, site);
    }
  }

  /** A printed percentage, if it is a division, divides by a positive total. */
  predicate PositiveDenominator(l: Line) {
    PrintsPercent(l) && l.percent.Ratio? ==> l.percent.whole > 0
  }

  lemma SiteRowsPositive(perSite: Dict<Option<string>, Tally>, count: nat)
    requires perSite.Valid() && count <= |perSite.order|
    requires forall k :: k in perSite.values ==> perSite.values[k].total >= 0
    ensures forall i :: 0 <= i < |SiteRows(perSite, count)| ==> PositiveDenominator(SiteRows(perSite, count)[i])
  {
    forall i | 0 <= i < |SiteRows(perSite, count)| ensures PositiveDenominator(SiteRows(perSite, count)[i]) {
      assert perSite.order[i] in perSite.values;
    }
  }

  lemma AfterSitesPositive(raises: bool, high: seq<Device>)
    requires forall i :: 0 <= i < |high| ==> IsHighUsage(high[i])
    ensures forall i :: 0 <= i < |AfterSites(raises, high)| ==> PositiveDenominator(AfterSites(raises, high)[i])
  {
    var after := AfterSites(raises, high);
    AfterSitesSafe(raises, high);
    assert forall i :: 0 <= i < |after| ==> after[i] in after;
  }

  lemma PortLayoutPositive(total: int, used: int, perSite: Dict<Option<string>, Tally>, high: seq<Device>)
    requires perSite.Valid()
    requires forall i :: 0 <= i < |high| ==> IsHighUsage(high[i])
    requires total >= 0
    requires forall k :: k in perSite.values ==> perSite.values[k].total >= 0
    ensures forall l :: l in PortLayout(total, used, perSite, high) ==> PositiveDenominator(l)
  {
    if total != 0 {
      var head := PortHead(total, used);
      var named := FirstUnnamed(perSite.order);
      var sites := SiteRows(perSite, named);
      var after := AfterSites(named < |perSite.order|, high);
      assert head + sites + after == PortLayout(total, used, perSite, high);
      SiteRowsPositive(perSite, named);
      AfterSitesPositive(named < |perSite.order|, high);
      assert forall i :: 0 <= i < |head| ==> PositiveDenominator(head[i]);
      AllOfConcat(head, sites, after, PositiveDenominator);
    }
  }

  /**
   * With port counts that are not negative, every printed percentage divides by a
   * positive total.
   */
  lemma PortPercentsPositive(devices: seq<Device>)
    requires forall d :: d in devices ==> PortsNonNegative(d)
    ensures forall l :: l in PortSection(devices) ==> PositiveDenominator(l)
  {
    var high := HighUsageSwitches(devices);
    assert forall i :: 0 <= i < |high| ==> high[i] in high;
    var perSite := SitePorts(devices);
    TotalPortsNonNegative(devices);
    forall site | site in perSite.values ensures perSite.values[site].total >= 0 {
      SitePortsEntry(devices, site);
      TotalPortsNonNegative(AtSite(devices, site));
    }
    PortLayoutPositive(TotalPorts(devices), UsedPorts(devices), perSite, high);
  }

  // ---------------------------------------------------------------- VLANs

  /** The unique VLAN identifiers, ascending. */
  function VlanListing(devices: seq<Device>): (r: seq<int>)
    ensures StrictlyAscending(r)
    ensures forall v :: v in r <==> exists d :: d in devices && d.raw.vlans.Some? && v in d.raw.vlans.value
  {
    VlanIdsMembership(devices);
    SortedIds(VlanIds(devices))
  }

  /**
   * `sorted(vlans)` of the set the loop collects is the printed list: any strictly
   * ascending list holding exactly that set's members equals `VlanListing`.
   */
  lemma SortedSetIsListing(devices: seq<Device>, vlans: set<int>, sorted: seq<int>)
    requires forall v :: v in vlans <==> v in VlanIds(devices)
    requires StrictlyAscending(sorted)
    requires forall v :: v in sorted <==> v in vlans
    ensures sorted == VlanListing(devices)
  {
    AscendingUnique(sorted, VlanListing(devices));
  }

  function VlanLayout(ids: seq<int>): seq<Line> {
    if ids == [] then [Title(VlanOverview), NoneFound(NoVlans)]
    else [Title(VlanOverview), VlanCount(|ids|), VlanList(ids)]
  }

  /** `write_vlan_overview` */
  function VlanSection(devices: seq<Device>): seq<Line> {
    VlanLayout(VlanListing(devices))
  }

  /**
   * The notice appears exactly when no device lists a VLAN; otherwise the section
   * gives the number of unique identifiers and the ascending list of them.
   */
  lemma {:induction false} VlanSectionShape(devices: seq<Device>)
    ensures NoneFound(NoVlans) in VlanSection(devices) <==>
      forall d :: d in devices && d.raw.vlans.Some? ==> d.raw.vlans.value == []
    ensures NoneFound(NoVlans) !in VlanSection(devices) ==>
      VlanList(VlanListing(devices)) in VlanSection(devices) && VlanCount(|VlanListing(devices)|) in VlanSection(devices)
  {
    var ids := VlanListing(devices);
    if ids != [] {
      assert ids[0] in ids;
    }
    forall d | d in devices && d.raw.vlans.Some? && d.raw.vlans.value != [] ensures ids != [] {
      assert d.raw.vlans.value[0] in ids;
    }
  }

  // ---------------------------------------------------------------- per-location overview

  function SiteSummaryOf(location: Location): SiteSummary {
    SiteSummary(
      location.site.GetOr("Okänd site"), location.city.GetOr("Okänd stad"), location.contact.GetOr("Okänd kontakt"),
      |location.devices|,
      CountStatus(location.devices, OnlineStatus),
      CountStatus(location.devices, OfflineStatus),
      CountStatus(location.devices, WarningStatus))
  }

  /** `write_site_overview`: one block per location, in inventory order. */
  function SiteSection(inventory: Inventory): seq<Line> {
    var locations := inventory.locations;
    [Title(SitesOverview)]
    + seq(|locations|, i requires 0 <= i < |locations| => SiteBlock(SiteSummaryOf(locations[i])))
  }

  /**
   * Block i names location i by its site, city and contact, with the "Okänd"
   * defaults for a missing one, and counts that location's own devices: locations
   * with the same site name are not merged.
   */
  lemma SiteSectionNames(inventory: Inventory)
    ensures |SiteSection(inventory)| == 1 + |inventory.locations|
    ensures SiteSection(inventory)[0] == Title(SitesOverview)
    ensures forall i :: 0 <= i < |inventory.locations| ==>
      var loc := inventory.locations[i];
      var b := SiteSection(inventory)[i + 1];
      && b.SiteBlock?
      && (loc.site.Some? ==> b.summary.site == loc.site.value)
      && (loc.site.None? ==> b.summary.site == "Okänd site")
      && (loc.city.Some? ==> b.summary.city == loc.city.value)
      && (loc.city.None? ==> b.summary.city == "Okänd stad")
      && (loc.contact.Some? ==> b.summary.contact == loc.contact.value)
      && (loc.contact.None? ==> b.summary.contact == "Okänd kontakt")
      && b.summary.total == |loc.devices|
  {
  }

  /**
   * The status counts of block i are the numbers of location i's devices that are
   * online, offline and in warning, and together they never exceed its total.
   */
  lemma SiteSectionShape(inventory: Inventory)
    ensures forall i :: 0 <= i < |inventory.locations| ==>
      var loc := inventory.locations[i];
      var tagged := Tag(loc.site, loc.city, loc.devices);
      var b := SiteSection(inventory)[i + 1];
      && b.SiteBlock?
      && b.summary.online == |Filter(tagged, IsOnline)|
      && b.summary.offline == |OfflineDevices(tagged)|
      && b.summary.warning == |WarningDevices(tagged)|
      && b.summary.online + b.summary.offline + b.summary.warning <= b.summary.total
  {
    var section := SiteSection(inventory);
    forall i | 0 <= i < |inventory.locations|
      ensures section[i + 1] == SiteBlock(SiteSummaryOf(inventory.locations[i]))
    {
    }
    forall loc | loc in inventory.locations {
      StatusCountsBounded(loc.devices);
    }
    forall loc | loc in inventory.locations {
      CountStatusTagged(loc.site, loc.city, loc.devices);
    }
  }

  /** The offline counts of all blocks. */
  function OfflineTotal(locations: seq<Location>): nat
    decreases |locations|
  {
    if locations == [] then 0
    else OfflineTotal(locations[..|locations| - 1]) + SiteSummaryOf(locations[|locations| - 1]).offline
  }

  /** The per-location offline counts add up to the length of the global offline list. */
  lemma {:induction false} OfflineTotalAgrees(locations: seq<Location>)
    ensures OfflineTotal(locations) == |OfflineDevices(Flatten(locations))|
    decreases |locations|
  {
    if locations != [] {
      var init := locations[..|locations| - 1];
      var last := locations[|locations| - 1];
      OfflineTotalAgrees(init);
      FilterAppend(Flatten(init), Tag(last.site, last.city, last.devices), IsOffline);
      CountStatusTagged(last.site, last.city, last.devices);
    }
  }

  // ---------------------------------------------------------------- executive summary

  /**
   * The executive summary for the given counts and the two site conditions; each
   * narrative sentence is a fixed text gated by one condition.
   */
  function SummaryLayout(offline: nat, warning: nat, lowUptime: nat, highUsage: nat,
                         datacenterHigh: bool, headOfficeHigh: bool): seq<Line> {
    [Title(Summary),
     Headline(OfflineCount, offline), Headline(WarningCount, warning),
     Headline(LowUptimeCount, lowUptime), Headline(HighUsageCount, highUsage),
     Label(SummaryHeading)]
    + [if offline > 0 then Narrative(OfflineNeedTroubleshooting(offline)) else Narrative(NoOfflineNow)]
    + (if datacenterHigh then [Narrative(DatacenterCapacity)] else [])
    + (if headOfficeHigh then [Narrative(HeadOfficeCapacity)] else [])
    + (if lowUptime > 0 then [Narrative(UnstableUptime)] else [])
  }

  /** `write_executive_summary` */
  function SummarySection(devices: seq<Device>): seq<Line> {
    var high := HighUsageSwitches(devices);
    SummaryLayout(|OfflineDevices(devices)|, |WarningDevices(devices)|, |LowUptimeDevices(devices)|, |high|,
                  Filter(high, AtDatacenter) != [], Filter(high, AtHeadOffice) != [])
  }

  /** Each narrative sentence of the layout is present exactly when its condition holds. */
  lemma SummaryLayoutGating(offline: nat, warning: nat, lowUptime: nat, highUsage: nat,
                            datacenterHigh: bool, headOfficeHigh: bool)
    ensures Narrative(NoOfflineNow) in SummaryLayout(offline, warning, lowUptime, highUsage, datacenterHigh, headOfficeHigh)
      <==> offline == 0
    ensures (exists n :: Narrative(OfflineNeedTroubleshooting(n))
               in SummaryLayout(offline, warning, lowUptime, highUsage, datacenterHigh, headOfficeHigh))
      <==> offline > 0
    ensures Narrative(DatacenterCapacity) in SummaryLayout(offline, warning, lowUptime, highUsage, datacenterHigh, headOfficeHigh)
      <==> datacenterHigh
    ensures Narrative(HeadOfficeCapacity) in SummaryLayout(offline, warning, lowUptime, highUsage, datacenterHigh, headOfficeHigh)
      <==> headOfficeHigh
    ensures Narrative(UnstableUptime) in SummaryLayout(offline, warning, lowUptime, highUsage, datacenterHigh, headOfficeHigh)
      <==> lowUptime > 0
  {
    if offline > 0 {
      assert Narrative(OfflineNeedTroubleshooting(offline))
        in SummaryLayout(offline, warning, lowUptime, highUsage, datacenterHigh, headOfficeHigh);
    }
  }

  /**
   * Each narrative sentence is gated by one condition: exactly one of the two
   * offline sentences appears, the troubleshooting one iff some device is offline;
   * the Datacenter and head-office sentences iff some high-usage switch is at that
   * site; the uptime sentence iff some device reports under 30 days.
   */
  lemma SummaryGating(devices: seq<Device>)
    ensures Narrative(NoOfflineNow) in SummarySection(devices) <==> OfflineDevices(devices) == []
    ensures (exists n :: Narrative(OfflineNeedTroubleshooting(n)) in SummarySection(devices)) <==> OfflineDevices(devices) != []
    ensures Narrative(DatacenterCapacity) in SummarySection(devices) <==>
      exists d :: d in HighUsageSwitches(devices) && d.site == Some("Datacenter")
    ensures Narrative(HeadOfficeCapacity) in SummarySection(devices) <==>
      exists d :: d in HighUsageSwitches(devices) && d.site == Some("Huvudkontor")
    ensures Narrative(UnstableUptime) in SummarySection(devices) <==>
      exists d :: d in devices && d.raw.uptimeDays.Some? && d.raw.uptimeDays.value < LowUptimeDays
  {
    var offline := OfflineDevices(devices);
    var low := LowUptimeDevices(devices);
    var high := HighUsageSwitches(devices);
    SummaryLayoutGating(|offline|, |WarningDevices(devices)|, |low|, |high|,
                        Filter(high, AtDatacenter) != [], Filter(high, AtHeadOffice) != []);
    FilterNonEmpty(high, AtDatacenter);
    FilterNonEmpty(high, AtHeadOffice);
    FilterNonEmpty(devices, IsLowUptime);
    LowUptimeExact(devices);
  }

  // ---------------------------------------------------------------- the report

  /**
   * The sections in the order they are written: those before the port section, the
   * port section, and those after it, which are written only when the port section
   * has not raised.
   */
  function ReportLayout(early: seq<Line>, ports: seq<Line>, late: seq<Line>): seq<Line> {
    if Aborted in ports then early + ports else early + ports + late
  }

  /**
   * The modelled sections in the order `main` writes them. An exception raised
   * in the port section leaves `main` uncaught, so the VLAN, per-location and
   * summary sections are then never written.
   */
  function ReportBody(inventory: Inventory): seq<Line> {
    var devices := Flatten(inventory.locations);
    ReportLayout(ProblemSection(devices) + UptimeSection(devices) + TypeSection(devices),
                 PortSection(devices),
                 VlanSection(devices) + SiteSection(inventory) + SummarySection(devices))
  }

  /** The lines that only the later sections, or an exception, produce. */
  predicate LateLine(l: Line) {
    l.Aborted? || (l.Title? && (l.section.VlanOverview? || l.section.SitesOverview? || l.section.Summary?))
  }

  /**
   * When the sections before the later ones produce no late line except the
   * exception, the exception is the last line of the port section, and the later
   * sections hold their three titles but no exception: the report ends with the
   * exception exactly when the port section raises, and has the later titles
   * exactly when it does not.
   */
  lemma ReportLayoutStops(early: seq<Line>, ports: seq<Line>, late: seq<Line>)
    requires forall l :: l in early ==> !LateLine(l)
    requires forall l :: l in ports ==> UpToPorts(l)
    requires Aborted in ports ==> ports[|ports| - 1] == Aborted
    requires Aborted !in late
    requires Title(VlanOverview) in late && Title(SitesOverview) in late && Title(Summary) in late
    ensures Aborted in ReportLayout(early, ports, late) <==> Aborted in ports
    ensures Aborted in ports ==> ReportLayout(early, ports, late)[|ReportLayout(early, ports, late)| - 1] == Aborted
    ensures Title(VlanOverview) in ReportLayout(early, ports, late) <==> Aborted !in ports
    ensures Title(SitesOverview) in ReportLayout(early, ports, late) <==> Aborted !in ports
    ensures Title(Summary) in ReportLayout(early, ports, late) <==> Aborted !in ports
  {
    if Aborted in ports {
      assert (early + ports)[|early + ports| - 1] == ports[|ports| - 1];
    }
  }

  /** A line that is not late, or is the exception. */
  predicate UpToPorts(l: Line) {
    !LateLine(l) || l.Aborted?
  }

  lemma AfterSitesUpToPorts(raises: bool, high: seq<Device>)
    requires forall i :: 0 <= i < |high| ==> IsHighUsage(high[i])
    ensures forall i :: 0 <= i < |AfterSites(raises, high)| ==> UpToPorts(AfterSites(raises, high)[i])
  {
    HighUsageTailKinds(high);
  }

  /** The only titles of the port section are its own and the high-usage one. */
  lemma PortLayoutTitles(total: int, used: int, perSite: Dict<Option<string>, Tally>, high: seq<Device>)
    requires perSite.Valid()
    requires forall i :: 0 <= i < |high| ==> IsHighUsage(high[i])
    ensures forall l :: l in PortLayout(total, used, perSite, high) ==> UpToPorts(l)
  {
    if total != 0 {
      var head := PortHead(total, used);
      var named := FirstUnnamed(perSite.order);
      var sites := SiteRows(perSite, named);
      var after := AfterSites(named < |perSite.order|, high);
      assert head + sites + after == PortLayout(total, used, perSite, high);
      assert forall i :: 0 <= i < |head| ==> UpToPorts(head[i]);
      assert forall i :: 0 <= i < |sites| ==> UpToPorts(sites[i]);
      AfterSitesUpToPorts(named < |perSite.order|, high);
      AllOfConcat(head, sites, after, UpToPorts);
    }
  }

  /** A listing holds its rows or its notice, so no late line. */
  lemma ListingLines(devices: seq<Device>, notice: Notice)
    ensures forall l :: l in Listing(devices, notice) ==> !LateLine(l)
  {
  }

  lemma ProblemLayoutLines(offline: seq<Device>, warning: seq<Device>)
    ensures forall l :: l in ProblemLayout(offline, warning) ==> !LateLine(l)
  {
    ListingLines(offline, NoOffline);
    ListingLines(warning, NoWarning);
  }

  lemma TypeSectionLines(devices: seq<Device>)
    ensures forall l :: l in TypeSection(devices) ==> !LateLine(l)
  {
    var types := TypeSection(devices);
    forall l | l in types ensures !LateLine(l) {
      var i :| 0 <= i < |types| && types[i] == l;
    }
  }

  /** The three sections before the port section produce no late line. */
  lemma EarlySections(devices: seq<Device>)
    ensures forall l :: l in ProblemSection(devices) + UptimeSection(devices) + TypeSection(devices) ==> !LateLine(l)
  {
    ProblemLayoutLines(OfflineDevices(devices), WarningDevices(devices));
    ListingLines(LowUptimeDevices(devices), NoLowUptime);
    TypeSectionLines(devices);
  }

  /** The VLAN overview starts with its title and raises nothing. */
  lemma VlanLayoutLines(ids: seq<int>)
    ensures VlanLayout(ids)[0] == Title(VlanOverview) && Aborted !in VlanLayout(ids)
  {
  }

  /** The per-location overview starts with its title, followed by one block per location. */
  lemma SiteSectionLines(inventory: Inventory)
    ensures SiteSection(inventory)[0] == Title(SitesOverview) && Aborted !in SiteSection(inventory)
  {
    var sites := SiteSection(inventory);
    forall l | l in sites ensures l.Title? || l.SiteBlock? {
      var i :| 0 <= i < |sites| && sites[i] == l;
    }
  }

  /** The executive summary starts with its title and raises nothing. */
  lemma SummaryLayoutLines(offline: nat, warning: nat, lowUptime: nat, highUsage: nat,
                           datacenterHigh: bool, headOfficeHigh: bool)
    ensures var lines := SummaryLayout(offline, warning, lowUptime, highUsage, datacenterHigh, headOfficeHigh);
      lines[0] == Title(Summary) && Aborted !in lines
  {
  }

  /** The sections after the port section hold their titles and raise nothing. */
  lemma LateSections(inventory: Inventory)
    ensures var devices := Flatten(inventory.locations);
      var late := VlanSection(devices) + SiteSection(inventory) + SummarySection(devices);
      && Aborted !in late
      && Title(VlanOverview) in late && Title(SitesOverview) in late && Title(Summary) in late
  {
    var devices := Flatten(inventory.locations);
    var high := HighUsageSwitches(devices);
    VlanLayoutLines(VlanListing(devices));
    SiteSectionLines(inventory);
    SummaryLayoutLines(|OfflineDevices(devices)|, |WarningDevices(devices)|, |LowUptimeDevices(devices)|, |high|,
                       Filter(high, AtDatacenter) != [], Filter(high, AtHeadOffice) != []);
    var vlans := VlanSection(devices);
    var sites := SiteSection(inventory);
    var summary := SummarySection(devices);
    assert vlans[0] in vlans && sites[0] in sites && summary[0] in summary;
  }

  /**
   * The port section raises exactly when port data exists and some ported switch
   * has no site; the report then ends with that exception and has no VLAN,
   * per-location or summary section; otherwise it has all three.
   */
  lemma ReportStops(inventory: Inventory)
    ensures var devices := Flatten(inventory.locations);
      Aborted in ReportBody(inventory) <==> TotalPorts(devices) != 0 && SitelessSwitch(devices)
    ensures Aborted in ReportBody(inventory) ==> ReportBody(inventory)[|ReportBody(inventory)| - 1] == Aborted
    ensures Title(VlanOverview) in ReportBody(inventory) <==> Aborted !in ReportBody(inventory)
    ensures Title(SitesOverview) in ReportBody(inventory) <==> Aborted !in ReportBody(inventory)
    ensures Title(Summary) in ReportBody(inventory) <==> Aborted !in ReportBody(inventory)
  {
    var devices := Flatten(inventory.locations);
    var high := HighUsageSwitches(devices);
    assert forall i :: 0 <= i < |high| ==> high[i] in high;
    var early := ProblemSection(devices) + UptimeSection(devices) + TypeSection(devices);
    var ports := PortSection(devices);
    var late := VlanSection(devices) + SiteSection(inventory) + SummarySection(devices);
    assert ReportBody(inventory) == ReportLayout(early, ports, late);
    EarlySections(devices);
    LateSections(inventory);
    assert Aborted in ports <==> TotalPorts(devices) != 0 && SitelessSwitch(devices) by {
      PortSectionShape(devices);
    }
    assert forall l :: l in ports ==> UpToPorts(l) by {
      PortLayoutTitles(TotalPorts(devices), UsedPorts(devices), SitePorts(devices), high);
    }
    assert Aborted in ports ==> ports[|ports| - 1] == Aborted by {
      PortLayoutRaises(TotalPorts(devices), UsedPorts(devices), SitePorts(devices), high);
    }
    ReportLayoutStops(early, ports, late);
  }
}

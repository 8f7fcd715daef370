/**
 * The inventory document and its flattening into one device list
 * (`get_all_devices`, network_report.py:11-25).
 */
module Devices {
  import opened Wrappers

  /** The `ports` record of a switch; a missing key reads as 0. */
  datatype Ports = Ports(total: Option<int>, used: Option<int>) {
    function Total(): int { total.GetOr(0) }
    function Used(): int { used.GetOr(0) }
  }

  /**
   * A device as the inventory lists it. `ports` is None when the key is absent
   * or its value is not a record; `vlans` is None when absent or not a list.
   */
  datatype RawDevice = RawDevice(
    hostname: Option<string>,
    ipAddress: Option<string>,
    deviceType: Option<string>,
    status: Option<string>,
    uptimeDays: Option<int>,
    ports: Option<Ports>,
    vlans: Option<seq<int>>)

  /** A location (site); a missing `devices` key is an empty list. */
  datatype Location = Location(
    site: Option<string>,
    city: Option<string>,
    contact: Option<string>,
    devices: seq<RawDevice>)

  /** The whole document; a missing `locations` key is an empty list. */
  datatype Inventory = Inventory(
    company: Option<string>,
    lastUpdated: Option<string>,
    locations: seq<Location>)

  /**
   * A copy of a raw device with the `site` and `city` of its location set.
   * The location's values are stored even when they are absent (`location.get("site")`
   * yields None), so `site` stays optional downstream.
   */
  datatype Device = Device(raw: RawDevice, site: Option<string>, city: Option<string>)

  /** The devices of one location, each tagged with that location's site and city. */
  function Tag(site: Option<string>, city: Option<string>, raws: seq<RawDevice>): (r: seq<Device>)
    ensures |r| == |raws|
    decreases |raws|
  {
    if raws == [] then []
    else Tag(site, city, raws[..|raws| - 1]) + [Device(raws[|raws| - 1], site, city)]
  }

  /** All devices, location by location and, within a location, in listed order. */
  function Flatten(locations: seq<Location>): seq<Device>
    decreases |locations|
  {
    if locations == [] then []
    else
      var last := locations[|locations| - 1];
      Flatten(locations[..|locations| - 1]) + Tag(last.site, last.city, last.devices)
  }

  /** The number of devices listed under all the given locations. */
  function DeviceCount(locations: seq<Location>): nat
    decreases |locations|
  {
    if locations == [] then 0
    else DeviceCount(locations[..|locations| - 1]) + |locations[|locations| - 1].devices|
  }

  /** `get_all_devices`: the nested loop that copies and tags every device. */
  method AllDevices(inventory: Inventory) returns (devices: seq<Device>)
    ensures devices == Flatten(inventory.locations)
  {
    var locations := inventory.locations;
    devices := [];
    var i := 0;
    while i < |locations|
      invariant 0 <= i <= |locations|
      invariant devices == Flatten(locations[..i])
    {
      var location := locations[i];
      var j := 0;
      while j < |location.devices|
        invariant 0 <= j <= |location.devices|
        invariant devices == Flatten(locations[..i]) + Tag(location.site, location.city, location.devices[..j])
      {
        var d := Device(location.devices[j], location.site, location.city);
        assert location.devices[..j + 1][..j] == location.devices[..j];
        devices := devices + [d];
        j := j + 1;
      }
      assert location.devices[..j] == location.devices;
      assert locations[..i + 1][..i] == locations[..i];
      i := i + 1;
    }
    assert locations[..i] == locations;
  }

  /** Tagging changes nothing about a device but its site and city. */
  lemma {:induction false} TagAt(site: Option<string>, city: Option<string>, raws: seq<RawDevice>, j: nat)
    requires j < |raws|
    ensures Tag(site, city, raws)[j] == Device(raws[j], site, city)
    decreases |raws|
  {
    if j < |raws| - 1 {
      TagAt(site, city, raws[..|raws| - 1], j);
    }
  }

  /** Flattening drops and duplicates nothing: one device per listed device. */
  lemma {:induction false} FlattenLength(locations: seq<Location>)
    ensures |Flatten(locations)| == DeviceCount(locations)
    decreases |locations|
  {
    if locations != [] {
      FlattenLength(locations[..|locations| - 1]);
    }
  }

  /**
   * Device `j` of location `i` lands right after the devices of the locations before `i`,
   * as the same device tagged with location `i`'s site and city.
   */
  lemma {:induction false} FlattenAt(locations: seq<Location>, i: nat, j: nat)
    requires i < |locations| && j < |locations[i].devices|
    ensures DeviceCount(locations[..i]) + j < |Flatten(locations)|
    ensures Flatten(locations)[DeviceCount(locations[..i]) + j]
         == Device(locations[i].devices[j], locations[i].site, locations[i].city)
    decreases |locations|
  {
    var n := |locations| - 1;
    var init := locations[..n];
    var last := locations[n];
    FlattenLength(init);
    FlattenLength(locations);
    if i == n {
      TagAt(last.site, last.city, last.devices, j);
    } else {
      assert init[..i] == locations[..i];
      FlattenAt(init, i, j);
      assert DeviceCount(locations) == DeviceCount(init) + |last.devices|;
    }
  }

  /** Every flattened device comes from exactly such a position of the inventory. */
  lemma {:induction false} FlattenOrigin(locations: seq<Location>, k: nat) returns (i: nat, j: nat)
    requires k < |Flatten(locations)|
    ensures i < |locations| && j < |locations[i].devices|
    ensures k == DeviceCount(locations[..i]) + j
    ensures Flatten(locations)[k] == Device(locations[i].devices[j], locations[i].site, locations[i].city)
    decreases |locations|
  {
    var n := |locations| - 1;
    var init := locations[..n];
    FlattenLength(init);
    if k < |Flatten(init)| {
      i, j := FlattenOrigin(init, k);
      assert init[..i] == locations[..i];
    } else {
      i, j := n, k - DeviceCount(init);
      assert locations[..i] == init;
      FlattenAt(locations, i, j);
    }
  }
}

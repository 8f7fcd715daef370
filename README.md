# Network report aggregation, modelled in Dafny

`network_report.py` reads an inventory (a company, its locations and the devices at
each location) and writes a text report. It flattens the inventory into one device
list, where each device copy carries its location's `site` and `city`. From that list
it computes these aggregates:

- the offline, warning and low-uptime lists;
- a histogram of device types;
- the switch port totals, global and per site;
- the list of switches above 80% port usage;
- the set of VLAN identifiers.

The per-location status counts are computed separately, from each location's own
`devices` list in the inventory rather than from the flattened list.

The problem, low-uptime, high-usage and VLAN lists print their rows, or a "none found"
notice when they are empty. The type and per-location sections print their rows and have
no such notice. The executive summary adds fixed sentences, each gated by one condition.

A switch with a `ports` record, at a location without a `site`, has the per-site key
`None`. If the global port total is not 0, printing the per-site row of that key raises
TypeError. A siteless switch without a `ports` record, or a port section that stops at
"no port data", raises nothing. The exception is not caught, so the report then stops
in the middle of the port section.

This project models those aggregates and the choice of what each section emits.

- `wrappers.dfy`: `Option`, the value of a key that may be absent.
- `seqs.dfy`: order-preserving filtering (the list comprehensions), first-seen
  de-duplication (the key order of a Python dict), and sorting of distinct integers.
- `dicts.dfy`: an insertion-ordered dictionary with `get`, item assignment and the sum of
  its values.
- `devices.dfy`: the inventory records and `get_all_devices`.
- `statistics.dfy`: the filters, and the accumulators written as specification
  functions. The source's loops are methods proved equal to those functions, and
  lemmas state what the functions compute.
- `report.dfy`: each section as the sequence of lines it emits, plus lemmas saying
  which rows and notices appear. A line is a branch and a row, not a formatted string.
  The `Aborted` line marks where an exception stops the output, and `ReportBody` puts
  the sections together in the order `main` writes them.
- `scenarios.dfy`: concrete inventories and the results the report gives for them.

The loops that build lists, dicts and sets (`get_all_devices`, the port accounting, the
high-usage scan, the type histogram, the VLAN set) are imperative methods. Each has
loop invariants and an `ensures` that ties its result to a specification function. The
comprehensions and `sum` generators are functions.

`ports.total`/`ports.used`, the port sums and uptime are unbounded integers, as Python's
are. The test `used / total * 100 > 80` is modelled by the integer test
`used * 100 > 80 * total`, taken only when `total > 0`.
`Statistics.ThresholdAgreesWithRatio` proves that the two agree in exact real
arithmetic, including at exactly 80%.

## Model

| member | source | states |
|---|---|---|
| `Devices.AllDevices` | network_report.py:11-25 | The nested copy-and-tag loop returns exactly `Flatten` of the inventory's locations: every location in order, and within it every device in order. |
| `Devices.FlattenLength` | network_report.py:16-24 | The flattened list is as long as the sum of the device counts of all locations. |
| `Devices.FlattenAt` | network_report.py:16-24 | Device j of location i sits at offset (devices of locations before i) + j. It equals the raw device with only `site` and `city` set to that location's values. |
| `Devices.FlattenOrigin` | network_report.py:16-24 | Conversely, every position of the flattened list comes from some location i and device j, and holds that device tagged with that location. |
| `Devices.TagAt` | network_report.py:20-24 | Within one location, output j is device j with the location's site and city. |
| `Seqs.Filter` | network_report.py:183-184 | A comprehension keeps exactly the elements satisfying the predicate and is never longer than its input. |
| `Seqs.FilterAppend` | network_report.py:183-184 | Filtering a concatenation is the concatenation of the filtered parts, so the filter keeps the input order. |
| `Statistics.OfflineWarningDisjoint` | network_report.py:183-184 | No device is in both the offline and the warning list. Together they are no longer than the device list. |
| `Report.ProblemLayoutShape` | network_report.py:189-211 | For any two lists, the section's device rows are the offline list followed by the warning list. Each notice appears iff its list is empty. |
| `Report.ProblemLayoutBlocks` | network_report.py:186-211 | The section is the title and the offline label, then the offline block, then the warning label, then the warning block. Each block is its rows or its notice. |
| `Report.ProblemSectionShape` | network_report.py:181-211 | The problem section's rows are exactly the offline devices, then the warning devices, in device order. Each list shows its rows or its notice, never both. |
| `Statistics.LowUptimeExact` | network_report.py:220 | A device is low-uptime iff it reports an uptime and that uptime is below 30. A missing uptime (9999) or an uptime of exactly 30 never qualifies. |
| `Report.UptimeSectionShape` | network_report.py:218-236 | The rows are exactly the low-uptime devices, each reporting fewer than 30 days. The notice appears iff there are none. |
| `Statistics.DeviceTypeStats` | network_report.py:242-245 | The histogram loop returns exactly `TypeCounts` of the devices. |
| `Statistics.TypeCountsOrder` | network_report.py:242-245 | The histogram keys are the distinct types (missing ones as "okänd"), each once, in first-seen order. |
| `Statistics.TypeCountsValues` | network_report.py:243-245 | Each key's count is the number of devices with that type. |
| `Statistics.TypeCountsSum` | network_report.py:242-245 | The counts add up to the number of devices. |
| `Report.TypeSectionShape` | network_report.py:250-251 | One row per distinct type in first-seen order, each carrying that type's number of occurrences. |
| `Dicts.Dict.Put` | network_report.py:244-245 | Item assignment stores the value under the key. A new key is appended to the key order and an existing key keeps its place. |
| `Dicts.SumPut` | network_report.py:279-282 | Assigning a key changes the sum of the values by the new value minus the old one. |
| `Statistics.PortUsage` | network_report.py:259-282 | The accounting loop, with both `continue`s and the "create the entry if absent" step, returns exactly `TotalPorts`, `UsedPorts` and `SitePorts`. |
| `Statistics.AccountSums` | network_report.py:276-282 | Accounting one switch adds its used ports, its total ports and one switch to the per-site sums. |
| `Statistics.AccountGet` | network_report.py:276-282 | Accounting a switch changes the entry of its own site and no other. |
| `Statistics.PortSumsConserved` | network_report.py:263-282 | The per-site used and total ports add up to the global `used_ports` and `total_ports`. |
| `Statistics.SwitchCountConserved` | network_report.py:263-282 | The per-site switch counts add up to the number of switches with a ports record, including those with a total of 0. |
| `Statistics.SiteOrderFirstSeen` | network_report.py:276-279 | The per-site keys appear in the order their site was first seen among the ported switches. |
| `Statistics.SitePortsSwitches` | network_report.py:276-280 | The entry of a site counts exactly the ported switches at that site. |
| `Statistics.SitePortsUsed` | network_report.py:276-281 | The entry of a site holds the used ports of exactly the ported switches at that site. |
| `Statistics.SitePortsTotal` | network_report.py:276-282 | The entry of a site holds the total ports of exactly the ported switches at that site. |
| `Statistics.SitePortsEntry` | network_report.py:263-282 | Each per-site entry is the triple (switches, used, total) of the ported switches at that site. A site with none reads as zeros. |
| `Statistics.TotalPortsNonNegative` | network_report.py:263-275 | With no negative port counts, the global total is not negative. |
| `Statistics.ThresholdAgreesWithRatio` | network_report.py:319-321 | For a positive total, `used*100 > 80*total` holds iff `used/total*100 > 80` in exact arithmetic. |
| `Statistics.HighUsageExact` | network_report.py:313-321 | The high-usage list holds exactly the switches with a ports record, a positive total and more than 80% used. A switch at exactly 80% is excluded. Membership is also stated with the percentage `used / total * 100 > 80` in exact real arithmetic. |
| `Statistics.HighUsageScan` | network_report.py:313-322 | The loop returns exactly the high-usage switches in device order. `high_found` is true iff that list is non-empty. The loop at 46-54 is the same. |
| `Report.HighUsageRows` | network_report.py:321-327 | One row per high-usage switch, in order, each showing the switch's own used and total ports. |
| `Report.HighUsageTailShape` | network_report.py:313-330 | The high-usage block lists exactly the given switches. Its notice appears iff there are none, and each of its percentages divides by a positive total. |
| `Report.PortLayoutNoData` | network_report.py:287-289 | The "no port data" notice appears iff the global total is 0. It then ends the section: no percentage, no per-site label, no high-usage title and no high-usage notice is printed. |
| `Report.PortLayoutSafe` | network_report.py:291-327 | Every printed percentage divides by a non-zero total. A per-site entry with total 0 gets the literal 0. |
| `Report.PortLayoutRaises` | network_report.py:298-307 | With port data, the section raises iff some per-site key is `None`. The exception is then its last line, it occurs once, and no high-usage title follows. |
| `Report.PortLayoutHigh` | network_report.py:298-327 | When port data exists, the high-usage rows are exactly the given high-usage switches. When a per-site key is `None` there are none, because the section has already raised. |
| `Report.PortLayoutHighNotice` | network_report.py:298-330 | When port data exists, the high-usage notice appears iff no per-site key is `None` and there is no high-usage switch. |
| `Report.PortLayoutSites` | network_report.py:297-307 | After the totals line and the "Per site" label come the rows of the per-site entries in key order, up to the first `None` key. The line at that key's place is the exception. |
| `Statistics.SitelessSwitchKey` | network_report.py:276-279 | `per_site` has a `None` key iff some switch with a ports record comes from a location without a `site`. |
| `Report.PortLayoutParts` | network_report.py:284-330 | With port data, the layout opens with the title, the global line with the given used and total ports and their ratio, and the "Per site" label. After the named sites' rows comes exactly the exception (iff some key is `None`) or the high-usage title and block. |
| `Report.PortSectionParts` | network_report.py:261-330 | Over a device list with port data, the global line carries the used and total ports summed over the ported switches. The rows before the first siteless key are per-site rows. After them comes exactly the exception (iff some ported switch has no site) or the high-usage title and the block of the high-usage switches. |
| `Report.PortSectionShape` | network_report.py:284-330 | Over a device list: "no port data" iff `total_ports == 0`, and then no percentage, no per-site label and no high-usage title or notice. With port data the section has the `PortSectionFrame`: the title, then the global line with `UsedPorts`, `TotalPorts` and their ratio, then the "Per site" label, then one per-site row per named site, then only the exception or the high-usage block. Every division is safe. With port data, the section raises iff some ported switch has no site, and then prints no high-usage row. Otherwise the high-usage rows are exactly the high-usage switches, and their notice appears iff there are none. |
| `Report.SiteRowsCorrect` | network_report.py:297-307 | Row i of the per-site block belongs to the i-th site in first-seen order, for every i before the first `None` site. It holds the switch count, used ports and total ports of exactly the ported switches at that site. At the first `None` site the section raises. |
| `Report.PortLayoutPositive` | network_report.py:291-320 | With non-negative totals, every printed division has a positive denominator. |
| `Report.PortPercentsPositive` | network_report.py:291-320 | When no port count in the inventory is negative, every percentage the port section prints divides by a positive total. |
| `Seqs.FirstSeen` | network_report.py:277-279 | First-seen de-duplication has no repeats and keeps exactly the values of its input. |
| `Seqs.FirstSeenOrder` | network_report.py:277-279 | The de-duplicated values come in the order of their first occurrences in the input. |
| `Seqs.InsertSorted` | network_report.py:352 | Inserting into a strictly ascending list keeps it strictly ascending, and adds exactly the new value. |
| `Seqs.SortedIds` | network_report.py:352 | `sorted(set(ids))` is strictly ascending and holds exactly the identifiers of the input. |
| `Seqs.AscendingUnique` | network_report.py:352 | Two strictly ascending lists with the same members are equal, so a sorted set has one listing. |
| `Statistics.CollectVlans` | network_report.py:337-343 | The nested loop's set holds exactly the identifiers of the devices' VLAN lists. |
| `Statistics.VlanIdsMembership` | network_report.py:339-343 | An identifier is collected iff some device has a `vlans` list that contains it. A non-list `vlans` contributes nothing. |
| `Report.VlanListing` | network_report.py:337-352 | The printed list is strictly ascending, so it has no duplicates, and holds exactly the identifiers of any device's `vlans` list. |
| `Report.SortedSetIsListing` | network_report.py:337-352 | Any strictly ascending list with exactly the members of the collected set equals the printed listing. |
| `Report.VlanSectionShape` | network_report.py:345-354 | The notice appears iff no device lists a VLAN. Otherwise the section prints the count and the ascending list. |
| `Statistics.StatusCountsBounded` | network_report.py:370-373 | In a location, online + offline + warning never exceeds the location's device count. |
| `Statistics.CountStatusTagged` | network_report.py:371-373 | A location's online, offline and warning counts equal the lengths of the online, offline and warning lists of its tagged devices. |
| `Report.SiteSectionNames` | network_report.py:364-380 | After the title, block i belongs to location i, for every location in inventory order, with repeated site names not merged. It shows that location's site, city and contact, or "Okänd site", "Okänd stad" and "Okänd kontakt" where one is missing, and its device count. |
| `Report.SiteSectionShape` | network_report.py:369-373 | Block i's online, offline and warning counts are the numbers of location i's devices with that status. Together they never exceed its device count. |
| `Report.OfflineTotalAgrees` | network_report.py:364-373 | The per-location offline counts add up to the length of the global offline list. |
| `Report.SummaryLayoutGating` | network_report.py:74-98 | Each narrative sentence is present iff its condition holds, and exactly one of the two offline sentences is present. |
| `Report.SummaryGating` | network_report.py:41-98 | The troubleshooting sentence appears iff some device is offline, and otherwise the "no offline" sentence. The Datacenter or head-office sentence appears iff some high-usage switch is at that site. The uptime sentence appears iff some device reports fewer than 30 days. |
| `Report.ReportLayoutStops` | network_report.py:394-404 | If the port section's only late line is its final exception, the report ends with the exception iff the port section raises. The VLAN, per-location and summary titles appear iff it does not. |
| `Report.ReportStops` | network_report.py:383-404 | Over an inventory: the report raises iff there is port data and some ported switch has no site. It then ends with the exception and has no VLAN, per-location or summary section. Otherwise it has all three. |
| `Scenarios.NearlyFullSwitch` | network_report.py:263-295 | A single switch at 9 of 10 ports gives the totals 9 of 10 and is a high-usage switch. |
| `Scenarios.SingleOffline` | network_report.py:183-204 | One offline and one online device: the offline list is that device, and the warning list shows its notice. |
| `Scenarios.EmptySwitch` | network_report.py:287-289 | A sole switch with 0 total ports leaves no port data, and is not a high-usage switch. |
| `Scenarios.OverlappingVlans` | network_report.py:337-354 | The lists [10, 20] and [20, 30] give the count 3 and the list 10, 20, 30. |
| `Scenarios.SitelessPorts` | network_report.py:298-307 | One switch at 9 of 10 ports, at a location without a `site`: the port section is its totals line, the "Per site" label and the exception. |
| `Scenarios.SitelessLocation` | network_report.py:399-404 | The same inventory gives a report without an executive summary. |

## Left out

- `load_data` and `main` (JSON and file I/O, opening the output stream) are not modelled. The model starts from an `Inventory` value, and `AllDevices` takes it as a parameter.
- `write_header`, `write_eisenhower` and `write_itil` print fixed text and the header fields with their defaults. They contain no aggregation logic.
- Text formatting is not modelled: f-string padding, `str.capitalize()`, `:.1f` and the joining of the VLAN list. A section is modelled as the sequence of its branches and rows, with the values each row prints.
- Floating-point percentages are not modelled. A percentage is `Ratio(part, whole)`, and the 80% test is its integer form.
- Statistics.HighUsageExact: states the integer test, not Python's float test. The two are proved to agree for exact reals, but float rounding is not modelled.
- JSON `null` and a missing key are both `None`, so every key read with a `dict.get` default takes the default for `null` too. In the source a present `null` bypasses the default and, depending on the key, either prints `None` or raises. The model raises for one case only: a `None` per-site key in the port section. The other exceptions a `null` causes are not modelled:
  - `uptime_days`: `None < 30` raises (network_report.py:43, 220).
  - `ports.total` and `ports.used`: `total_ports += total` raises when the switch is accounted (network_report.py:271-275), and `total > 0` raises (network_report.py:51, 319).
  - `hostname` and `ip_address`: a `:15` format of `None` raises in the device rows (network_report.py:195-196, 207-208, 231, 324).
  - `type`: `:12` raises in the device rows (network_report.py:197, 209, 233), and `capitalize()` on a `None` histogram key raises AttributeError (network_report.py:251).
  - `locations` and `devices`: looping over `None` raises (network_report.py:17, 20, 364), and so does `len(None)` (network_report.py:369-370).
  - the location's `site`, `city` and `contact` in the per-location overview: these print as `None` rather than the "Okänd" defaults.
- `ports` and `vlans` that are present but not a record or a list are modelled as `None`, as the `isinstance` tests treat them. VLAN identifiers are integers only, so the mixed-type `sorted` error is left out.
- `Report.VlanSection`: built from the sorted list of identifiers that the devices list (`VlanListing`). `Statistics.CollectVlans` proves that the loop's set has exactly those members, and `Report.SortedSetIsListing` that sorting such a set gives that list.
- The per-site key is the device's `site` as an `Option`. `get_all_devices` always stores the location's `site` key, possibly `None`, so the `"Okänd site"` default of the port loop never applies. The row of a `None` key raises at network_report.py:304, which the model records as the `Aborted` line.
- `Report.ReportBody` covers the sections from the problem devices to the executive summary. After an exception it contains nothing more. The header, the device total line, the Eisenhower matrix and the ITIL text are left out, as above.
- The problem rows print `hostname`, IP address, type and site with presentation defaults. The low-uptime rows print `hostname`, uptime, type and site, with no IP address. In both cases the model keeps the device itself in the row.
- Errors of the output stream itself are not modelled.

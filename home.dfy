/**
 * The overview page (src/components/HomeClient.tsx): the authored table of
 * hotspot coordinates keyed by display order, one hotspot per rock on the 3D
 * model, the flat list of rocks in the sidebar, and the sidebar and
 * developer-mode toggles.
 */
module Home {
  import opened Rocks

  /** Where a rock's hotspot goes on the model, by display order (`rockPositions`). */
  const RockPositions: map<int, string> := map[
    1 := "-2.5m 0.8m 2.0m",
    2 := "-2.0m 0.7m 1.8m",
    3 := "-3.0m 0.6m 0.5m",
    4 := "-2.8m 0.5m -1.2m",
    5 := "-3.2m 0.6m -0.5m",
    6 := "-2.0m 0.9m 1.0m",
    7 := "-2.2m 0.4m -2.0m",
    8 := "45.86m 11.91m 19.20m",
    20 := "-2.3m 1.2m 1.5m",
    21 := "-2.0m 0.5m 0.3m",
    22 := "-2.3m 0.5m -1.5m",
    23 := "-3.0m 0.7m 0.0m",
    9 := "2.0m 0.9m 0.8m",
    10 := "2.5m 0.5m -1.2m",
    11 := "2.0m 0.7m 0.0m",
    12 := "1.8m 0.6m 0.2m",
    13 := "2.5m 0.6m 1.5m",
    14 := "1.5m 0.4m -1.5m",
    15 := "2.0m 0.5m -1.0m",
    16 := "3.0m 0.6m 0.0m",
    17 := "3.0m 0.7m 0.5m",
    18 := "2.0m 0.5m 0.5m",
    19 := "2.8m 0.6m 1.2m",
    24 := "1.8m 0.4m -1.8m"
  ]

  /** The ground-level spot used for an order with no authored position. */
  const FallbackPosition: string := "0m 0.5m 0m"

  /** Surface normal given to every hotspot. */
  const HotspotNormal: string := "0m 1m 0m"

  /**
   * `getHotspotPosition`: `rockPositions[order] || "0m 0.5m 0m"`. JavaScript's
   * `||` also falls back when the entry is the empty string.
   */
  function HotspotPosition(order: int): (pos: string)
    ensures pos != ""
  {
    if order in RockPositions && RockPositions[order] != "" then RockPositions[order]
    else FallbackPosition
  }

  /** The authored orders are exactly 1 through 24. */
  lemma AuthoredOrders(order: int)
    ensures order in RockPositions <==> 1 <= order <= 24
  {
  }

  /** Every authored order gets its authored coordinate; every other order the fallback. */
  lemma HotspotPositionLookup(order: int)
    ensures 1 <= order <= 24 ==> HotspotPosition(order) == RockPositions[order]
    ensures !(1 <= order <= 24) ==> HotspotPosition(order) == FallbackPosition
  {
  }

  /** A marker on the 3D model linking to one rock. */
  datatype Hotspot = Hotspot(slot: string, position: string, normal: string, target: string)

  function HotspotSlot(id: string): (slot: string)
    ensures |slot| == |id| + 8 && slot[..8] == "hotspot-" && slot[8..] == id
  {
    "hotspot-" + id
  }

  /** `rocks.map(...)`: one hotspot per rock, in the order listed. */
  function Hotspots(rocks: seq<Rock>): (hs: seq<Hotspot>)
    ensures |hs| == |rocks|
    ensures forall k :: 0 <= k < |rocks| ==>
      hs[k] == Hotspot(HotspotSlot(rocks[k].id), HotspotPosition(rocks[k].displayOrder),
                       HotspotNormal, DetailRoute(rocks[k].id))
  {
    seq(|rocks|, k requires 0 <= k < |rocks| =>
      Hotspot(HotspotSlot(rocks[k].id), HotspotPosition(rocks[k].displayOrder),
              HotspotNormal, DetailRoute(rocks[k].id)))
  }

  /** Distinct rocks get distinct hotspot slots, and a hotspot leads back to its own rock. */
  lemma HotspotsIdentifyRocks(rocks: seq<Rock>, i: nat, j: nat)
    requires UniqueIds(rocks) && i < j < |rocks|
    ensures Hotspots(rocks)[i].slot != Hotspots(rocks)[j].slot
    ensures Hotspots(rocks)[i].target != Hotspots(rocks)[j].target
  {
  }

  /** One button of the sidebar's list. */
  datatype ListEntry = ListEntry(id: string, order: int, name: string)

  /** The sidebar's list: every rock, in the order listed. */
  function ListEntries(rocks: seq<Rock>): (es: seq<ListEntry>)
    ensures |es| == |rocks|
    ensures forall k :: 0 <= k < |rocks| ==>
      es[k] == ListEntry(rocks[k].id, rocks[k].displayOrder, rocks[k].name)
  {
    seq(|rocks|, k requires 0 <= k < |rocks| =>
      ListEntry(rocks[k].id, rocks[k].displayOrder, rocks[k].name))
  }

  /** "바위 없음" is shown exactly when there are no rocks, that is, no list entries. */
  predicate ShowsNoRocks(rocks: seq<Rock>) {
    |rocks| == 0
  }

  lemma EmptyMessageIffNoEntries(rocks: seq<Rock>)
    ensures ShowsNoRocks(rocks) <==> ListEntries(rocks) == []
    ensures ShowsNoRocks(rocks) <==> Hotspots(rocks) == []
  {
  }

  /** The state of the overview page. */
  class Overview {
    const rocks: seq<Rock>
    var sidebarOpen: bool
    var devMode: bool
    /** Routes pushed to the router, oldest first. */
    var pushed: seq<string>

    constructor (rocks: seq<Rock>)
      ensures this.rocks == rocks
      ensures !sidebarOpen && !devMode && pushed == []
    {
      this.rocks := rocks;
      sidebarOpen, devMode := false, false;
      pushed := [];
    }

    /** The ☰/✕ menu button. */
    method ToggleSidebar()
      modifies this
      ensures sidebarOpen == !old(sidebarOpen)
      ensures devMode == old(devMode) && pushed == old(pushed)
    {
      sidebarOpen := !sidebarOpen;
    }

    /** A click on the dimmed overlay shown behind the open sidebar. */
    method ClickOverlay()
      requires sidebarOpen
      modifies this
      ensures !sidebarOpen
      ensures devMode == old(devMode) && pushed == old(pushed)
    {
      sidebarOpen := false;
    }

    /** The DEV button. */
    method ToggleDevMode()
      modifies this
      ensures devMode == !old(devMode)
      ensures sidebarOpen == old(sidebarOpen) && pushed == old(pushed)
    {
      devMode := !devMode;
    }

    /** A click on the `k`-th hotspot: open that rock's page; the sidebar is left as it was. */
    method ClickHotspot(k: nat)
      requires k < |Hotspots(rocks)|
      modifies this
      ensures pushed == old(pushed) + [DetailRoute(rocks[k].id)]
      ensures pushed[|pushed| - 1] == Hotspots(rocks)[k].target
      ensures sidebarOpen == old(sidebarOpen) && devMode == old(devMode)
    {
      pushed := pushed + [Hotspots(rocks)[k].target];
    }

    /** A click on the `k`-th list entry: open that rock's page and close the sidebar. */
    method ClickListEntry(k: nat)
      requires k < |ListEntries(rocks)|
      modifies this
      ensures pushed == old(pushed) + [DetailRoute(rocks[k].id)]
      ensures !sidebarOpen
      ensures devMode == old(devMode)
    {
      pushed := pushed + [DetailRoute(ListEntries(rocks)[k].id)];
      sidebarOpen := false;
    }
  }
}

/** The exhibition map (src/components/ExhibitionMap.tsx): what each area is
    drawn as, what a click on it forwards, and the fetch/refresh state. */
module ExhibitionMap {
  import opened Types
  import opened Api

  const SelectedStroke := "#000"
  const PlainStroke := "#667080"

  /** The SVG group drawn for one area: its rectangle, its two labels, and
      the area number its click handler forwards. */
  datatype AreaGroup = AreaGroup(
    key: int,
    x: int,
    y: int,
    width: int,
    height: int,
    fill: string,
    stroke: string,
    strokeWidth: int,
    nameLabel: string,
    countLabel: int,
    clickTarget: int)

  /** The body of `areaStatus.map(area => ...)` for one area. */
  function RenderArea(area: AreaStatus, selectedArea: Option<int>): (g: AreaGroup)
    ensures area.highlight.Some? && area.highlight.value != "" ==> g.fill == area.highlight.value
    ensures area.highlight == None || area.highlight == Some("") ==>
      g.fill == BandColor(GetOccupancyLevel(area.amountVisitors, area.thresholds))
    ensures g.stroke == SelectedStroke && g.strokeWidth == 2 <==> selectedArea == Some(area.areaNumber)
    ensures g.stroke == PlainStroke && g.strokeWidth == 1 <==> selectedArea != Some(area.areaNumber)
    ensures g.key == area.areaNumber && g.clickTarget == area.areaNumber
    ensures g.nameLabel == area.areaName && g.countLabel == area.amountVisitors
    ensures g.x == area.x && g.y == area.y && g.width == area.width && g.height == area.height
  {
    var fillColor := BandColor(GetOccupancyLevel(area.amountVisitors, area.thresholds));
    var isSelected := selectedArea.Some? && selectedArea.value == area.areaNumber;
    AreaGroup(area.areaNumber, area.x, area.y, area.width, area.height,
              OrElse(area.highlight, fillColor),
              if isSelected then SelectedStroke else PlainStroke,
              if isSelected then 2 else 1,
              area.areaName, area.amountVisitors, area.areaNumber)
  }

  /** The whole overlay: one group per area, in list order. */
  function RenderMap(areas: seq<AreaStatus>, selectedArea: Option<int>): (groups: seq<AreaGroup>)
    ensures |groups| == |areas|
    ensures forall i :: 0 <= i < |areas| ==> groups[i] == RenderArea(areas[i], selectedArea)
  {
    if areas == [] then []
    else [RenderArea(areas[0], selectedArea)] + RenderMap(areas[1..], selectedArea)
  }

  /** Without a highlight, an area is drawn in its band's colour, which is
      one of the three band colours and red exactly when both cut-offs are exceeded. */
  lemma UnhighlightedFillIsBandColor(area: AreaStatus, selectedArea: Option<int>)
    requires area.highlight == None || area.highlight == Some("")
    ensures var fill := RenderArea(area, selectedArea).fill;
      fill in {LowColor, MediumColor, HighColor} &&
      (fill == HighColor <==> area.thresholds.low < area.amountVisitors && area.thresholds.medium < area.amountVisitors) &&
      (fill == LowColor <==> area.amountVisitors <= area.thresholds.low)
  {
    BandColorsDistinct(GetOccupancyLevel(area.amountVisitors, area.thresholds), Low);
    BandColorsDistinct(GetOccupancyLevel(area.amountVisitors, area.thresholds), High);
  }

  /** At most one rendered group carries the selected stroke, when area numbers are distinct. */
  lemma AtMostOneSelected(areas: seq<AreaStatus>, selectedArea: Option<int>, i: int, j: int)
    requires forall a, b :: 0 <= a < b < |areas| ==> areas[a].areaNumber != areas[b].areaNumber
    requires 0 <= i < |areas| && 0 <= j < |areas|
    requires RenderMap(areas, selectedArea)[i].stroke == SelectedStroke
    requires RenderMap(areas, selectedArea)[j].stroke == SelectedStroke
    ensures i == j
  {
  }

  /** handleAreaClick: the area numbers handed to onAreaSelect (none when no callback is given). */
  function HandleAreaClick(areaNumber: int, hasAreaSelect: bool): (calls: seq<int>)
    ensures hasAreaSelect ==> calls == [areaNumber]
    ensures !hasAreaSelect ==> calls == []
  {
    if hasAreaSelect then [areaNumber] else []
  }

  /** Clicking the i-th rendered group selects the i-th area. */
  lemma ClickSelectsThatArea(areas: seq<AreaStatus>, selectedArea: Option<int>, i: int)
    requires 0 <= i < |areas|
    ensures HandleAreaClick(RenderMap(areas, selectedArea)[i].clickTarget, true) == [areas[i].areaNumber]
    ensures HandleAreaClick(RenderMap(areas, selectedArea)[i].clickTarget, false) == []
  {
  }

  /** What the component shows: the spinner while loading, else the overlay
      with the refresh button, disabled while refreshing. */
  datatype Screen = LoadingScreen | MapScreen(groups: seq<AreaGroup>, refreshDisabled: bool)

  /** The component's state and the lists it has handed to onDataUpdate. */
  class MapView {
    var areaStatus: seq<AreaStatus>
    var isLoading: bool
    var isRefreshing: bool
    var lastRefreshed: Timestamp
    var dataUpdates: seq<seq<AreaStatus>>
    const hasDataUpdate: bool

    constructor (now: Timestamp, hasDataUpdate: bool)
      ensures areaStatus == [] && isLoading && !isRefreshing && lastRefreshed == now
      ensures dataUpdates == [] && this.hasDataUpdate == hasDataUpdate
    {
      areaStatus := [];
      isLoading := true;
      isRefreshing := false;
      lastRefreshed := now;
      dataUpdates := [];
      this.hasDataUpdate := hasDataUpdate;
    }

    /** The refresh button is disabled exactly while a fetch runs. */
    predicate RefreshDisabled()
      reads this
    {
      isRefreshing
    }

    function View(selectedArea: Option<int>): (s: Screen)
      reads this
      ensures isLoading <==> s == LoadingScreen
      ensures !isLoading ==> s.groups == RenderMap(areaStatus, selectedArea) && s.refreshDisabled == RefreshDisabled()
    {
      if isLoading then LoadingScreen else MapScreen(RenderMap(areaStatus, selectedArea), isRefreshing)
    }

    /** The start of fetchData, before the request resolves. */
    method StartFetch()
      modifies this
      ensures isRefreshing && isLoading == old(isLoading)
      ensures areaStatus == old(areaStatus) && lastRefreshed == old(lastRefreshed)
      ensures dataUpdates == old(dataUpdates)
    {
      isRefreshing := true;
    }

    /** The rest of fetchData once getAreaSettings has resolved (`Some`) or
        rejected (`None`): a new list replaces the old one wholesale and is
        handed to onDataUpdate; a failure keeps the old list. Either way both
        flags are cleared. */
    method FinishFetch(fetched: Option<seq<AreaStatus>>, now: Timestamp)
      modifies this
      ensures !isLoading && !isRefreshing
      ensures fetched.Some? ==>
        (areaStatus == fetched.value && lastRefreshed == now &&
         dataUpdates == old(dataUpdates) + (if hasDataUpdate then [fetched.value] else []))
      ensures fetched.None? ==>
        (areaStatus == old(areaStatus) && lastRefreshed == old(lastRefreshed) &&
         dataUpdates == old(dataUpdates))
    {
      if fetched.Some? {
        areaStatus := fetched.value;
        lastRefreshed := now;
        if hasDataUpdate {
          dataUpdates := dataUpdates + [fetched.value];
        }
      }
      isLoading := false;
      isRefreshing := false;
    }

    /** fetchData as one atomic step: the initial fetch, a timer tick or the refresh button. */
    method FetchData(fetched: Option<seq<AreaStatus>>, now: Timestamp)
      modifies this
      ensures !isLoading && !isRefreshing
      ensures fetched.Some? ==>
        (areaStatus == fetched.value && lastRefreshed == now &&
         dataUpdates == old(dataUpdates) + (if hasDataUpdate then [fetched.value] else []))
      ensures fetched.None? ==>
        (areaStatus == old(areaStatus) && lastRefreshed == old(lastRefreshed) &&
         dataUpdates == old(dataUpdates))
    {
      StartFetch();
      FinishFetch(fetched, now);
    }
  }

  /** A client run: the first fetch fails and the spinner goes away over an
      empty map; the second succeeds and the map shows the fetched areas. */
  method FetchScenario(fetched: seq<AreaStatus>, t0: Timestamp, t1: Timestamp, t2: Timestamp)
  {
    var view := new MapView(t0, true);
    assert view.View(None) == LoadingScreen;
    view.StartFetch();
    assert view.RefreshDisabled();
    view.FinishFetch(None, t1);
    assert view.View(None) == MapScreen([], false);
    view.FetchData(Some(fetched), t2);
    assert view.areaStatus == fetched && view.dataUpdates == [fetched];
    assert view.View(None).groups == RenderMap(fetched, None);
  }
}

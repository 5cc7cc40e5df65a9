/** The data functions of src/utils/api.ts: occupancy classification and its
    colours, the in-memory settings table and its update, and the latest
    timestamp of a batch of visitor observations. */
module Api {
  import opened Types

  // ---------------------------------------------------------------------
  // Occupancy classification
  // ---------------------------------------------------------------------

  /** The three occupancy bands ('low' | 'medium' | 'high'). */
  datatype OccupancyLevel = Low | Medium | High

  /** The string a level is at run time. */
  function LevelName(level: OccupancyLevel): string {
    match level
    case Low => "low"
    case Medium => "medium"
    case High => "high"
  }

  /** The position of a band in the order low < medium < high. */
  function Rank(level: OccupancyLevel): nat {
    match level
    case Low => 0
    case Medium => 1
    case High => 2
  }

  /** getOccupancyLevel: the band of a visitor count against the area's cut-offs. */
  function GetOccupancyLevel(visitorCount: int, thresholds: Thresholds): (r: OccupancyLevel)
    ensures r == Low <==> visitorCount <= thresholds.low
    ensures r == Medium <==> thresholds.low < visitorCount <= thresholds.medium
    ensures r == High <==> thresholds.low < visitorCount && thresholds.medium < visitorCount
  {
    if visitorCount <= thresholds.low then Low
    else if visitorCount <= thresholds.medium then Medium
    else High
  }

  /** With the cut-offs out of order the medium band is empty. */
  lemma MediumUnreachableWhenInverted(visitorCount: int, thresholds: Thresholds)
    requires thresholds.medium <= thresholds.low
    ensures GetOccupancyLevel(visitorCount, thresholds) != Medium
    ensures GetOccupancyLevel(visitorCount, thresholds) == High <==> thresholds.low < visitorCount
  {
  }

  /** A larger count never lands in a lower band. */
  lemma OccupancyMonotone(fewer: int, more: int, thresholds: Thresholds)
    requires fewer <= more
    ensures Rank(GetOccupancyLevel(fewer, thresholds)) <= Rank(GetOccupancyLevel(more, thresholds))
  {
  }

  const LowColor := "#4ade80"
  const MediumColor := "#facc15"
  const HighColor := "#ef4444"
  const DefaultColor := "#e5e7eb"

  /** getOccupancyColor: a switch over the level's string, with a gray default. */
  function GetOccupancyColor(level: string): (r: string)
    ensures r == DefaultColor <==> level != "low" && level != "medium" && level != "high"
    ensures r in {LowColor, MediumColor, HighColor, DefaultColor}
  {
    if level == "low" then LowColor
    else if level == "medium" then MediumColor
    else if level == "high" then HighColor
    else DefaultColor
  }

  /** The colour of a band, by way of its run-time string. */
  function BandColor(level: OccupancyLevel): string {
    GetOccupancyColor(LevelName(level))
  }

  /** Each band has its own colour, the three are distinct, and none is the gray default. */
  lemma BandColorsDistinct(a: OccupancyLevel, b: OccupancyLevel)
    ensures BandColor(Low) == LowColor && BandColor(Medium) == MediumColor && BandColor(High) == HighColor
    ensures BandColor(a) != DefaultColor
    ensures BandColor(a) == BandColor(b) <==> a == b
  {
  }

  // ---------------------------------------------------------------------
  // The settings table and its update
  // ---------------------------------------------------------------------

  /** Array.prototype.findIndex by id: the first index whose id matches, or -1. */
  function IndexOfId(rows: seq<AreaSettings>, id: int): (r: int)
    ensures -1 <= r < |rows|
    ensures r == -1 <==> forall k :: 0 <= k < |rows| ==> rows[k].id != id
    ensures r != -1 ==> rows[r].id == id && forall k :: 0 <= k < r ==> rows[k].id != id
  {
    if rows == [] then -1
    else if rows[0].id == id then 0
    else
      var rest := IndexOfId(rows[1..], id);
      if rest == -1 then -1 else rest + 1
  }

  /** `{...area, ...settings, last_updated: now}`: every key present in the
      patch overrides the stored one, and the timestamp is always the new one. */
  function ApplyPatch(area: AreaSettings, settings: AreaPatch, now: Timestamp): (r: AreaSettings)
    ensures r.lastUpdated == now
  {
    AreaSettings(
      settings.id.GetOr(area.id),
      now,
      settings.areaName.GetOr(area.areaName),
      settings.highlight.GetOr(area.highlight),
      settings.capacityUsage.GetOr(area.capacityUsage),
      settings.x.GetOr(area.x),
      settings.y.GetOr(area.y),
      settings.width.GetOr(area.width),
      settings.height.GetOr(area.height),
      if settings.thresholds.Some? then settings.thresholds else area.thresholds)
  }

  /** The patch that sets every key of `area` except its timestamp. */
  function FullPatch(area: AreaSettings): AreaPatch {
    AreaPatch(Some(area.id), None, Some(area.areaName), Some(area.highlight),
              Some(area.capacityUsage), Some(area.x), Some(area.y), Some(area.width),
              Some(area.height), area.thresholds)
  }

  /** A patch carrying every key replaces the stored record whatever it was,
      and a patch carrying none touches only the timestamp. */
  lemma ApplyPatchExtremes(stored: AreaSettings, area: AreaSettings, now: Timestamp)
    requires area.thresholds.Some?
    ensures ApplyPatch(stored, FullPatch(area), now) == area.(lastUpdated := now)
    ensures ApplyPatch(stored, EmptyPatch, now) == stored.(lastUpdated := now)
  {
  }

  /** A timestamp supplied in the patch is ignored, and applying the same
      patch twice is the same as applying it once. */
  lemma ApplyPatchIgnoresTimestampAndIsIdempotent(area: AreaSettings, settings: AreaPatch, stamp: Timestamp, now: Timestamp)
    ensures ApplyPatch(area, settings.(lastUpdated := Some(stamp)), now) == ApplyPatch(area, settings, now)
    ensures ApplyPatch(ApplyPatch(area, settings, now), settings, now) == ApplyPatch(area, settings, now)
  {
  }

  /** The reason updateAreaSettings throws. */
  datatype UpdateError = AreaNotFound(areaId: int)

  /** The module-level array mockAreaSettings, updated in place. Its initial
      contents (random mock data) are a constructor argument. */
  class AreaTable {
    var rows: array<AreaSettings>

    constructor (initial: seq<AreaSettings>)
      ensures fresh(rows) && rows[..] == initial
    {
      rows := new AreaSettings[|initial|](i requires 0 <= i < |initial| => initial[i]);
    }

    /** getAreaSettings: the current table. */
    method GetAreaSettings() returns (s: seq<AreaSettings>)
      ensures s == rows[..]
    {
      s := rows[..];
    }

    /** The findIndex search of updateAreaSettings. */
    method FindIndex(areaId: int) returns (index: int)
      ensures index == IndexOfId(rows[..], areaId)
    {
      index := 0;
      while index < rows.Length
        invariant 0 <= index <= rows.Length
        invariant forall k :: 0 <= k < index ==> rows[k].id != areaId
      {
        if rows[index].id == areaId {
          return;
        }
        index := index + 1;
      }
      index := -1;
    }

    /** updateAreaSettings: throws when no row has the id; otherwise patches
        the first such row in place and returns the stored row. */
    method UpdateAreaSettings(areaId: int, settings: AreaPatch, now: Timestamp)
      returns (r: Result<AreaSettings, UpdateError>)
      modifies rows
      ensures var i := IndexOfId(old(rows[..]), areaId);
        if i == -1 then
          r == Failure(AreaNotFound(areaId)) && rows[..] == old(rows[..])
        else
          r == Success(ApplyPatch(old(rows[i]), settings, now)) &&
          rows[..] == old(rows[..])[i := r.value]
    {
      var index := FindIndex(areaId);
      if index == -1 {
        return Failure(AreaNotFound(areaId));
      }
      rows[index] := ApplyPatch(rows[index], settings, now);
      r := Success(rows[index]);
    }
  }

  /** The row a successful update stores is the first with the id; every other
      row, and the length of the table, stay as they were. */
  lemma UpdateChangesOnlyFirstMatch(before: seq<AreaSettings>, areaId: int, settings: AreaPatch, now: Timestamp)
    requires IndexOfId(before, areaId) != -1
    ensures var i := IndexOfId(before, areaId);
      var after := before[i := ApplyPatch(before[i], settings, now)];
      |after| == |before| &&
      (forall k :: 0 <= k < |before| && k != i ==> after[k] == before[k]) &&
      (forall k :: 0 <= k < i ==> before[k].id != areaId) &&
      after[i].lastUpdated == now
  {
  }

  // ---------------------------------------------------------------------
  // Latest timestamp
  // ---------------------------------------------------------------------

  /** The reducer of getLatestTimestamp, folded left over `rest`: a later
      parsed date replaces the running latest; an equal one does not. */
  function Reduce(latest: Timestamp, rest: seq<VisitorData>, parse: Timestamp -> int): (r: Timestamp)
    ensures parse(latest) <= parse(r)
    ensures r == latest || exists k :: 0 <= k < |rest| && r == rest[k].timestamp
    decreases |rest|
  {
    if rest == [] then latest
    else
      var next := if parse(rest[0].timestamp) > parse(latest) then rest[0].timestamp else latest;
      Reduce(next, rest[1..], parse)
  }

  /** The fold ends on the first greatest of `latest` followed by `rest`:
      either `latest` itself, when nothing in `rest` is later, or the first
      entry of `rest` later than `latest` that nothing in `rest` exceeds. */
  lemma {:induction false} ReduceIsFirstMaximum(latest: Timestamp, rest: seq<VisitorData>, parse: Timestamp -> int)
    ensures var r := Reduce(latest, rest, parse);
      parse(latest) <= parse(r) &&
      (forall j :: 0 <= j < |rest| ==> parse(rest[j].timestamp) <= parse(r)) &&
      (r == latest ||
       exists k :: 0 <= k < |rest| && r == rest[k].timestamp && parse(latest) < parse(r) &&
         forall j :: 0 <= j < k ==> parse(rest[j].timestamp) < parse(r))
    decreases |rest|
  {
    if rest != [] {
      var next := if parse(rest[0].timestamp) > parse(latest) then rest[0].timestamp else latest;
      ReduceIsFirstMaximum(next, rest[1..], parse);
      var r := Reduce(latest, rest, parse);
      assert r == Reduce(next, rest[1..], parse);
      forall j | 0 <= j < |rest| ensures parse(rest[j].timestamp) <= parse(r) {
        if j > 0 { assert rest[j] == rest[1..][j - 1]; }
      }
      if r != next {
        var k :| 0 <= k < |rest[1..]| && r == rest[1..][k].timestamp && parse(next) < parse(r) &&
          forall j :: 0 <= j < k ==> parse(rest[1..][j].timestamp) < parse(r);
        assert r == rest[k + 1].timestamp;
        forall j | 0 <= j < k + 1 ensures parse(rest[j].timestamp) < parse(r) {
          if j > 0 { assert rest[j] == rest[1..][j - 1]; }
        }
      } else if r != latest {
        assert r == rest[0].timestamp;
      }
    }
  }

  /** getLatestTimestamp: "now" for no data; otherwise a timestamp of the data
      that no other exceeds, and the earliest such one in the list. */
  function GetLatestTimestamp(visitorData: seq<VisitorData>, now: Timestamp, parse: Timestamp -> int): (r: Timestamp)
    ensures visitorData == [] ==> r == now
    ensures visitorData != [] ==>
      exists k :: 0 <= k < |visitorData| && r == visitorData[k].timestamp &&
        (forall j :: 0 <= j < |visitorData| ==> parse(visitorData[j].timestamp) <= parse(r)) &&
        (forall j :: 0 <= j < k ==> parse(visitorData[j].timestamp) < parse(r))
  {
    if visitorData == [] then now
    else
      ReduceIsFirstMaximum(visitorData[0].timestamp, visitorData, parse);
      Reduce(visitorData[0].timestamp, visitorData, parse)
  }
}

/** The records the dashboard passes around (src/types/index.ts), together with
    the two record types its components use but that the shown type file does
    not declare (AreaStatus and Threshold), declared here from their usage. */
module Types {

  datatype Option<+T> = None | Some(value: T) {
    function GetOr(default: T): T {
      match this
      case Some(v) => v
      case None => default
    }
  }

  datatype Result<+R, +E> = Success(value: R) | Failure(error: E)

  /** A date in its ISO text form, as the records carry it. Where the source
      parses one (`new Date(s)`), the parse is a parameter `string -> int`. */
  type Timestamp = string

  /** The two cut-offs of an area: counts up to `low` are low, up to `medium` medium. */
  datatype Thresholds = Thresholds(low: int, medium: int)

  /** One visitor-count observation (VisitorData). */
  datatype VisitorData = VisitorData(id: int, timestamp: Timestamp, areaNumber: int, amountVisitors: int)

  /** The stored settings of one area (AreaSettings). `highlight` is nullable:
      the settings accordion writes `null` into it when the colour is cleared. */
  datatype AreaSettings = AreaSettings(
    id: int,
    lastUpdated: Timestamp,
    areaName: string,
    highlight: Option<string>,
    capacityUsage: int,
    x: int,
    y: int,
    width: int,
    height: int,
    thresholds: Option<Thresholds>)

  /** A Partial<AreaSettings>: `None` is an absent key. A present `highlight`
      may itself be null, hence its double option. */
  datatype AreaPatch = AreaPatch(
    id: Option<int>,
    lastUpdated: Option<Timestamp>,
    areaName: Option<string>,
    highlight: Option<Option<string>>,
    capacityUsage: Option<int>,
    x: Option<int>,
    y: Option<int>,
    width: Option<int>,
    height: Option<int>,
    thresholds: Option<Thresholds>)

  const EmptyPatch := AreaPatch(None, None, None, None, None, None, None, None, None, None)

  /** An area as the map and the settings accordion see it: its settings plus
      its area number and current visitor count. Both users read `thresholds`
      without a guard, so here it is always present. */
  datatype AreaStatus = AreaStatus(
    id: int,
    lastUpdated: Timestamp,
    areaName: string,
    highlight: Option<string>,
    capacityUsage: int,
    x: int,
    y: int,
    width: int,
    height: int,
    thresholds: Thresholds,
    areaNumber: int,
    amountVisitors: int)

  /** One stored band of an area (a row of the thresholds table). */
  datatype Threshold = Threshold(id: int, settingId: int, upperThreshold: int, color: string)

  /** The JavaScript idiom `s || d` on a nullable string: null and "" are falsy. */
  function OrElse(s: Option<string>, d: string): (r: string)
    ensures s.Some? && s.value != "" ==> r == s.value
    ensures s.None? || s.value == "" ==> r == d
  {
    if s.Some? && s.value != "" then s.value else d
  }

  /** `parseInt(v) || 0`: a failed parse (NaN) and zero are both falsy. */
  function OrZero(parsed: Option<int>): int {
    parsed.GetOr(0)
  }

  /** The settings part of an area status, as the status record carries it. */
  function SettingsOf(s: AreaStatus): (r: AreaSettings)
    ensures r.id == s.id && r.areaName == s.areaName && r.highlight == s.highlight
    ensures r.thresholds == Some(s.thresholds)
  {
    AreaSettings(s.id, s.lastUpdated, s.areaName, s.highlight, s.capacityUsage,
                 s.x, s.y, s.width, s.height, Some(s.thresholds))
  }
}

/** The local form state shared by the two settings components
    (src/components/AreaSettingsForm.tsx and AreaSettingsAccordion.tsx carry
    the same initial state and the same change handler). The initial state
    sets all eight keys and the handler never removes one, so the form is a
    full record here. */
module FormState {
  import opened Types

  datatype FormData = FormData(
    areaName: string,
    highlight: string,
    capacityUsage: int,
    x: int,
    y: int,
    width: int,
    height: int,
    thresholds: Thresholds)

  const DefaultThresholds := Thresholds(100, 300)

  /** The initial (and reset) form of an area: an absent highlight becomes
      "", absent thresholds become 100/300, the rest is copied. */
  function InitialForm(area: AreaSettings): (f: FormData)
    ensures f.highlight == (if area.highlight.Some? then area.highlight.value else "")
    ensures f.thresholds == (if area.thresholds.Some? then area.thresholds.value else DefaultThresholds)
    ensures f.areaName == area.areaName && f.capacityUsage == area.capacityUsage
    ensures f.x == area.x && f.y == area.y && f.width == area.width && f.height == area.height
  {
    FormData(area.areaName, OrElse(area.highlight, ""), area.capacityUsage,
             area.x, area.y, area.width, area.height,
             area.thresholds.GetOr(DefaultThresholds))
  }

  /** The inputs the change handler is wired to. */
  datatype Field = AreaName | Highlight | CapacityUsage | X | Y | Width | Height | ThresholdLow | ThresholdMedium

  /** What a field holds: text for the two string fields, a number otherwise. */
  datatype FieldValue = Text(text: string) | Number(number: int)

  /** Coerced fields: the five numeric keys and the two threshold sub-keys. */
  predicate IsCoerced(field: Field) {
    !(field == AreaName || field == Highlight)
  }

  /** The value of one field of the form. */
  function Get(form: FormData, field: Field): FieldValue {
    match field
    case AreaName => Text(form.areaName)
    case Highlight => Text(form.highlight)
    case CapacityUsage => Number(form.capacityUsage)
    case X => Number(form.x)
    case Y => Number(form.y)
    case Width => Number(form.width)
    case Height => Number(form.height)
    case ThresholdLow => Number(form.thresholds.low)
    case ThresholdMedium => Number(form.thresholds.medium)
  }

  /** The fields are the whole form: two forms that agree on every field are equal. */
  lemma FieldsDetermineForm(a: FormData, b: FormData)
    requires forall f :: Get(a, f) == Get(b, f)
    ensures a == b
  {
    assert Get(a, AreaName) == Get(b, AreaName) && Get(a, Highlight) == Get(b, Highlight);
    assert Get(a, CapacityUsage) == Get(b, CapacityUsage) && Get(a, X) == Get(b, X) && Get(a, Y) == Get(b, Y);
    assert Get(a, Width) == Get(b, Width) && Get(a, Height) == Get(b, Height);
    assert Get(a, ThresholdLow) == Get(b, ThresholdLow) && Get(a, ThresholdMedium) == Get(b, ThresholdMedium);
  }

  /** handleChange: a threshold sub-key or a numeric field becomes
      `parseInt(value) || 0`, a text field the raw value; nothing else changes. */
  function HandleChange(prev: FormData, field: Field, value: string, parseInt: string -> Option<int>): (next: FormData)
    ensures forall g :: g != field ==> Get(next, g) == Get(prev, g)
    ensures Get(next, field) == if IsCoerced(field) then Number(OrZero(parseInt(value))) else Text(value)
  {
    var n := OrZero(parseInt(value));
    match field
    case ThresholdLow => prev.(thresholds := prev.thresholds.(low := n))
    case ThresholdMedium => prev.(thresholds := prev.thresholds.(medium := n))
    case CapacityUsage => prev.(capacityUsage := n)
    case X => prev.(x := n)
    case Y => prev.(y := n)
    case Width => prev.(width := n)
    case Height => prev.(height := n)
    case AreaName => prev.(areaName := value)
    case Highlight => prev.(highlight := value)
  }

  /** The handler's two promises pin its result down: any form that changes
      only the edited field, to the coerced or raw value, is the handler's result. */
  lemma HandleChangeIsOnlyThatField(prev: FormData, field: Field, value: string, parseInt: string -> Option<int>, next: FormData)
    requires forall g :: g != field ==> Get(next, g) == Get(prev, g)
    requires Get(next, field) == if IsCoerced(field) then Number(OrZero(parseInt(value))) else Text(value)
    ensures next == HandleChange(prev, field, value, parseInt)
  {
    var expected := HandleChange(prev, field, value, parseInt);
    forall g ensures Get(next, g) == Get(expected, g) {
    }
    FieldsDetermineForm(next, expected);
  }

  /** Typing an unparsable or zero value into a coerced field stores 0. */
  lemma UnparsableBecomesZero(prev: FormData, field: Field, value: string, parseInt: string -> Option<int>)
    requires IsCoerced(field)
    requires parseInt(value) == None || parseInt(value) == Some(0)
    ensures Get(HandleChange(prev, field, value, parseInt), field) == Number(0)
  {
  }
}

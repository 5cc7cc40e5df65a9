/** The accordion variant of the settings editor
    (src/components/AreaSettingsAccordion.tsx): it loads the area's stored
    threshold rows, sorts them for display in place, and on save sends the
    area's seven attributes, rewrites the first two threshold rows where the
    form differs, and hands the merged area to onUpdate. The backend calls
    (updateAreaSettings, updateThreshold, getThresholds) are recorded in a
    call log; their outcomes are parameters. */
module AreaSettingsAccordion {
  import opened Types
  import opened FormState

  /** The accordion's initial (and reset) form: that of the area's settings. */
  function InitialAccordionForm(area: AreaStatus): (f: FormData)
    ensures f.thresholds == area.thresholds
    ensures f.highlight == (if area.highlight.Some? then area.highlight.value else "")
    ensures f.areaName == area.areaName && f.capacityUsage == area.capacityUsage
    ensures f.x == area.x && f.y == area.y && f.width == area.width && f.height == area.height
  {
    InitialForm(SettingsOf(area))
  }

  /** The `areaData` of handleSubmit: the seven area attributes, with an
      empty highlight sent as null; no id, no timestamp, no thresholds. */
  function AreaPayload(form: FormData): (p: AreaPatch)
    ensures p.id.None? && p.lastUpdated.None? && p.thresholds.None?
    ensures p.highlight == Some(None) <==> form.highlight == ""
    ensures form.highlight != "" ==> p.highlight == Some(Some(form.highlight))
    ensures p.areaName == Some(form.areaName) && p.capacityUsage == Some(form.capacityUsage)
    ensures p.x == Some(form.x) && p.y == Some(form.y) && p.width == Some(form.width) && p.height == Some(form.height)
  {
    AreaPatch(None, None, Some(form.areaName),
              Some(if form.highlight == "" then None else Some(form.highlight)),
              Some(form.capacityUsage), Some(form.x), Some(form.y), Some(form.width), Some(form.height),
              None)
  }

  /** A write of `upper_threshold` to the threshold row at position `slot`
      of the loaded list (0: the 'low' row, 1: the 'medium' row). */
  datatype ThresholdWrite = ThresholdWrite(slot: int, id: int, upperThreshold: int)

  predicate WritesSlot(writes: seq<ThresholdWrite>, slot: int) {
    exists k :: 0 <= k < |writes| && writes[k].slot == slot
  }

  /** The threshold writes of handleSubmit, in order. At least two rows must
      be loaded; row 0 is written exactly when the form's low differs from
      the area's, row 1 exactly when the medium differs; the value written
      is the form's (`x || 0` is the identity on the form's integers). */
  function PlannedWrites(form: FormData, area: AreaStatus, rows: seq<Threshold>): (writes: seq<ThresholdWrite>)
    ensures |writes| <= 2
    ensures WritesSlot(writes, 0) <==> |rows| >= 2 && form.thresholds.low != area.thresholds.low
    ensures WritesSlot(writes, 1) <==> |rows| >= 2 && form.thresholds.medium != area.thresholds.medium
    ensures forall k :: 0 <= k < |writes| ==>
      (writes[k].slot == 0 || writes[k].slot == 1) && writes[k].id == rows[writes[k].slot].id &&
      writes[k].upperThreshold == (if writes[k].slot == 0 then form.thresholds.low else form.thresholds.medium)
    ensures forall j, k :: 0 <= j < k < |writes| ==> writes[j].slot < writes[k].slot
  {
    if |rows| < 2 then []
    else
      var writes := LowWrite(form, area, rows) + MediumWrite(form, area, rows);
      assert LowWrite(form, area, rows) != [] ==> writes[0].slot == 0;
      assert MediumWrite(form, area, rows) != [] ==> writes[|writes| - 1].slot == 1;
      writes
  }

  /** The write of the 'low' row, when the form's low differs. */
  function LowWrite(form: FormData, area: AreaStatus, rows: seq<Threshold>): seq<ThresholdWrite>
    requires |rows| >= 2
  {
    if form.thresholds.low != area.thresholds.low
    then [ThresholdWrite(0, rows[0].id, form.thresholds.low)] else []
  }

  /** The write of the 'medium' row, when the form's medium differs. */
  function MediumWrite(form: FormData, area: AreaStatus, rows: seq<Threshold>): seq<ThresholdWrite>
    requires |rows| >= 2
  {
    if form.thresholds.medium != area.thresholds.medium
    then [ThresholdWrite(1, rows[1].id, form.thresholds.medium)] else []
  }

  /** A form whose thresholds equal the area's plans no threshold write. */
  lemma UnchangedThresholdsWriteNothing(form: FormData, area: AreaStatus, rows: seq<Threshold>)
    requires form.thresholds == area.thresholds
    ensures PlannedWrites(form, area, rows) == []
  {
  }

  /** The area handed to onUpdate: `{...area, ...updatedArea, thresholds:
      formData.thresholds || area.thresholds}`. Every settings key comes from
      the stored row, the area number and visitor count from the area, and
      the thresholds from the form. */
  function MergedStatus(area: AreaStatus, updatedArea: AreaSettings, form: FormData): (s: AreaStatus)
    ensures SettingsOf(s) == updatedArea.(thresholds := Some(form.thresholds))
    ensures s.areaNumber == area.areaNumber && s.amountVisitors == area.amountVisitors
  {
    AreaStatus(updatedArea.id, updatedArea.lastUpdated, updatedArea.areaName, updatedArea.highlight,
               updatedArea.capacityUsage, updatedArea.x, updatedArea.y, updatedArea.width,
               updatedArea.height, form.thresholds, area.areaNumber, area.amountVisitors)
  }

  /** Sorted ascending by upper threshold, as the display comparator orders them. */
  predicate SortedByUpper(s: seq<Threshold>) {
    forall p, q :: 0 <= p < q < |s| ==> s[p].upperThreshold <= s[q].upperThreshold
  }

  /** The rows with upper threshold `v`, in list order. */
  function WithUpper(s: seq<Threshold>, v: int): seq<Threshold> {
    if s == [] then []
    else (if s[0].upperThreshold == v then [s[0]] else []) + WithUpper(s[1..], v)
  }

  /** Rows with equal upper thresholds come in the same relative order in
      both lists: what a stable sort keeps. */
  ghost predicate KeepsTieOrder(s: seq<Threshold>, t: seq<Threshold>) {
    forall v :: WithUpper(s, v) == WithUpper(t, v)
  }

  lemma {:induction false} WithUpperConcat(s: seq<Threshold>, t: seq<Threshold>, v: int)
    ensures WithUpper(s + t, v) == WithUpper(s, v) + WithUpper(t, v)
  {
    if s == [] {
      assert s + t == t;
    } else {
      var head := if s[0].upperThreshold == v then [s[0]] else [];
      assert (s + t)[0] == s[0] && (s + t)[1..] == s[1..] + t;
      assert WithUpper(s + t, v) == head + WithUpper(s[1..] + t, v);
      WithUpperConcat(s[1..], t, v);
      assert WithUpper(s, v) == head + WithUpper(s[1..], v);
    }
  }

  lemma WithUpperOfThree(front: seq<Threshold>, mid: seq<Threshold>, back: seq<Threshold>, v: int)
    ensures WithUpper(front + mid + back, v) == WithUpper(front, v) + WithUpper(mid, v) + WithUpper(back, v)
  {
    WithUpperConcat(front + mid, back, v);
    WithUpperConcat(front, mid, v);
  }

  /** Two rows with different upper thresholds: at most one of them has `v`. */
  lemma WithUpperOfPair(x: Threshold, y: Threshold, v: int)
    requires x.upperThreshold != y.upperThreshold
    ensures WithUpper([x, y], v) == WithUpper([y, x], v)
  {
    WithUpperConcat([x], [y], v);
    WithUpperConcat([y], [x], v);
    assert [x] + [y] == [x, y] && [y] + [x] == [y, x];
  }

  /** Exchanging two neighbours with different upper thresholds keeps the
      order among equal ones. */
  lemma SwapKeepsTieOrder(s: seq<Threshold>, j: int)
    requires 0 < j < |s| && s[j - 1].upperThreshold != s[j].upperThreshold
    ensures KeepsTieOrder(s[j - 1 := s[j]][j := s[j - 1]], s)
  {
    var t := s[j - 1 := s[j]][j := s[j - 1]];
    var front, back := s[..j - 1], s[j + 1..];
    assert s == front + [s[j - 1], s[j]] + back;
    assert t == front + [s[j], s[j - 1]] + back;
    forall v ensures WithUpper(t, v) == WithUpper(s, v) {
      WithUpperOfThree(front, [s[j - 1], s[j]], back, v);
      WithUpperOfThree(front, [s[j], s[j - 1]], back, v);
      WithUpperOfPair(s[j - 1], s[j], v);
    }
  }

  /** Exchanges the out-of-order entries at j - 1 and j. */
  method SwapAdjacent(a: array<Threshold>, j: int)
    requires 0 < j < a.Length && a[j - 1].upperThreshold > a[j].upperThreshold
    modifies a
    ensures a[j - 1] == old(a[j]) && a[j] == old(a[j - 1])
    ensures forall k :: 0 <= k < a.Length && k != j - 1 && k != j ==> a[k] == old(a[k])
    ensures multiset(a[..]) == old(multiset(a[..]))
    ensures KeepsTieOrder(a[..], old(a[..]))
  {
    SwapKeepsTieOrder(a[..], j);
    a[j - 1], a[j] := a[j], a[j - 1];
    assert a[..] == old(a[..])[j - 1 := old(a[j])][j := old(a[j - 1])];
  }

  lemma TieOrderTransitive(r: seq<Threshold>, s: seq<Threshold>, t: seq<Threshold>)
    requires KeepsTieOrder(r, s) && KeepsTieOrder(s, t)
    ensures KeepsTieOrder(r, t)
  {
  }

  /** One pass of the insertion sort: moves a[i] down past the larger
      entries before it, into the sorted prefix a[..i]. */
  method InsertLast(a: array<Threshold>, i: int)
    requires 0 <= i < a.Length && SortedByUpper(a[..i])
    modifies a
    ensures SortedByUpper(a[..i + 1])
    ensures multiset(a[..]) == old(multiset(a[..]))
    ensures KeepsTieOrder(a[..], old(a[..]))
  {
    var j := i;
    while j > 0 && a[j - 1].upperThreshold > a[j].upperThreshold
      invariant 0 <= j <= i
      invariant forall p, q :: 0 <= p < q <= i && q != j ==> a[p].upperThreshold <= a[q].upperThreshold
      invariant multiset(a[..]) == old(multiset(a[..]))
      invariant KeepsTieOrder(a[..], old(a[..]))
    {
      ghost var before := a[..];
      SwapAdjacent(a, j);
      TieOrderTransitive(a[..], before, old(a[..]));
      j := j - 1;
    }
  }

  /** `thresholds.sort((a, b) => a.upper_threshold - b.upper_threshold)`, in
      place: an insertion sort by adjacent swaps of strictly out-of-order
      neighbours, hence stable like the engine's sort. */
  method SortByUpperThreshold(a: array<Threshold>)
    modifies a
    ensures SortedByUpper(a[..])
    ensures multiset(a[..]) == old(multiset(a[..]))
    ensures KeepsTieOrder(a[..], old(a[..]))
  {
    var i := 0;
    while i < a.Length
      invariant 0 <= i <= a.Length
      invariant SortedByUpper(a[..i])
      invariant multiset(a[..]) == old(multiset(a[..]))
      invariant KeepsTieOrder(a[..], old(a[..]))
    {
      ghost var before := a[..];
      InsertLast(a, i);
      TieOrderTransitive(a[..], before, old(a[..]));
      i := i + 1;
    }
    assert a[..a.Length] == a[..];
  }

  /** A request the accordion sends to the backend. */
  datatype ApiCall =
    | GetThresholds(areaNumber: int)
    | UpdateArea(areaId: int, payload: AreaPatch)
    | UpdateThreshold(id: int, upperThreshold: int)

  /** How updateAreaSettings settled: rejected, or resolved to a row or to
      nothing (a falsy result, which skips onUpdate). */
  datatype UpdateOutcome = Rejected | Resolved(updatedArea: Option<AreaSettings>)

  /** The threshold requests actually sent: the planned writes up to and
      including the first one that rejects (its slot is in `failing`). */
  function SentWrites(writes: seq<ThresholdWrite>, failing: set<int>): (calls: seq<ApiCall>)
    ensures |calls| <= |writes|
  {
    if writes == [] then []
    else
      [UpdateThreshold(writes[0].id, writes[0].upperThreshold)] +
      (if writes[0].slot in failing then [] else SentWrites(writes[1..], failing))
  }

  lemma SentWritesCons(w: ThresholdWrite, rest: seq<ThresholdWrite>, failing: set<int>)
    ensures SentWrites([w] + rest, failing) ==
      [UpdateThreshold(w.id, w.upperThreshold)] + (if w.slot in failing then [] else SentWrites(rest, failing))
  {
    assert ([w] + rest)[1..] == rest;
  }

  predicate AllWritesSucceed(writes: seq<ThresholdWrite>, failing: set<int>) {
    forall k :: 0 <= k < |writes| ==> writes[k].slot !in failing
  }

  /** The update request of each write, in order. */
  function ThresholdCalls(writes: seq<ThresholdWrite>): seq<ApiCall> {
    seq(|writes|, k requires 0 <= k < |writes| => UpdateThreshold(writes[k].id, writes[k].upperThreshold))
  }

  lemma ThresholdCallsCons(w: ThresholdWrite, rest: seq<ThresholdWrite>)
    ensures ThresholdCalls([w] + rest) == [UpdateThreshold(w.id, w.upperThreshold)] + ThresholdCalls(rest)
  {
    assert forall k :: 0 < k < |rest| + 1 ==> ([w] + rest)[k] == rest[k - 1];
  }

  /** When no write rejects, every planned write is sent, in order. */
  lemma {:induction false} SentWritesAllWhenNoneRejects(writes: seq<ThresholdWrite>, failing: set<int>)
    requires AllWritesSucceed(writes, failing)
    ensures SentWrites(writes, failing) == ThresholdCalls(writes)
  {
    if writes != [] {
      assert AllWritesSucceed(writes[1..], failing) by {
        forall k | 0 <= k < |writes[1..]| ensures writes[1..][k].slot !in failing {
          assert writes[1..][k] == writes[k + 1];
        }
      }
      SentWritesAllWhenNoneRejects(writes[1..], failing);
      assert ThresholdCalls(writes) == [UpdateThreshold(writes[0].id, writes[0].upperThreshold)] + ThresholdCalls(writes[1..]);
    }
  }

  /** When the k-th write is the first to reject, the requests sent are the
      planned writes up to and including it. */
  lemma {:induction false} SentWritesUpTo(writes: seq<ThresholdWrite>, failing: set<int>, k: int)
    requires 0 <= k < |writes| && writes[k].slot in failing
    requires forall j :: 0 <= j < k ==> writes[j].slot !in failing
    ensures SentWrites(writes, failing) == ThresholdCalls(writes[..k + 1])
  {
    var w, rest := writes[0], writes[1..];
    assert writes == [w] + rest;
    SentWritesCons(w, rest, failing);
    if k == 0 {
      assert ThresholdCalls(writes[..1]) == [UpdateThreshold(w.id, w.upperThreshold)];
    } else {
      assert rest[k - 1] == writes[k];
      assert forall j :: 0 <= j < k - 1 ==> rest[j] == writes[j + 1];
      SentWritesUpTo(rest, failing, k - 1);
      assert writes[..k + 1] == [w] + rest[..k];
      ThresholdCallsCons(w, rest[..k]);
    }
  }

  /** When a write rejects, the requests sent are the planned writes up to
      and including the first rejected one. */
  lemma SentWritesStopAtFirstRejection(writes: seq<ThresholdWrite>, failing: set<int>)
    requires !AllWritesSucceed(writes, failing)
    ensures exists k :: (0 <= k < |writes| && writes[k].slot in failing &&
                         (forall j :: 0 <= j < k ==> writes[j].slot !in failing) &&
                         SentWrites(writes, failing) == ThresholdCalls(writes[..k + 1]))
  {
    var m :| 0 <= m < |writes| && writes[m].slot in failing;
    var k := 0;
    while writes[k].slot !in failing
      invariant 0 <= k <= m
      invariant forall j :: 0 <= j < k ==> writes[j].slot !in failing
      decreases m - k
    {
      k := k + 1;
    }
    SentWritesUpTo(writes, failing, k);
  }

  /** The component's state, for one `area` prop. */
  class Accordion {
    var area: AreaStatus
    var formData: FormData
    var thresholds: array<Threshold>
    var isSubmitting: bool
    var isLoading: bool
    var calls: seq<ApiCall>
    var notified: seq<AreaStatus>

    constructor (area: AreaStatus)
      ensures this.area == area && formData == InitialAccordionForm(area)
      ensures fresh(thresholds) && thresholds.Length == 0
      ensures isLoading && !isSubmitting && calls == [] && notified == []
    {
      this.area := area;
      formData := InitialAccordionForm(area);
      thresholds := new Threshold[0];
      isSubmitting := false;
      isLoading := true;
      calls := [];
      notified := [];
    }

    /** The effect on the area number: getThresholds, then the list replaced
        and loading over. A rejection is not caught, so loading stays on. */
    method FetchThresholds(loaded: Option<seq<Threshold>>)
      modifies this
      ensures calls == old(calls) + [GetThresholds(area.areaNumber)]
      ensures loaded.Some? ==> fresh(thresholds) && thresholds[..] == loaded.value && !isLoading
      ensures loaded.None? ==> thresholds == old(thresholds) && isLoading
      ensures area == old(area) && formData == old(formData) && notified == old(notified)
      ensures isSubmitting == old(isSubmitting)
    {
      isLoading := true;
      calls := calls + [GetThresholds(area.areaNumber)];
      if loaded.Some? {
        var data := loaded.value;
        thresholds := new Threshold[|data|](k requires 0 <= k < |data| => data[k]);
        isLoading := false;
      }
    }

    /** The effect on the `area` prop: the form is reset to the new area. */
    method ResetForArea(newArea: AreaStatus)
      modifies this
      ensures area == newArea && formData == InitialAccordionForm(newArea)
      ensures thresholds == old(thresholds) && calls == old(calls) && notified == old(notified)
      ensures isLoading == old(isLoading) && isSubmitting == old(isSubmitting)
    {
      area := newArea;
      formData := InitialAccordionForm(newArea);
    }

    /** handleChange on one input. */
    method HandleChange(field: Field, value: string, parseInt: string -> Option<int>)
      modifies this
      ensures formData == FormState.HandleChange(old(formData), field, value, parseInt)
      ensures area == old(area) && thresholds == old(thresholds) && calls == old(calls)
      ensures notified == old(notified) && isLoading == old(isLoading) && isSubmitting == old(isSubmitting)
    {
      formData := FormState.HandleChange(formData, field, value, parseInt);
    }

    /** The display of the stored rows, which sorts the state array in place. */
    method SortForDisplay()
      modifies thresholds
      ensures SortedByUpper(thresholds[..])
      ensures multiset(thresholds[..]) == old(multiset(thresholds[..]))
      ensures KeepsTieOrder(thresholds[..], old(thresholds[..]))
    {
      SortByUpperThreshold(thresholds);
    }

    /** The `thresholds.length >= 2` block of handleSubmit: each band whose
        form value differs has its row rewritten in turn, and a rejection
        ends the block. */
    method WriteThresholds(failing: set<int>) returns (ok: bool)
      modifies this`calls
      ensures var writes := PlannedWrites(formData, area, thresholds[..]);
        calls == old(calls) + SentWrites(writes, failing) && ok == AllWritesSucceed(writes, failing)
    {
      ok := true;
      if thresholds.Length < 2 {
        return;
      }
      ghost var rows := thresholds[..];
      ghost var medium := MediumWrite(formData, area, rows);
      if formData.thresholds.low != area.thresholds.low {
        ghost var low := LowWrite(formData, area, rows);
        SentWritesCons(low[0], medium, failing);
        calls := calls + [UpdateThreshold(thresholds[0].id, formData.thresholds.low)];
        if 0 in failing {
          ok := false;
          return;
        }
      }
      if formData.thresholds.medium != area.thresholds.medium {
        SentWritesCons(medium[0], [], failing);
        assert medium == [medium[0]] + [];
        calls := calls + [UpdateThreshold(thresholds[1].id, formData.thresholds.medium)];
        if 1 in failing {
          ok := false;
          return;
        }
      }
    }

    /** handleSubmit: the area update; if it resolved, the planned threshold
        writes until one rejects; then, if nothing rejected and the update
        gave a row, onUpdate with the merged area. The flag is clear again
        at the end. */
    method HandleSubmit(outcome: UpdateOutcome, failing: set<int>)
      modifies this
      ensures !isSubmitting
      ensures var writes := PlannedWrites(old(formData), area, old(thresholds[..]));
        calls == old(calls) + [UpdateArea(area.areaNumber, AreaPayload(formData))] +
          (if outcome.Rejected? then [] else SentWrites(writes, failing)) &&
        notified == old(notified) +
          (if outcome.Resolved? && outcome.updatedArea.Some? && AllWritesSucceed(writes, failing)
           then [MergedStatus(area, outcome.updatedArea.value, formData)] else [])
      ensures area == old(area) && formData == old(formData) && thresholds == old(thresholds)
      ensures isLoading == old(isLoading)
    {
      isSubmitting := true;
      calls := calls + [UpdateArea(area.areaNumber, AreaPayload(formData))];
      if outcome.Rejected? {
        isSubmitting := false;
        return;
      }
      var ok := WriteThresholds(failing);
      if ok && outcome.updatedArea.Some? {
        notified := notified + [MergedStatus(area, outcome.updatedArea.value, formData)];
      }
      isSubmitting := false;
    }
  }
}

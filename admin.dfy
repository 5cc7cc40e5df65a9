/** The management page (src/pages/Admin.tsx): its initial load, the
    replace-by-id after a save, the hall/parking grouping of the area
    buttons, and which area the settings form is shown for. */
module Admin {
  import opened Types
  import Api

  /** handleAreaUpdate's `areas.map(area => area.id === updatedArea.id ? updatedArea : area)`. */
  function ReplaceById(areas: seq<AreaSettings>, updated: AreaSettings): (r: seq<AreaSettings>)
    ensures |r| == |areas|
    ensures forall i :: 0 <= i < |areas| && areas[i].id == updated.id ==> r[i] == updated
    ensures forall i :: 0 <= i < |areas| && areas[i].id != updated.id ==> r[i] == areas[i]
  {
    if areas == [] then []
    else [if areas[0].id == updated.id then updated else areas[0]] + ReplaceById(areas[1..], updated)
  }

  /** Replacing twice with the same record is replacing once, and a record
      whose id is not in the list leaves the list as it was. */
  lemma ReplaceByIdIdempotentAndInert(areas: seq<AreaSettings>, updated: AreaSettings)
    ensures ReplaceById(ReplaceById(areas, updated), updated) == ReplaceById(areas, updated)
    ensures (forall i :: 0 <= i < |areas| ==> areas[i].id != updated.id) ==> ReplaceById(areas, updated) == areas
  {
    var once := ReplaceById(areas, updated);
    assert forall i :: 0 <= i < |areas| ==> ReplaceById(once, updated)[i] == once[i];
  }

  /** String.prototype.startsWith with a one-character prefix. */
  predicate StartsWith(name: string, c: char) {
    |name| > 0 && name[0] == c
  }

  predicate IsHall(area: AreaSettings) {
    StartsWith(area.areaName, 'A') || StartsWith(area.areaName, 'B') || StartsWith(area.areaName, 'C')
  }

  predicate IsParking(area: AreaSettings) {
    StartsWith(area.areaName, 'P')
  }

  /** Array.prototype.filter. */
  function Filter(areas: seq<AreaSettings>, keep: AreaSettings -> bool): (r: seq<AreaSettings>)
    ensures |r| <= |areas|
    ensures forall a :: a in r <==> a in areas && keep(a)
  {
    if areas == [] then []
    else (if keep(areas[0]) then [areas[0]] else []) + Filter(areas[1..], keep)
  }

  /** Filtering keeps the order: filtering a concatenation concatenates the filtered parts. */
  lemma {:induction false} FilterPreservesOrder(front: seq<AreaSettings>, back: seq<AreaSettings>, keep: AreaSettings -> bool)
    ensures Filter(front + back, keep) == Filter(front, keep) + Filter(back, keep)
  {
    if front != [] {
      assert (front + back)[1..] == front[1..] + back;
      FilterPreservesOrder(front[1..], back, keep);
    } else {
      assert front + back == back;
    }
  }

  /** The two lists beside each other never hold more than the areas, since
      no area is in both. */
  lemma {:induction false} FilterDisjointLength(areas: seq<AreaSettings>, p: AreaSettings -> bool, q: AreaSettings -> bool)
    requires forall a :: !(p(a) && q(a))
    ensures |Filter(areas, p)| + |Filter(areas, q)| <= |areas|
  {
    if areas != [] {
      FilterDisjointLength(areas[1..], p, q);
    }
  }

  /** The `halls` list of the page: the areas named A..., B... or C.... */
  function Halls(areas: seq<AreaSettings>): (halls: seq<AreaSettings>)
    ensures forall a :: a in halls <==> a in areas && |a.areaName| > 0 && a.areaName[0] in {'A', 'B', 'C'}
  {
    Filter(areas, IsHall)
  }

  /** The `parking` list of the page: the areas named P.... */
  function Parking(areas: seq<AreaSettings>): (parking: seq<AreaSettings>)
    ensures forall a :: a in parking <==> a in areas && |a.areaName| > 0 && a.areaName[0] == 'P'
  {
    Filter(areas, IsParking)
  }

  /** An area is a hall exactly when its name starts with A, B or C and a
      parking area exactly when it starts with P; no area is both, and an
      area with any other first letter (or an empty name) is in neither list. */
  lemma GroupingByPrefix(areas: seq<AreaSettings>, a: AreaSettings)
    ensures a in Halls(areas) <==> a in areas && |a.areaName| > 0 && a.areaName[0] in {'A', 'B', 'C'}
    ensures a in Parking(areas) <==> a in areas && |a.areaName| > 0 && a.areaName[0] == 'P'
    ensures !(a in Halls(areas) && a in Parking(areas))
    ensures |Halls(areas)| + |Parking(areas)| <= |areas|
  {
    FilterDisjointLength(areas, IsHall, IsParking);
  }

  /** `areas.find(a => a.id === id)`: the first area with the id, if any. */
  function FindById(areas: seq<AreaSettings>, id: int): (r: Option<AreaSettings>)
    ensures r.None? <==> forall k :: 0 <= k < |areas| ==> areas[k].id != id
    ensures r.Some? ==>
      exists k :: (0 <= k < |areas| && areas[k] == r.value && r.value.id == id &&
                   forall j :: 0 <= j < k ==> areas[j].id != id)
  {
    var i := Api.IndexOfId(areas, id);
    if i == -1 then None else Some(areas[i])
  }

  /** What the settings column shows: nothing while no area is selected, the
      form for the selected area, or (when the selected id is in no area) the
      form given `undefined`, which the non-null assertion does not catch. */
  datatype FormSlot = NoForm | FormFor(area: AreaSettings) | MissingArea

  function FormTarget(areas: seq<AreaSettings>, selectedArea: Option<int>): (slot: FormSlot)
    ensures slot == NoForm <==> selectedArea.None?
    ensures slot.FormFor? ==> selectedArea.Some? && slot.area.id == selectedArea.value && slot.area in areas
    ensures slot == MissingArea <==> selectedArea.Some? && forall k :: 0 <= k < |areas| ==> areas[k].id != selectedArea.value
    ensures slot.FormFor? ==> selectedArea.Some? && Some(slot.area) == FindById(areas, selectedArea.value)
  {
    if selectedArea.None? then NoForm
    else match FindById(areas, selectedArea.value)
      case Some(a) => FormFor(a)
      case None => MissingArea
  }

  /** The page's state. */
  class AdminPage {
    var areas: seq<AreaSettings>
    var visitorData: seq<VisitorData>
    var selectedArea: Option<int>
    var isLoading: bool

    constructor ()
      ensures areas == [] && visitorData == [] && selectedArea == None && isLoading
    {
      areas := [];
      visitorData := [];
      selectedArea := None;
      isLoading := true;
    }

    /** fetchInitialData once both requests have settled: `Some` when both
        resolved, `None` when either rejected. */
    method FetchInitialData(loaded: Option<(seq<AreaSettings>, seq<VisitorData>)>)
      modifies this
      ensures !isLoading
      ensures loaded.Some? ==>
        (areas == loaded.value.0 && visitorData == loaded.value.1 &&
         selectedArea == (if |loaded.value.0| > 0 then Some(loaded.value.0[0].id) else old(selectedArea)))
      ensures loaded.None? ==>
        (areas == old(areas) && visitorData == old(visitorData) && selectedArea == old(selectedArea))
    {
      if loaded.Some? {
        var (areaData, visitors) := loaded.value;
        areas := areaData;
        visitorData := visitors;
        if |areaData| > 0 {
          selectedArea := Some(areaData[0].id);
        }
      }
      isLoading := false;
    }

    /** A hall or parking button: `setSelectedArea(area.id)`. */
    method SelectArea(id: int)
      modifies this
      ensures selectedArea == Some(id)
      ensures areas == old(areas) && visitorData == old(visitorData) && isLoading == old(isLoading)
    {
      selectedArea := Some(id);
    }

    /** handleAreaUpdate, the settings form's onUpdate. */
    method HandleAreaUpdate(updatedArea: AreaSettings)
      modifies this
      ensures areas == ReplaceById(old(areas), updatedArea)
      ensures visitorData == old(visitorData) && selectedArea == old(selectedArea) && isLoading == old(isLoading)
    {
      areas := ReplaceById(areas, updatedArea);
    }

    /** The settings column: the form for the first area with the selected
        id, nothing while no area is selected. */
    function ShownForm(): (slot: FormSlot)
      reads this
      ensures slot == NoForm <==> selectedArea.None?
      ensures slot.FormFor? ==> selectedArea.Some? && Some(slot.area) == FindById(areas, selectedArea.value)
      ensures slot == MissingArea <==> selectedArea.Some? && FindById(areas, selectedArea.value).None?
    {
      FormTarget(areas, selectedArea)
    }
  }

  /** The page after its first load: the first area is selected and its form
      shown; a failed load leaves no area selected and no form. */
  method InitialLoadScenario(areaData: seq<AreaSettings>, visitors: seq<VisitorData>)
    requires areaData != []
  {
    var page := new AdminPage();
    page.FetchInitialData(Some((areaData, visitors)));
    assert page.selectedArea == Some(areaData[0].id);
    assert page.ShownForm().FormFor?;

    var failed := new AdminPage();
    failed.FetchInitialData(None);
    assert failed.areas == [] && failed.selectedArea == None && !failed.isLoading;
    assert failed.ShownForm() == NoForm;

    var empty := new AdminPage();
    empty.FetchInitialData(Some(([], visitors)));
    assert empty.selectedArea == None;
  }
}

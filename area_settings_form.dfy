/** The settings form of the management page
    (src/components/AreaSettingsForm.tsx): it sends its whole form state to
    updateAreaSettings and hands the stored row to onUpdate. */
module AreaSettingsForm {
  import opened Types
  import opened FormState
  import Api

  /** The whole `formData` as a Partial<AreaSettings>: the eight form keys,
      no id and no timestamp. The highlight goes as it is, "" included. */
  function SubmitPayload(form: FormData): (p: AreaPatch)
    ensures p.id.None? && p.lastUpdated.None?
    ensures p.areaName == Some(form.areaName) && p.highlight == Some(Some(form.highlight))
    ensures p.capacityUsage == Some(form.capacityUsage) && p.thresholds == Some(form.thresholds)
    ensures p.x == Some(form.x) && p.y == Some(form.y) && p.width == Some(form.width) && p.height == Some(form.height)
  {
    AreaPatch(None, None, Some(form.areaName), Some(Some(form.highlight)), Some(form.capacityUsage),
              Some(form.x), Some(form.y), Some(form.width), Some(form.height), Some(form.thresholds))
  }

  /** Saving round-trips: the row stored for a submitted form keeps the
      area's id, carries the new timestamp, and opening the form on it again
      gives back exactly the submitted form. */
  lemma SubmitRoundTrip(stored: AreaSettings, form: FormData, now: Timestamp)
    ensures var row := Api.ApplyPatch(stored, SubmitPayload(form), now);
      row.id == stored.id && row.lastUpdated == now && InitialForm(row) == form
  {
  }

  /** handleSubmit: one update of the table, whose stored row (or the
      failure) is what reaches onUpdate (`None`: the error toast). */
  method HandleSubmit(table: Api.AreaTable, area: AreaSettings, form: FormData, now: Timestamp)
    returns (onUpdate: Option<AreaSettings>)
    modifies table.rows
    ensures var i := Api.IndexOfId(old(table.rows[..]), area.id);
      if i == -1 then
        onUpdate == None && table.rows[..] == old(table.rows[..])
      else
        onUpdate == Some(Api.ApplyPatch(old(table.rows[i]), SubmitPayload(form), now)) &&
        table.rows[..] == old(table.rows[..])[i := onUpdate.value]
  {
    var result := table.UpdateAreaSettings(area.id, SubmitPayload(form), now);
    match result
    case Success(updated) => onUpdate := Some(updated);
    case Failure(_) => onUpdate := None;
  }

  /** Editing one field and saving: the table row for the area then holds the
      edited value, and re-opening the form on it shows the edited form. */
  method EditAndSaveScenario(table: Api.AreaTable, area: AreaSettings, value: string, parseInt: string -> Option<int>, now: Timestamp)
    requires Api.IndexOfId(table.rows[..], area.id) != -1
    modifies table.rows
  {
    var form := HandleChange(InitialForm(area), X, value, parseInt);
    var saved := HandleSubmit(table, area, form, now);
    assert saved.Some?;
    SubmitRoundTrip(old(table.rows[Api.IndexOfId(table.rows[..], area.id)]), form, now);
    assert saved.value.x == OrZero(parseInt(value));
    assert InitialForm(saved.value) == form;
  }
}

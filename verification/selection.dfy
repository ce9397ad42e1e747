/** What the events view derives from the rows the user has ticked: the
    event ids, whether any of them is archived, and which toolbar buttons
    are disabled. The selection is the ticked rows as they are displayed,
    that is, after the row materializer has rewritten them, in table order.
 */
module Selection {
  import opened Markup
  import opened Page
  import opened Rows
  import opened RowProperties

  /** `getIdSelections`: the tags are stripped from each ticked row's
      rendered `Id`, which leaves the event id. */
  function GetIdSelections(selected: seq<Record>): (ids: seq<string>)
    ensures |ids| == |selected|
    ensures forall i :: 0 <= i < |ids| ==> ids[i] == StripTags(selected[i].Id)
    ensures forall i :: 0 <= i < |ids| ==> TagFree(ids[i])
  {
    if |selected| == 0 then []
    else
      StrippedIsTagFree(selected[0].Id);
      [StripTags(selected[0].Id)] + GetIdSelections(selected[1..])
  }

  /** The raw event ids of a list of records. */
  function Ids(rows: seq<Record>): (ids: seq<string>)
    ensures |ids| == |rows|
    ensures forall i :: 0 <= i < |rows| ==> ids[i] == rows[i].Id
  {
    if |rows| == 0 then [] else [rows[0].Id] + Ids(rows[1..])
  }

  /** Ticking materialized rows and reading their ids back yields the ids
      the server sent, in the same order, whenever the ids and the two query
      fragments hold no angle bracket. */
  lemma SelectedIdsRoundTrip(ctx: Context, raws: seq<Record>)
    requires NoAngles(ctx.filterQuery) && NoAngles(ctx.sortQuery)
    requires forall i :: 0 <= i < |raws| ==> NoAngles(raws[i].Id)
    ensures GetIdSelections(ProcessRows(ctx, raws)) == Ids(raws)
  {
    var rows := ProcessRows(ctx, raws);
    forall i | 0 <= i < |raws|
      ensures StripTags(rows[i].Id) == raws[i].Id
    {
      IdRoundTrip(ctx, raws[i]);
    }
  }

  /** `getArchivedSelections`: whether the `Archived` column of some ticked
      row reads exactly "Yes". The literal is compared, not the translated
      label the materializer uses. */
  function GetArchivedSelections(selected: seq<Record>): (any: bool)
    ensures any <==> exists i :: 0 <= i < |selected| && selected[i].Archived == "Yes"
    ensures |selected| == 0 ==> !any
  {
    "Yes" in ArchivedColumn(selected)
  }

  /** The `Archived` values of the ticked rows, in order. */
  function ArchivedColumn(selected: seq<Record>): (column: seq<string>)
    ensures |column| == |selected|
    ensures forall i :: 0 <= i < |selected| ==> column[i] == selected[i].Archived
  {
    if |selected| == 0 then [] else [selected[0].Archived] + ArchivedColumn(selected[1..])
  }

  /** The `disabled` property of each toolbar button. */
  datatype Toolbar = Toolbar(
    viewBtn: bool,
    archiveBtn: bool,
    unarchiveBtn: bool,
    editBtn: bool,
    exportBtn: bool,
    downloadBtn: bool,
    deleteBtn: bool)

  /** The selection-change handler. The unarchive line negates only the
      archived test, so the button is disabled exactly when nothing archived
      is ticked and the user may edit events: a user without that right
      always gets it enabled. */
  function ButtonStates(selected: seq<Record>, perms: Permissions): (t: Toolbar)
    ensures !t.viewBtn <==> |selected| > 0 && perms.canViewEvents
    ensures !t.exportBtn <==> |selected| > 0 && perms.canViewEvents
    ensures !t.downloadBtn <==> |selected| > 0 && perms.canViewEvents
    ensures !t.archiveBtn <==> |selected| > 0 && perms.canEditEvents
    ensures !t.editBtn <==> |selected| > 0 && perms.canEditEvents
    ensures !t.deleteBtn <==> |selected| > 0 && perms.canEditEvents
    ensures t.unarchiveBtn <==> perms.canEditEvents && forall i :: 0 <= i < |selected| ==> selected[i].Archived != "Yes"
    ensures !perms.canEditEvents ==> !t.unarchiveBtn
  {
    var some := |selected| > 0;
    Toolbar(
      viewBtn := !(some && perms.canViewEvents),
      archiveBtn := !(some && perms.canEditEvents),
      unarchiveBtn := !GetArchivedSelections(selected) && perms.canEditEvents,
      editBtn := !(some && perms.canEditEvents),
      exportBtn := !(some && perms.canViewEvents),
      downloadBtn := !(some && perms.canViewEvents),
      deleteBtn := !(some && perms.canEditEvents))
  }

  /** An empty selection disables every button but unarchive, which stays
      disabled only for a user who may edit events. */
  lemma EmptySelectionToolbar(perms: Permissions)
    ensures var t := ButtonStates([], perms);
      t.viewBtn && t.archiveBtn && t.editBtn && t.exportBtn && t.downloadBtn && t.deleteBtn
      && (t.unarchiveBtn <==> perms.canEditEvents)
  {
  }

  /** The unarchive button as the other lines of the handler suggest it was
      meant: enabled exactly when some ticked row is archived and the user
      may edit events. */
  function CorrectedButtonStates(selected: seq<Record>, perms: Permissions): (t: Toolbar)
    ensures !t.unarchiveBtn <==> perms.canEditEvents && exists i :: 0 <= i < |selected| && selected[i].Archived == "Yes"
    ensures t.(unarchiveBtn := false) == ButtonStates(selected, perms).(unarchiveBtn := false)
  {
    ButtonStates(selected, perms).(unarchiveBtn := !(GetArchivedSelections(selected) && perms.canEditEvents))
  }

  /** The two unarchive rules disagree exactly for a user who may not edit
      events. */
  lemma UnarchiveRulesDiffer(selected: seq<Record>, perms: Permissions)
    ensures ButtonStates(selected, perms).unarchiveBtn != CorrectedButtonStates(selected, perms).unarchiveBtn
        <==> !perms.canEditEvents
  {
  }
}

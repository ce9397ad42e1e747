/** The toolbar's click handlers. Each one either refuses with the "no
    permission" notice, navigates, shows a dialog, or sends one request
    whose address lists the ticked events. What the page does after a
    request succeeds is recorded as a tag on the request.
 */
module Actions {
  import opened Text
  import opened Markup
  import opened Page
  import opened Rows
  import opened RowProperties
  import opened Selection

  /** The toolbar buttons, the delete dialog's confirm button, and the
      detail link of one event's cause cell. */
  datatype Action =
    | View | Archive | Unarchive | Edit | Export | Download | Delete | DeleteConfirm
    | EventDetail(eid: string)

  /** What follows a successful request: refreshing the table and then
      reloading the whole page, or opening the dialog the reply fills. */
  datatype Continuation = RefreshAndReload | OpenModal(modal: string)

  datatype Outcome =
    | PermissionDenied
    | Request(url: string, onSuccess: Continuation)
    | Navigate(url: string)
    | ShowModal(modal: string)

  /** What stands between two ids in a request for several events. */
  const IdSeparator: string := "&eids[]="

  /** What stands between two ids in the event view's id filter. */
  const ViewIdSeparator: string := "%2C"

  /** The actions whose address ends with the ticked ids as `eids[]`. */
  predicate IsBatch(action: Action)
  {
    action.Archive? || action.Unarchive? || action.Edit? || action.Export?
    || action.Download? || action.DeleteConfirm?
  }

  /** The actions whose handler first checks that the user may edit events. */
  predicate NeedsEditRight(action: Action)
  {
    action.Unarchive? || action.Edit? || action.Delete? || action.DeleteConfirm?
  }

  /** The query of a batch action, up to its first id. */
  function BatchQuery(action: Action): string
    requires IsBatch(action)
  {
    match action
    case Archive => "?request=events&task=archive&eids[]="
    case Unarchive => "?request=events&task=unarchive&eids[]="
    case Edit => "?request=modal&modal=eventdetail&eids[]="
    case Export => "?view=export&eids[]="
    case Download => "?request=modal&modal=download&eids[]="
    case DeleteConfirm => "?request=events&task=delete&eids[]="
  }

  /** Everything in a batch action's address before the id list: the export
      view is addressed relative to the page, the others from `thisUrl`. */
  function BatchBase(ctx: Context, action: Action): string
    requires IsBatch(action)
  {
    if action.Export? then BatchQuery(action) else ctx.thisUrl + BatchQuery(action)
  }

  /** The event view's filter on the ticked ids. */
  function ViewFilter(ids: seq<string>): string
  {
    "&filter[Query][terms][0][attr]=Id&filter[Query][terms][0][op]=%3D%5B%5D&filter[Query][terms][0][val]="
    + Join(ids, ViewIdSeparator)
  }

  /** The first ticked id; with nothing ticked the script reads past the
      end of the list and prints "undefined". */
  function FirstId(ids: seq<string>): string
  {
    if |ids| > 0 then ids[0] else "undefined"
  }

  /** The outcome of clicking `action` with `selected` ticked. Only the
      unarchive, edit, delete and delete-confirm handlers check the edit
      right; view, archive, export and download trust the button state. */
  function Dispatch(ctx: Context, action: Action, selected: seq<Record>): (o: Outcome)
    ensures o.PermissionDenied? <==> NeedsEditRight(action) && !ctx.perms.canEditEvents
    ensures o.Navigate? <==> action.View? || action.Export?
    ensures o.ShowModal? <==> action.Delete? && ctx.perms.canEditEvents
    ensures o.Request? && (action.Archive? || action.Unarchive? || action.DeleteConfirm?) ==>
              o.onSuccess == RefreshAndReload
    ensures o.Request? && (action.Edit? || action.EventDetail?) ==>
              o.onSuccess == OpenModal("eventDetailModal")
    ensures o.Request? && action.Download? ==> o.onSuccess == OpenModal("downloadModal")
  {
    var ids := GetIdSelections(selected);
    var list := Join(ids, IdSeparator);
    var canEdit := ctx.perms.canEditEvents;
    match action
    case View =>
      Navigate(ctx.thisUrl + "?view=event&eid=" + FirstId(ids) + ViewFilter(ids) + ctx.sortQuery + "&page=1&play=1")
    case Archive =>
      Request(BatchBase(ctx, action) + list, RefreshAndReload)
    case Unarchive =>
      if !canEdit then PermissionDenied
      else Request(BatchBase(ctx, action) + list, RefreshAndReload)
    case Edit =>
      if !canEdit then PermissionDenied
      else Request(BatchBase(ctx, action) + list, OpenModal("eventDetailModal"))
    case Export =>
      Navigate(BatchBase(ctx, action) + list)
    case Download =>
      Request(BatchBase(ctx, action) + list, OpenModal("downloadModal"))
    case Delete =>
      if !canEdit then PermissionDenied
      else ShowModal("deleteConfirm")
    case DeleteConfirm =>
      if !canEdit then PermissionDenied
      else Request(BatchBase(ctx, action) + list, RefreshAndReload)
    case EventDetail(eid) =>
      Request(ctx.thisUrl + "?request=modal&modal=eventdetail&eids[]=" + eid, OpenModal("eventDetailModal"))
  }

  /** A batch action that is not refused addresses its base followed by
      the ticked ids in selection order. */
  lemma BatchListsSelection(ctx: Context, action: Action, selected: seq<Record>)
    requires IsBatch(action) && !(NeedsEditRight(action) && !ctx.perms.canEditEvents)
    ensures var o := Dispatch(ctx, action, selected);
      && (o.Request? || o.Navigate?)
      && o.url == BatchBase(ctx, action) + Join(GetIdSelections(selected), IdSeparator)
  {
  }

  /** The id list of a request splits back into the ids at the separator
      when none of them holds a `&`. */
  lemma IdListSplitsBack(ids: seq<string>)
    requires |ids| > 0 && forall i :: 0 <= i < |ids| ==> '&' !in ids[i]
    ensures SplitOn(Join(ids, IdSeparator), IdSeparator) == ids
  {
    assert IdSeparator[0] == '&';
    SplitJoin(ids, IdSeparator);
  }

  /** With nothing ticked a batch address ends in a bare `eids[]=`: the
      server is sent one empty id. */
  lemma EmptyBatchSendsOneEmptyId(ctx: Context, action: Action)
    requires IsBatch(action) && !(NeedsEditRight(action) && !ctx.perms.canEditEvents)
    ensures Dispatch(ctx, action, []).url == BatchBase(ctx, action)
    ensures SplitOn(Join(GetIdSelections([]), IdSeparator), IdSeparator) == [""]
  {
    assert Join(GetIdSelections([]), IdSeparator) == "";
    assert BatchBase(ctx, action) + "" == BatchBase(ctx, action);
    IndexOfAbsent("", IdSeparator);
  }

  /** The view button opens the first ticked event with a filter on all
      ticked ids, which splitting at `%2C` gives back when none of them
      holds a `%`. */
  lemma ViewOpensSelection(ctx: Context, selected: seq<Record>)
    requires |selected| > 0
    ensures var ids := GetIdSelections(selected);
      Dispatch(ctx, View, selected)
        == Navigate(ctx.thisUrl + "?view=event&eid=" + ids[0] + ViewFilter(ids) + ctx.sortQuery + "&page=1&play=1")
    ensures var ids := GetIdSelections(selected);
      (forall i :: 0 <= i < |ids| ==> '%' !in ids[i]) ==>
        SplitOn(Join(ids, ViewIdSeparator), ViewIdSeparator) == ids
  {
    var ids := GetIdSelections(selected);
    if forall i :: 0 <= i < |ids| ==> '%' !in ids[i] {
      assert ViewIdSeparator[0] == '%';
      SplitJoin(ids, ViewIdSeparator);
    }
  }

  /** End to end: ticking materialized rows and clicking a batch action
      sends the ids the server delivered, in table order. */
  lemma SelectionReachesServer(ctx: Context, action: Action, raws: seq<Record>)
    requires IsBatch(action) && !(NeedsEditRight(action) && !ctx.perms.canEditEvents)
    requires NoAngles(ctx.filterQuery) && NoAngles(ctx.sortQuery) && |raws| > 0
    requires forall i :: 0 <= i < |raws| ==> NoAngles(raws[i].Id) && '&' !in raws[i].Id
    ensures var url := Dispatch(ctx, action, ProcessRows(ctx, raws)).url;
      var base := BatchBase(ctx, action);
      |base| <= |url| && url[..|base|] == base
      && SplitOn(url[|base|..], IdSeparator) == Ids(raws)
  {
    var rows := ProcessRows(ctx, raws);
    SelectedIdsRoundTrip(ctx, raws);
    BatchListsSelection(ctx, action, rows);
    IdListSplitsBack(Ids(raws));
    var base := BatchBase(ctx, action);
    var url := Dispatch(ctx, action, rows).url;
    assert url[|base|..] == Join(Ids(raws), IdSeparator);
  }

  /** Every button the handler enables for the edit right leads to an
      action its handler lets through. */
  lemma EnabledEditButtonsAreHonoured(ctx: Context, selected: seq<Record>)
    ensures !ButtonStates(selected, ctx.perms).editBtn ==> !Dispatch(ctx, Edit, selected).PermissionDenied?
    ensures !ButtonStates(selected, ctx.perms).deleteBtn ==> !Dispatch(ctx, Delete, selected).PermissionDenied?
    ensures !CorrectedButtonStates(selected, ctx.perms).unarchiveBtn ==> !Dispatch(ctx, Unarchive, selected).PermissionDenied?
  {
  }

  /** The unarchive button as written breaks that rule: for a user who may
      not edit events it is enabled, and clicking it is refused. */
  lemma UnarchiveEnabledButRefused(ctx: Context, selected: seq<Record>)
    requires !ctx.perms.canEditEvents
    ensures !ButtonStates(selected, ctx.perms).unarchiveBtn
    ensures Dispatch(ctx, Unarchive, selected) == PermissionDenied
  {
  }

  /** The archive handler has no guard: even a user who may not edit events
      gets the request sent when the click reaches it. */
  lemma ArchiveIsUnguarded(ctx: Context, selected: seq<Record>)
    ensures Dispatch(ctx, Archive, selected).Request?
  {
  }
}

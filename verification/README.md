# Events list view: row materializer, selection and toolbar

This project models the page script of ZoneMinder's events list view
(`web/skins/classic/views/js/events.js`) in Dafny and proves properties
of that model. The script does four things that are modelled here:

- **Row materializer** (`processRows`). Each event record from the server
  has its cells rewritten into HTML links and muted status blocks. The
  event id is read before `Id` is overwritten, so every link points at
  the original event.
- **Id recovery** (`getIdSelections`). Tags are deleted from each ticked
  row's rendered `Id` with the regular expression `/(<([^>]+)>)/gi`. This
  gives back the event id the server sent, which completes a round trip
  with the materializer.
- **Selection predicates and button state.** `getArchivedSelections` and
  the selection-change handler decide which toolbar buttons are disabled.
  The unarchive line is kept exactly as written (see Findings).
- **Action dispatch.** The click handlers of the toolbar buttons, the
  delete-confirm button and the event-detail link. Each handler has one
  of four outcomes: the "no permission" notice, a request, a navigation,
  or showing a dialog.

Modules:

- `Text`: the script's `indexOf` and `join`, and splitting at a separator.
  The script never splits; splitting is the inverse of the join and states
  which ids an address carries.
- `Markup`: anchors, the tag stripper and a parser for a link's target.
- `Page`: the page globals, namely the translated strings, the query
  fragments, `thisUrl` and the three rights.
- `Rows`: the row materializer.
- `RowProperties`: what a rendered row reads as and where its links lead.
- `Selection`: the selection helpers and the button handler.
- `Actions`: the click handlers.

## Model

| member | source | states |
|---|---|---|
| Text.IndexOf | web/skins/classic/views/js/events.js:59 | `indexOf` returns the first position where the pattern occurs, or -1 exactly when it occurs nowhere |
| Text.Join | web/skins/classic/views/js/events.js:131 | `join` of the empty list is the empty string, and of a one-element list is that element |
| Text.JoinShape | web/skins/classic/views/js/events.js:131 | a joined list starts with its first element, has the separator right after it when there is a second element, and ends with its last element |
| Text.SplitOn | web/skins/classic/views/js/events.js:131 | the inverse of the join, used to state what an address carries: at least one piece, joining the pieces gives the input back, and no piece contains the separator |
| Text.SplitJoin | web/skins/classic/views/js/events.js:131 | a non-empty list joined with a separator, such as `&eids[]=`, splits back into the same list, provided no element contains the separator's first character |
| Markup.StripTags | web/skins/classic/views/js/events.js:97 | tag stripping never lengthens a string |
| Markup.StripKeepsChars | web/skins/classic/views/js/events.js:97 | every character of the stripped result occurs in the input |
| Markup.StripDeletes | web/skins/classic/views/js/events.js:97 | tag stripping only deletes characters: the result is the input with some characters removed, the rest kept in order |
| Markup.StrippedIsTagFree | web/skins/classic/views/js/events.js:97 | after stripping, no span that the regular expression matches is left |
| Markup.StripIdempotent | web/skins/classic/views/js/events.js:97 | stripping twice gives the same result as stripping once |
| Markup.StripAnchor | web/skins/classic/views/js/events.js:54 | a link built by the view strips down to its text when the target holds no `>` and the text holds no `<` |
| Markup.AnchorHref | web/skins/classic/views/js/events.js:54 | the target of a link built by the view can be read back from its markup |
| Rows.Status | web/skins/classic/views/js/events.js:51-52 | the archived label appears when `Archived` equals the translated yes, then the emailed label when `Emailed` equals it; all four combinations are covered |
| Rows.NotesPolicy | web/skins/classic/views/js/events.js:59-63 | notes that contain `detected:` get the detection link; notes equal to `Forced Web: ` add nothing; every other value, empty notes included, gets a muted line |
| Rows.CauseCell | web/skins/classic/views/js/events.js:58-63 | the cause is wrapped in the detail link only for a user who may edit events, and the notes annotation follows in both cases |
| Rows.ProcessRow | web/skins/classic/views/js/events.js:48-67 | the fields the materializer never writes are unchanged; the monitor is unchanged without the monitor-edit right; the cause is unchanged without the event-edit right when the notes are the sentinel |
| Rows.ProcessRows | web/skins/classic/views/js/events.js:47-71 | the materializer keeps the number and order of rows and rewrites each row on its own |
| RowProperties.IdRoundTrip | web/skins/classic/views/js/events.js:54 | stripping the tags from a rendered `Id` gives back the original event id when the id and the query fragments hold no angle bracket |
| RowProperties.StripNotesAnnotation | web/skins/classic/views/js/events.js:59-63 | the notes annotation reads as the notes themselves, or as nothing for the sentinel |
| RowProperties.VisibleName | web/skins/classic/views/js/events.js:55-56 | the name cell reads as the name followed by the status labels |
| RowProperties.VisibleMonitor | web/skins/classic/views/js/events.js:57 | the monitor cell reads as the monitor name, with or without the link |
| RowProperties.VisibleCause | web/skins/classic/views/js/events.js:58-63 | the cause cell reads as the cause followed by the notes, or as the cause alone for the sentinel, whatever the rights |
| RowProperties.VisibleFrameLinks | web/skins/classic/views/js/events.js:64-66 | the frame, alarm-frame and score cells read as their original values |
| RowProperties.VisibleText | web/skins/classic/views/js/events.js:54-66 | the text of every rewritten cell is the original value, plus the status labels on the name and the notes on the cause |
| RowProperties.EventLinkTargets | web/skins/classic/views/js/events.js:54-67 | the `Id`, `Name` and `Thumbnail` cells all link to the event page of the original id |
| RowProperties.OtherLinkTargets | web/skins/classic/views/js/events.js:57-66 | the frame cells link to the original id's frames, the score to that id's first frame, and the monitor cell, when it is a link, to the monitor's page |
| RowProperties.EventHrefInjective | web/skins/classic/views/js/events.js:54 | two different ids never share an event link |
| RowProperties.TwoRowScenario | web/skins/classic/views/js/events.js:47-71 | on a forced event and a detected event, the name cells carry the expected labels and the notes annotations take the expected shapes |
| Selection.GetIdSelections | web/skins/classic/views/js/events.js:93-99 | one id per ticked row in order, each one the stripped `Id` and free of tags |
| Selection.SelectedIdsRoundTrip | web/skins/classic/views/js/events.js:93-99 | ticking materialized rows and reading their ids back gives the server's ids, in table order |
| Selection.GetArchivedSelections | web/skins/classic/views/js/events.js:102-108 | true exactly when some ticked row's `Archived` is the literal `Yes`; false for an empty selection |
| Selection.ButtonStates | web/skins/classic/views/js/events.js:173-185 | each button is disabled exactly when the handler's condition holds; unarchive, as written, is disabled exactly when nothing archived is ticked and the user may edit events |
| Selection.EmptySelectionToolbar | web/skins/classic/views/js/events.js:178-184 | with nothing ticked, every button except unarchive is disabled, and unarchive is disabled only for a user who may edit events |
| Selection.CorrectedButtonStates | web/skins/classic/views/js/events.js:180 | the intended rule enables unarchive exactly when an archived row is ticked and the user may edit events, and changes no other button |
| Selection.UnarchiveRulesDiffer | web/skins/classic/views/js/events.js:180 | the rule as written and the intended rule disagree exactly for users who may not edit events |
| Actions.Dispatch | web/skins/classic/views/js/events.js:122-334 | the toolbar handlers (221-318), the delete-confirm button (122-137) and the event-detail link (145-157, 321-334): refused exactly for unarchive, edit, delete and delete-confirm without the edit right; navigates exactly for view and export; shows the delete dialog exactly for delete with the right; each request is tagged with what follows its success (refresh and reload, or the detail or download dialog) |
| Actions.BatchListsSelection | web/skins/classic/views/js/events.js:231-299 | a batch action that is not refused addresses its base followed by the ticked ids joined with `&eids[]=` |
| Actions.IdListSplitsBack | web/skins/classic/views/js/events.js:234 | the id list of a request splits back into the ids |
| Actions.EmptyBatchSendsOneEmptyId | web/skins/classic/views/js/events.js:131 | with nothing ticked, the address ends in a bare `eids[]=`, and the server receives one empty id |
| Actions.ViewOpensSelection | web/skins/classic/views/js/events.js:221-227 | the view button opens the first ticked event, filtered on all ticked ids, and that filter splits back into the ids |
| Actions.SelectionReachesServer | web/skins/classic/views/js/events.js:47-71 | end to end: a batch request sent from materialized rows carries exactly the server's ids, in table order |
| Actions.EnabledEditButtonsAreHonoured | web/skins/classic/views/js/events.js:173-185 | a user for whom edit and delete are enabled is let through by those handlers, and so is a user for whom the intended unarchive rule enables the button |
| Actions.UnarchiveEnabledButRefused | web/skins/classic/views/js/events.js:180 | for a user without the edit right, the unarchive button as written is enabled, and clicking it is refused |
| Actions.ArchiveIsUnguarded | web/skins/classic/views/js/events.js:230-240 | the archive handler sends its request whatever the rights |

## Left out

- Transport and page plumbing are not modelled:
  - the AJAX transport, failure logging and the bootstrap-table calls;
  - the cookie that hides columns, inserting dialog HTML and the thumbnail
    hover animation;
  - the back, refresh, timeline and filter buttons;
  - the table-refresh and page-reload calls, which survive only as the
    `RefreshAndReload` tag.
- Every record value is a string. The server's numbers and a `null`
  `Notes` are not modelled; the script would fail on a `null` `Notes`.
- Nothing is HTML-escaped or URL-encoded, as in the script. The round-trip
  lemmas require ids and query fragments without angle brackets, and the
  link-target lemmas require them without double quotes.
- The selection is the sequence of ticked rows in table order, not a set.
- `GetArchivedSelections` compares with the literal `Yes`, as the script
  does, and not with the translated yes string that the materializer uses.
- Empty notes also get a muted line, because the test at line 61 compares
  only with the sentinel. The model follows the code here, although the
  intent may have been to annotate only non-empty notes.
- The view, archive, export and download handlers check no right. They
  rely on the button state alone, as in the script.
- The event-detail link handler is bound at lines 321 and again at 330.
  The model has one `EventDetail` action and does not count how often the
  handler fires.

## Findings

| source | as written | input that shows it | evidently intended | confidence | as-written member | corrected member |
|---|---|---|---|---|---|---|
| web/skins/classic/views/js/events.js:180 | `!(getArchivedSelections()) && canEditEvents`, so the unary `!` applies only to the archived test | a user without `canEditEvents`, with any selection: the unarchive button is enabled, and clicking it gives the "no permission" notice | `!(getArchivedSelections() && canEditEvents)`, like the lines around it | not executed | Actions.UnarchiveEnabledButRefused | Selection.CorrectedButtonStates |

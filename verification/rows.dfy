/** The row materializer of the events view: every event record the server
    returns is rewritten, field by field, into the markup the table shows.
 */
module Rows {
  import opened Text
  import opened Markup
  import opened Page

  /** One event as the server sends it. Every value is kept as the string
      the page script concatenates; `others` holds the columns the script
      never touches (start time, length, ...), keyed by column name. */
  datatype Record = Record(
    Id: string,
    MonitorId: string,
    Name: string,
    Monitor: string,
    Cause: string,
    Notes: string,
    Archived: string,
    Emailed: string,
    Frames: string,
    AlarmFrames: string,
    MaxScore: string,
    Thumbnail: string,
    imgHtml: string,
    others: map<string, string>)

  /** The substring the object detector writes into an event's notes. */
  const DetectionMarker: string := "detected:"

  /** The notes of an event forced from the web console. */
  const ForcedSentinel: string := "Forced Web: "

  /** The event view of `eid`, opened on page 1 of the current list. */
  function EventHref(ctx: Context, eid: string): string
  {
    "?view=event&amp;eid=" + eid + ctx.filterQuery + ctx.sortQuery + "&amp;page=1"
  }

  function MonitorHref(mid: string): string
  {
    "?view=monitor&amp;mid=" + mid
  }

  function FramesHref(eid: string): string
  {
    "?view=frames&amp;eid=" + eid
  }

  function FirstFrameHref(eid: string): string
  {
    "?view=frame&amp;eid=" + eid + "&amp;fid=0"
  }

  function ImageHref(eid: string): string
  {
    "#?view=image&amp;eid=" + eid + "&amp;fid=objdetect"
  }

  /** The opening tag of the small muted block the view puts under a cell. */
  const MutedOpen: string := "<div class=\"small text-nowrap text-muted\">"

  /** A line break followed by a muted block holding `text`. */
  function MutedLine(text: string): string
  {
    "<br/>" + MutedOpen + text + "</div>"
  }

  /** The link that opens the event detail dialog for `eid`; the notes are
      its tooltip. */
  function DetailLink(eid: string, notes: string, cause: string): string
  {
    "<a href=\"#\" title=\"" + notes + "\" class=\"eDetailLink\" data-eid=\"" + eid + "\">" + cause + "</a>"
  }

  /** The link to the object detection image, showing the notes underlined
      in a muted block. */
  function ObjDetectLink(eid: string, notes: string): string
  {
    Anchor(ImageHref(eid), MutedOpen + "<u>" + notes + "</u></div>")
  }

  /** The status markers shown under the name: the archived label when the
      event is archived, then the emailed label when it was emailed. */
  function Status(ctx: Context, row: Record): (s: string)
    ensures row.Archived != ctx.yesString && row.Emailed != ctx.yesString ==> s == ""
    ensures row.Archived == ctx.yesString && row.Emailed != ctx.yesString ==> s == ctx.archivedString
    ensures row.Archived != ctx.yesString && row.Emailed == ctx.yesString ==> s == ctx.emailedString
    ensures row.Archived == ctx.yesString && row.Emailed == ctx.yesString ==> s == ctx.archivedString + ctx.emailedString
  {
    var archived := if row.Archived == ctx.yesString then ctx.archivedString else "";
    var emailed := if row.Emailed == ctx.yesString then ctx.emailedString else "";
    archived + emailed
  }

  /** What the notes add to the cause cell. */
  datatype NotesKind = Detection | Muted | Silent

  /** The sentinel does not contain the detection marker. */
  lemma SentinelHasNoMarker()
    ensures IndexOf(ForcedSentinel, DetectionMarker) == -1
  {
    forall i
      ensures !OccursAt(ForcedSentinel, DetectionMarker, i)
    {
      if 0 <= i && i + |DetectionMarker| <= |ForcedSentinel| {
        assert ForcedSentinel[i..i + |DetectionMarker|][0] == ForcedSentinel[i];
        assert ForcedSentinel[i] != 'd';
      }
    }
  }

  /** The three-way notes policy: a detection marker anywhere wins, the
      sentinel alone adds nothing, and every other value (the empty notes
      included) is shown as a muted line. */
  function NotesPolicy(notes: string): (k: NotesKind)
    ensures k == Detection <==> exists i :: OccursAt(notes, DetectionMarker, i)
    ensures k == Silent <==> notes == ForcedSentinel
    ensures k == Muted <==> notes != ForcedSentinel && forall i :: !OccursAt(notes, DetectionMarker, i)
  {
    SentinelHasNoMarker();
    if IndexOf(notes, DetectionMarker) >= 0 then Detection
    else if notes != ForcedSentinel then Muted
    else Silent
  }

  /** The markup the notes append to the cause cell. */
  function NotesAnnotation(eid: string, notes: string): string
  {
    match NotesPolicy(notes)
    case Detection => ObjDetectLink(eid, notes)
    case Muted => MutedLine(notes)
    case Silent => ""
  }

  /** The cause cell: wrapped in the detail link only for a user who may
      edit events, then followed by the notes annotation in either case. */
  function CauseCell(ctx: Context, row: Record): (c: string)
    ensures ctx.perms.canEditEvents ==> c == DetailLink(row.Id, row.Notes, row.Cause) + NotesAnnotation(row.Id, row.Notes)
    ensures !ctx.perms.canEditEvents ==> c == row.Cause + NotesAnnotation(row.Id, row.Notes)
  {
    var cause := if ctx.perms.canEditEvents then DetailLink(row.Id, row.Notes, row.Cause) else row.Cause;
    cause + NotesAnnotation(row.Id, row.Notes)
  }

  /** One row of `processRows`. The event id is read before `Id` is
      rewritten, so every link built from it points at the original id. */
  function ProcessRow(ctx: Context, row: Record): (r: Record)
    ensures r.MonitorId == row.MonitorId && r.Notes == row.Notes && r.imgHtml == row.imgHtml
    ensures r.Archived == row.Archived && r.Emailed == row.Emailed && r.others == row.others
    ensures !ctx.perms.canEditMonitors ==> r.Monitor == row.Monitor
    ensures !ctx.perms.canEditEvents && NotesPolicy(row.Notes) == Silent ==> r.Cause == row.Cause
  {
    var eid := row.Id;
    var mid := row.MonitorId;
    var href := EventHref(ctx, eid);
    row.(
      Id := Anchor(href, eid),
      Name := Anchor(href, row.Name) + MutedLine(Status(ctx, row)),
      Monitor := if ctx.perms.canEditMonitors then Anchor(MonitorHref(mid), row.Monitor) else row.Monitor,
      Cause := CauseCell(ctx, row),
      Frames := Anchor(FramesHref(eid), row.Frames),
      AlarmFrames := Anchor(FramesHref(eid), row.AlarmFrames),
      MaxScore := Anchor(FirstFrameHref(eid), row.MaxScore),
      Thumbnail := Anchor(href, row.imgHtml))
  }

  /** `processRows`: every record rewritten on its own, count and order kept. */
  function ProcessRows(ctx: Context, rows: seq<Record>): (out: seq<Record>)
    ensures |out| == |rows|
    ensures forall i :: 0 <= i < |rows| ==> out[i] == ProcessRow(ctx, rows[i])
  {
    if |rows| == 0 then []
    else [ProcessRow(ctx, rows[0])] + ProcessRows(ctx, rows[1..])
  }
}

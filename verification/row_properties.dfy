/** What a materialized row shows and where its links lead, read back from
    its markup with the same tag stripper the selection code uses and with
    a parser for a link's target.
 */
module RowProperties {
  import opened Text
  import opened Markup
  import opened Page
  import opened Rows

  /** Every raw field the row materializer turns into text is free of angle brackets. */
  predicate PlainRecord(row: Record)
  {
    && NoAngles(row.Id) && NoAngles(row.MonitorId) && NoAngles(row.Name)
    && NoAngles(row.Monitor) && NoAngles(row.Cause) && NoAngles(row.Notes)
    && NoAngles(row.Frames) && NoAngles(row.AlarmFrames) && NoAngles(row.MaxScore)
  }

  /** The page strings that end up inside the rows are free of angle brackets. */
  predicate PlainContext(ctx: Context)
  {
    && NoAngles(ctx.filterQuery) && NoAngles(ctx.sortQuery)
    && NoAngles(ctx.archivedString) && NoAngles(ctx.emailedString)
  }

  /** The muted block's opening tag is a tag the stripper deletes. */
  lemma StripMutedOpen(rest: string)
    ensures StripTags(MutedOpen + rest) == StripTags(rest)
  {
    MutedOpenSplit();
    StripLiteralTag(MutedOpen, "div class=\"small text-nowrap text-muted\"", rest);
  }

  lemma MutedOpenSplit()
    ensures MutedOpen == "<" + "div class=\"small text-nowrap text-muted\"" + ">"
    ensures '>' !in "div class=\"small text-nowrap text-muted\""
  {
  }

  lemma StripMutedLine(text: string, rest: string)
    requires '<' !in text
    ensures StripTags(MutedLine(text) + rest) == text + StripTags(rest)
  {
    var tail := "</div>" + rest;
    assert MutedLine(text) + rest == "<br/>" + (MutedOpen + (text + tail));
    calc {
      StripTags(MutedLine(text) + rest);
      { StripLineBreak(MutedOpen + (text + tail)); }
      StripTags(MutedOpen + (text + tail));
      { StripMutedOpen(text + tail); }
      StripTags(text + tail);
      { StripText(text, tail); }
      text + StripTags(tail);
      { StripDivClose(rest); }
      text + StripTags(rest);
    }
  }

  lemma ObjDetectLinkShape(eid: string, notes: string, rest: string)
    ensures ObjDetectLink(eid, notes) + rest
         == "<a href=\"" + ImageHref(eid) + "\">"
          + (MutedOpen + ("<u>" + (notes + ("</u>" + ("</div>" + ("</a>" + rest))))))
  {
    assert "</u></div>" == "</u>" + "</div>";
  }

  lemma StripObjDetectClose(rest: string)
    ensures StripTags("</u>" + ("</div>" + ("</a>" + rest))) == StripTags(rest)
  {
    StripUnderlineClose("</div>" + ("</a>" + rest));
    StripDivClose("</a>" + rest);
    StripAnchorClose(rest);
  }

  lemma StripObjDetectLink(eid: string, notes: string, rest: string)
    requires '>' !in eid && '<' !in notes
    ensures StripTags(ObjDetectLink(eid, notes) + rest) == notes + StripTags(rest)
  {
    var href := ImageHref(eid);
    var close := "</u>" + ("</div>" + ("</a>" + rest));
    ObjDetectLinkShape(eid, notes, rest);
    calc {
      StripTags(ObjDetectLink(eid, notes) + rest);
      { StripAnchorOpen(href, MutedOpen + ("<u>" + (notes + close))); }
      StripTags(MutedOpen + ("<u>" + (notes + close)));
      { StripMutedOpen("<u>" + (notes + close)); }
      StripTags("<u>" + (notes + close));
      { StripUnderlineOpen(notes + close); }
      StripTags(notes + close);
      { StripText(notes, close); }
      notes + StripTags(close);
      { StripObjDetectClose(rest); }
      notes + StripTags(rest);
    }
  }

  lemma StripDetailLink(eid: string, notes: string, cause: string, rest: string)
    requires '>' !in eid && '>' !in notes && '<' !in cause
    ensures StripTags(DetailLink(eid, notes, cause) + rest) == cause + StripTags(rest)
  {
    var open := "a href=\"#\" title=\"" + notes + "\" class=\"eDetailLink\" data-eid=\"" + eid + "\"";
    var tail := "</a>" + rest;
    DetailLinkShape(eid, notes, cause, open);
    assert DetailLink(eid, notes, cause) + rest == "<" + open + ">" + (cause + tail);
    calc {
      StripTags(DetailLink(eid, notes, cause) + rest);
      { StripTag(open, cause + tail); }
      StripTags(cause + tail);
      { StripText(cause, tail); }
      cause + StripTags(tail);
      { StripAnchorClose(rest); }
      cause + StripTags(rest);
    }
  }

  lemma DetailLinkShape(eid: string, notes: string, cause: string, open: string)
    requires open == "a href=\"#\" title=\"" + notes + "\" class=\"eDetailLink\" data-eid=\"" + eid + "\""
    ensures DetailLink(eid, notes, cause) == "<" + open + ">" + cause + "</a>"
  {
  }

  /** The text of the notes annotation is the notes themselves, unless the
      policy adds nothing. */
  lemma StripNotesAnnotation(eid: string, notes: string)
    requires '>' !in eid && NoAngles(notes)
    ensures StripTags(NotesAnnotation(eid, notes))
         == if NotesPolicy(notes) == Silent then "" else notes
  {
    match NotesPolicy(notes)
    case Detection =>
      StripObjDetectLink(eid, notes, "");
      assert ObjDetectLink(eid, notes) + "" == ObjDetectLink(eid, notes);
    case Muted =>
      StripMutedLine(notes, "");
      assert MutedLine(notes) + "" == MutedLine(notes);
    case Silent =>
  }

  /** Stripping the tags from a rendered `Id` gives back the event id,
      as long as the id and the two query fragments hold no angle bracket. */
  lemma IdRoundTrip(ctx: Context, row: Record)
    requires NoAngles(row.Id) && NoAngles(ctx.filterQuery) && NoAngles(ctx.sortQuery)
    ensures StripTags(ProcessRow(ctx, row).Id) == row.Id
  {
    var href := EventHref(ctx, row.Id);
    StripAnchor(href, row.Id, "");
    assert Anchor(href, row.Id) + "" == Anchor(href, row.Id);
    assert row.Id + "" == row.Id;
  }

  /** A link with no further markup after it reads as its text. */
  lemma StripLoneAnchor(href: string, text: string)
    requires '>' !in href && '<' !in text
    ensures StripTags(Anchor(href, text)) == text
  {
    StripAnchor(href, text, "");
    assert Anchor(href, text) + "" == Anchor(href, text);
    assert text + "" == text;
  }

  /** A muted line with nothing after it reads as its text. */
  lemma StripLoneMutedLine(text: string)
    requires '<' !in text
    ensures StripTags(MutedLine(text)) == text
  {
    StripMutedLine(text, "");
    assert MutedLine(text) + "" == MutedLine(text);
    assert text + "" == text;
  }

  /** The name cell reads as the name followed by the status markers. */
  lemma VisibleName(ctx: Context, row: Record)
    requires PlainRecord(row) && PlainContext(ctx)
    ensures StripTags(ProcessRow(ctx, row).Name) == row.Name + Status(ctx, row)
  {
    var status := Status(ctx, row);
    var href := EventHref(ctx, row.Id);
    assert ProcessRow(ctx, row).Name == Anchor(href, row.Name) + MutedLine(status);
    assert '<' !in status;
    assert '>' !in href;
    calc {
      StripTags(Anchor(href, row.Name) + MutedLine(status));
      { StripAnchor(href, row.Name, MutedLine(status)); }
      row.Name + StripTags(MutedLine(status));
      { StripLoneMutedLine(status); }
      row.Name + status;
    }
  }

  /** The monitor cell reads as the monitor name, link or no link. */
  lemma VisibleMonitor(ctx: Context, row: Record)
    requires NoAngles(row.MonitorId) && NoAngles(row.Monitor)
    ensures StripTags(ProcessRow(ctx, row).Monitor) == row.Monitor
  {
    if ctx.perms.canEditMonitors {
      var href := MonitorHref(row.MonitorId);
      assert ProcessRow(ctx, row).Monitor == Anchor(href, row.Monitor);
      assert '>' !in href;
      StripLoneAnchor(href, row.Monitor);
    } else {
      StripTagFree(row.Monitor);
    }
  }

  /** The frame counts and the score read as themselves. */
  lemma VisibleFrameLinks(ctx: Context, row: Record)
    requires PlainRecord(row)
    ensures StripTags(ProcessRow(ctx, row).Frames) == row.Frames
    ensures StripTags(ProcessRow(ctx, row).AlarmFrames) == row.AlarmFrames
    ensures StripTags(ProcessRow(ctx, row).MaxScore) == row.MaxScore
  {
    var r := ProcessRow(ctx, row);
    var frames := FramesHref(row.Id);
    var first := FirstFrameHref(row.Id);
    assert r.Frames == Anchor(frames, row.Frames);
    assert r.AlarmFrames == Anchor(frames, row.AlarmFrames);
    assert r.MaxScore == Anchor(first, row.MaxScore);
    assert '>' !in frames && '>' !in first;
    StripLoneAnchor(frames, row.Frames);
    StripLoneAnchor(frames, row.AlarmFrames);
    StripLoneAnchor(first, row.MaxScore);
  }

  /** The visible text of every rewritten cell: the markup changes, the
      words the user reads do not, whatever the rights. The name gains the
      status markers and the cause gains the notes, except for the sentinel. */
  lemma VisibleText(ctx: Context, row: Record)
    requires PlainRecord(row) && PlainContext(ctx)
    ensures StripTags(ProcessRow(ctx, row).Id) == row.Id
    ensures StripTags(ProcessRow(ctx, row).Name) == row.Name + Status(ctx, row)
    ensures StripTags(ProcessRow(ctx, row).Monitor) == row.Monitor
    ensures StripTags(ProcessRow(ctx, row).Cause)
         == row.Cause + (if NotesPolicy(row.Notes) == Silent then "" else row.Notes)
    ensures StripTags(ProcessRow(ctx, row).Frames) == row.Frames
    ensures StripTags(ProcessRow(ctx, row).AlarmFrames) == row.AlarmFrames
    ensures StripTags(ProcessRow(ctx, row).MaxScore) == row.MaxScore
  {
    IdRoundTrip(ctx, row);
    VisibleName(ctx, row);
    VisibleMonitor(ctx, row);
    VisibleCause(ctx, row);
    VisibleFrameLinks(ctx, row);
  }

  /** The cause cell reads as the cause followed by the notes, with or
      without the detail link around the cause. */
  lemma VisibleCause(ctx: Context, row: Record)
    requires NoAngles(row.Id) && NoAngles(row.Cause) && NoAngles(row.Notes)
    ensures StripTags(ProcessRow(ctx, row).Cause)
         == row.Cause + (if NotesPolicy(row.Notes) == Silent then "" else row.Notes)
  {
    var note := NotesAnnotation(row.Id, row.Notes);
    StripNotesAnnotation(row.Id, row.Notes);
    if ctx.perms.canEditEvents {
      StripDetailLink(row.Id, row.Notes, row.Cause, note);
    } else {
      StripText(row.Cause, note);
    }
    assert row.Cause + "" == row.Cause;
  }

  /** A link with nothing after it has the target it was built with. */
  lemma LoneAnchorHref(href: string, text: string)
    requires '"' !in href
    ensures HrefOf(Anchor(href, text)) == Some(href)
  {
    AnchorHref(href, text, "");
    assert Anchor(href, text) + "" == Anchor(href, text);
  }

  /** The `Id`, `Name` and `Thumbnail` cells all link to the same event
      page, built from the original id. */
  lemma EventLinkTargets(ctx: Context, row: Record)
    requires '"' !in row.Id && '"' !in ctx.filterQuery && '"' !in ctx.sortQuery
    ensures HrefOf(ProcessRow(ctx, row).Id) == Some(EventHref(ctx, row.Id))
    ensures HrefOf(ProcessRow(ctx, row).Name) == Some(EventHref(ctx, row.Id))
    ensures HrefOf(ProcessRow(ctx, row).Thumbnail) == Some(EventHref(ctx, row.Id))
  {
    var r := ProcessRow(ctx, row);
    var href := EventHref(ctx, row.Id);
    assert r.Id == Anchor(href, row.Id);
    assert r.Name == Anchor(href, row.Name) + MutedLine(Status(ctx, row));
    assert r.Thumbnail == Anchor(href, row.imgHtml);
    assert '"' !in href;
    LoneAnchorHref(href, row.Id);
    AnchorHref(href, row.Name, MutedLine(Status(ctx, row)));
    LoneAnchorHref(href, row.imgHtml);
  }

  /** The frame cells link to the original id's frames and the monitor
      cell, when it is a link, to the monitor. */
  lemma OtherLinkTargets(ctx: Context, row: Record)
    requires '"' !in row.Id
    ensures HrefOf(ProcessRow(ctx, row).Frames) == Some(FramesHref(row.Id))
    ensures HrefOf(ProcessRow(ctx, row).AlarmFrames) == Some(FramesHref(row.Id))
    ensures HrefOf(ProcessRow(ctx, row).MaxScore) == Some(FirstFrameHref(row.Id))
    ensures ctx.perms.canEditMonitors && '"' !in row.MonitorId ==>
              HrefOf(ProcessRow(ctx, row).Monitor) == Some(MonitorHref(row.MonitorId))
  {
    var r := ProcessRow(ctx, row);
    assert '"' !in FramesHref(row.Id) && '"' !in FirstFrameHref(row.Id);
    assert r.Frames == Anchor(FramesHref(row.Id), row.Frames);
    assert r.AlarmFrames == Anchor(FramesHref(row.Id), row.AlarmFrames);
    assert r.MaxScore == Anchor(FirstFrameHref(row.Id), row.MaxScore);
    LoneAnchorHref(FramesHref(row.Id), row.Frames);
    LoneAnchorHref(FramesHref(row.Id), row.AlarmFrames);
    LoneAnchorHref(FirstFrameHref(row.Id), row.MaxScore);
    if ctx.perms.canEditMonitors && '"' !in row.MonitorId {
      assert r.Monitor == Anchor(MonitorHref(row.MonitorId), row.Monitor);
      LoneAnchorHref(MonitorHref(row.MonitorId), row.Monitor);
    }
  }

  /** The event link names exactly one event: two ids give the same link
      only if they are the same id. */
  lemma EventHrefInjective(ctx: Context, e1: string, e2: string)
    requires EventHref(ctx, e1) == EventHref(ctx, e2)
    ensures e1 == e2
  {
    var pre := "?view=event&amp;eid=";
    var h1 := EventHref(ctx, e1);
    assert |e1| == |e2|;
    assert h1[|pre|..|pre| + |e1|] == e1;
    assert EventHref(ctx, e2)[|pre|..|pre| + |e2|] == e2;
  }

  /** A worked example of two records: a forced event that is neither
      archived nor emailed, and a detected one that is both. */
  lemma TwoRowScenario(ctx: Context, r1: Record, r2: Record)
    requires ctx.yesString == "Yes"
    requires r1.Archived == "No" && r1.Emailed == "No" && r1.Notes == ForcedSentinel
    requires r2.Archived == "Yes" && r2.Emailed == "Yes" && r2.Notes == "detected: person"
    ensures var out := ProcessRows(ctx, [r1, r2]);
      && |out| == 2
      && out[0].Name == Anchor(EventHref(ctx, r1.Id), r1.Name) + MutedLine("")
      && out[1].Name == Anchor(EventHref(ctx, r2.Id), r2.Name) + MutedLine(ctx.archivedString + ctx.emailedString)
      && NotesAnnotation(r1.Id, r1.Notes) == ""
      && NotesAnnotation(r2.Id, r2.Notes) == ObjDetectLink(r2.Id, r2.Notes)
  {
    assert OccursAt(r2.Notes, DetectionMarker, 0);
  }
}

/** The HTML the events view builds by string concatenation, and the one
    piece of HTML processing it does: deleting every `<...>` span with the
    global regular expression `/(<([^>]+)>)/gi`, which is how a selected
    row's rendered `Id` is turned back into an event id.
    Nothing is escaped anywhere: markup is plain concatenation.
 */
module Markup {
  import opened Text

  /** Text that holds no angle bracket, so the tag stripper leaves it alone
      and it cannot end a tag it is placed in. */
  predicate NoAngles(s: string)
  {
    '<' !in s && '>' !in s
  }

  /** `s.replace(/(<([^>]+)>)/gi, '')`. Scanning left to right, a `<` whose
      first following `>` is at least two characters further on starts a
      match that ends at that `>` and is deleted; any other character is
      kept and the scan moves on by one. A `<>` and a `<` with no `>` after
      it are therefore kept. */
  function StripTags(s: string): (r: string)
    ensures |r| <= |s|
    decreases |s|
  {
    if |s| == 0 then ""
    else
      var k := IndexOf(s[1..], ">");
      if s[0] == '<' && k > 0 then StripTags(s[k + 2..])
      else [s[0]] + StripTags(s[1..])
  }

  /** The stripper only deletes characters. */
  lemma {:induction false} StripKeepsChars(s: string, c: char)
    requires c in StripTags(s)
    ensures c in s
    decreases |s|
  {
    var k := IndexOf(s[1..], ">");
    if s[0] == '<' && k > 0 {
      StripKeepsChars(s[k + 2..], c);
    } else if c != s[0] {
      StripKeepsChars(s[1..], c);
    }
  }

  /** `a` is what is left of `b` after deleting some of its characters. */
  ghost predicate SubSeq(a: string, b: string)
    decreases |b|
  {
    |a| == 0 || (|b| > 0 && ((a[0] == b[0] && SubSeq(a[1..], b[1..])) || SubSeq(a, b[1..])))
  }

  /** Deleting a prefix of `b` as well still leaves a deletion of `b`. */
  lemma {:induction false} SubSeqDrop(a: string, b: string, k: nat)
    requires k <= |b| && SubSeq(a, b[k..])
    ensures SubSeq(a, b)
    decreases k
  {
    if k > 0 && |a| > 0 {
      assert b[k - 1..][1..] == b[k..];
      SubSeqDrop(a, b, k - 1);
    } else if k == 0 {
      assert b[0..] == b;
    }
  }

  /** The stripper only deletes characters: its result is `s` with some
      characters removed, in their original order. */
  lemma {:induction false} StripDeletes(s: string)
    ensures SubSeq(StripTags(s), s)
    decreases |s|
  {
    if |s| > 0 {
      var k := IndexOf(s[1..], ">");
      if s[0] == '<' && k > 0 {
        StripDeletes(s[k + 2..]);
        SubSeqDrop(StripTags(s), s, k + 2);
      } else {
        var r := StripTags(s);
        assert r == [s[0]] + StripTags(s[1..]);
        assert r[1..] == StripTags(s[1..]);
        StripDeletes(s[1..]);
      }
    }
  }

  /** No `<` in `s` starts a span the regular expression would match. */
  ghost predicate TagFree(s: string)
  {
    forall i :: 0 <= i < |s| && s[i] == '<' ==>
      (i + 1 < |s| && s[i + 1] == '>') || '>' !in s[i + 1..]
  }

  /** `indexOf` of a one-character pattern finds that character. */
  lemma IndexOfChar(t: string, c: char)
    ensures IndexOf(t, [c]) == -1 <==> c !in t
    ensures IndexOf(t, [c]) == 0 <==> (|t| > 0 && t[0] == c)
  {
    forall j
      ensures OccursAt(t, [c], j) <==> (0 <= j < |t| && t[j] == c)
    {
      if 0 <= j < |t| {
        assert t[j..j + 1] == [t[j]];
      }
    }
    if c in t {
      var j :| 0 <= j < |t| && t[j] == c;
      assert OccursAt(t, [c], j);
    }
  }

  /** A string with no tag in it is left unchanged. */
  lemma {:induction false} StripTagFree(s: string)
    requires TagFree(s)
    ensures StripTags(s) == s
    decreases |s|
  {
    if |s| > 0 {
      IndexOfChar(s[1..], '>');
      assert ">" == ['>'];
      forall i | 0 <= i < |s| - 1 && s[1..][i] == '<'
        ensures (i + 1 < |s| - 1 && s[1..][i + 1] == '>') || '>' !in s[1..][i + 1..]
      {
        assert s[1..][i + 1..] == s[i + 2..];
      }
      StripTagFree(s[1..]);
      assert s == [s[0]] + s[1..];
    }
  }

  /** Whatever the stripper returns holds no tag. */
  lemma {:induction false} StrippedIsTagFree(s: string)
    ensures TagFree(StripTags(s))
    decreases |s|
  {
    if |s| > 0 {
      var k := IndexOf(s[1..], ">");
      if s[0] == '<' && k > 0 {
        StrippedIsTagFree(s[k + 2..]);
      } else {
        var rest := StripTags(s[1..]);
        var r := [s[0]] + rest;
        assert StripTags(s) == r;
        StrippedIsTagFree(s[1..]);
        IndexOfChar(s[1..], '>');
        assert ">" == ['>'];
        forall i | 0 <= i < |r| && r[i] == '<'
          ensures (i + 1 < |r| && r[i + 1] == '>') || '>' !in r[i + 1..]
        {
          if i == 0 {
            assert r[1..] == rest;
            if '>' in rest {
              StripKeepsChars(s[1..], '>');
            }
            if k == 0 {
              assert s[1..][1..] == s[2..];
              assert rest == [s[1]] + StripTags(s[2..]);
            }
          } else {
            assert r[i] == rest[i - 1];
            assert r[i + 1..] == rest[i..];
          }
        }
      }
    }
  }

  /** Stripping twice is stripping once. */
  lemma StripIdempotent(s: string)
    ensures StripTags(StripTags(s)) == StripTags(s)
  {
    StrippedIsTagFree(s);
    StripTagFree(StripTags(s));
  }

  /** Text without `<` passes through the stripper unchanged. */
  lemma {:induction false} StripText(t: string, rest: string)
    requires '<' !in t
    ensures StripTags(t + rest) == t + StripTags(rest)
    decreases |t|
  {
    if |t| > 0 {
      var s := t + rest;
      assert s[0] == t[0];
      assert s[1..] == t[1..] + rest;
      StripText(t[1..], rest);
      assert t == [t[0]] + t[1..];
    } else {
      assert t + rest == rest;
    }
  }

  /** A tag `<inner>` with non-empty contents free of `>` is deleted. */
  lemma StripTag(inner: string, rest: string)
    requires |inner| > 0 && '>' !in inner
    ensures StripTags("<" + inner + ">" + rest) == StripTags(rest)
  {
    var s := "<" + inner + ">" + rest;
    assert s[1..] == inner + ">" + rest;
    assert ">"[0] == '>';
    IndexOfAfter(inner, ">", rest);
    assert s[|inner| + 2..] == rest;
  }

  /** A literal tag `<inner>` is deleted as well. */
  lemma StripLiteralTag(tag: string, inner: string, rest: string)
    requires tag == "<" + inner + ">" && |inner| > 0 && '>' !in inner
    ensures StripTags(tag + rest) == StripTags(rest)
  {
    StripTag(inner, rest);
  }

  lemma StripLineBreak(rest: string)
    ensures StripTags("<br/>" + rest) == StripTags(rest)
  {
    StripLiteralTag("<br/>", "br/", rest);
  }

  lemma StripUnderlineOpen(rest: string)
    ensures StripTags("<u>" + rest) == StripTags(rest)
  {
    StripLiteralTag("<u>", "u", rest);
  }

  lemma StripUnderlineClose(rest: string)
    ensures StripTags("</u>" + rest) == StripTags(rest)
  {
    StripLiteralTag("</u>", "/u", rest);
  }

  lemma StripDivClose(rest: string)
    ensures StripTags("</div>" + rest) == StripTags(rest)
  {
    StripLiteralTag("</div>", "/div", rest);
  }

  lemma StripAnchorClose(rest: string)
    ensures StripTags("</a>" + rest) == StripTags(rest)
  {
    StripLiteralTag("</a>", "/a", rest);
  }

  /** `<a href="href">text</a>`, the link the view wraps around a cell. */
  function Anchor(href: string, text: string): string
  {
    "<a href=\"" + href + "\">" + text + "</a>"
  }

  /** The opening tag of a link is deleted. */
  lemma StripAnchorOpen(href: string, rest: string)
    requires '>' !in href
    ensures StripTags("<a href=\"" + href + "\">" + rest) == StripTags(rest)
  {
    var open := "a href=\"" + href + "\"";
    assert "<a href=\"" + href + "\">" + rest == "<" + open + ">" + rest;
    StripTag(open, rest);
  }

  /** The stripper reduces a link to its text. */
  lemma StripAnchor(href: string, text: string, rest: string)
    requires '>' !in href && '<' !in text
    ensures StripTags(Anchor(href, text) + rest) == text + StripTags(rest)
  {
    var open := "a href=\"" + href + "\"";
    assert Anchor(href, text) + rest == "<" + open + ">" + (text + ("<" + "/a" + ">" + rest));
    StripTag(open, text + ("<" + "/a" + ">" + rest));
    StripText(text, "<" + "/a" + ">" + rest);
    StripTag("/a", rest);
  }

  /** The target of a markup string that starts with a link: what stands
      between `<a href="` and the next double quote. */
  function HrefOf(s: string): Option<string>
  {
    if |s| >= 9 && s[..9] == "<a href=\"" then
      var k := IndexOf(s[9..], "\"");
      if k >= 0 then Some(s[9..9 + k]) else None
    else None
  }

  /** A link's target is read back from its markup. */
  lemma AnchorHref(href: string, text: string, rest: string)
    requires '"' !in href
    ensures HrefOf(Anchor(href, text) + rest) == Some(href)
  {
    var s := Anchor(href, text) + rest;
    var tail := ">" + text + "</a>" + rest;
    assert s == "<a href=\"" + (href + "\"" + tail);
    assert s[..9] == "<a href=\"";
    assert s[9..] == href + "\"" + tail;
    assert "\""[0] == '"';
    IndexOfAfter(href, "\"", tail);
    assert s[9..9 + |href|] == href;
  }
}

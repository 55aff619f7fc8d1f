/** The formatting of a startup's detail card
    (src/components/startup-detail-card.tsx): the LinkedIn link without its
    scheme, the `#`-prefixed tag labels and their cap, the extended
    description's paragraphs and the tips' lines. */
module StartupDetail {
  import opened Wrappers
  import opened Text
  import Seqs

  const MaxDetailTags: nat := 12
  const TipsUnavailable := "Information unavailable."

  // ----- LinkedIn -----

  /** The length of a leading `http://` or `https://`, or 0. */
  function SchemeLength(link: string): (n: nat)
    ensures n == 8 <==> StartsWith(link, "https://")
    ensures n == 7 <==> StartsWith(link, "http://")
    ensures n == 0 <==> !StartsWith(link, "https://") && !StartsWith(link, "http://")
  {
    if StartsWith(link, "https://") then
      assert link[4] == "https://"[4] != "http://"[4];
      8
    else if StartsWith(link, "http://") then 7
    else 0
  }

  /** `displayLinkedIn`: "" for a missing or empty link, otherwise the link
      with one leading `http://` or `https://` removed. */
  function DisplayLinkedIn(link: Option<string>): (r: string)
    ensures link.None? || link == Some("") ==> r == ""
    ensures link.Some? ==>
      || link.value == "https://" + r
      || link.value == "http://" + r
      || (link.value == r && !StartsWith(r, "https://") && !StartsWith(r, "http://"))
  {
    if link.None? || link.value == "" then ""
    else
      var v := link.value;
      var n := SchemeLength(v);
      assert v == v[..n] + v[n..];
      v[n..]
  }

  /** Only one scheme is removed: whatever follows it is kept verbatim,
      even another scheme. */
  lemma OneSchemeRemoved(rest: string)
    ensures DisplayLinkedIn(Some("https://" + rest)) == rest
    ensures DisplayLinkedIn(Some("http://" + rest)) == rest
  {
    assert StartsWith("https://" + rest, "https://");
    assert StartsWith("http://" + rest, "http://");
    assert ("https://" + rest)[8..] == rest;
    assert ("http://" + rest)[7..] == rest;
  }

  // ----- tags -----

  /** `tag.startsWith("#") ? tag : "#" + tag`. */
  function TagLabel(tag: string): (r: string)
    ensures StartsWith(r, "#")
    ensures StartsWith(tag, "#") <==> r == tag
    ensures !StartsWith(tag, "#") ==> r == "#" + tag
  {
    if StartsWith(tag, "#") then tag else "#" + tag
  }

  /** Labelling a label changes nothing. */
  lemma TagLabelIdempotent(tag: string)
    ensures TagLabel(TagLabel(tag)) == TagLabel(tag)
  {
  }

  /** The tag badges: none at all for an empty list, otherwise the labels
      of the first twelve tags, in order. */
  function TagBlock(hashtags: seq<string>): (r: Option<seq<string>>)
    ensures r.None? <==> hashtags == []
    ensures r.Some? ==> |r.value| == if |hashtags| < MaxDetailTags then |hashtags| else MaxDetailTags
    ensures r.Some? ==> forall k :: 0 <= k < |r.value| ==> r.value[k] == TagLabel(hashtags[k])
  {
    if hashtags == [] then None
    else
      var shown := Seqs.Take(hashtags, MaxDetailTags);
      Some(seq(|shown|, k requires 0 <= k < |shown| => TagLabel(shown[k])))
  }

  // ----- extended description -----

  /** The paragraphs of the extended description; nothing for a missing or
      empty one. */
  function Paragraphs(extended: Option<string>): (r: Option<seq<string>>)
    ensures r.None? <==> extended.None? || extended == Some("")
    ensures r.Some? ==> |r.value| >= 1 && forall k :: 0 <= k < |r.value| ==> NoBlankLine(r.value[k])
    ensures r.Some? && NoBlankLine(extended.value) ==> r.value == [extended.value]
  {
    if extended.None? || extended.value == "" then None
    else Some(SplitParagraphs(extended.value))
  }

  /** A text written as paragraphs separated by one blank line is shown as
      exactly those paragraphs. */
  lemma ParagraphsOfJoinedText(ps: seq<string>)
    requires |ps| >= 1 && forall k :: 0 <= k < |ps| ==> IsParagraph(ps[k])
    ensures Paragraphs(Some(Seqs.Join(ps, "\n\n"))) == Some(ps)
  {
    SplitParagraphsUndoesJoin(ps);
    assert IsParagraph(ps[0]);
    JoinHead(ps, "\n\n");
  }

  // ----- tips -----

  /** `xs.map(x => x.trim())`. */
  function TrimAll(xs: seq<string>): (r: seq<string>)
    ensures |r| == |xs|
    ensures forall k :: 0 <= k < |r| ==> r[k] == Trim(xs[k])
  {
    seq(|xs|, k requires 0 <= k < |xs| => Trim(xs[k]))
  }

  datatype TipsView = TipLines(lines: seq<string>) | Unavailable(message: string)

  /** The tips: one trimmed line per newline-separated piece, or the
      "unavailable" note for missing or empty tips. */
  function Tips(tips: Option<string>): (v: TipsView)
    ensures v.Unavailable? <==> tips.None? || tips == Some("")
    ensures v.Unavailable? ==> v.message == TipsUnavailable
    ensures v.TipLines? ==> |v.lines| == |SplitOnRuns(tips.value, IsNewline)|
    ensures v.TipLines? ==> forall k :: 0 <= k < |v.lines| ==>
      IsTrimmed(v.lines[k]) && NoneOf(v.lines[k], IsNewline)
    ensures v.TipLines? ==> forall k :: 0 <= k < |v.lines| ==>
      v.lines[k] == Trim(SplitOnRuns(tips.value, IsNewline)[k])
  {
    if tips.None? || tips.value == "" then Unavailable(TipsUnavailable)
    else
      var pieces := SplitOnRuns(tips.value, IsNewline);
      var lines := TrimAll(pieces);
      assert forall k :: 0 <= k < |lines| ==> NoneOf(lines[k], IsNewline) by {
        forall k | 0 <= k < |lines| ensures NoneOf(lines[k], IsNewline) {
          TrimKeepsOnly(pieces[k], IsNewline);
        }
      }
      TipLines(lines)
  }

  /** Before trimming, splitting the tips loses nothing but the newlines:
      the pieces read back to back are the tips without their newlines. */
  lemma TipPiecesLoseOnlyNewlines(tips: string)
    ensures Seqs.Concat(SplitOnRuns(tips, IsNewline)) == RemoveSeps(tips, IsNewline)
  {
    SplitOnRunsConcat(tips, IsNewline);
  }

  /** Lines written one per row come back as the same lines, as long as
      each is non-empty, trimmed and free of newlines. */
  lemma TipsOfJoinedLines(lines: seq<string>)
    requires |lines| >= 1
    requires forall k :: 0 <= k < |lines| ==> lines[k] != "" && IsTrimmed(lines[k]) && NoneOf(lines[k], IsNewline)
    ensures Tips(Some(Seqs.Join(lines, "\n"))) == TipLines(lines)
  {
    var tips := Seqs.Join(lines, "\n");
    assert tips != "" by { JoinHead(lines, "\n"); }
    SplitOnRunsUndoesJoin(lines, '\n', IsNewline);
    TipsOfTrimmedPieces(tips, lines);
  }

  lemma TipsOfTrimmedPieces(tips: string, lines: seq<string>)
    requires tips != "" && SplitOnRuns(tips, IsNewline) == lines
    requires forall k :: 0 <= k < |lines| ==> IsTrimmed(lines[k])
    ensures Tips(Some(tips)) == TipLines(lines)
  {
    TrimAllOfTrimmed(lines);
  }

  lemma TrimAllOfTrimmed(xs: seq<string>)
    requires forall k :: 0 <= k < |xs| ==> IsTrimmed(xs[k])
    ensures TrimAll(xs) == xs
  {
    forall k | 0 <= k < |xs| ensures TrimAll(xs)[k] == xs[k] {
      TrimOfTrimmed(xs[k]);
    }
  }

  /** Tips without a newline are one line: the trimmed text. */
  lemma SingleLineTips(tips: string)
    requires tips != "" && NoneOf(tips, IsNewline)
    ensures Tips(Some(tips)) == TipLines([Trim(tips)])
  {
    SplitOnRunsUnseparated(tips, IsNewline);
  }
}

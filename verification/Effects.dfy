/** What each operation does to a line, field by field. */
module Effects {
  import opened Lines
  import opened Editing
  import opened Conservation
  import opened Optional

  /** Its reading speed is that of the text it shows: white space is not read. */
  ghost predicate SpeedFits(r: Record) {
    var shown := if r.translated.Some? then r.translated.value else r.sourceText;
    r.cps == if r.end <= r.start then None else Some((|Visible(shown)| as real) / (r.end - r.start))
  }

  lemma WithSpeedFits(r: Record)
    ensures SpeedFits(r.WithSpeed())
  {
  }

  /** What was given is what the line holds, and what was not is as before.
      Naming an empty speaker clears it. */
  ghost predicate Changed(was: Record, edit: Edit, now: Record) {
    && now.translated == (if edit.translated.Some? then edit.translated else was.translated)
    && now.start == (if edit.start.Some? then edit.start.value else was.start)
    && now.end == (if edit.end.Some? then edit.end.value else was.end)
    && (edit.speaker == None ==> now.speaker == was.speaker)
    && (edit.speaker == Some("") ==> now.speaker == None)
    && (edit.speaker.Some? && edit.speaker.value != "" ==> now.speaker == edit.speaker)
    && now.tags == (if edit.tags.Some? then edit.tags.value else was.tags)
    && now.reviewState == (if edit.reviewState.Some? then edit.reviewState.value else was.reviewState)
    && now.needsReview == (if edit.needsReview.Some? then edit.needsReview.value else was.needsReview)
    && now.sourceText == was.sourceText && now.words == was.words && now.rest == was.rest
    && now.edited && SpeedFits(now)
  }

  /** A change is refused when there is no such line, or when the line it would
      make is not valid or in an unknown review state; otherwise that line is
      what it leaves. */
  lemma ChangeMeans(spaced: Script, lines: seq<Record>, o: int, edit: Edit) returns (now: Option<Record>)
    ensures now.Some? <==> 1 <= o <= |lines|
    ensures now.None? ==> Respond(spaced, lines, Change(o, edit)) == Refuse(NotFound)
    ensures now.Some? ==>
              && Changed(lines[o - 1], edit, now.value)
              && Respond(spaced, lines, Change(o, edit))
                   == (if !now.value.Valid() then Refuse(Invalid)
                       else if now.value.reviewState.Unknown? then Refuse(RefusedByTable) else Replace(o, 1, [now.value]))
              && After(spaced, lines, Change(o, edit))
                   == if Storable(now.value) then lines[o - 1 := now.value] else lines
  {
    now := if Has(lines, o) then Some(Edited(lines[o - 1], edit)) else None;
  }

  /** Reviewing a line changes its review fields and no other. */
  lemma ReviewMeans(spaced: Script, lines: seq<Record>, o: int, state: ReviewState, needsReview: bool)
    ensures After(spaced, lines, Review(o, state, needsReview))
         == if 1 <= o <= |lines| && !state.Unknown?
            then lines[o - 1 := lines[o - 1].(reviewState := state, needsReview := needsReview)] else lines
  {
  }

  /** Half of a line: no translation, not edited, to be reviewed, and tagged. */
  ghost predicate HalfOf(spaced: Script, was: Record, half: Record) {
    && half.sourceText == TextOf(spaced, half.words) && half.translated == None
    && half.speaker == was.speaker && half.reviewState == was.reviewState && half.rest == was.rest
    && !half.edited && half.needsReview && SpeedFits(half)
    && half.tags == (if Untranslated in was.tags then was.tags else was.tags + [Untranslated])
  }

  /** The words before the first that starts at or after the cut go to one
      half, the others to the other, and the time is divided where that word starts. */
  ghost predicate SplitFrom(spaced: Script, was: Record, at: real, head: Record, tail: Record) {
    && HalfOf(spaced, was, head) && HalfOf(spaced, was, tail)
    && head.words != [] && tail.words != [] && head.words + tail.words == was.words
    && (forall word | word in head.words :: word.start < at) && tail.words[0].start >= at
    && head.start == was.start && head.end == tail.start == tail.words[0].start && tail.end == was.end
  }

  lemma HalfMeans(spaced: Script, was: Record, start: real, end: real, words: seq<Word>)
    ensures HalfOf(spaced, was, Half(spaced, was, start, end, words))
  {
    var half := was.(start := start, end := end, words := words, sourceText := TextOf(spaced, words), translated := None,
                     edited := false, needsReview := true, tags := AddedTag(was.tags, Untranslated));
    WithSpeedFits(half);
  }

  lemma CutMeans(spaced: Script, was: Record, at: real)
    requires Splittable(spaced, was, at)
    ensures SplitFrom(spaced, was, at, Head(spaced, was, CutAt(was.words, at)), Tail(spaced, was, CutAt(was.words, at)))
  {
    var cut := CutAt(was.words, at);
    HalfMeans(spaced, was, was.start, was.words[cut].start, was.words[..cut]);
    HalfMeans(spaced, was, was.words[cut].start, was.end, was.words[cut..]);
    assert was.words[..cut] + was.words[cut..] == was.words;
  }

  /** Splitting puts two such halves in the place of a line. */
  lemma SplitMeans(spaced: Script, lines: seq<Record>, o: int, at: real) returns (head: Record, tail: Record)
    requires Respond(spaced, lines, Split(o, at)).Replace?
    ensures 1 <= o <= |lines|
    ensures After(spaced, lines, Split(o, at)) == lines[..o - 1] + [head, tail] + lines[o..]
    ensures SplitFrom(spaced, lines[o - 1], at, head, tail)
  {
    var cut := CutAt(lines[o - 1].words, at);
    head, tail := Head(spaced, lines[o - 1], cut), Tail(spaced, lines[o - 1], cut);
    CutMeans(spaced, lines[o - 1], at);
  }

  /** How two translations make one: a space goes between two texts in scripts
      that use spaces. */
  ghost predicate TranslationsJoin(spaced: Script, a: Option<string>, b: Option<string>, joined: Option<string>) {
    && (a == None ==> joined == b) && (b == None ==> joined == a)
    && (a.Some? && b.Some? ==>
          var left, right := TrimSpace(a.value), TrimSpace(b.value);
          var meet := left != "" && right != "" && spaced(left[|left| - 1]) && spaced(right[0]);
          joined == Some(left + (if meet then " " else "") + right))
  }

  /** A merged line keeps everything of both that a line can hold, and of the
      rest what the first had. Its text is that of the words when they say anything. */
  ghost predicate MergedFrom(spaced: Script, a: Record, b: Record, m: Record) {
    && m.start == a.start && m.end == b.end && m.words == a.words + b.words
    && m.sourceText == (if Spoken(a.words) + Spoken(b.words) != "" then TextOf(spaced, a.words + b.words)
                        else TrimSpace(a.sourceText + b.sourceText))
    && TranslationsJoin(spaced, a.translated, b.translated, m.translated)
    && m.speaker == a.speaker && m.reviewState == a.reviewState && m.rest == a.rest
    && (m.needsReview <==> a.needsReview || b.needsReview) && m.edited && SpeedFits(m)
    && (forall tag :: tag in m.tags <==> tag in a.tags || tag in b.tags)
  }

  lemma TranslationsAreJoined(spaced: Script, a: Option<string>, b: Option<string>)
    ensures TranslationsJoin(spaced, a, b, JoinTranslations(spaced, a, b))
  {
    if a.Some? && b.Some? {
      var left, right := TrimSpace(a.value), TrimSpace(b.value);
      assert left + right == left + "" + right;
    }
  }

  lemma MergedMeans(spaced: Script, a: Record, b: Record)
    ensures MergedFrom(spaced, a, b, Merged(spaced, a, b))
  {
    SpokenAppend(a.words, b.words);
    TextIsSpoken(spaced, a.words + b.words);
    UnionHolds(a.tags, b.tags);
    TranslationsAreJoined(spaced, a.translated, b.translated);
  }

  /** Merging puts one such line in the place of two. */
  lemma MergeMeans(spaced: Script, lines: seq<Record>, o: int) returns (m: Record)
    requires Respond(spaced, lines, Merge(o, true)).Replace?
    ensures 1 <= o < |lines|
    ensures After(spaced, lines, Merge(o, true)) == lines[..o - 1] + [m] + lines[o + 1..]
    ensures MergedFrom(spaced, lines[o - 1], lines[o], m)
  {
    m := Merged(spaced, lines[o - 1], lines[o]);
    MergedMeans(spaced, lines[o - 1], lines[o]);
    MergeAccepted(spaced, lines, o, m);
  }
}

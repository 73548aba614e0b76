/** What editing conserves. */
module Conservation {
  import opened Lines
  import opened Optional
  import opened Editing

  // ---------------------------------------------------------------------
  // Words
  // ---------------------------------------------------------------------

  /** All the words of a transcript, in order. */
  function Transcript(lines: seq<Record>): seq<Word> {
    if lines == [] then [] else Transcript(lines[..|lines| - 1]) + lines[|lines| - 1].words
  }

  lemma {:induction false} TranscriptAppend(a: seq<Record>, b: seq<Record>)
    ensures Transcript(a + b) == Transcript(a) + Transcript(b)
    decreases |b|
  {
    if b == [] {
      assert a + b == a;
    } else {
      var n := |b| - 1;
      assert (a + b)[..|a + b| - 1] == a + b[..n];
      TranscriptAppend(a, b[..n]);
      assert Transcript(a) + Transcript(b[..n]) + b[n].words == Transcript(a) + (Transcript(b[..n]) + b[n].words);
    }
  }

  lemma TranscriptOfOne(r: Record)
    ensures Transcript([r]) == r.words
  {
    assert [r][..0] == [];
  }

  lemma TranscriptOfTwo(a: Record, b: Record)
    ensures Transcript([a, b]) == a.words + b.words
  {
    assert [a, b] == [a] + [b];
    TranscriptAppend([a], [b]);
    TranscriptOfOne(a);
    TranscriptOfOne(b);
  }

  lemma TranscriptOfThree(a: seq<Record>, b: seq<Record>, c: seq<Record>)
    ensures Transcript(a + b + c) == Transcript(a) + Transcript(b) + Transcript(c)
  {
    TranscriptAppend(a, b);
    TranscriptAppend(a + b, c);
  }

  /** Splicing keeps the transcript iff the replacement says what it replaces. */
  lemma SpliceConserves(lines: seq<Record>, ordinal: int, replaced: nat, replacement: seq<Record>)
    requires 1 <= ordinal && ordinal - 1 + replaced <= |lines|
    requires Transcript(lines[ordinal - 1..ordinal - 1 + replaced]) == Transcript(replacement)
    ensures Transcript(Spliced(lines, ordinal, replaced, replacement)) == Transcript(lines)
  {
    var end := ordinal - 1 + replaced;
    var before, middle, after := lines[..ordinal - 1], lines[ordinal - 1..end], lines[end..];
    InThree(lines, ordinal - 1, end);
    TranscriptOfThree(before, replacement, after);
    TranscriptOfThree(before, middle, after);
  }

  lemma InThree(lines: seq<Record>, i: nat, j: nat)
    requires i <= j <= |lines|
    ensures lines == lines[..i] + lines[i..j] + lines[j..]
  {
  }

  lemma SplicedElsewhere(lines: seq<Record>, at: int, replaced: nat, replacement: seq<Record>)
    requires 1 <= at && at - 1 + replaced <= |lines|
    ensures var now := Spliced(lines, at, replaced, replacement);
            && |now| == |lines| - replaced + |replacement|
            && (forall i | 0 <= i < at - 1 :: now[i] == lines[i])
            && (forall i | at - 1 + replaced <= i < |lines| :: now[i - replaced + |replacement|] == lines[i])
  {
  }

  /** All lines but the ones replaced keep everything they hold, and their
      order, under their new ordinals. */
  ghost predicate OthersKept(lines: seq<Record>, r: Response, now: seq<Record>)
    requires r.Fits(lines)
  {
    if r.Refuse? then now == lines
    else
      && r.replaced + |r.replacement| <= 3 && |now| == |lines| - r.replaced + |r.replacement|
      && (forall i | 0 <= i < r.at - 1 :: now[i] == lines[i])
      && (forall i | r.at - 1 + r.replaced <= i < |lines| :: now[i - r.replaced + |r.replacement|] == lines[i])
  }

  lemma FewAreReplaced(spaced: Script, lines: seq<Record>, op: Op)
    ensures var r := Respond(spaced, lines, op); r.Replace? ==> r.replaced + |r.replacement| <= 3
  {
  }

  lemma OutcomeKeepsOthers(lines: seq<Record>, r: Response)
    requires r.Fits(lines) && (r.Replace? ==> r.replaced + |r.replacement| <= 3)
    ensures OthersKept(lines, r, Outcome(lines, r))
  {
    if r.Replace? { SplicedElsewhere(lines, r.at, r.replaced, r.replacement); }
  }

  /** Every operation replaces one line by one or two, or two by one, and keeps
      all the others as they were. */
  lemma OthersAreUntouched(spaced: Script, lines: seq<Record>, op: Op)
    ensures OthersKept(lines, Respond(spaced, lines, op), After(spaced, lines, op))
  {
    FewAreReplaced(spaced, lines, op);
    OutcomeKeepsOthers(lines, Respond(spaced, lines, op));
  }

  lemma OneLine(lines: seq<Record>, i: nat)
    requires i < |lines|
    ensures Transcript(lines[i..i + 1]) == lines[i].words
  {
    assert lines[i..i + 1] == [lines[i]];
    TranscriptOfOne(lines[i]);
  }

  lemma TwoLines(lines: seq<Record>, i: nat)
    requires i + 1 < |lines|
    ensures Transcript(lines[i..i + 2]) == lines[i].words + lines[i + 1].words
  {
    assert lines[i..i + 2] == [lines[i], lines[i + 1]];
    TranscriptOfTwo(lines[i], lines[i + 1]);
  }

  ghost predicate SaysTheSame(lines: seq<Record>, r: Response)
    requires r.Fits(lines)
  {
    r.Replace? ==> Transcript(lines[r.at - 1..r.at - 1 + r.replaced]) == Transcript(r.replacement)
  }

  lemma OneForOne(lines: seq<Record>, o: int, r: Record)
    requires Has(lines, o) && r.words == lines[o - 1].words
    ensures SaysTheSame(lines, Replace(o, 1, [r]))
  {
    TranscriptOfOne(r);
    OneLine(lines, o - 1);
  }

  lemma TwoForOne(lines: seq<Record>, o: int, a: Record, b: Record)
    requires Has(lines, o) && a.words + b.words == lines[o - 1].words
    ensures SaysTheSame(lines, Replace(o, 1, [a, b]))
  {
    TranscriptOfTwo(a, b);
    OneLine(lines, o - 1);
  }

  lemma OneForTwo(lines: seq<Record>, o: int, m: Record)
    requires Has(lines, o) && Has(lines, o + 1) && m.words == lines[o - 1].words + lines[o].words
    ensures SaysTheSame(lines, Replace(o, 2, [m]))
  {
    TranscriptOfOne(m);
    TwoLines(lines, o - 1);
  }

  lemma HalvesOf(spaced: Script, r: Record, cut: nat)
    requires cut < |r.words|
    ensures Head(spaced, r, cut).words + Tail(spaced, r, cut).words == r.words
  {
    assert r.words[..cut] + r.words[cut..] == r.words;
  }

  lemma OutcomeConserves(lines: seq<Record>, r: Response)
    requires r.Fits(lines) && SaysTheSame(lines, r)
    ensures Transcript(Outcome(lines, r)) == Transcript(lines)
  {
    if r.Replace? { SpliceConserves(lines, r.at, r.replaced, r.replacement); }
  }

  lemma ChangeConserves(spaced: Script, lines: seq<Record>, o: int, edit: Edit)
    ensures Transcript(After(spaced, lines, Change(o, edit))) == Transcript(lines)
  {
    if Has(lines, o) { OneForOne(lines, o, Edited(lines[o - 1], edit)); }
    OutcomeConserves(lines, RespondChange(lines, o, edit));
  }

  lemma ReviewConserves(spaced: Script, lines: seq<Record>, o: int, state: ReviewState, needsReview: bool)
    ensures Transcript(After(spaced, lines, Review(o, state, needsReview))) == Transcript(lines)
  {
    if Has(lines, o) { OneForOne(lines, o, Reviewed(lines[o - 1], state, needsReview)); }
    OutcomeConserves(lines, RespondReview(lines, o, state, needsReview));
  }

  lemma SplitConserves(spaced: Script, lines: seq<Record>, o: int, at: real)
    ensures Transcript(After(spaced, lines, Split(o, at))) == Transcript(lines)
  {
    if Has(lines, o) && CutAt(lines[o - 1].words, at) < |lines[o - 1].words| {
      var cut := CutAt(lines[o - 1].words, at);
      HalvesOf(spaced, lines[o - 1], cut);
      TwoForOne(lines, o, Head(spaced, lines[o - 1], cut), Tail(spaced, lines[o - 1], cut));
    }
    OutcomeConserves(lines, RespondSplit(spaced, lines, o, at));
  }

  lemma MergeConserves(spaced: Script, lines: seq<Record>, o: int)
    ensures Transcript(After(spaced, lines, Merge(o, true))) == Transcript(lines)
  {
    if Has(lines, o) && Has(lines, o + 1) { OneForTwo(lines, o, Merged(spaced, lines[o - 1], lines[o])); }
    OutcomeConserves(lines, RespondMerge(spaced, lines, o));
  }

  lemma OpConserves(spaced: Script, lines: seq<Record>, op: Op)
    ensures Transcript(After(spaced, lines, op)) == Transcript(lines)
  {
    match op
    case Change(o, edit) => ChangeConserves(spaced, lines, o, edit);
    case Review(o, state, needsReview) => ReviewConserves(spaced, lines, o, state, needsReview);
    case Split(o, at) => SplitConserves(spaced, lines, o, at);
    case Merge(o, withNext) =>
      if withNext {
        MergeConserves(spaced, lines, o);
      } else {
        MergeConserves(spaced, lines, o - 1);
        MergeBackwards(spaced, lines, o);
      }
  }

  ghost function Ran(spaced: Script, lines: seq<Record>, ops: seq<Op>): seq<Record>
    decreases |ops|
  {
    if ops == [] then lines else After(spaced, Ran(spaced, lines, ops[..|ops| - 1]), ops[|ops| - 1])
  }

  /** Over any sequence of edits, review decisions, splits and merges, refused
      or not, every line stays valid and the words of the transcript never change. */
  lemma {:induction false} EditingConserves(spaced: Script, lines: seq<Record>, ops: seq<Op>)
    requires AllStorable(lines)
    ensures AllStorable(Ran(spaced, lines, ops))
    ensures Transcript(Ran(spaced, lines, ops)) == Transcript(lines)
    decreases |ops|
  {
    if ops != [] {
      var n := |ops| - 1;
      EditingConserves(spaced, lines, ops[..n]);
      StaysStorable(spaced, Ran(spaced, lines, ops[..n]), ops[n]);
      OpConserves(spaced, Ran(spaced, lines, ops[..n]), ops[n]);
    }
  }

  // ---------------------------------------------------------------------
  // Splitting and merging back
  // ---------------------------------------------------------------------

  /** Two records side by side, whose words are those of a third, the second
      one beginning where its first word does. */
  ghost predicate Adjoin(a: Record, b: Record, m: Record) {
    && a.words + b.words == m.words && a.start == m.start && b.end == m.end && a.end == b.start
    && (b.words != [] ==> b.words[0].start == b.start)
  }

  /** The tolerance at the joint follows from each half being valid. */
  lemma JointFits(a: Record, b: Record, m: Record)
    requires Adjoin(a, b, m) && a.start < a.end && b.start < b.end && a.words != []
    requires forall i | 0 <= i < |a.words| :: a.WordFits(i)
    requires forall i | 0 <= i < |b.words| :: b.WordFits(i)
    ensures forall i | 0 <= i < |m.words| :: m.WordFits(i)
  {
    var cut := |a.words|;
    assert forall i | 0 <= i < cut :: m.words[i] == a.words[i];
    assert forall i | cut <= i < |m.words| :: m.words[i] == b.words[i - cut];
    forall i | 0 <= i < |m.words| ensures m.WordFits(i) {
      if i < cut {
        assert a.WordFits(i);
      } else {
        assert b.WordFits(i - cut);
        assert a.WordFits(cut - 1);
      }
    }
  }

  lemma MergedTextIsNotBlank(spaced: Script, a: Record, b: Record)
    requires Spoken(a.words) != ""
    ensures MergedText(spaced, a, b) == TextOf(spaced, a.words + b.words) && Visible(MergedText(spaced, a, b)) != ""
  {
    SpokenAppend(a.words, b.words);
    TextIsSpoken(spaced, a.words + b.words);
  }

  lemma MergedIsValid(spaced: Script, a: Record, b: Record, m: Record)
    requires a.Valid() && b.Valid() && Adjoin(a, b, m) && a.words != []
    requires Spoken(a.words) != "" && m.sourceText == MergedText(spaced, a, b)
    ensures m.Valid()
  {
    JointFits(a, b, m);
    MergedTextIsNotBlank(spaced, a, b);
  }

  /** Both halves of a split say something. */
  lemma HalvesSpeak(spaced: Script, r: Record, cut: nat)
    requires 0 < cut < |r.words| && Head(spaced, r, cut).Valid()
    ensures Spoken(r.words[..cut]) != ""
  {
    TextIsSpoken(spaced, r.words[..cut]);
  }

  /** The halves of a cut fit back together. */
  lemma HalvesFit(spaced: Script, r: Record, cut: nat)
    requires 0 < cut < |r.words| && Head(spaced, r, cut).Valid() && Tail(spaced, r, cut).Valid()
    ensures Merged(spaced, Head(spaced, r, cut), Tail(spaced, r, cut)).Valid()
  {
    var a, b := Head(spaced, r, cut), Tail(spaced, r, cut);
    HalvesOf(spaced, r, cut);
    HalvesSpeak(spaced, r, cut);
    MergedIsValid(spaced, a, b, Merged(spaced, a, b));
  }

  lemma MergedTextSpeaks(spaced: Script, a: Record, b: Record)
    ensures Spoken(a.words + b.words) == Spoken(a.words) + Spoken(b.words)
    ensures var spoken := Spoken(a.words) + Spoken(b.words);
            Visible(MergedText(spaced, a, b)) == if spoken == "" then Visible(a.sourceText) + Visible(b.sourceText) else spoken
  {
    SpokenAppend(a.words, b.words);
    TextIsSpoken(spaced, a.words + b.words);
    TrimKeepsVisible(a.sourceText + b.sourceText);
    VisibleAppend(a.sourceText, b.sourceText);
  }

  /** The line that merging the halves of a split leaves. */
  ghost predicate Restored(spaced: Script, was: Record, now: Record) {
    && now.start == was.start && now.end == was.end && now.words == was.words
    && now.sourceText == TextOf(spaced, was.words) && now.translated == None
    && now.speaker == was.speaker && now.reviewState == was.reviewState && now.rest == was.rest
    && now.edited && now.needsReview && now.cps == now.ReadingSpeed()
    && (forall tag :: tag in now.tags <==> tag in was.tags || tag == Untranslated)
  }

  /** Splitting a line and merging its halves always succeeds. It restores the
      line's start, end and words, with the text of those words and no
      translation, and every other line at its original ordinal. */
  lemma SplitThenMergeRestores(spaced: Script, lines: seq<Record>, ordinal: int, at: real)
    requires RespondSplit(spaced, lines, ordinal, at).Replace?
    ensures var halved := After(spaced, lines, Split(ordinal, at));
            var whole := After(spaced, halved, Merge(ordinal, true));
            && Respond(spaced, halved, Merge(ordinal, true)).Replace?
            && |whole| == |lines| && whole == lines[ordinal - 1 := whole[ordinal - 1]]
            && Restored(spaced, lines[ordinal - 1], whole[ordinal - 1])
  {
    var was := lines[ordinal - 1];
    var cut := CutAt(was.words, at);
    var a, b := Head(spaced, was, cut), Tail(spaced, was, cut);
    HalvesFit(spaced, was, cut);
    SplicedBack(lines, ordinal, a, b, Merged(spaced, a, b));
    MergeAccepted(spaced, Spliced(lines, ordinal, 1, [a, b]), ordinal, Merged(spaced, a, b));
    HalvesSpeak(spaced, was, cut);
    MergedHalves(spaced, was, cut);
  }

  lemma SplicedBack(lines: seq<Record>, ordinal: int, a: Record, b: Record, m: Record)
    requires 1 <= ordinal <= |lines|
    ensures var halved := Spliced(lines, ordinal, 1, [a, b]);
            && |halved| == |lines| + 1 && halved[ordinal - 1] == a && halved[ordinal] == b
            && Spliced(halved, ordinal, 2, [m]) == lines[ordinal - 1 := m]
  {
  }

  /** What comes of merging two records that are the halves of a third. */
  lemma MergedRestores(spaced: Script, was: Record, a: Record, b: Record, now: Record)
    requires Adjoin(a, b, was) && Spoken(a.words) != ""
    requires a.translated == None && b.translated == None && a.needsReview && a.tags == b.tags == AddedTag(was.tags, Untranslated)
    requires a.speaker == was.speaker && a.reviewState == was.reviewState && a.rest == was.rest
    requires now == Merged(spaced, a, b)
    ensures Restored(spaced, was, now)
  {
    MergedTextIsNotBlank(spaced, a, b);
    UnionHolds(a.tags, b.tags);
  }

  lemma MergedHalves(spaced: Script, was: Record, cut: nat)
    requires 0 < cut < |was.words| && Spoken(was.words[..cut]) != ""
    ensures Restored(spaced, was, Merged(spaced, Head(spaced, was, cut), Tail(spaced, was, cut)))
  {
    var a, b := Head(spaced, was, cut), Tail(spaced, was, cut);
    HalvesOf(spaced, was, cut);
    MergedRestores(spaced, was, a, b, Merged(spaced, a, b));
  }

  lemma {:induction false} UnionHolds(first: seq<Tag>, second: seq<Tag>)
    ensures forall tag :: tag in Union(first, second) <==> tag in first || tag in second
    decreases |first| + |second|
  {
    if second != [] {
      UnionHolds(first, second[..|second| - 1]);
      assert second == second[..|second| - 1] + [second[|second| - 1]];
    } else if first != [] {
      UnionHolds(first[..|first| - 1], []);
      assert first == first[..|first| - 1] + [first[|first| - 1]];
    }
  }

  // ---------------------------------------------------------------------
  // Text
  // ---------------------------------------------------------------------

  /** A line's text says what its words say, if they say anything. */
  ghost predicate InStep(r: Record) {
    Spoken(r.words) == "" || Visible(r.sourceText) == Spoken(r.words)
  }

  /** Merging drops the text of a line that has none in its words, when the
      other line has some. */
  ghost predicate Drops(a: Record, b: Record) {
    Spoken(a.words) == "" && Visible(a.sourceText) != "" && Spoken(b.words) != ""
  }

  /** The merged line shows what both lines showed. */
  ghost predicate MergeKeepsText(spaced: Script, a: Record, b: Record) {
    Visible(Merged(spaced, a, b).sourceText) == Visible(a.sourceText) + Visible(b.sourceText)
  }

  /** A merge keeps the text of both lines iff no words are said or they are
      what the lines show; so, for lines in step, iff it drops neither. */
  lemma MergeKeepsTextIff(spaced: Script, a: Record, b: Record)
    ensures var spoken := Spoken(a.words) + Spoken(b.words);
            MergeKeepsText(spaced, a, b) <==> spoken == "" || spoken == Visible(a.sourceText) + Visible(b.sourceText)
    ensures InStep(a) && InStep(b) ==> InStep(Merged(spaced, a, b))
    ensures InStep(a) && InStep(b) ==> (MergeKeepsText(spaced, a, b) <==> !Drops(a, b) && !Drops(b, a))
  {
    MergedTextSpeaks(spaced, a, b);
    var x, y := Visible(a.sourceText), Visible(b.sourceText);
    assert |x + y| == |x| + |y|;
    assert Spoken(b.words) == "" ==> Spoken(a.words) + Spoken(b.words) == Spoken(a.words);
    assert Spoken(a.words) == "" ==> Spoken(a.words) + Spoken(b.words) == Spoken(b.words);
  }

  lemma HalvesKeepText(spaced: Script, r: Record, a: Record, b: Record)
    requires InStep(r) && a.words + b.words == r.words && Spoken(a.words) != ""
    requires a.sourceText == TextOf(spaced, a.words) && b.sourceText == TextOf(spaced, b.words)
    ensures InStep(a) && InStep(b) && Visible(a.sourceText) + Visible(b.sourceText) == Visible(r.sourceText)
  {
    TextIsSpoken(spaced, a.words);
    TextIsSpoken(spaced, b.words);
    SpokenAppend(a.words, b.words);
  }

  /** A split always keeps the text of a line in step with its words. */
  lemma SplitKeepsText(spaced: Script, r: Record, cut: nat)
    requires 0 < cut < |r.words| && Head(spaced, r, cut).Valid() && InStep(r)
    ensures var a, b := Head(spaced, r, cut), Tail(spaced, r, cut);
            InStep(a) && InStep(b) && Visible(a.sourceText) + Visible(b.sourceText) == Visible(r.sourceText)
  {
    HalvesOf(spaced, r, cut);
    HalvesSpeak(spaced, r, cut);
    HalvesKeepText(spaced, r, Head(spaced, r, cut), Tail(spaced, r, cut));
  }

  ghost predicate AllInStep(lines: seq<Record>) {
    forall i | 0 <= i < |lines| :: InStep(lines[i])
  }

  lemma SplicedInStep(lines: seq<Record>, r: Response)
    requires AllInStep(lines) && r.Fits(lines) && (r.Replace? ==> AllInStep(r.replacement))
    ensures AllInStep(Outcome(lines, r))
  {
  }

  lemma ChangeInStep(spaced: Script, lines: seq<Record>, o: int, edit: Edit)
    requires AllInStep(lines)
    ensures AllInStep(After(spaced, lines, Change(o, edit)))
  {
    if Has(lines, o) { assert InStep(lines[o - 1]); }
    SplicedInStep(lines, RespondChange(lines, o, edit));
  }

  lemma ReviewInStep(spaced: Script, lines: seq<Record>, o: int, state: ReviewState, needsReview: bool)
    requires AllInStep(lines)
    ensures AllInStep(After(spaced, lines, Review(o, state, needsReview)))
  {
    if Has(lines, o) { assert InStep(lines[o - 1]); }
    SplicedInStep(lines, RespondReview(lines, o, state, needsReview));
  }

  lemma SplitInStep(spaced: Script, lines: seq<Record>, o: int, at: real)
    requires AllInStep(lines)
    ensures AllInStep(After(spaced, lines, Split(o, at)))
  {
    if Has(lines, o) && Splittable(spaced, lines[o - 1], at) {
      SplitKeepsText(spaced, lines[o - 1], CutAt(lines[o - 1].words, at));
    }
    SplicedInStep(lines, RespondSplit(spaced, lines, o, at));
  }

  lemma MergeInStep(spaced: Script, lines: seq<Record>, o: int)
    requires AllInStep(lines)
    ensures AllInStep(After(spaced, lines, Merge(o, true)))
  {
    if Has(lines, o) && Has(lines, o + 1) { MergeKeepsTextIff(spaced, lines[o - 1], lines[o]); }
    SplicedInStep(lines, RespondMerge(spaced, lines, o));
  }

  lemma OpStaysInStep(spaced: Script, lines: seq<Record>, op: Op)
    requires AllInStep(lines)
    ensures AllInStep(After(spaced, lines, op))
  {
    match op
    case Change(o, edit) => ChangeInStep(spaced, lines, o, edit);
    case Review(o, state, needsReview) => ReviewInStep(spaced, lines, o, state, needsReview);
    case Split(o, at) => SplitInStep(spaced, lines, o, at);
    case Merge(o, withNext) =>
      if withNext {
        MergeInStep(spaced, lines, o);
      } else {
        MergeInStep(spaced, lines, o - 1);
        MergeBackwards(spaced, lines, o);
      }
  }

  /** No operation takes a line's text out of step with its words. */
  lemma {:induction false} EditingStaysInStep(spaced: Script, lines: seq<Record>, ops: seq<Op>)
    requires AllInStep(lines)
    ensures AllInStep(Ran(spaced, lines, ops))
    decreases |ops|
  {
    if ops != [] {
      var n := |ops| - 1;
      EditingStaysInStep(spaced, lines, ops[..n]);
      OpStaysInStep(spaced, Ran(spaced, lines, ops[..n]), ops[n]);
    }
  }
}

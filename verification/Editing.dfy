/** Editing a transcript: internal/segments/editing.go.

  A project's lines are rows keyed by ordinal. Each operation is specified as a
  function of the lines in order, and class `Repository`, which updates the
  table, is proved to do the same. Seconds are reals.
  */
module Editing {
  import opened Lines
  import opened Optional

  const TOLERANCE: real := 0.05

  /** The five states the table accepts, and any other string. */
  datatype ReviewState = Unreviewed | Pending | Approved | Rejected | Reworked | Unknown(name: string)

  /** The tag splitting adds, and any other. */
  datatype Tag = Untranslated | Named(name: string)

  /** One line. `rest` stands for the columns editing only ever copies:
      languages, confidences and metadata. */
  datatype Record = Record(
    start: real, end: real, speaker: Option<string>,
    sourceText: string, translated: Option<string>, words: seq<Word>, cps: Option<real>,
    needsReview: bool, reviewState: ReviewState, edited: bool, tags: seq<Tag>, rest: string)
  {
    function EffectiveText(): string {
      if translated.Some? then translated.value else sourceText
    }

    /** Characters read per second: white space is not read. */
    function ReadingSpeed(): Option<real> {
      if end - start <= 0.0 then None else Some((|Visible(EffectiveText())| as real) / (end - start))
    }

    function WithSpeed(): Record {
      this.(cps := ReadingSpeed())
    }

    ghost predicate WordFits(i: nat)
      requires i < |words|
    {
      && words[i].end >= words[i].start
      && words[i].start >= start - TOLERANCE && words[i].end <= end + TOLERANCE
      && words[i].start >= (if i == 0 then start else words[i - 1].end) - TOLERANCE
    }

    /** What makes a line fit to be stored. */
    ghost predicate Valid() {
      && start >= 0.0 && end > start
      && (Visible(sourceText) != "" || translated.Some?)
      && forall i | 0 <= i < |words| :: WordFits(i)
    }
  }

  datatype Fault = BeforeZero | EndsTooEarly | EmptyLine | BadWord(index: nat)

  method Validate(r: Record) returns (fault: Option<Fault>)
    ensures fault.None? <==> r.Valid()
    ensures fault.Some? && fault.value.BadWord? ==>
              var i := fault.value.index;
              i < |r.words| && !r.WordFits(i) && forall j | 0 <= j < i :: r.WordFits(j)
    ensures fault == Some(BeforeZero) <==> r.start < 0.0
    ensures fault == Some(EndsTooEarly) <==> r.start >= 0.0 && r.end <= r.start
    ensures fault == Some(EmptyLine) <==>
              r.start >= 0.0 && r.end > r.start && Visible(r.sourceText) == "" && r.translated.None?
  {
    TrimKeepsVisible(r.sourceText);
    if r.start < 0.0 { return Some(BeforeZero); }
    if r.end <= r.start { return Some(EndsTooEarly); }
    if TrimSpace(r.sourceText) == "" && r.translated.None? { return Some(EmptyLine); }
    var previousEnd := r.start;
    for i := 0 to |r.words|
      invariant forall j | 0 <= j < i :: r.WordFits(j)
      invariant previousEnd == if i == 0 then r.start else r.words[i - 1].end
    {
      var word := r.words[i];
      assert r.WordFits(i) <==> word.end >= word.start && word.start >= r.start - TOLERANCE && word.end <= r.end + TOLERANCE
                                && word.start >= previousEnd - TOLERANCE;
      if word.end < word.start { return Some(BadWord(i)); }
      if word.start < r.start - TOLERANCE || word.end > r.end + TOLERANCE { return Some(BadWord(i)); }
      if word.start < previousEnd - TOLERANCE { return Some(BadWord(i)); }
      previousEnd := word.end;
    }
    return None;
  }

  // ---------------------------------------------------------------------
  // Changing one line
  // ---------------------------------------------------------------------

  /** A field that is None is left alone. */
  datatype Edit = Edit(translated: Option<string>, start: Option<real>, end: Option<real>, speaker: Option<string>,
                       tags: Option<seq<Tag>>, reviewState: Option<ReviewState>, needsReview: Option<bool>)

  function Or<T>(change: Option<T>, current: T): T {
    if change.Some? then change.value else current
  }

  /** Naming an empty speaker clears it. */
  function Edited(r: Record, e: Edit): Record {
    r.(translated := if e.translated.Some? then e.translated else r.translated,
       start := Or(e.start, r.start), end := Or(e.end, r.end),
       speaker := if e.speaker.None? then r.speaker else if e.speaker.value == "" then None else e.speaker,
       tags := Or(e.tags, r.tags), reviewState := Or(e.reviewState, r.reviewState),
       needsReview := Or(e.needsReview, r.needsReview), edited := true).WithSpeed()
  }

  // ---------------------------------------------------------------------
  // Splitting one line
  // ---------------------------------------------------------------------

  function AddedTag(tags: seq<Tag>, tag: Tag): seq<Tag> {
    if tag in tags then tags else tags + [tag]
  }

  method AddTag(tags: seq<Tag>, tag: Tag) returns (out: seq<Tag>)
    ensures out == AddedTag(tags, tag)
  {
    for i := 0 to |tags|
      invariant tag !in tags[..i]
    {
      if tags[i] == tag { return tags; }
    }
    return tags + [tag];
  }

  /** Where the right half begins: at the first word not starting before the cut. */
  function CutAt(words: seq<Word>, at: real): (cut: nat)
    ensures cut <= |words|
    ensures forall i | 0 <= i < cut :: words[i].start < at
    ensures cut < |words| ==> words[cut].start >= at
  {
    if words == [] then 0
    else if words[0].start >= at then 0
    else CutAt(words[1..], at) + 1
  }

  method FindCut(words: seq<Word>, at: real) returns (cut: nat)
    ensures cut == CutAt(words, at)
  {
    for i := 0 to |words|
      invariant CutAt(words, at) == i + CutAt(words[i..], at)
    {
      if words[i].start >= at { return i; }
      assert words[i..][1..] == words[i + 1..];
    }
    return |words|;
  }

  function Half(spaced: Script, r: Record, start: real, end: real, words: seq<Word>): Record {
    r.(start := start, end := end, words := words, sourceText := TextOf(spaced, words), translated := None,
       edited := false, needsReview := true, tags := AddedTag(r.tags, Untranslated)).WithSpeed()
  }

  function Head(spaced: Script, r: Record, cut: nat): Record
    requires cut < |r.words|
  {
    Half(spaced, r, r.start, r.words[cut].start, r.words[..cut])
  }

  function Tail(spaced: Script, r: Record, cut: nat): Record
    requires cut < |r.words|
  {
    Half(spaced, r, r.words[cut].start, r.end, r.words[cut..])
  }

  /** The cut falls between two words, and leaves two lines that are valid. */
  ghost predicate Splittable(spaced: Script, r: Record, at: real) {
    && r.start < at < r.end
    && 0 < CutAt(r.words, at) < |r.words|
    && Head(spaced, r, CutAt(r.words, at)).Valid() && Tail(spaced, r, CutAt(r.words, at)).Valid()
  }

  /** The two halves of a line cut at a time, or nothing when it cannot be cut there. */
  method Halve(spaced: Script, record: Record, at: real) returns (halves: Option<(Record, Record)>)
    ensures halves == if Splittable(spaced, record, at)
                      then Some((Head(spaced, record, CutAt(record.words, at)), Tail(spaced, record, CutAt(record.words, at))))
                      else None
  {
    if at <= record.start || at >= record.end { return None; }
    if |record.words| < 2 { return None; }
    var cut := FindCut(record.words, at);
    if cut <= 0 || cut >= |record.words| { return None; }
    var half := record.(translated := None, edited := false, needsReview := true);
    var headText := BuildText(spaced, record.words[..cut]);
    var head := half.(end := record.words[cut].start, words := record.words[..cut], sourceText := headText);
    var tailText := BuildText(spaced, record.words[cut..]);
    var tail := half.(start := record.words[cut].start, words := record.words[cut..], sourceText := tailText);
    var tags := AddTag(record.tags, Untranslated);
    head, tail := head.(tags := tags).WithSpeed(), tail.(tags := tags).WithSpeed();
    assert head == Head(spaced, record, cut) && tail == Tail(spaced, record, cut);
    var fault := Validate(head);
    if fault.Some? { return None; }
    fault := Validate(tail);
    if fault.Some? { return None; }
    return Some((head, tail));
  }

  // ---------------------------------------------------------------------
  // Merging two lines
  // ---------------------------------------------------------------------

  function JoinTranslations(spaced: Script, a: Option<string>, b: Option<string>): Option<string> {
    if a.None? then b
    else if b.None? then a
    else
      var left, right := TrimSpace(a.value), TrimSpace(b.value);
      Some(if left != "" && right != "" && spaced(LastRune(left)) && spaced(FirstRune(right)) then left + " " + right
           else left + right)
  }

  function Union(first: seq<Tag>, second: seq<Tag>): seq<Tag>
    decreases |first| + |second|
  {
    if second != [] then AddedTag(Union(first, second[..|second| - 1]), second[|second| - 1])
    else if first != [] then AddedTag(Union(first[..|first| - 1], []), first[|first| - 1])
    else []
  }

  method UnionTags(first: seq<Tag>, second: seq<Tag>) returns (out: seq<Tag>)
    ensures out == Union(first, second)
  {
    out := [];
    for i := 0 to |first|
      invariant out == Union(first[..i], [])
    {
      assert first[..i + 1][..i] == first[..i];
      if first[i] !in out { out := out + [first[i]]; }
    }
    assert first[..|first|] == first;
    for i := 0 to |second|
      invariant out == Union(first, second[..i])
    {
      assert second[..i + 1][..i] == second[..i];
      if second[i] !in out { out := out + [second[i]]; }
    }
    assert second[..|second|] == second;
  }

  /** The text comes from the words when they have any. */
  function MergedText(spaced: Script, a: Record, b: Record): string {
    var text := TextOf(spaced, a.words + b.words);
    if text == "" then TrimSpace(a.sourceText + b.sourceText) else text
  }

  function Merged(spaced: Script, a: Record, b: Record): Record {
    a.(end := b.end, words := a.words + b.words, sourceText := MergedText(spaced, a, b),
       translated := JoinTranslations(spaced, a.translated, b.translated), needsReview := a.needsReview || b.needsReview,
       tags := Union(a.tags, b.tags), edited := true).WithSpeed()
  }

  method Combine(spaced: Script, a: Record, b: Record) returns (merged: Option<Record>)
    ensures merged == if Merged(spaced, a, b).Valid() then Some(Merged(spaced, a, b)) else None
  {
    var text := BuildText(spaced, a.words + b.words);
    if text == "" { text := TrimSpace(a.sourceText + b.sourceText); }
    var tags := UnionTags(a.tags, b.tags);
    var m := a.(end := b.end, words := a.words + b.words, sourceText := text,
                translated := JoinTranslations(spaced, a.translated, b.translated),
                needsReview := a.needsReview || b.needsReview, tags := tags, edited := true).WithSpeed();
    assert m == Merged(spaced, a, b);
    var fault := Validate(m);
    merged := if fault.None? then Some(m) else None;
  }

  // ---------------------------------------------------------------------
  // The operations, as functions of the lines in order
  // ---------------------------------------------------------------------

  datatype Op =
    | Change(ordinal: int, edit: Edit)
    | Review(ordinal: int, state: ReviewState, needsReview: bool)
    | Split(ordinal: int, at: real)
    | Merge(ordinal: int, withNext: bool)

  datatype Refusal = NotFound | Invalid | RefusedByTable

  /** An operation is refused, or replaces the lines at an ordinal by others. */
  datatype Response =
    | Refuse(refusal: Refusal)
    | Replace(at: int, replaced: nat, replacement: seq<Record>)
  {
    ghost predicate Fits(lines: seq<Record>) {
      Replace? ==> 1 <= at && at - 1 + replaced <= |lines|
    }
  }

  predicate Has(lines: seq<Record>, ordinal: int) {
    1 <= ordinal <= |lines|
  }

  /** A table row is refused when its review state is not one of the five. */
  ghost function RespondChange(lines: seq<Record>, o: int, edit: Edit): Response {
    if !Has(lines, o) then Refuse(NotFound)
    else if !Edited(lines[o - 1], edit).Valid() then Refuse(Invalid)
    else if Edited(lines[o - 1], edit).reviewState.Unknown? then Refuse(RefusedByTable)
    else Replace(o, 1, [Edited(lines[o - 1], edit)])
  }

  function Reviewed(r: Record, state: ReviewState, needsReview: bool): Record {
    r.(reviewState := state, needsReview := needsReview)
  }

  ghost function RespondReview(lines: seq<Record>, o: int, state: ReviewState, needsReview: bool): Response {
    if state.Unknown? then Refuse(Invalid)
    else if !Has(lines, o) then Refuse(NotFound)
    else Replace(o, 1, [Reviewed(lines[o - 1], state, needsReview)])
  }

  ghost function RespondSplit(spaced: Script, lines: seq<Record>, o: int, at: real): Response {
    if !Has(lines, o) then Refuse(NotFound)
    else if !Splittable(spaced, lines[o - 1], at) then Refuse(Invalid)
    else
      var cut := CutAt(lines[o - 1].words, at);
      Replace(o, 1, [Head(spaced, lines[o - 1], cut), Tail(spaced, lines[o - 1], cut)])
  }

  ghost function RespondMerge(spaced: Script, lines: seq<Record>, o: int): Response {
    if !Has(lines, o) then Refuse(NotFound)
    else if !Has(lines, o + 1) then Refuse(Invalid)
    else if !Merged(spaced, lines[o - 1], lines[o]).Valid() then Refuse(Invalid)
    else Replace(o, 2, [Merged(spaced, lines[o - 1], lines[o])])
  }

  /** Merging with the previous line is merging that line with the next. */
  ghost function RespondMergeBack(spaced: Script, lines: seq<Record>, o: int): Response {
    if !Has(lines, o) then Refuse(NotFound)
    else if !Has(lines, o - 1) then Refuse(Invalid)
    else RespondMerge(spaced, lines, o - 1)
  }

  ghost function Respond(spaced: Script, lines: seq<Record>, op: Op): (r: Response)
    ensures r.Fits(lines)
  {
    match op
    case Change(o, edit) => RespondChange(lines, o, edit)
    case Review(o, state, needsReview) => RespondReview(lines, o, state, needsReview)
    case Split(o, at) => RespondSplit(spaced, lines, o, at)
    case Merge(o, withNext) => if withNext then RespondMerge(spaced, lines, o) else RespondMergeBack(spaced, lines, o)
  }

  function Spliced(lines: seq<Record>, ordinal: int, replaced: nat, replacement: seq<Record>): seq<Record>
    requires 1 <= ordinal && ordinal - 1 + replaced <= |lines|
  {
    lines[..ordinal - 1] + replacement + lines[ordinal - 1 + replaced..]
  }

  ghost function Outcome(lines: seq<Record>, r: Response): seq<Record>
    requires r.Fits(lines)
  {
    if r.Refuse? then lines else Spliced(lines, r.at, r.replaced, r.replacement)
  }

  ghost function After(spaced: Script, lines: seq<Record>, op: Op): seq<Record> {
    Outcome(lines, Respond(spaced, lines, op))
  }

  lemma MergeBackwards(spaced: Script, lines: seq<Record>, o: int)
    ensures Respond(spaced, lines, Merge(o, false)) ==
              if !Has(lines, o) then Refuse(NotFound)
              else if !Has(lines, o - 1) then Refuse(Invalid)
              else Respond(spaced, lines, Merge(o - 1, true))
    ensures After(spaced, lines, Merge(o, false)) ==
              if Has(lines, o) && Has(lines, o - 1) then After(spaced, lines, Merge(o - 1, true)) else lines
  {
    var r := Respond(spaced, lines, Merge(o, false));
    if Has(lines, o) && Has(lines, o - 1) {
      assert r == Respond(spaced, lines, Merge(o - 1, true));
    } else {
      assert r.Refuse?;
    }
  }

  lemma MergeAccepted(spaced: Script, lines: seq<Record>, o: int, m: Record)
    requires Has(lines, o) && Has(lines, o + 1) && m == Merged(spaced, lines[o - 1], lines[o]) && m.Valid()
    ensures Respond(spaced, lines, Merge(o, true)) == Replace(o, 2, [m])
    ensures After(spaced, lines, Merge(o, true)) == Spliced(lines, o, 2, [m])
  {
  }

  ghost predicate Storable(r: Record) {
    r.Valid() && !r.reviewState.Unknown?
  }

  ghost predicate AllStorable(lines: seq<Record>) {
    forall i | 0 <= i < |lines| :: Storable(lines[i])
  }

  lemma ReviewKeepsStorable(r: Record, state: ReviewState, needsReview: bool)
    requires Storable(r) && !state.Unknown?
    ensures Storable(Reviewed(r, state, needsReview))
  {
    var r' := Reviewed(r, state, needsReview);
    forall i | 0 <= i < |r'.words| ensures r'.WordFits(i) { assert r.WordFits(i); }
  }

  lemma ReplacementIsStorable(spaced: Script, lines: seq<Record>, op: Op)
    requires AllStorable(lines)
    ensures var r := Respond(spaced, lines, op); r.Replace? ==> AllStorable(r.replacement)
  {
    match op
    case Change(o, edit) =>
    case Review(o, state, needsReview) =>
      if Has(lines, o) && !state.Unknown? {
        assert Storable(lines[o - 1]);
        ReviewKeepsStorable(lines[o - 1], state, needsReview);
      }
    case Split(o, at) => if Has(lines, o) { assert Storable(lines[o - 1]); }
    case Merge(o, withNext) =>
      var first := if withNext then o else o - 1;
      if Has(lines, first) { assert Storable(lines[first - 1]); }
  }

  lemma SplicedStorable(lines: seq<Record>, ordinal: int, replaced: nat, replacement: seq<Record>)
    requires 1 <= ordinal && ordinal - 1 + replaced <= |lines|
    requires AllStorable(lines) && AllStorable(replacement)
    ensures AllStorable(Spliced(lines, ordinal, replaced, replacement))
  {
  }

  /** Whatever an operation stores can be stored. */
  lemma StaysStorable(spaced: Script, lines: seq<Record>, op: Op)
    requires AllStorable(lines)
    ensures AllStorable(After(spaced, lines, op))
  {
    ReplacementIsStorable(spaced, lines, op);
    var r := Respond(spaced, lines, op);
    if r.Replace? { SplicedStorable(lines, r.at, r.replaced, r.replacement); }
  }

  // ---------------------------------------------------------------------
  // The table
  // ---------------------------------------------------------------------

  datatype Result<+T> = Ok(value: T) | Err(refusal: Refusal)

  class Repository {
    const spaced: Script
    var rows: map<int, Record>

    constructor (spaced: Script)
      ensures this.spaced == spaced && rows == map[] && Valid()
    {
      this.spaced, rows := spaced, map[];
    }

    /** Ordinals run from one without a gap. */
    ghost predicate Dense()
      reads this
    {
      forall o :: o in rows <==> 1 <= o <= |rows|
    }

    ghost function Lines(): (lines: seq<Record>)
      requires Dense()
      reads this
      ensures |lines| == |rows|
    {
      seq(|rows|, i requires 0 <= i < |rows| && Dense() reads this => rows[i + 1])
    }

    ghost predicate Valid()
      reads this
    {
      Dense() && AllStorable(Lines())
    }

    /** The table holds exactly these lines. */
    ghost predicate Holds(lines: seq<Record>)
      reads this
    {
      && (forall o :: o in rows <==> 1 <= o <= |lines|)
      && forall i | 0 <= i < |lines| :: rows[i + 1] == lines[i]
    }

    lemma HoldsMeansLines(lines: seq<Record>)
      requires Holds(lines)
      ensures Dense() && Lines() == lines
    {
      Counted(rows.Keys, |lines|);
      assert |rows| == |rows.Keys|;
    }

    lemma {:induction false} Counted(keys: set<int>, n: nat)
      requires forall o :: o in keys <==> 1 <= o <= n
      ensures |keys| == n
      decreases n
    {
      if n == 0 {
        assert forall o :: o !in keys;
        assert keys == {};
      } else {
        Counted(keys - {n}, n - 1);
      }
    }

    /** Overwrites one row. */
    method Update(ordinal: int, r: Record)
      requires Dense() && ordinal in rows
      modifies this
      ensures Dense() && rows == old(rows)[ordinal := r] && Lines() == Spliced(old(Lines()), ordinal, 1, [r])
    {
      ghost var lines := Lines();
      rows := rows[ordinal := r];
      HoldsMeansLines(lines[ordinal - 1 := r]);
      assert lines[ordinal - 1 := r] == Spliced(lines, ordinal, 1, [r]);
    }

    /** The tail of the transcript, from an ordinal on. */
    method TailFrom(ordinal: int) returns (tail: seq<Record>)
      requires Dense() && 1 <= ordinal <= |rows| + 1
      ensures tail == Lines()[ordinal - 1..]
    {
      tail := [];
      var next := ordinal;
      while next in rows
        invariant ordinal <= next <= |rows| + 1
        invariant tail == Lines()[ordinal - 1..next - 1]
        decreases |rows| + 1 - next
      {
        tail := tail + [rows[next]];
        next := next + 1;
      }
    }

    /** Writes a line after those it holds. */
    method AppendLine(next: int, line: Record, ghost held: seq<Record>)
      requires Holds(held) && next == |held| + 1
      modifies this
      ensures Holds(held + [line])
    {
      rows := rows[next := line];
    }

    /** Replaces some lines at an ordinal by others and renumbers the rest. */
    method Splice(ordinal: int, replaced: nat, replacement: seq<Record>)
      requires Dense() && 1 <= ordinal && ordinal - 1 + replaced <= |rows|
      modifies this
      ensures Dense() && Lines() == Spliced(old(Lines()), ordinal, replaced, replacement)
    {
      ghost var lines := Lines();
      var tail := TailFrom(ordinal + replaced);
      rows := map o | o in rows && o < ordinal :: rows[o];
      var records := replacement + tail;
      var next := ordinal;
      for i := 0 to |records|
        invariant next == ordinal + i
        invariant Holds(lines[..ordinal - 1] + records[..i])
      {
        ghost var held := lines[..ordinal - 1] + records[..i];
        assert lines[..ordinal - 1] + records[..i + 1] == held + [records[i]];
        AppendLine(next, records[i], held);
        next := next + 1;
      }
      assert lines[..ordinal - 1] + records[..|records|] == Spliced(lines, ordinal, replaced, replacement);
      HoldsMeansLines(Spliced(lines, ordinal, replaced, replacement));
    }

    /** The caller is told why an operation was refused, or shown the line it left at the ordinal. */
    ghost predicate Answers(r: Result<Record>, response: Response)
      requires Dense()
      reads this
    {
      match response
      case Refuse(refusal) => r == Err(refusal)
      case Replace(at, _, _) => at in rows && r == Ok(rows[at])
    }

    /** Applies a user's change to one line, which counts as edited from then on. */
    method Apply(ordinal: int, edit: Edit) returns (r: Result<Record>)
      requires Valid()
      modifies this
      ensures Valid() && Lines() == After(spaced, old(Lines()), Change(ordinal, edit))
      ensures Answers(r, Respond(spaced, old(Lines()), Change(ordinal, edit)))
    {
      StaysStorable(spaced, Lines(), Change(ordinal, edit));
      if ordinal !in rows { return Err(NotFound); }
      assert rows[ordinal] == Lines()[ordinal - 1];
      var record := Edited(rows[ordinal], edit);
      var fault := Validate(record);
      if fault.Some? { return Err(Invalid); }
      if record.reviewState.Unknown? { return Err(RefusedByTable); }
      Update(ordinal, record);
      return Ok(record);
    }

    /** Approves or rejects a line; its text does not count as edited. */
    method SetReviewState(ordinal: int, state: ReviewState, needsReview: bool) returns (r: Result<Record>)
      requires Valid()
      modifies this
      ensures Valid() && Lines() == After(spaced, old(Lines()), Review(ordinal, state, needsReview))
      ensures Answers(r, Respond(spaced, old(Lines()), Review(ordinal, state, needsReview)))
    {
      StaysStorable(spaced, Lines(), Review(ordinal, state, needsReview));
      if state.Unknown? { return Err(Invalid); }
      if ordinal !in rows { return Err(NotFound); }
      assert rows[ordinal] == Lines()[ordinal - 1];
      Update(ordinal, rows[ordinal].(reviewState := state, needsReview := needsReview));
      return Ok(rows[ordinal]);
    }

    /** Cuts a line in two, between two of its words. */
    method SplitAt(ordinal: int, at: real) returns (r: Result<Record>, second: Option<Record>)
      requires Valid()
      modifies this
      ensures Valid() && Lines() == After(spaced, old(Lines()), Split(ordinal, at))
      ensures Answers(r, Respond(spaced, old(Lines()), Split(ordinal, at)))
      ensures r.Ok? ==> ordinal + 1 in rows && second == Some(rows[ordinal + 1])
    {
      StaysStorable(spaced, Lines(), Split(ordinal, at));
      second := None;
      if ordinal !in rows { return Err(NotFound), None; }
      assert rows[ordinal] == Lines()[ordinal - 1];
      var halves := Halve(spaced, rows[ordinal], at);
      if halves.None? { return Err(Invalid), None; }
      Splice(ordinal, 1, [halves.value.0, halves.value.1]);
      return Ok(rows[ordinal]), Some(rows[ordinal + 1]);
    }

    /** Makes one line of two neighbours. */
    method MergePair(first: int) returns (r: Result<Record>)
      requires Valid() && first in rows
      modifies this
      ensures Valid() && Lines() == After(spaced, old(Lines()), Merge(first, true))
      ensures Answers(r, Respond(spaced, old(Lines()), Merge(first, true)))
    {
      StaysStorable(spaced, Lines(), Merge(first, true));
      if first + 1 !in rows { return Err(Invalid); }
      ghost var lines := Lines();
      assert rows[first] == lines[first - 1] && rows[first + 1] == lines[first];
      var merged := Combine(spaced, rows[first], rows[first + 1]);
      if merged.None? { return Err(Invalid); }
      MergeAccepted(spaced, lines, first, merged.value);
      Splice(first, 2, [merged.value]);
      return Ok(rows[first]);
    }

    /** Combines a line with its neighbour. */
    method MergeWith(ordinal: int, withNext: bool) returns (r: Result<Record>)
      requires Valid()
      modifies this
      ensures Valid() && Lines() == After(spaced, old(Lines()), Merge(ordinal, withNext))
      ensures Answers(r, Respond(spaced, old(Lines()), Merge(ordinal, withNext)))
    {
      MergeBackwards(spaced, Lines(), ordinal);
      if ordinal !in rows { return Err(NotFound); }
      if withNext {
        r := MergePair(ordinal);
        return;
      }
      if ordinal - 1 !in rows { return Err(Invalid); }
      r := MergePair(ordinal - 1);
    }
  }
}

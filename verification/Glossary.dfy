/** Choosing the glossary terms for a text: internal/glossary/glossary.go.
  Strings are sequences of bytes here. */
module Glossary {
  import opened Optional
  import opened Sorting

  datatype Origin = Manual | Auto | Unknown(name: string)

  /** `rest` stands for the fields resolution does not look at. */
  datatype Entry = Entry(id: string, project: Option<string>, source: string, target: string, priority: int,
                         enabled: bool, origin: Origin, updatedAt: int, rest: string)

  /** Whether a term's script puts spaces between words, from the Unicode tables. */
  type Script = string -> bool

  // ---------------------------------------------------------------------
  // Occurrence
  // ---------------------------------------------------------------------

  predicate IsWordByte(b: char) {
    b == '_' || '0' <= b <= '9' || 'a' <= b <= 'z' || 'A' <= b <= 'Z' || b >= '\U{80}'
  }

  function ByteAt(s: string, i: int): char {
    if 0 <= i < |s| then s[i] else ' '
  }

  predicate At(term: string, text: string, i: int) {
    0 <= i && i + |term| <= |text| && text[i..i + |term|] == term
  }

  predicate Bounded(term: string, text: string, i: int) {
    !IsWordByte(ByteAt(text, i - 1)) && !IsWordByte(ByteAt(text, i + |term|))
  }

  /** What it means for a term to occur: somewhere, and as a whole word when its
      script has words. */
  ghost predicate OccursIn(words: Script, term: string, text: string) {
    && term != "" && text != ""
    && exists i :: At(term, text, i) && (words(term) ==> Bounded(term, text, i))
  }

  /** The first occurrence at or after an index. */
  method Index(term: string, text: string, from: nat) returns (found: Option<nat>)
    requires from <= |text|
    ensures found.None? ==> forall i | i >= from :: !At(term, text, i)
    ensures found.Some? ==> found.value >= from && At(term, text, found.value)
                            && forall i | from <= i < found.value :: !At(term, text, i)
  {
    var i := from;
    while i + |term| <= |text|
      invariant from <= i && forall j | from <= j < i :: !At(term, text, j)
    {
      if text[i..i + |term|] == term { return Some(i); }
      i := i + 1;
    }
    return None;
  }

  method Occurs(words: Script, term: string, text: string) returns (r: bool)
    ensures r == OccursIn(words, term, text)
  {
    if term == "" || text == "" { return false; }
    if !words(term) {
      var found := Index(term, text, 0);
      return found.Some?;
    }
    var index := 0;
    while true
      invariant index < |text|
      invariant forall i | 0 <= i < index && At(term, text, i) :: !Bounded(term, text, i)
      decreases |text| - index
    {
      var found := Index(term, text, index);
      if found.None? { return false; }
      var start := found.value;
      var end := start + |term|;
      if !IsWordByte(ByteAt(text, start - 1)) && !IsWordByte(ByteAt(text, end)) { return true; }
      index := start + 1;
      if index >= |text| { return false; }
    }
  }

  // ---------------------------------------------------------------------
  // Resolution
  // ---------------------------------------------------------------------

  /** Whether `a` beats `b`, two entries for one source term: a project's
      entry first, then the lower priority, then a manual entry, then the newer. */
  predicate MoreSpecific(a: Entry, b: Entry) {
    if a.project.Some? != b.project.Some? then a.project.Some?
    else if a.priority != b.priority then a.priority < b.priority
    else if a.origin != b.origin then a.origin == Manual
    else a.updatedAt > b.updatedAt
  }

  /** What decides between two entries, in this order: belonging to a project,
      the lower priority, being written by hand, being newer. */
  lemma MoreSpecificMeans(a: Entry, b: Entry)
    ensures a.project.Some? && b.project.None? ==> MoreSpecific(a, b) && !MoreSpecific(b, a)
    ensures (a.project == None <==> b.project == None) ==>
              && (a.priority < b.priority ==> MoreSpecific(a, b) && !MoreSpecific(b, a))
              && (a.priority == b.priority && a.origin == Manual && b.origin != Manual ==>
                    MoreSpecific(a, b) && !MoreSpecific(b, a))
              && (a.priority == b.priority && a.origin == b.origin ==> (MoreSpecific(a, b) <==> a.updatedAt > b.updatedAt))
              && (a.priority == b.priority && a.origin != b.origin && a.origin != Manual && b.origin != Manual ==>
                    !MoreSpecific(a, b) && !MoreSpecific(b, a))
  {
  }

  predicate Earlier(a: Entry, b: Entry) {
    if a.priority != b.priority then a.priority < b.priority else Before(a.source, b.source)
  }

  function JoinLines(texts: seq<string>): string {
    if texts == [] then ""
    else if |texts| == 1 then texts[0]
    else JoinLines(texts[..|texts| - 1]) + ['\n'] + texts[|texts| - 1]
  }

  lemma StandsInFirst(term: string, a: string, b: string, i: int)
    requires i + |term| <= |a|
    ensures At(term, a + ['\n'] + b, i) <==> At(term, a, i)
    ensures i >= 0 ==> (Bounded(term, a + ['\n'] + b, i) <==> Bounded(term, a, i))
  {
    if i >= 0 { assert (a + ['\n'] + b)[i..i + |term|] == a[i..i + |term|]; }
  }

  lemma StandsInSecond(term: string, a: string, b: string, i: int)
    requires i >= 0
    ensures At(term, a + ['\n'] + b, i + |a| + 1) <==> At(term, b, i)
    ensures Bounded(term, a + ['\n'] + b, i + |a| + 1) <==> Bounded(term, b, i)
  {
    if i + |term| <= |b| { assert (a + ['\n'] + b)[i + |a| + 1..i + |a| + 1 + |term|] == b[i..i + |term|]; }
  }

  lemma StandsInOne(term: string, a: string, b: string, i: int)
    requires '\n' !in term && At(term, a + ['\n'] + b, i)
    ensures i + |term| <= |a| || i > |a|
  {
    var whole := a + ['\n'] + b;
    assert forall k | i <= k < i + |term| :: whole[k] == whole[i..i + |term|][k - i];
    assert whole[|a|] == '\n';
  }

  /** A line break is no part of a word, so a text beside another changes nothing
      about where a term without one occurs. */
  lemma OccursBeside(words: Script, term: string, a: string, b: string)
    requires '\n' !in term
    ensures OccursIn(words, term, a + ['\n'] + b) <==> OccursIn(words, term, a) || OccursIn(words, term, b)
  {
    var whole := a + ['\n'] + b;
    if OccursIn(words, term, whole) {
      var i :| At(term, whole, i) && (words(term) ==> Bounded(term, whole, i));
      StandsInOne(term, a, b, i);
      if i + |term| <= |a| { StandsInFirst(term, a, b, i); } else { StandsInSecond(term, a, b, i - |a| - 1); }
    }
    if OccursIn(words, term, a) {
      var i :| At(term, a, i) && (words(term) ==> Bounded(term, a, i));
      StandsInFirst(term, a, b, i);
    }
    if OccursIn(words, term, b) {
      var i :| At(term, b, i) && (words(term) ==> Bounded(term, b, i));
      StandsInSecond(term, a, b, i);
    }
  }

  /** Joining the texts makes no term occur, and hides none: one without a line
      break occurs in all of them together iff it occurs in one of them. */
  lemma {:induction false} OccursInOneOf(words: Script, term: string, texts: seq<string>)
    requires '\n' !in term
    ensures OccursIn(words, term, JoinLines(texts)) <==> exists text | text in texts :: OccursIn(words, term, text)
    decreases |texts|
  {
    if |texts| == 1 {
      assert texts[0] in texts;
    } else if |texts| > 1 {
      var n := |texts| - 1;
      assert texts == texts[..n] + [texts[n]];
      OccursInOneOf(words, term, texts[..n]);
      OccursBeside(words, term, JoinLines(texts[..n]), texts[n]);
    }
  }

  ghost predicate Candidate(words: Script, text: string, e: Entry) {
    e.enabled && OccursIn(words, e.source, text)
  }

  ghost predicate Beats(m: map<string, Entry>, e: Entry) {
    e.source !in m || MoreSpecific(e, m[e.source])
  }

  /** The winner of each source after reading the entries in order. */
  ghost function Winners(words: Script, text: string, entries: seq<Entry>): map<string, Entry> {
    if entries == [] then map[]
    else
      var before, e := Winners(words, text, entries[..|entries| - 1]), entries[|entries| - 1];
      if Candidate(words, text, e) && Beats(before, e) then before[e.source := e] else before
  }

  ghost predicate KeyedBySource(m: map<string, Entry>) {
    forall s | s in m :: m[s].source == s
  }

  /** The winners, each once, sorted. */
  ghost predicate Matched(words: Script, entries: seq<Entry>, texts: seq<string>, out: seq<Entry>) {
    var winners := Winners(words, JoinLines(texts), entries);
    KeyedBySource(winners) && Elements(out) == winners.Values && Ascending(Earlier, out)
  }

  /** The entries that apply to these texts, one for each source term. */
  method Match(words: Script, entries: seq<Entry>, texts: seq<string>) returns (out: seq<Entry>)
    ensures Matched(words, entries, texts, out)
    ensures forall i, j | 0 <= i < j < |out| ::
              out[i].priority < out[j].priority || (out[i].priority == out[j].priority && Before(out[i].source, out[j].source))
  {
    var joined := JoinLines(texts);
    var winners: map<string, Entry> := map[];
    for i := 0 to |entries|
      invariant winners == Winners(words, joined, entries[..i])
      invariant KeyedBySource(winners)
    {
      assert entries[..i + 1][..i] == entries[..i];
      var entry := entries[i];
      if entry.enabled {
        var occurs := Occurs(words, entry.source, joined);
        if occurs && (entry.source !in winners || MoreSpecific(entry, winners[entry.source])) {
          winners := winners[entry.source := entry];
        }
      }
    }
    assert entries[..|entries|] == entries;
    out := [];
    var left := winners.Keys;
    while left != {}
      invariant left <= winners.Keys && Distinct(out)
      invariant Elements(out) == set s | s in winners.Keys && s !in left :: winners[s]
      decreases left
    {
      var source :| source in left;
      var entry := winners[source];
      assert entry !in out by { assert entry !in Elements(out); }
      assert Elements(out + [entry]) == Elements(out) + {entry};
      out := out + [entry];
      left := left - {source};
    }
    assert Elements(out) == winners.Values;
    assert OnePerSource(winners.Values);
    EarlierOrders(winners.Values);
    SortEnumerates(Earlier, out);
    out := Sort(Earlier, out);
  }

  ghost predicate OnePerSource(s: set<Entry>) {
    forall e, f | e in s && f in s && e.source == f.source :: e == f
  }

  lemma EarlierOrders(s: set<Entry>)
    requires OnePerSource(s)
    ensures StrictOrderOn(Earlier, s)
  {
    forall x | x in s ensures !Earlier(x, x) { BeforeIsIrreflexive(x.source); }
    forall x, y, z | x in s && y in s && z in s && Earlier(x, y) && Earlier(y, z) ensures Earlier(x, z) {
      if x.priority == y.priority == z.priority { BeforeIsTransitive(x.source, y.source, z.source); }
    }
    forall x, y | x in s && y in s && x != y ensures Earlier(x, y) || Earlier(y, x) {
      BeforeIsTotal(x.source, y.source);
    }
  }

  // ---------------------------------------------------------------------
  // What the answer is
  // ---------------------------------------------------------------------

  ghost function Candidates(words: Script, text: string, entries: set<Entry>): set<Entry> {
    set e | e in entries && Candidate(words, text, e)
  }

  /** The list is the right answer for a set of candidates: sorted, with exactly
      one entry per source, and that entry unbeaten. */
  ghost predicate Resolves(candidates: set<Entry>, out: seq<Entry>) {
    && Ascending(Earlier, out)
    && Elements(out) <= candidates && OnePerSource(Elements(out))
    && (forall c | c in candidates :: exists e :: e in out && e.source == c.source)
    && (forall e, c | e in out && c in candidates && c.source == e.source :: !MoreSpecific(c, e))
  }

  ghost predicate KnownOrigins(entries: set<Entry>) {
    forall e | e in entries :: !e.origin.Unknown?
  }

  /** Being beaten carries over among the entries of a source, so that it does
      not matter in which order they are compared. */
  ghost predicate Ranked(entries: set<Entry>) {
    forall a, b, c | a in entries && b in entries && c in entries && a.source == b.source == c.source ::
      !MoreSpecific(a, b) && MoreSpecific(c, b) ==> !MoreSpecific(a, c)
  }

  lemma KnownOriginsAreRanked(entries: set<Entry>)
    requires KnownOrigins(entries)
    ensures Ranked(entries)
  {
  }

  /** What the table can hold of a source: one entry for all projects, and one
      for each; of which a project is listed its own and those for all. */
  ghost predicate Listed(entries: set<Entry>, project: Option<string>) {
    && (forall e | e in entries :: e.project.None? || e.project == project)
    && (forall a, b | a in entries && b in entries && a.source == b.source && a.project == b.project :: a == b)
  }

  lemma ListedAreRanked(entries: set<Entry>, project: Option<string>)
    requires Listed(entries, project)
    ensures Ranked(entries)
  {
  }

  ghost predicate Unbeaten(candidates: set<Entry>, e: Entry) {
    e in candidates && forall c | c in candidates && c.source == e.source :: !MoreSpecific(c, e)
  }

  /** No two candidates for the same source are both unbeaten. */
  ghost predicate NoTies(candidates: set<Entry>) {
    forall a, b | Unbeaten(candidates, a) && Unbeaten(candidates, b) && a.source == b.source :: a == b
  }

  /** Reading the entries in order leaves each source with an unbeaten entry. */
  ghost predicate WonBy(words: Script, text: string, entries: seq<Entry>, m: map<string, Entry>) {
    && KeyedBySource(m)
    && (forall s | s in m :: m[s] in entries && Candidate(words, text, m[s]))
    && (forall c | c in entries && Candidate(words, text, c) :: c.source in m && !MoreSpecific(c, m[c.source]))
  }

  lemma WinnerStep(words: Script, text: string, before: seq<Entry>, m: map<string, Entry>, e: Entry)
    requires WonBy(words, text, before, m) && Ranked(Elements(before + [e]))
    ensures WonBy(words, text, before + [e], if Candidate(words, text, e) && Beats(m, e) then m[e.source := e] else m)
  {
    var m' := if Candidate(words, text, e) && Beats(m, e) then m[e.source := e] else m;
    forall c | c in before + [e] && Candidate(words, text, c) ensures c.source in m' && !MoreSpecific(c, m'[c.source]) {
      assert c in Elements(before + [e]) && e in Elements(before + [e]);
      if c.source in m {
        var w := m[c.source];
        assert w in Elements(before + [e]);
      }
    }
  }

  lemma {:induction false} WinnersWin(words: Script, text: string, entries: seq<Entry>)
    requires Ranked(Elements(entries))
    ensures WonBy(words, text, entries, Winners(words, text, entries))
    decreases |entries|
  {
    if entries != [] {
      var n := |entries| - 1;
      assert entries == entries[..n] + [entries[n]];
      forall e | e in Elements(entries[..n]) ensures e in Elements(entries) {}
      WinnersWin(words, text, entries[..n]);
      WinnerStep(words, text, entries[..n], Winners(words, text, entries[..n]), entries[n]);
    }
  }

  /** Match gives the right answer. */
  lemma MatchResolves(words: Script, entries: seq<Entry>, texts: seq<string>, out: seq<Entry>)
    requires Ranked(Elements(entries)) && Matched(words, entries, texts, out)
    ensures Resolves(Candidates(words, JoinLines(texts), Elements(entries)), out)
  {
    var text := JoinLines(texts);
    var winners := Winners(words, text, entries);
    WinnersWin(words, text, entries);
    forall e | e in out ensures e.source in winners && winners[e.source] == e && e in Elements(entries) {
      assert e in Elements(out);
    }
    forall c | c in Elements(entries) && Candidate(words, text, c) ensures exists e :: e in out && e.source == c.source {
      assert winners[c.source] in winners.Values;
      assert winners[c.source] in Elements(out);
    }
  }

  /** There is only one right answer when nothing ties. */
  lemma AnswerIsUnique(candidates: set<Entry>, a: seq<Entry>, b: seq<Entry>)
    requires NoTies(candidates) && Resolves(candidates, a) && Resolves(candidates, b)
    ensures a == b
  {
    forall e | e in a ensures e in b { AnswersAgree(candidates, a, b, e); }
    forall e | e in b ensures e in a { AnswersAgree(candidates, b, a, e); }
    assert Elements(a) == Elements(b);
    EarlierOrders(Elements(a));
    AscendingIsUnique(Earlier, a, b);
  }

  lemma AnswersAgree(candidates: set<Entry>, a: seq<Entry>, b: seq<Entry>, e: Entry)
    requires NoTies(candidates) && Resolves(candidates, a) && Resolves(candidates, b) && e in a
    ensures e in b
  {
    assert e in Elements(a);
    var f :| f in b && f.source == e.source;
    assert f in Elements(b);
    assert Unbeaten(candidates, e) && Unbeaten(candidates, f);
  }

  /** The answer depends on nothing but which entries there are: not on their
      order, nor on the order the map of winners is read in. */
  lemma MatchIsDeterministic(words: Script, a: seq<Entry>, b: seq<Entry>, texts: seq<string>, outA: seq<Entry>, outB: seq<Entry>)
    requires Elements(a) == Elements(b) && Ranked(Elements(a))
    requires NoTies(Candidates(words, JoinLines(texts), Elements(a)))
    requires Matched(words, a, texts, outA) && Matched(words, b, texts, outB)
    ensures outA == outB
  {
    MatchResolves(words, a, texts, outA);
    MatchResolves(words, b, texts, outB);
    AnswerIsUnique(Candidates(words, JoinLines(texts), Elements(a)), outA, outB);
  }

  lemma ProjectEntryWins(candidates: set<Entry>, project: Option<string>, out: seq<Entry>, e: Entry, c: Entry)
    requires Listed(candidates, project) && Resolves(candidates, out)
    requires e in out && c in candidates && c.source == e.source && c.project.Some?
    ensures e == c
  {
    assert e in Elements(out) && !MoreSpecific(c, e);
  }

  /** Of the entries a project is listed, its own is unbeaten wherever it has
      one: nothing ties, and the answer depends on the entries alone. */
  lemma ListedMatchIsDeterministic(words: Script, a: seq<Entry>, b: seq<Entry>, project: Option<string>, texts: seq<string>,
                                   outA: seq<Entry>, outB: seq<Entry>)
    requires Elements(a) == Elements(b) && Listed(Elements(a), project)
    requires Matched(words, a, texts, outA) && Matched(words, b, texts, outB)
    ensures outA == outB
    ensures forall e, c | e in outA && c in a && Candidate(words, JoinLines(texts), c) && c.source == e.source && c.project.Some? ::
              e == c
  {
    ListedAreRanked(Elements(a), project);
    MatchIsDeterministic(words, a, b, texts, outA, outB);
    MatchResolves(words, a, texts, outA);
    forall e, c | e in outA && c in a && Candidate(words, JoinLines(texts), c) && c.source == e.source && c.project.Some?
      ensures e == c
    {
      assert c in Elements(a);
      ProjectEntryWins(Candidates(words, JoinLines(texts), Elements(a)), project, outA, e, c);
    }
  }

  /** The winner of a source is the first of its unbeaten candidates to be read. */
  lemma {:induction false} FirstUnbeatenWins(words: Script, text: string, entries: seq<Entry>, i: nat)
    requires Ranked(Elements(entries)) && i < |entries|
    requires Unbeaten(Candidates(words, text, Elements(entries)), entries[i])
    requires forall j | 0 <= j < i && Candidate(words, text, entries[j]) && entries[j].source == entries[i].source ::
               MoreSpecific(entries[i], entries[j])
    ensures entries[i].source in Winners(words, text, entries)
    ensures Winners(words, text, entries)[entries[i].source] == entries[i]
    decreases |entries|
  {
    var n := |entries| - 1;
    var before, m := entries[..n], Winners(words, text, entries[..n]);
    forall e | e in Elements(before) ensures e in Elements(entries) {}
    assert entries[n] in Elements(entries);
    if i < n {
      assert Unbeaten(Candidates(words, text, Elements(before)), before[i]);
      FirstUnbeatenWins(words, text, before, i);
    } else {
      WinnersWin(words, text, before);
      if entries[i].source in m {
        var j :| 0 <= j < n && before[j] == m[entries[i].source];
        assert MoreSpecific(entries[i], entries[j]);
      }
    }
  }

  /** With a tie, the answer does depend on the order: of two unbeaten entries
      for a source, whichever is read first is in it. */
  lemma TiesGoToTheFirst(words: Script, a: Entry, b: Entry, rest: seq<Entry>, texts: seq<string>,
                         outA: seq<Entry>, outB: seq<Entry>)
    requires Ranked(Elements([a, b] + rest)) && a != b && a.source == b.source
    requires Unbeaten(Candidates(words, JoinLines(texts), Elements([a, b] + rest)), a)
    requires Unbeaten(Candidates(words, JoinLines(texts), Elements([a, b] + rest)), b)
    requires Matched(words, [a, b] + rest, texts, outA) && Matched(words, [b, a] + rest, texts, outB)
    ensures Elements([a, b] + rest) == Elements([b, a] + rest)
    ensures a in outA && b !in outA && b in outB && a !in outB
  {
    var text, ab, ba := JoinLines(texts), [a, b] + rest, [b, a] + rest;
    forall e ensures e in Elements(ab) <==> e in Elements(ba) {
      assert e in ab <==> e == a || e == b || e in rest;
      assert e in ba <==> e == a || e == b || e in rest;
    }
    assert Elements(ab) == Elements(ba);
    FirstIsListed(words, ab, texts, outA);
    FirstIsListed(words, ba, texts, outB);
  }

  lemma FirstIsListed(words: Script, entries: seq<Entry>, texts: seq<string>, out: seq<Entry>)
    requires Ranked(Elements(entries)) && entries != [] && Matched(words, entries, texts, out)
    requires Unbeaten(Candidates(words, JoinLines(texts), Elements(entries)), entries[0])
    ensures entries[0] in out && forall e | e in out && e.source == entries[0].source :: e == entries[0]
  {
    var winners := Winners(words, JoinLines(texts), entries);
    FirstUnbeatenWins(words, JoinLines(texts), entries, 0);
    WinnersWin(words, JoinLines(texts), entries);
    assert winners[entries[0].source] in winners.Values;
    assert entries[0] in Elements(out);
    forall e | e in out ensures e in Elements(out) {}
  }
}

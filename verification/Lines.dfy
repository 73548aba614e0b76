/** The text of a subtitle line and of its timed words: the parts of
  internal/subtitle/segment.go that editing uses. A string is a sequence of runes. */
module Lines {

  /** Which scripts put a space between words, from the Unicode tables. */
  type Script = char -> bool

  datatype Word = Word(text: string, start: real, end: real)

  predicate IsSpace(c: char) {
    || '\t' <= c <= '\r' || c == ' ' || c == '\U{85}' || c == '\U{A0}' || c == '\U{1680}'
    || '\U{2000}' <= c <= '\U{200A}' || c == '\U{2028}' || c == '\U{2029}' || c == '\U{202F}'
    || c == '\U{205F}' || c == '\U{3000}'
  }

  function TrimLeft(s: string): string {
    if s != [] && IsSpace(s[0]) then TrimLeft(s[1..]) else s
  }

  function TrimRight(s: string): string {
    if s != [] && IsSpace(s[|s| - 1]) then TrimRight(s[..|s| - 1]) else s
  }

  function TrimSpace(s: string): string {
    TrimRight(TrimLeft(s))
  }

  /** What is left of a text without its white space. */
  function Visible(s: string): string
    decreases |s|
  {
    if s == [] then []
    else
      var n := |s| - 1;
      Visible(s[..n]) + (if IsSpace(s[n]) then [] else [s[n]])
  }

  lemma {:induction false} VisibleAppend(a: string, b: string)
    ensures Visible(a + b) == Visible(a) + Visible(b)
    decreases |b|
  {
    if b == [] {
      assert a + b == a;
    } else {
      var n := |b| - 1;
      assert (a + b)[..|a + b| - 1] == a + b[..n];
      VisibleAppend(a, b[..n]);
    }
  }

  lemma VisibleOne(c: char)
    ensures Visible([c]) == if IsSpace(c) then [] else [c]
  {
    assert [c][..0] == [];
  }

  lemma {:induction false} TrimLeftKeepsVisible(s: string)
    ensures Visible(TrimLeft(s)) == Visible(s)
    ensures TrimLeft(s) != [] ==> !IsSpace(TrimLeft(s)[0])
    decreases |s|
  {
    if s != [] && IsSpace(s[0]) {
      assert s == [s[0]] + s[1..];
      VisibleAppend([s[0]], s[1..]);
      VisibleOne(s[0]);
      TrimLeftKeepsVisible(s[1..]);
    }
  }

  lemma {:induction false} TrimRightKeepsVisible(s: string)
    ensures Visible(TrimRight(s)) == Visible(s)
    ensures TrimRight(s) != [] ==> !IsSpace(TrimRight(s)[|TrimRight(s)| - 1])
    decreases |s|
  {
    if s != [] && IsSpace(s[|s| - 1]) {
      TrimRightKeepsVisible(s[..|s| - 1]);
    }
  }

  /** Trimming loses nothing a viewer reads, and leaves nothing of a blank text. */
  lemma TrimKeepsVisible(s: string)
    ensures Visible(TrimSpace(s)) == Visible(s)
    ensures TrimSpace(s) == "" <==> Visible(s) == ""
  {
    TrimLeftKeepsVisible(s);
    TrimRightKeepsVisible(TrimLeft(s));
    var t := TrimSpace(s);
    if t != [] {
      assert t == t[..|t| - 1] + [t[|t| - 1]];
    }
  }

  /** Trimming takes white space off the ends, all of it, and nothing else. */
  lemma TrimTakesEnds(s: string) returns (before: string, after: string)
    ensures s == before + TrimSpace(s) + after
    ensures (forall c | c in before :: IsSpace(c)) && (forall c | c in after :: IsSpace(c))
    ensures TrimSpace(s) != "" ==> !IsSpace(TrimSpace(s)[0]) && !IsSpace(TrimSpace(s)[|TrimSpace(s)| - 1])
  {
    var left := TrimLeft(s);
    before := TrimsLeft(s);
    after := TrimsRight(left);
    TrimLeftKeepsVisible(s);
    TrimRightKeepsVisible(left);
    assert s == before + (TrimRight(left) + after);
  }

  lemma {:induction false} TrimsLeft(s: string) returns (before: string)
    ensures s == before + TrimLeft(s) && forall c | c in before :: IsSpace(c)
    decreases |s|
  {
    before := "";
    if s != [] && IsSpace(s[0]) {
      var rest := TrimsLeft(s[1..]);
      before := [s[0]] + rest;
    }
  }

  lemma {:induction false} TrimsRight(s: string) returns (after: string)
    ensures s == TrimRight(s) + after && forall c | c in after :: IsSpace(c)
    decreases |s|
  {
    after := "";
    if s != [] && IsSpace(s[|s| - 1]) {
      var rest := TrimsRight(s[..|s| - 1]);
      after := rest + [s[|s| - 1]];
    }
  }

  function LastRune(s: string): char { if s == [] then '\0' else s[|s| - 1] }

  function FirstRune(s: string): char { if s == [] then '\0' else s[0] }

  predicate NeedsSpace(spaced: Script, previous: string, current: string) {
    && LastRune(previous) != '\0' && FirstRune(current) != '\0'
    && spaced(LastRune(previous)) && spaced(FirstRune(current))
  }

  function Separator(spaced: Script, words: seq<Word>, i: nat): string
    requires i < |words|
  {
    if i > 0 && NeedsSpace(spaced, words[i - 1].text, words[i].text) then " " else ""
  }

  function Joined(spaced: Script, words: seq<Word>): string {
    if words == [] then ""
    else
      var n := |words| - 1;
      Joined(spaced, words[..n]) + Separator(spaced, words, n) + words[n].text
  }

  /** Adding a word adds a space before it exactly when the runes that meet both
      belong to scripts that use spaces. A zero rune counts as none. */
  lemma SpacesBetween(spaced: Script, words: seq<Word>, word: Word)
    ensures Joined(spaced, []) == ""
    ensures var last, next := if words == [] then "" else words[|words| - 1].text, word.text;
            var meet := last != "" && next != "" && last[|last| - 1] != '\0' && next[0] != '\0'
                        && spaced(last[|last| - 1]) && spaced(next[0]);
            Joined(spaced, words + [word]) == Joined(spaced, words) + (if meet then " " else "") + word.text
  {
    assert (words + [word])[..|words|] == words;
  }

  /** A word list as text. */
  function TextOf(spaced: Script, words: seq<Word>): string {
    TrimSpace(Joined(spaced, words))
  }

  method BuildText(spaced: Script, words: seq<Word>) returns (text: string)
    ensures text == TextOf(spaced, words)
  {
    text := "";
    for i := 0 to |words|
      invariant text == Joined(spaced, words[..i])
    {
      assert words[..i + 1][..i] == words[..i];
      assert Separator(spaced, words[..i + 1], i) == Separator(spaced, words, i);
      if i > 0 && NeedsSpace(spaced, words[i - 1].text, words[i].text) {
        text := text + " ";
      }
      text := text + words[i].text;
    }
    assert words[..|words|] == words;
    text := TrimSpace(text);
  }

  lemma SeparatedVisible(before: string, sep: string, text: string)
    requires sep == "" || sep == " "
    ensures Visible(before + sep + text) == Visible(before) + Visible(text)
  {
    VisibleAppend(before + sep, text);
    VisibleAppend(before, sep);
    VisibleOne(' ');
  }

  /** What a viewer reads of the words, whatever is put between them. */
  function Spoken(words: seq<Word>): string {
    if words == [] then "" else Spoken(words[..|words| - 1]) + Visible(words[|words| - 1].text)
  }

  lemma {:induction false} SpokenAppend(a: seq<Word>, b: seq<Word>)
    ensures Spoken(a + b) == Spoken(a) + Spoken(b)
    decreases |b|
  {
    if b == [] {
      assert a + b == a;
    } else {
      var n := |b| - 1;
      assert (a + b)[..|a + b| - 1] == a + b[..n];
      SpokenAppend(a, b[..n]);
      assert (a + b)[|a + b| - 1] == b[n];
      var x, y, z := Spoken(a), Spoken(b[..n]), Visible(b[n].text);
      assert Spoken(a + b) == (x + y) + z;
      assert (x + y) + z == x + (y + z);
    }
  }

  lemma {:induction false} JoinedIsSpoken(spaced: Script, words: seq<Word>)
    ensures Visible(Joined(spaced, words)) == Spoken(words)
    decreases |words|
  {
    if words != [] {
      var n := |words| - 1;
      JoinedIsSpoken(spaced, words[..n]);
      SeparatedVisible(Joined(spaced, words[..n]), Separator(spaced, words, n), words[n].text);
    }
  }

  /** A line's text, rebuilt from its words, says exactly what the words say. */
  lemma TextIsSpoken(spaced: Script, words: seq<Word>)
    ensures Visible(TextOf(spaced, words)) == Spoken(words)
    ensures TextOf(spaced, words) == "" <==> Spoken(words) == ""
  {
    JoinedIsSpoken(spaced, words);
    TrimKeepsVisible(Joined(spaced, words));
  }
}

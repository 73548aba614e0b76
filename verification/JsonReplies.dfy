/** Extraction inverts printing: the value a model printed is the value read
  back, whatever surrounds it. JSON texts are those of RFC 8259, sections 2 to 7. */
module JsonReplies {
  import opened Lines
  import opened Optional
  import opened LlmJson

  // ---------------------------------------------------------------------
  // JSON texts
  // ---------------------------------------------------------------------

  /** One character of a string token (section 7). */
  datatype Piece = Plain(c: char) | Escape(c: char) | CodeUnit(hex: string)

  /** A value together with the white space inside it. `Bare` is a literal name
      or a number. */
  datatype Json = Bare(text: string) | Text(pieces: seq<Piece>) | Array(items: Items) | Object(members: Members)

  datatype Items = NoItems(blank: string) | Items(before: string, value: Json, after: string, more: Option<Items>)

  datatype Members =
    | NoMembers(blank: string)
    | Members(before: string, name: seq<Piece>, afterName: string, beforeValue: string, value: Json, after: string,
              more: Option<Members>)

  predicate IsBlank(s: string) {
    forall c | c in s :: c == ' ' || c == '\t' || c == '\n' || c == '\r'
  }

  predicate PieceOk(p: Piece) {
    match p
    case Plain(c) => c >= ' ' && c != '"' && c != '\\'
    case Escape(c) => c in "\"\\/bfnrt"
    case CodeUnit(hex) => |hex| == 4 && forall c | c in hex :: '0' <= c <= '9' || 'a' <= c <= 'f' || 'A' <= c <= 'F'
  }

  predicate PiecesOk(pieces: seq<Piece>) {
    forall p | p in pieces :: PieceOk(p)
  }

  /** Covers true, false, null and every number. */
  predicate BareOk(text: string) {
    text != "" && forall c | c in text :: 'a' <= c <= 'z' || '0' <= c <= '9' || c == 'E' || c == '+' || c == '-' || c == '.'
  }

  predicate JsonOk(v: Json) {
    match v
    case Bare(text) => BareOk(text)
    case Text(pieces) => PiecesOk(pieces)
    case Array(items) => ItemsOk(items)
    case Object(members) => MembersOk(members)
  }

  predicate ItemsOk(items: Items) {
    match items
    case NoItems(blank) => IsBlank(blank)
    case Items(before, value, after, more) =>
      IsBlank(before) && JsonOk(value) && IsBlank(after) && (more.Some? ==> more.value.Items? && ItemsOk(more.value))
  }

  predicate MembersOk(members: Members) {
    match members
    case NoMembers(blank) => IsBlank(blank)
    case Members(before, name, afterName, beforeValue, value, after, more) =>
      && IsBlank(before) && PiecesOk(name) && IsBlank(afterName) && IsBlank(beforeValue) && JsonOk(value) && IsBlank(after)
      && (more.Some? ==> more.value.Members? && MembersOk(more.value))
  }

  function PrintPiece(p: Piece): string {
    match p
    case Plain(c) => [c]
    case Escape(c) => ['\\', c]
    case CodeUnit(hex) => ['\\', 'u'] + hex
  }

  function PrintPieces(pieces: seq<Piece>): string {
    if pieces == [] then "" else PrintPieces(pieces[..|pieces| - 1]) + PrintPiece(pieces[|pieces| - 1])
  }

  function PrintText(pieces: seq<Piece>): string {
    ['"'] + PrintPieces(pieces) + ['"']
  }

  function Print(v: Json): string {
    match v
    case Bare(text) => text
    case Text(pieces) => PrintText(pieces)
    case Array(items) => ['['] + PrintItems(items) + [']']
    case Object(members) => ['{'] + PrintMembers(members) + ['}']
  }

  function PrintItems(items: Items): string {
    match items
    case NoItems(blank) => blank
    case Items(before, value, after, more) =>
      before + Print(value) + after + (if more.Some? then [','] + PrintItems(more.value) else "")
  }

  function PrintMembers(members: Members): string {
    match members
    case NoMembers(blank) => blank
    case Members(before, name, afterName, beforeValue, value, after, more) =>
      before + PrintText(name) + afterName + [':'] + beforeValue + Print(value) + after
      + (if more.Some? then [','] + PrintMembers(more.value) else "")
  }

  // ---------------------------------------------------------------------
  // The scan passes over a printed value
  // ---------------------------------------------------------------------

  lemma {:induction false} ScannedAppend(opener: char, s: Scan, a: string, b: string)
    ensures Scanned(opener, s, a + b) ==
              match Scanned(opener, s, a) case None => None case Some(mid) => Scanned(opener, mid, b)
    decreases |b|
  {
    if b == "" {
      assert a + b == a;
    } else {
      var n := |b| - 1;
      assert (a + b)[..|a + b| - 1] == a + b[..n];
      ScannedAppend(opener, s, a, b[..n]);
    }
  }

  lemma ScannedOne(opener: char, s: Scan, c: char)
    ensures Scanned(opener, s, [c]) == if Closes(opener, s, c) then None else Some(Step(opener, s, c))
  {
    assert [c][..0] == "";
  }

  /** Inside a value, the text leaves the scan as it found it. */
  ghost predicate Neutral(text: string) {
    forall opener, d: int | IsOpener(opener) && d >= 1 ::
      Scanned(opener, Scan(d, false, false), text) == Some(Scan(d, false, false))
  }

  lemma NeutralAppend(a: string, b: string)
    requires Neutral(a) && Neutral(b)
    ensures Neutral(a + b)
  {
    forall opener, d: int | IsOpener(opener) && d >= 1
      ensures Scanned(opener, Scan(d, false, false), a + b) == Some(Scan(d, false, false))
    {
      ScannedAppend(opener, Scan(d, false, false), a, b);
    }
  }

  predicate Quiet(c: char) {
    c != '"' && c != '{' && c != '}' && c != '[' && c != ']'
  }

  lemma {:induction false} QuietIsNeutral(text: string)
    requires forall c | c in text :: Quiet(c)
    ensures Neutral(text)
    decreases |text|
  {
    if text != "" {
      var n := |text| - 1;
      QuietIsNeutral(text[..n]);
      assert Quiet(text[n]);
    }
  }

  /** Inside a string token, a character leaves the scan inside the token. */
  lemma PieceStaysInside(opener: char, d: int, p: Piece)
    requires PieceOk(p)
    ensures Scanned(opener, Scan(d, true, false), PrintPiece(p)) == Some(Scan(d, true, false))
  {
    var inside := Scan(d, true, false);
    match p
    case Plain(c) => ScannedOne(opener, inside, c);
    case Escape(c) => BackslashPair(opener, d, c);
    case CodeUnit(hex) =>
      BackslashPair(opener, d, 'u');
      ScannedAppend(opener, inside, ['\\', 'u'], hex);
      forall i | 0 <= i < |hex| ensures hex[i] != '"' && hex[i] != '\\' { assert hex[i] in hex; }
      HexStaysInside(opener, d, hex);
  }

  lemma BackslashPair(opener: char, d: int, c: char)
    ensures Scanned(opener, Scan(d, true, false), ['\\', c]) == Some(Scan(d, true, false))
  {
    assert ['\\', c] == ['\\'] + [c];
    ScannedAppend(opener, Scan(d, true, false), ['\\'], [c]);
    ScannedOne(opener, Scan(d, true, false), '\\');
    ScannedOne(opener, Scan(d, true, true), c);
  }

  lemma {:induction false} HexStaysInside(opener: char, d: int, text: string)
    requires forall i | 0 <= i < |text| :: text[i] != '"' && text[i] != '\\'
    ensures Scanned(opener, Scan(d, true, false), text) == Some(Scan(d, true, false))
    decreases |text|
  {
    if text != "" {
      HexStaysInside(opener, d, text[..|text| - 1]);
    }
  }

  lemma {:induction false} PiecesStayInside(opener: char, d: int, pieces: seq<Piece>)
    requires PiecesOk(pieces)
    ensures Scanned(opener, Scan(d, true, false), PrintPieces(pieces)) == Some(Scan(d, true, false))
    decreases |pieces|
  {
    if pieces != [] {
      var n := |pieces| - 1;
      PiecesStayInside(opener, d, pieces[..n]);
      PieceStaysInside(opener, d, pieces[n]);
      ScannedAppend(opener, Scan(d, true, false), PrintPieces(pieces[..n]), PrintPiece(pieces[n]));
    }
  }

  lemma TextIsNeutral(pieces: seq<Piece>)
    requires PiecesOk(pieces)
    ensures Neutral(PrintText(pieces))
  {
    forall opener, d: int | IsOpener(opener) && d >= 1
      ensures Scanned(opener, Scan(d, false, false), PrintText(pieces)) == Some(Scan(d, false, false))
    {
      var s := Scan(d, false, false);
      ScannedOne(opener, s, '"');
      PiecesStayInside(opener, d, pieces);
      ScannedAppend(opener, s, ['"'], PrintPieces(pieces));
      ScannedOne(opener, Scan(d, true, false), '"');
      ScannedAppend(opener, s, ['"'] + PrintPieces(pieces), ['"']);
    }
  }

  /** A bracketed text is passed over, whichever bracket is being counted. */
  lemma BracketsAreNeutral(open: char, body: string)
    requires IsOpener(open) && Neutral(body)
    ensures Neutral([open] + body + [CloserOf(open)])
  {
    forall opener, d: int | IsOpener(opener) && d >= 1
      ensures Scanned(opener, Scan(d, false, false), [open] + body + [CloserOf(open)]) == Some(Scan(d, false, false))
    {
      BracketedScan(opener, d, open, body);
    }
  }

  lemma BracketedScan(opener: char, d: int, open: char, body: string)
    requires IsOpener(opener) && d >= 1 && IsOpener(open) && Neutral(body)
    ensures Scanned(opener, Scan(d, false, false), [open] + body + [CloserOf(open)]) == Some(Scan(d, false, false))
  {
    var s := Scan(d, false, false);
    var inner := Step(opener, s, open);
    ScannedOne(opener, s, open);
    ScannedAppend(opener, s, [open], body);
    assert Scanned(opener, inner, body) == Some(inner);
    ScannedOne(opener, inner, CloserOf(open));
    ScannedAppend(opener, s, [open] + body, [CloserOf(open)]);
  }

  lemma {:induction false} PrintIsNeutral(v: Json)
    requires JsonOk(v)
    ensures Neutral(Print(v))
    decreases v
  {
    match v
    case Bare(text) => QuietIsNeutral(text);
    case Text(pieces) => TextIsNeutral(pieces);
    case Array(items) => ItemsAreNeutral(items); BracketsAreNeutral('[', PrintItems(items));
    case Object(members) => MembersAreNeutral(members); BracketsAreNeutral('{', PrintMembers(members));
  }

  lemma {:induction false} ItemsAreNeutral(items: Items)
    requires ItemsOk(items)
    ensures Neutral(PrintItems(items))
    decreases items
  {
    match items
    case NoItems(blank) => QuietIsNeutral(blank);
    case Items(before, value, after, more) =>
      QuietIsNeutral(before);
      PrintIsNeutral(value);
      QuietIsNeutral(after);
      NeutralAppend(before, Print(value));
      NeutralAppend(before + Print(value), after);
      if more.Some? {
        ItemsAreNeutral(more.value);
        QuietIsNeutral([',']);
        NeutralAppend([','], PrintItems(more.value));
        NeutralAppend(before + Print(value) + after, [','] + PrintItems(more.value));
      } else {
        NeutralAppend(before + Print(value) + after, "");
      }
  }

  lemma {:induction false} MembersAreNeutral(members: Members)
    requires MembersOk(members)
    ensures Neutral(PrintMembers(members))
    decreases members
  {
    match members
    case NoMembers(blank) => QuietIsNeutral(blank);
    case Members(before, name, afterName, beforeValue, value, after, more) =>
      QuietIsNeutral(before);
      TextIsNeutral(name);
      QuietIsNeutral(afterName);
      QuietIsNeutral([':']);
      QuietIsNeutral(beforeValue);
      PrintIsNeutral(value);
      QuietIsNeutral(after);
      NeutralSeven(before, PrintText(name), afterName, [':'], beforeValue, Print(value), after);
      var first := before + PrintText(name) + afterName + [':'] + beforeValue + Print(value) + after;
      if more.Some? {
        MembersAreNeutral(more.value);
        QuietIsNeutral([',']);
        NeutralAppend([','], PrintMembers(more.value));
        NeutralAppend(first, [','] + PrintMembers(more.value));
      } else {
        NeutralAppend(first, "");
      }
  }

  lemma NeutralSeven(a: string, b: string, c: string, d: string, e: string, f: string, g: string)
    requires Neutral(a) && Neutral(b) && Neutral(c) && Neutral(d) && Neutral(e) && Neutral(f) && Neutral(g)
    ensures Neutral(a + b + c + d + e + f + g)
  {
    NeutralAppend(a, b);
    NeutralAppend(a + b, c);
    NeutralAppend(a + b + c, d);
    NeutralAppend(a + b + c + d, e);
    NeutralAppend(a + b + c + d + e, f);
    NeutralAppend(a + b + c + d + e + f, g);
  }

  ghost predicate Container(v: Json) {
    JsonOk(v) && (v.Array? || v.Object?)
  }

  /** A printed object or array is complete: its own bracket is first closed at its end. */
  lemma PrintIsComplete(v: Json)
    requires Container(v)
    ensures Complete(Print(v))
  {
    var open := if v.Array? then '[' else '{';
    var body := if v.Array? then PrintItems(v.items) else PrintMembers(v.members);
    var text := Print(v);
    assert text == [open] + body + [CloserOf(open)];
    if v.Array? { ItemsAreNeutral(v.items); } else { MembersAreNeutral(v.members); }
    ScannedOne(open, FRESH, open);
    ScannedAppend(open, FRESH, [open], body);
    assert Neutral(body) && IsOpener(open);
    var inner := Scan(1, false, false);
    assert Scanned(open, inner, body) == Some(inner);
    assert text[..|text| - 1] == [open] + body;
  }

  // ---------------------------------------------------------------------
  // What the scan finds is unique
  // ---------------------------------------------------------------------

  lemma ScannedPrefix(opener: char, s: Scan, text: string, n: nat)
    requires n <= |text| && Scanned(opener, s, text).Some?
    ensures Scanned(opener, s, text[..n]).Some?
  {
    assert text == text[..n] + text[n..];
    ScannedAppend(opener, s, text[..n], text[n..]);
  }

  lemma CompleteCloses(value: string)
    requires Complete(value)
    ensures Scanned(value[0], FRESH, value).None?
    ensures forall n | 0 <= n < |value| :: Scanned(value[0], FRESH, value[..n]).Some?
  {
    var last := |value| - 1;
    forall n | 0 <= n < |value| ensures Scanned(value[0], FRESH, value[..n]).Some? {
      ScannedPrefix(value[0], FRESH, value[..last], n);
      assert value[..last][..n] == value[..n];
    }
  }

  lemma NoBracketIn(a: string, x: string)
    requires NoBracket(a)
    ensures forall i | 0 <= i < |a| :: !IsOpener((a + x)[i])
  {
    forall i | 0 <= i < |a| ensures !IsOpener((a + x)[i]) { assert a[i] in a; }
  }

  /** Of two ways to divide a text at its first bracket there is only one. */
  lemma SameBracket(a: string, x: string, b: string, y: string)
    requires a + x == b + y && NoBracket(a) && NoBracket(b)
    requires x != "" && y != "" && IsOpener(x[0]) && IsOpener(y[0])
    ensures a == b && x == y
  {
    var text := a + x;
    NoBracketIn(a, x);
    NoBracketIn(b, y);
    assert text[|a|] == x[0] && text[|b|] == y[0];
    assert |a| == |b|;
    assert a == text[..|a|] && b == text[..|b|] && x == text[|a|..] && y == text[|b|..];
  }

  lemma CompleteEnds(x: string, a: string)
    requires Complete(x)
    ensures Scanned(x[0], FRESH, (x + a)[..|x|]).None?
    ensures forall n | 0 <= n < |x| :: Scanned(x[0], FRESH, (x + a)[..n]).Some?
  {
    CompleteCloses(x);
    assert (x + a)[..|x|] == x;
    forall n | 0 <= n < |x| ensures Scanned(x[0], FRESH, (x + a)[..n]).Some? { assert (x + a)[..n] == x[..n]; }
  }

  /** Of two complete values, neither begins the other. */
  lemma CompleteIsFirst(x: string, a: string, y: string, b: string)
    requires Complete(x) && Complete(y) && x + a == y + b
    ensures x == y
  {
    var text := x + a;
    assert x[0] == text[0] == y[0];
    CompleteEnds(x, a);
    CompleteEnds(y, b);
    assert |x| == |y|;
    assert x == text[..|x|] && y == text[..|y|];
  }

  lemma FoundIsIt(before: string, value: string, after: string, found: string, b: string, a: string)
    requires NoBracket(before) && Complete(value) && Complete(found) && NoBracket(b)
    requires before + value + after == b + found + a
    ensures found == value
  {
    assert before + value + after == before + (value + after) && b + found + a == b + (found + a);
    SameBracket(before, value + after, b, found + a);
    CompleteIsFirst(value, after, found, a);
  }

  lemma NotUnterminated(before: string, value: string, after: string, b: string, open: string)
    requires NoBracket(before) && Complete(value) && NoBracket(b) && open != "" && IsOpener(open[0])
    requires before + value + after == b + open
    ensures Scanned(open[0], FRESH, open).None?
  {
    assert before + value + after == before + (value + after);
    SameBracket(before, value + after, b, open);
    CompleteCloses(value);
    assert open == value + after;
    ScannedAppend(open[0], FRESH, value, after);
  }

  /** The scan finds a complete value after a text without brackets, and nothing else. */
  lemma FindsIt(before: string, value: string, after: string, r: Extracted)
    requires NoBracket(before) && Complete(value) && Finds(before + value + after, r)
    ensures r == LlmJson.Value(value)
  {
    var text := before + value + after;
    assert text[|before|] == value[0] && text[|before|] in text;
    if r.Value? {
      var b, a: string :| NoBracket(b) && text == b + r.text + a;
      FoundIsIt(before, value, after, r.text, b, a);
    } else if r.Unterminated? {
      var b, open: string :| NoBracket(b) && text == b + open && open != "" && IsOpener(open[0])
          && Scanned(open[0], FRESH, open).Some?;
      NotUnterminated(before, value, after, b, open);
    }
  }

  // ---------------------------------------------------------------------
  // Trimming
  // ---------------------------------------------------------------------

  lemma {:induction false} TrimLeftBefore(before: string, text: string)
    requires text != "" && !IsSpace(text[0])
    ensures TrimLeft(before + text) == TrimLeft(before) + text
    decreases |before|
  {
    if before == "" {
      assert before + text == text;
    } else if IsSpace(before[0]) {
      assert (before + text)[1..] == before[1..] + text;
      TrimLeftBefore(before[1..], text);
    }
  }

  lemma {:induction false} TrimRightAfter(text: string, after: string)
    requires text != "" && !IsSpace(text[|text| - 1])
    ensures TrimRight(text + after) == text + TrimRight(after)
    decreases |after|
  {
    if after == "" {
      assert text + after == text;
    } else if IsSpace(after[|after| - 1]) {
      assert (text + after)[..|text + after| - 1] == text + after[..|after| - 1];
      TrimRightAfter(text, after[..|after| - 1]);
    }
  }

  /** Trimming does not reach into a text that begins and ends with something else. */
  lemma TrimAround(before: string, text: string, after: string)
    requires text != "" && !IsSpace(text[0]) && !IsSpace(text[|text| - 1])
    ensures TrimSpace(before + text + after) == TrimLeft(before) + text + TrimRight(after)
  {
    assert before + text + after == before + (text + after);
    TrimLeftBefore(before, text + after);
    var x := TrimLeft(before) + text;
    assert TrimLeft(before) + (text + after) == x + after;
    TrimRightAfter(x, after);
  }

  lemma TrimmedIsPart(s: string)
    ensures exists l, m :: 0 <= l <= m <= |s| && TrimSpace(s) == s[l..m]
  {
    TrimLeftIsPart(s);
    var l :| 0 <= l <= |s| && TrimLeft(s) == s[l..];
    TrimRightIsPart(TrimLeft(s));
    var n :| 0 <= n <= |TrimLeft(s)| && TrimSpace(s) == TrimLeft(s)[..n];
    assert s[l..][..n] == s[l..l + n];
  }

  lemma {:induction false} TrimLeftIsPart(s: string)
    ensures exists l :: 0 <= l <= |s| && TrimLeft(s) == s[l..]
    ensures forall c | c in TrimLeft(s) :: c in s
    decreases |s|
  {
    if s != "" && IsSpace(s[0]) {
      TrimLeftIsPart(s[1..]);
      var l :| 0 <= l <= |s[1..]| && TrimLeft(s[1..]) == s[1..][l..];
      assert s[1..][l..] == s[l + 1..];
    } else {
      assert s == s[0..];
    }
  }

  lemma {:induction false} TrimRightIsPart(s: string)
    ensures exists n :: 0 <= n <= |s| && TrimRight(s) == s[..n]
    decreases |s|
  {
    if s != "" && IsSpace(s[|s| - 1]) {
      TrimRightIsPart(s[..|s| - 1]);
      var n :| 0 <= n <= |s| - 1 && TrimRight(s[..|s| - 1]) == s[..|s| - 1][..n];
      assert s[..|s| - 1][..n] == s[..n];
    } else {
      assert s == s[..|s|];
    }
  }

  lemma PrintIsSolid(v: Json)
    requires Container(v)
    ensures var text := Print(v);
            |text| >= 2 && IsOpener(text[0]) && !IsSpace(text[0]) && !IsSpace(text[|text| - 1])
            && text[0] != '`' && text[|text| - 1] != '`'
  {
  }

  // ---------------------------------------------------------------------
  // The theorems
  // ---------------------------------------------------------------------

  lemma NoFenceInFront(lead: string, text: string)
    requires text != "" && text[0] != '`' && !StartsWith(lead, FENCE)
    ensures !StartsWith(lead + text, FENCE)
  {
    if |lead| < 3 {
      assert (lead + text)[|lead|] == text[0];
    } else {
      assert (lead + text)[..3] == lead[..3];
    }
  }

  lemma LeadHasNoBracket(prefix: string)
    requires NoBracket(prefix)
    ensures NoBracket(TrimLeft(prefix))
  {
    TrimLeftIsPart(prefix);
  }

  /** Extraction inverts printing: a reply with an object or array anywhere in
      it, after a prefix with no bracket and no fence in front, and before
      anything at all, yields exactly that value's text. */
  lemma {:induction false} ExtractionInvertsPrinting(prefix: string, v: Json, suffix: string, r: Extracted)
    requires Container(v) && NoBracket(prefix) && !StartsWith(TrimLeft(prefix), FENCE)
    requires Extracts(prefix + Print(v) + suffix, r)
    ensures r == LlmJson.Value(Print(v))
  {
    PrintIsSolid(v);
    PrintIsComplete(v);
    TrimAround(prefix, Print(v), suffix);
    var lead, tail := TrimLeft(prefix), TrimRight(suffix);
    LeadHasNoBracket(prefix);
    NoFenceInFront(lead, Print(v) + tail);
    assert lead + Print(v) + tail == lead + (Print(v) + tail);
    var trimmed :| Unfences(TrimSpace(prefix + Print(v) + suffix), trimmed) && Finds(trimmed, r);
    assert trimmed == lead + Print(v) + tail;
    FindsIt(lead, Print(v), tail, r);
  }

  /** A reply that opens with a fence and, on the same line, perhaps a language. */
  ghost predicate OpensFence(opening: string) {
    exists lead: string, tag: string ::
      (forall c | c in lead :: IsSpace(c)) && '\n' !in tag && opening == lead + FENCE + tag + ['\n']
  }

  lemma {:induction false} AllSpaceTrims(lead: string)
    requires forall c | c in lead :: IsSpace(c)
    ensures TrimLeft(lead) == ""
    decreases |lead|
  {
    if lead != "" {
      assert lead[0] in lead;
      assert forall c | c in lead[1..] :: c in lead;
      AllSpaceTrims(lead[1..]);
    }
  }

  lemma SameLine(a: string, x: string, b: string, y: string)
    requires FirstLine(a + ['\n'] + x, a, x) && FirstLine(a + ['\n'] + x, b, y)
    ensures x == y
  {
    var text := a + ['\n'] + x;
    assert text[|a|] == '\n' == text[|b|];
    NoNewlineIn(a, ['\n'] + x);
    NoNewlineIn(b, ['\n'] + y);
    assert a + (['\n'] + x) == text == b + (['\n'] + y);
    assert |a| == |b|;
    assert x == text[|a| + 1..] && y == text[|b| + 1..];
  }

  lemma NoNewlineIn(a: string, x: string)
    requires '\n' !in a
    ensures forall i | 0 <= i < |a| :: (a + x)[i] != '\n'
  {
  }

  /** Trimming a fenced reply leaves it from the fence on. */
  lemma {:induction false} FencedTrims(lead: string, line: string, text: string, suffix: string)
    requires (forall c | c in lead :: IsSpace(c)) && StartsWith(line, FENCE) && text != "" && !IsSpace(text[|text| - 1])
    ensures TrimSpace(lead + line + ['\n'] + text + suffix) == line + ['\n'] + (text + TrimRight(suffix))
  {
    var inner := line + ['\n'] + text;
    assert lead + line + ['\n'] + text + suffix == lead + inner + suffix;
    assert inner[0] == line[..3][0] == '`';
    assert inner[|inner| - 1] == text[|text| - 1];
    TrimAround(lead, inner, suffix);
    AllSpaceTrims(lead);
    assert "" + inner + TrimRight(suffix) == line + ['\n'] + (text + TrimRight(suffix));
  }

  lemma LineUnfences(line: string, body: string, trimmed: string)
    requires StartsWith(line, FENCE) && '\n' !in line && Unfences(line + ['\n'] + body, trimmed)
    ensures exists kept :: UpToFence(body, kept) && trimmed == TrimSpace(kept)
  {
    var whole := line + ['\n'] + body;
    assert whole[..3] == line[..3];
    assert whole[|line|] == '\n' && '\n' in whole;
    var l, b, kept :| FirstLine(whole, l, b) && UpToFence(b, kept) && trimmed == TrimSpace(kept);
    SameLine(line, body, l, b);
  }

  /** The program looks for the last fence in what follows the first line. */
  lemma {:induction false} FencedUnfences(opening: string, text: string, suffix: string, trimmed: string)
    requires OpensFence(opening) && text != "" && !IsSpace(text[|text| - 1])
    requires Unfences(TrimSpace(opening + text + suffix), trimmed)
    ensures exists kept :: UpToFence(text + TrimRight(suffix), kept) && trimmed == TrimSpace(kept)
  {
    var lead, tag: string :| (forall c | c in lead :: IsSpace(c)) && '\n' !in tag && opening == lead + FENCE + tag + ['\n'];
    StillStartsWith(FENCE, tag);
    LineUnfencesAfter(lead, FENCE + tag, opening, text, suffix, trimmed);
  }

  lemma LineUnfencesAfter(lead: string, line: string, opening: string, text: string, suffix: string, trimmed: string)
    requires (forall c | c in lead :: IsSpace(c)) && '\n' !in line && StartsWith(line, FENCE)
    requires opening == lead + line + ['\n'] && text != "" && !IsSpace(text[|text| - 1])
    requires Unfences(TrimSpace(opening + text + suffix), trimmed)
    ensures exists kept :: UpToFence(text + TrimRight(suffix), kept) && trimmed == TrimSpace(kept)
  {
    FencedTrims(lead, line, text, suffix);
    LineUnfences(line, text + TrimRight(suffix), trimmed);
  }

  lemma FenceElsewhere(text: string, tail: string, i: int)
    requires text != "" && text[|text| - 1] != '`'
    ensures FenceAt(text + tail, i) <==> FenceAt(text, i) || FenceAt(tail, i - |text|)
  {
  }

  /** The value survives when the last fence, if there is any, comes after it. */
  lemma LateFence(prefix: string, v: Json, tail: string, kept: string, r: Extracted)
    requires Container(v) && NoBracket(prefix)
    requires HasFence(tail) || !HasFence(prefix + Print(v))
    requires UpToFence(prefix + Print(v) + tail, kept) && Finds(TrimSpace(kept), r)
    ensures r == LlmJson.Value(Print(v))
  {
    var text := prefix + Print(v);
    var body := text + tail;
    PrintIsSolid(v);
    PrintIsComplete(v);
    forall i ensures FenceAt(body, i) <==> FenceAt(text, i) || FenceAt(tail, i - |text|) { FenceElsewhere(text, tail, i); }
    if j :| FenceAt(tail, j) {
      assert FenceAt(body, j + |text|);
    }
    var rest := kept[|text|..];
    assert kept == prefix + Print(v) + rest;
    TrimAround(prefix, Print(v), rest);
    LeadHasNoBracket(prefix);
    FindsIt(TrimLeft(prefix), Print(v), TrimRight(rest), r);
  }

  /** The value is lost when the last fence is inside it or before it. */
  lemma EarlyFence(prefix: string, v: Json, tail: string, kept: string, r: Extracted)
    requires Container(v) && NoBracket(prefix)
    requires !HasFence(tail) && HasFence(prefix + Print(v))
    requires UpToFence(prefix + Print(v) + tail, kept) && Finds(TrimSpace(kept), r)
    ensures r != LlmJson.Value(Print(v))
  {
    var text := prefix + Print(v);
    var body := text + tail;
    PrintIsSolid(v);
    forall i ensures FenceAt(body, i) <==> FenceAt(text, i) || FenceAt(tail, i - |text|) { FenceElsewhere(text, tail, i); }
    var i :| FenceAt(text, i);
    assert FenceAt(body, i);
    var end :| FenceAt(body, end) && (forall i :: i > end ==> !FenceAt(body, i)) && kept == body[..end];
    assert FenceAt(text, end);
    assert kept == text[..end];
    CutValueIsNotFound(prefix, Print(v), end, r);
  }

  /** Wherever a value that follows the first bracket of a text is found, it reaches the end. */
  lemma ValueReachesEnd(prefix: string, value: string, l: nat, m: nat, b: string, a: string)
    requires NoBracket(prefix) && value != "" && IsOpener(value[0]) && l <= m <= |prefix + value|
    requires (prefix + value)[l..m] == b + value + a
    ensures m == |prefix + value|
  {
    var whole := prefix + value;
    NoBracketIn(prefix, value);
    assert whole[l + |b|] == whole[l..m][|b|] == value[0];
  }

  lemma PartOfPart(text: string, end: nat, l: nat, m: nat)
    requires l <= m <= end <= |text|
    ensures text[..end][l..m] == text[l..m]
  {
  }

  /** A text cut off before a value ends does not hold the value. */
  lemma CutValueIsNotFound(prefix: string, value: string, end: nat, r: Extracted)
    requires NoBracket(prefix) && value != "" && IsOpener(value[0]) && end < |prefix + value|
    requires Finds(TrimSpace((prefix + value)[..end]), r)
    ensures r != LlmJson.Value(value)
  {
    var whole := prefix + value;
    TrimmedIsPart(whole[..end]);
    var l, m :| 0 <= l <= m <= end && TrimSpace(whole[..end]) == whole[..end][l..m];
    PartOfPart(whole, end, l, m);
    if r == LlmJson.Value(value) {
      var b, a: string :| NoBracket(b) && whole[l..m] == b + value + a;
      ValueReachesEnd(prefix, value, l, m, b, a);
    }
  }

  lemma {:induction false} TrimKeepsFences(suffix: string)
    ensures HasFence(TrimRight(suffix)) <==> HasFence(suffix)
    decreases |suffix|
  {
    if suffix != "" && IsSpace(suffix[|suffix| - 1]) {
      var shorter := suffix[..|suffix| - 1];
      TrimKeepsFences(shorter);
      if i :| FenceAt(suffix, i) { assert FenceAt(shorter, i); }
      if i :| FenceAt(shorter, i) { assert FenceAt(suffix, i); }
    }
  }

  /** A reply in a fence that opens on a line of its own, with no bracket before
      the value: the value is read back if and only if a fence follows it, or
      none occurs in it or before it. */
  lemma FencedExtraction(opening: string, prefix: string, v: Json, suffix: string, r: Extracted)
    requires OpensFence(opening) && Container(v) && NoBracket(prefix)
    requires Extracts(opening + (prefix + Print(v)) + suffix, r)
    ensures r == LlmJson.Value(Print(v)) <==> HasFence(suffix) || !HasFence(prefix + Print(v))
  {
    var text := prefix + Print(v);
    var trimmed :| Unfences(TrimSpace(opening + text + suffix), trimmed) && Finds(trimmed, r);
    PrintIsSolid(v);
    FencedUnfences(opening, text, suffix, trimmed);
    var kept :| UpToFence(text + TrimRight(suffix), kept) && trimmed == TrimSpace(kept);
    TrimKeepsFences(suffix);
    if HasFence(suffix) || !HasFence(text) {
      LateFence(prefix, v, TrimRight(suffix), kept, r);
    } else {
      EarlyFence(prefix, v, TrimRight(suffix), kept, r);
    }
  }

  // ---------------------------------------------------------------------
  // A value on the line of the opening fence
  // ---------------------------------------------------------------------

  function Openers(text: string): nat
    decreases |text|
  {
    if text == "" then 0 else Openers(text[..|text| - 1]) + (if IsOpener(text[|text| - 1]) then 1 else 0)
  }

  lemma {:induction false} OpenersAppend(a: string, b: string)
    ensures Openers(a + b) == Openers(a) + Openers(b)
    decreases |b|
  {
    if b == "" {
      assert a + b == a;
    } else {
      var n := |b| - 1;
      assert (a + b)[..|a + b| - 1] == a + b[..n];
      OpenersAppend(a, b[..n]);
    }
  }

  lemma {:induction false} NoBracketMeansNoOpeners(text: string)
    requires NoBracket(text)
    ensures Openers(text) == 0
    decreases |text|
  {
    if text != "" {
      assert text[|text| - 1] in text;
      assert forall c | c in text[..|text| - 1] :: c in text;
      NoBracketMeansNoOpeners(text[..|text| - 1]);
    }
  }

  lemma OpenersOfPart(text: string, l: nat, m: nat)
    requires l <= m <= |text|
    ensures Openers(text[l..m]) <= Openers(text)
  {
    OpenersAppend(text[..l], text[l..m]);
    OpenersAppend(text[..l] + text[l..m], text[m..]);
    assert text == text[..l] + text[l..m] + text[m..];
  }

  /** What follows the first character of a value has fewer brackets than the value. */
  lemma FewerOpeners(value: string, tail: string, n: nat)
    requires value != "" && IsOpener(value[0]) && NoBracket(tail) && 0 < n <= |value + tail|
    ensures Openers((value + tail)[n..]) < Openers(value)
  {
    var text := value + tail;
    OpenersAppend(value, tail);
    NoBracketMeansNoOpeners(tail);
    OpenersAppend(text[..n], text[n..]);
    assert text[..n] + text[n..] == text;
    OpenersAppend(text[..1], text[1..n]);
    assert text[..1] + text[1..n] == text[..n] && text[..1] == [value[0]] && [value[0]][..0] == "";
    assert Openers([value[0]]) == Openers("") + 1;
  }

  lemma TooFewOpeners(text: string, value: string, r: Extracted)
    requires Finds(text, r) && Openers(text) < Openers(value)
    ensures r != LlmJson.Value(value)
  {
    if r == LlmJson.Value(value) {
      var before, after: string :| NoBracket(before) && text == before + value + after;
      OpenersAppend(before, value);
      OpenersAppend(before + value, after);
    }
  }

  /** Where the first line of a text ends, if it does not end in `head`. */
  lemma BodyComesLater(head: string, rest: string, line: string, body: string)
    requires '\n' !in head && FirstLine(head + rest, line, body)
    ensures |head| <= |line| < |head + rest| && body == rest[|line| + 1 - |head|..]
  {
    var text := head + rest;
    assert text[|line|] == '\n';
    NoNewlineIn(head, rest);
    assert body == text[|line| + 1..];
  }

  /** What is kept of a fenced reply has no brackets but those after its first line. */
  lemma KeptHasFewer(body: string, kept: string)
    requires UpToFence(body, kept)
    ensures Openers(TrimSpace(kept)) <= Openers(body)
  {
    var end :| 0 <= end <= |body| && kept == body[..end];
    TrimmedIsPart(kept);
    var l, m :| 0 <= l <= m <= |kept| && TrimSpace(kept) == kept[l..m];
    PartOfPart(body, end, l, m);
    OpenersOfPart(body, l, m);
  }

  lemma BodyHasFewer(head: string, value: string, tail: string, line: string, body: string)
    requires '\n' !in head && value != "" && IsOpener(value[0]) && NoBracket(tail)
    requires FirstLine(head + (value + tail), line, body)
    ensures Openers(body) < Openers(value)
  {
    BodyComesLater(head, value + tail, line, body);
    FewerOpeners(value, tail, |line| + 1 - |head|);
  }

  /** A fenced text whose first line reaches into the value loses the value. */
  lemma FirstLineTakesValue(head: string, value: string, tail: string, trimmed: string, r: Extracted)
    requires StartsWith(head, FENCE) && '\n' !in head && value != "" && IsOpener(value[0]) && NoBracket(tail)
    requires '\n' in value + tail
    requires Unfences(head + (value + tail), trimmed) && Finds(trimmed, r)
    ensures r != LlmJson.Value(value)
  {
    StillStartsWith(head, value + tail);
    var line, body, kept :| FirstLine(head + (value + tail), line, body) && UpToFence(body, kept) && trimmed == TrimSpace(kept);
    BodyHasFewer(head, value, tail, line, body);
    KeptHasFewer(body, kept);
    TooFewOpeners(trimmed, value, r);
  }

  lemma StillStartsWith(head: string, rest: string)
    requires StartsWith(head, FENCE)
    ensures StartsWith(head + rest, FENCE)
  {
    assert (head + rest)[..|FENCE|] == head[..|FENCE|];
  }

  /** Trimming a reply that opens with a fence and goes on with the value. */
  lemma {:induction false} SameLineTrims(lead: string, head: string, value: string, suffix: string)
    requires (forall c | c in lead :: IsSpace(c)) && StartsWith(head, FENCE) && value != "" && !IsSpace(value[|value| - 1])
    ensures TrimSpace(lead + (head + value) + suffix) == head + (value + TrimRight(suffix))
  {
    var inner := head + value;
    StillStartsWith(head, value);
    assert inner[0] == inner[..3][0] == '`' && inner[|inner| - 1] == value[|value| - 1];
    TrimAround(lead, inner, suffix);
    AllSpaceTrims(lead);
    assert "" + inner + TrimRight(suffix) == head + (value + TrimRight(suffix));
  }

  lemma SameLineFinds(head: string, value: string, tail: string, trimmed: string, r: Extracted)
    requires StartsWith(head, FENCE) && '\n' !in head && NoBracket(head) && Complete(value) && NoBracket(tail)
    requires Unfences(head + (value + tail), trimmed) && Finds(trimmed, r)
    ensures r == LlmJson.Value(value) <==> '\n' !in value + tail
  {
    if '\n' in value + tail {
      FirstLineTakesValue(head, value, tail, trimmed, r);
    } else {
      assert trimmed == head + value + tail;
      FindsIt(head, value, tail, r);
    }
  }

  lemma TaggedFence(tag: string)
    requires '\n' !in tag && NoBracket(tag)
    ensures StartsWith(FENCE + tag, FENCE) && '\n' !in FENCE + tag && NoBracket(FENCE + tag)
  {
    assert (FENCE + tag)[..3] == FENCE;
  }

  /** A value on the line of the opening fence, with no bracket before or after
      it: it is read back if and only if that is the reply's only line, the
      value's own lines included. Otherwise the line is dropped, as if all of
      it named a language. */
  lemma SameLineExtraction(lead: string, tag: string, v: Json, suffix: string, r: Extracted)
    requires (forall c | c in lead :: IsSpace(c)) && '\n' !in tag && NoBracket(tag) && Container(v) && NoBracket(suffix)
    requires Extracts(lead + ((FENCE + tag) + Print(v)) + suffix, r)
    ensures r == LlmJson.Value(Print(v)) <==> '\n' !in Print(v) + TrimRight(suffix)
  {
    var head, value, tail := FENCE + tag, Print(v), TrimRight(suffix);
    TaggedFence(tag);
    PrintIsSolid(v);
    PrintIsComplete(v);
    SameLineTrims(lead, head, value, suffix);
    TrimRightIsPart(suffix);
    var trimmed :| Unfences(head + (value + tail), trimmed) && Finds(trimmed, r);
    SameLineFinds(head, value, tail, trimmed, r);
  }

  lemma NothingBeforeFence(kept: string)
    requires UpToFence(FENCE, kept)
    ensures TrimSpace(kept) == ""
  {
    assert FenceAt(FENCE, 0);
  }

  /** A value on the line of the opening fence, with a closing fence below, is
      reported as no JSON. */
  lemma SameLineFenceLosesValue(v: Json, r: Extracted)
    requires Container(v) && '\n' !in Print(v)
    requires Extracts(FENCE + Print(v) + ['\n'] + FENCE, r)
    ensures r == NoJson
  {
    var line := FENCE + Print(v);
    var opening, reply := line + ['\n'], FENCE + Print(v) + ['\n'] + FENCE;
    assert "" + line + ['\n'] == opening && opening + FENCE + "" == reply;
    StillStartsWith(FENCE, Print(v));
    var trimmed :| Unfences(TrimSpace(reply), trimmed) && Finds(trimmed, r);
    LineUnfencesAfter("", line, opening, FENCE, "", trimmed);
    var kept :| UpToFence(FENCE + TrimRight(""), kept) && trimmed == TrimSpace(kept);
    assert FENCE + TrimRight("") == FENCE;
    NothingBeforeFence(kept);
  }
}

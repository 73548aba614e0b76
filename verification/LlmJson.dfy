/** Reading a JSON value out of a model's reply: internal/llmjson/llmjson.go.

  Replies are sequences of runes; the program scans bytes, but every byte it
  looks for is ASCII and occurs in UTF-8 only as itself.
  */
module LlmJson {
  import opened Lines
  import opened Optional

  const FENCE := "```"

  datatype Extracted = Value(text: string) | NoJson | Unterminated(text: string)

  // ---------------------------------------------------------------------
  // The scan
  // ---------------------------------------------------------------------

  predicate IsOpener(c: char) { c == '{' || c == '[' }

  function CloserOf(opener: char): char { if opener == '[' then ']' else '}' }

  /** Brackets of the other kind are not counted. */
  datatype Scan = Scan(depth: int, inString: bool, escaped: bool)

  function Step(opener: char, s: Scan, c: char): Scan {
    if s.inString then
      if s.escaped then s.(escaped := false)
      else if c == '\\' then s.(escaped := true)
      else if c == '"' then s.(inString := false)
      else s
    else if c == '"' then s.(inString := true)
    else if c == opener then s.(depth := s.depth + 1)
    else if c == CloserOf(opener) then s.(depth := s.depth - 1)
    else s
  }

  /** This character closes the value. */
  predicate Closes(opener: char, s: Scan, c: char) {
    !s.inString && c == CloserOf(opener) && s.depth == 1
  }

  /** The state after a text in which nothing closes the value. */
  function Scanned(opener: char, s: Scan, text: string): Option<Scan>
    decreases |text|
  {
    if text == "" then Some(s)
    else
      var n := |text| - 1;
      match Scanned(opener, s, text[..n])
      case None => None
      case Some(mid) => if Closes(opener, mid, text[n]) then None else Some(Step(opener, mid, text[n]))
  }

  const FRESH := Scan(0, false, false)

  lemma ScanNext(opener: char, text: string, k: nat)
    requires k < |text| && Scanned(opener, FRESH, text[..k]).Some?
    ensures var mid := Scanned(opener, FRESH, text[..k]).value;
            Scanned(opener, FRESH, text[..k + 1])
                == if Closes(opener, mid, text[k]) then None else Some(Step(opener, mid, text[k]))
    ensures text[..k + 1][..k] == text[..k]
  {
    assert text[..k + 1][..k] == text[..k];
  }

  /** The value a bracket opens: it ends where the bracket is first closed. */
  ghost predicate Complete(value: string) {
    && value != "" && IsOpener(value[0])
    && var n := |value| - 1;
       var mid := Scanned(value[0], FRESH, value[..n]);
       mid.Some? && Closes(value[0], mid.value, value[n])
  }

  ghost predicate NoBracket(text: string) {
    forall c | c in text :: !IsOpener(c)
  }

  /** What the scan finds in a text without a fence around it: the first
      bracket's value, or that there is no bracket, or that it is not closed. */
  ghost predicate Finds(text: string, r: Extracted) {
    match r
    case NoJson => NoBracket(text)
    case Value(value) =>
      Complete(value) && exists before: string, after: string :: NoBracket(before) && text == before + value + after
    case Unterminated(rest) =>
      rest == text && exists before: string, value: string ::
        NoBracket(before) && text == before + value && value != "" && IsOpener(value[0]) && Scanned(value[0], FRESH, value).Some?
  }

  method FirstBracket(text: string) returns (start: nat)
    ensures start <= |text| && NoBracket(text[..start])
    ensures start < |text| ==> IsOpener(text[start])
    ensures start == |text| ==> NoBracket(text)
  {
    start := 0;
    while start < |text| && !IsOpener(text[start])
      invariant start <= |text| && NoBracket(text[..start])
    {
      assert text[..start + 1] == text[..start] + [text[start]];
      start := start + 1;
    }
    assert text[..|text|] == text;
  }

  lemma ClosedHere(text: string, start: nat, i: nat)
    requires start <= i < |text| && NoBracket(text[..start]) && IsOpener(text[start])
    requires var mid := Scanned(text[start], FRESH, text[start..][..i - start]);
             mid.Some? && Closes(text[start], mid.value, text[i])
    ensures Finds(text, Value(text[start..i + 1]))
  {
    var found := text[start..i + 1];
    assert found[..|found| - 1] == text[start..][..i - start];
    assert text == text[..start] + found + text[i + 1..];
  }

  lemma NeverClosed(text: string, start: nat)
    requires start < |text| && NoBracket(text[..start]) && IsOpener(text[start])
    requires Scanned(text[start], FRESH, text[start..][..|text| - start]).Some?
    ensures Finds(text, Unterminated(text))
  {
    assert text[start..][..|text| - start] == text[start..];
    assert text == text[..start] + text[start..];
  }

  method ScanValue(trimmed: string) returns (r: Extracted)
    ensures Finds(trimmed, r)
  {
    if trimmed == "" { return NoJson; }
    var start := FirstBracket(trimmed);
    if start == |trimmed| { return NoJson; }
    var opener := trimmed[start];
    var closer := CloserOf(opener);
    var depth, inString, escaped := 0, false, false;
    ghost var value := trimmed[start..];
    var i := start;
    while i < |trimmed|
      invariant start <= i <= |trimmed|
      invariant Scanned(opener, FRESH, value[..i - start]) == Some(Scan(depth, inString, escaped))
    {
      var ch := trimmed[i];
      ghost var k: nat := i - start;
      ScanNext(opener, value, k);
      if inString {
        if escaped {
          escaped := false;
        } else if ch == '\\' {
          escaped := true;
        } else if ch == '"' {
          inString := false;
        }
      } else if ch == '"' {
        inString := true;
      } else if ch == opener {
        depth := depth + 1;
      } else if ch == closer {
        depth := depth - 1;
        if depth == 0 {
          ClosedHere(trimmed, start, i);
          return Value(trimmed[start..i + 1]);
        }
      }
      i := i + 1;
    }
    NeverClosed(trimmed, start);
    return Unterminated(trimmed);
  }

  // ---------------------------------------------------------------------
  // The fence
  // ---------------------------------------------------------------------

  predicate StartsWith(text: string, mark: string) {
    |mark| <= |text| && text[..|mark|] == mark
  }

  predicate FenceAt(text: string, i: int) {
    0 <= i && i + 3 <= |text| && text[i] == text[i + 1] == text[i + 2] == '`'
  }

  ghost predicate HasFence(text: string) {
    exists i :: FenceAt(text, i)
  }

  /** The last fence, or -1. */
  method LastFence(text: string) returns (at: int)
    ensures at == -1 || FenceAt(text, at)
    ensures forall i :: i > at ==> !FenceAt(text, i)
  {
    at := |text| - 3;
    while at >= 0 && !FenceAt(text, at)
      invariant at >= -3
      invariant forall i :: i > at ==> !FenceAt(text, i)
    {
      at := at - 1;
    }
    if at < 0 { at := -1; }
  }

  /** Everything before the last fence, or everything. */
  ghost predicate UpToFence(body: string, kept: string) {
    if HasFence(body) then exists end :: FenceAt(body, end) && (forall i :: i > end ==> !FenceAt(body, i)) && kept == body[..end]
    else kept == body
  }

  ghost predicate FirstLine(text: string, line: string, body: string) {
    text == line + ['\n'] + body && '\n' !in line
  }

  /** What is left of a reply once a fence around it is removed. */
  ghost predicate Unfences(text: string, rest: string) {
    if !StartsWith(text, FENCE) || '\n' !in text then rest == text
    else exists line, body, kept :: FirstLine(text, line, body) && UpToFence(body, kept) && rest == TrimSpace(kept)
  }

  lemma Unfenced(text: string, newline: nat, end: int, kept: string)
    requires StartsWith(text, FENCE) && newline < |text| && text[newline] == '\n' && '\n' !in text[..newline]
    requires var body := text[newline + 1..];
             && (end == -1 || FenceAt(body, end)) && (forall i :: i > end ==> !FenceAt(body, i))
             && kept == if end >= 0 then body[..end] else body
    ensures Unfences(text, TrimSpace(kept))
  {
    assert text[newline] in text;
    assert FirstLine(text, text[..newline], text[newline + 1..]);
    assert UpToFence(text[newline + 1..], kept);
  }

  method StripFence(text: string) returns (rest: string)
    ensures Unfences(text, rest)
  {
    if !StartsWith(text, FENCE) { return text; }
    var newline := 0;
    while newline < |text| && text[newline] != '\n'
      invariant newline <= |text| && '\n' !in text[..newline]
    {
      newline := newline + 1;
    }
    if newline == |text| {
      assert text[..newline] == text;
      return text;
    }
    var body := text[newline + 1..];
    var end := LastFence(body);
    var kept := if end >= 0 then body[..end] else body;
    Unfenced(text, newline, end, kept);
    rest := TrimSpace(kept);
  }

  /** What is found in a reply once it is trimmed and its fence removed. */
  ghost predicate Extracts(reply: string, r: Extracted) {
    exists trimmed :: Unfences(TrimSpace(reply), trimmed) && Finds(trimmed, r)
  }

  /** The reply is trimmed, its fence removed, and the rest scanned. */
  method Extract(text: string) returns (r: Extracted)
    ensures Extracts(text, r)
  {
    var trimmed := StripFence(TrimSpace(text));
    r := ScanValue(trimmed);
  }
}

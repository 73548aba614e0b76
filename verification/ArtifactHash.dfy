/** The artifact key: internal/artifact/hash.go.

  SHA-256 with hex output is a function `h` on byte strings. `IsDigest` is all
  that is assumed of it, and only where a lemma says so: no collisions, and
  output written in hex digits.
  */
module ArtifactHash {
  import opened Sorting

  /** The byte that delimits hashed components. */
  const SEPARATOR: char := '\U{1F}'

  const ID_PREFIX := "art_"
  const ID_LENGTH := 16

  /** The canonical JSON of a configuration subtree, or the failure to encode it. */
  datatype Config = Canonical(text: string) | Unencodable

  datatype KeyInputs = KeyInputs(
    stage: string,
    stageVersion: string,
    codeRevision: string,
    config: Config,
    fingerprint: map<string, string>,
    upstreamKeys: map<string, string>,
    sourceFingerprint: string)

  datatype Derived = Derived(key: string, inputHash: string, configHash: string)

  datatype DeriveResult = Keyed(derived: Derived) | NoCanonicalForm

  predicate IsHex(s: string) {
    forall c | c in s :: '0' <= c <= '9' || 'a' <= c <= 'f'
  }

  ghost predicate IsDigest(h: string -> string) {
    && (forall x, y :: h(x) == h(y) ==> x == y)
    && (forall x :: h(x) != "" && IsHex(h(x)))
  }

  /** What the separator relies on: it occurs in no component it follows. */
  ghost predicate WellFormed(inputs: KeyInputs) {
    && inputs.config.Canonical? && SEPARATOR !in inputs.config.text
    && SEPARATOR !in inputs.stage && SEPARATOR !in inputs.stageVersion && SEPARATOR !in inputs.codeRevision
    && (forall k | k in inputs.fingerprint ::
          SEPARATOR !in k && '=' !in k && SEPARATOR !in inputs.fingerprint[k])
    && (forall d | d in inputs.upstreamKeys :: SEPARATOR !in d && IsHex(inputs.upstreamKeys[d]))
  }

  // ---------------------------------------------------------------------
  // The bytes that are hashed
  // ---------------------------------------------------------------------

  /** `name join value separator` for each name in turn. */
  function Entries(names: seq<string>, join: char, m: map<string, string>): string
    requires forall n | n in names :: n in m
  {
    if names == [] then ""
    else names[0] + [join] + m[names[0]] + [SEPARATOR] + Entries(names[1..], join, m)
  }

  ghost function FingerprintBytes(fingerprint: map<string, string>): string {
    Entries(InOrder(fingerprint.Keys), '=', fingerprint)
  }

  ghost function ConfigBytes(inputs: KeyInputs): string
    requires inputs.config.Canonical?
  {
    inputs.config.text + [SEPARATOR] + (inputs.stage + [SEPARATOR] + (inputs.stageVersion + [SEPARATOR] +
    (inputs.codeRevision + [SEPARATOR] + FingerprintBytes(inputs.fingerprint))))
  }

  ghost function InputBytes(inputs: KeyInputs): string {
    Entries(InOrder(inputs.upstreamKeys.Keys), ':', inputs.upstreamKeys) + [SEPARATOR] + inputs.sourceFingerprint
  }

  /** The content address of a stage's output. */
  ghost function Key(h: string -> string, inputs: KeyInputs): string
    requires inputs.config.Canonical?
  {
    h(h(InputBytes(inputs)) + [SEPARATOR] + h(ConfigBytes(inputs)))
  }

  /** A fixed mark and the beginning of the key. */
  function IDForKey(key: string): (id: string)
    ensures "art_" <= id && id[4..] <= key && |id| == 4 + if |key| < 16 then |key| else 16
  {
    if |key| < ID_LENGTH then ID_PREFIX + key else ID_PREFIX + key[..ID_LENGTH]
  }

  // ---------------------------------------------------------------------
  // The code that writes them
  // ---------------------------------------------------------------------

  /** Collects a map's keys in whatever order iteration yields them, then sorts. */
  method SortedKeys(m: map<string, string>) returns (names: seq<string>)
    ensures names == InOrder(m.Keys)
  {
    names := [];
    var left := m.Keys;
    while left != {}
      invariant Distinct(names) && Elements(names) !! left && Elements(names) + left == m.Keys
      decreases left
    {
      var name :| name in left;
      assert name !in names by { assert name !in Elements(names); }
      assert Elements(names + [name]) == Elements(names) + {name};
      names := names + [name];
      left := left - {name};
    }
    assert Elements(names) == m.Keys;
    SortedEnumeration(names);
    names := Sort(Before, names);
  }

  method WriteEntries(names: seq<string>, join: char, m: map<string, string>) returns (written: string)
    requires forall n | n in names :: n in m
    ensures written == Entries(names, join, m)
  {
    written := "";
    for i := 0 to |names|
      invariant written + Entries(names[i..], join, m) == Entries(names, join, m)
    {
      assert names[i..][1..] == names[i + 1..];
      written := written + names[i] + [join] + m[names[i]] + [SEPARATOR];
    }
  }

  method FingerprintString(fingerprint: map<string, string>) returns (s: string)
    ensures s == FingerprintBytes(fingerprint)
  {
    if |fingerprint| == 0 {
      assert fingerprint.Keys == {};
      assert InOrder({}) == [] by {
        if InOrder({}) != [] { FirstIsLeast(Before, InOrder({})); }
      }
      return "";
    }
    var names := SortedKeys(fingerprint);
    s := WriteEntries(names, '=', fingerprint);
  }

  method DeriveInputHash(h: string -> string, inputs: KeyInputs) returns (digest: string)
    ensures digest == h(InputBytes(inputs))
  {
    var names := SortedKeys(inputs.upstreamKeys);
    var written := WriteEntries(names, ':', inputs.upstreamKeys);
    digest := h(written + [SEPARATOR] + inputs.sourceFingerprint);
  }

  method DeriveKey(h: string -> string, inputs: KeyInputs) returns (r: DeriveResult)
    ensures r == (if inputs.config.Unencodable? then NoCanonicalForm
                  else Keyed(Derived(Key(h, inputs), h(InputBytes(inputs)), h(ConfigBytes(inputs)))))
  {
    if inputs.config.Unencodable? { return NoCanonicalForm; }
    var fingerprint := FingerprintString(inputs.fingerprint);
    var written := inputs.config.text;
    written := written + ([SEPARATOR] + inputs.stage + [SEPARATOR] + inputs.stageVersion + [SEPARATOR]
                          + inputs.codeRevision + [SEPARATOR] + fingerprint);
    assert written == ConfigBytes(inputs);
    var configHash := h(written);
    var inputHash := DeriveInputHash(h, inputs);
    r := Keyed(Derived(h(inputHash + [SEPARATOR] + configHash), inputHash, configHash));
  }

  // ---------------------------------------------------------------------
  // Decoding: the bytes determine the components
  // ---------------------------------------------------------------------

  /** Text up to the first `c`, and what follows it, can be read back. */
  lemma SplitAtFirst(a: string, rest: string, b: string, rest': string, c: char)
    requires c !in a && c !in b
    requires a + [c] + rest == b + [c] + rest'
    ensures a == b && rest == rest'
  {
    var s := a + [c] + rest;
    assert s[|a|] == c && s[|b|] == c;
    assert s[..|a|] == a && s[..|b|] == b;
    assert forall i | 0 <= i < |a| :: s[i] == a[i] && s[i] != c;
    assert forall i | 0 <= i < |b| :: s[i] == b[i] && s[i] != c;
    assert |a| == |b|;
    assert s[|a| + 1..] == rest && s[|b| + 1..] == rest';
  }

  lemma SplitAtLast(a: string, rest: string, b: string, rest': string, c: char)
    requires c !in rest && c !in rest'
    requires a + [c] + rest == b + [c] + rest'
    ensures a == b && rest == rest'
  {
    var s := a + [c] + rest;
    assert s[|a|] == c && s[|b|] == c;
    assert s[|a| + 1..] == rest && s[|b| + 1..] == rest';
    assert forall i | |a| < i < |s| :: s[i] == rest[i - |a| - 1] && s[i] != c;
    assert forall i | |b| < i < |s| :: s[i] == rest'[i - |b| - 1] && s[i] != c;
    assert |a| == |b|;
    assert s[..|a|] == a && s[..|b|] == b;
  }

  /** A list of entries can be read back, provided what follows it cannot be
      mistaken for one more entry: it is empty or starts with the separator. */
  ghost predicate Stops(tail: string) { tail == "" || tail[0] == SEPARATOR }

  ghost predicate EntriesReadable(names: seq<string>, join: char, m: map<string, string>) {
    && join != SEPARATOR
    && (forall n | n in names :: n in m && SEPARATOR !in n && SEPARATOR !in m[n])
    && ((forall n | n in names :: join !in n) || (forall n | n in names :: join !in m[n]))
  }

  lemma {:induction false} EntriesDecode(names: seq<string>, m: map<string, string>, tail: string,
                                         names': seq<string>, m': map<string, string>, tail': string,
                                         join: char, joinInNames: bool)
    requires EntriesReadable(names, join, m) && EntriesReadable(names', join, m')
    requires joinInNames ==> (forall n | n in names :: join !in m[n]) && (forall n | n in names' :: join !in m'[n])
    requires !joinInNames ==> (forall n | n in names :: join !in n) && (forall n | n in names' :: join !in n)
    requires Stops(tail) && Stops(tail')
    requires Entries(names, join, m) + tail == Entries(names', join, m') + tail'
    ensures names == names' && tail == tail'
    ensures forall n | n in names :: m[n] == m'[n]
  {
    EntriesStart(names, join, m, tail);
    EntriesStart(names', join, m', tail');
    if names == [] {
      assert Entries(names, join, m) + tail == tail;
      assert Entries(names', join, m') + tail' == tail;
      assert names' == [];
      assert Entries(names', join, m') + tail' == tail';
    } else {
      assert names' != [] by { assert Entries([], join, m') + tail' == tail'; }
      var n, n' := names[0], names'[0];
      var line, line' := n + [join] + m[n], n' + [join] + m'[n'];
      var rest := Entries(names[1..], join, m) + tail;
      var rest' := Entries(names'[1..], join, m') + tail';
      assert Entries(names, join, m) + tail == line + [SEPARATOR] + rest;
      assert Entries(names', join, m') + tail' == line' + [SEPARATOR] + rest';
      SplitAtFirst(line, rest, line', rest', SEPARATOR);
      if joinInNames {
        SplitAtLast(n, m[n], n', m'[n'], join);
      } else {
        SplitAtFirst(n, m[n], n', m'[n'], join);
      }
      EntriesDecode(names[1..], m, tail, names'[1..], m', tail', join, joinInNames);
      assert names == [n] + names[1..] && names' == [n'] + names'[1..];
    }
  }

  lemma EntriesStart(names: seq<string>, join: char, m: map<string, string>, tail: string)
    requires EntriesReadable(names, join, m)
    ensures names != [] ==> !Stops(Entries(names, join, m) + tail)
  {
    if names != [] {
      var n := names[0];
      assert Entries(names, join, m) + tail
          == n + ([join] + m[n] + [SEPARATOR] + Entries(names[1..], join, m) + tail);
      assert n == "" || n[0] != SEPARATOR;
    }
  }

  lemma SameMap(m: map<string, string>, m': map<string, string>)
    requires InOrder(m.Keys) == InOrder(m'.Keys)
    requires forall n | n in InOrder(m.Keys) :: m[n] == m'[n]
    ensures m == m'
  {
    assert m.Keys == Elements(InOrder(m.Keys)) == m'.Keys;
    forall n | n in m ensures m[n] == m'[n] {
      assert n in Elements(InOrder(m.Keys));
    }
  }

  lemma OrderedNamesAreKeys(m: map<string, string>)
    ensures forall n | n in InOrder(m.Keys) :: n in m
  {
    forall n | n in InOrder(m.Keys) ensures n in m { assert n in Elements(InOrder(m.Keys)); }
  }

  /** The config bytes determine configuration, identity and fingerprint. */
  lemma ConfigBytesDecode(a: KeyInputs, b: KeyInputs)
    requires WellFormed(a) && WellFormed(b)
    requires ConfigBytes(a) == ConfigBytes(b)
    ensures a.config == b.config && a.stage == b.stage && a.stageVersion == b.stageVersion
    ensures a.codeRevision == b.codeRevision && a.fingerprint == b.fingerprint
  {
    var fa, fb := FingerprintBytes(a.fingerprint), FingerprintBytes(b.fingerprint);
    var ra, rb := a.codeRevision + [SEPARATOR] + fa, b.codeRevision + [SEPARATOR] + fb;
    var va, vb := a.stageVersion + [SEPARATOR] + ra, b.stageVersion + [SEPARATOR] + rb;
    SplitAtFirst(a.config.text, a.stage + [SEPARATOR] + va, b.config.text, b.stage + [SEPARATOR] + vb, SEPARATOR);
    SplitAtFirst(a.stage, va, b.stage, vb, SEPARATOR);
    SplitAtFirst(a.stageVersion, ra, b.stageVersion, rb, SEPARATOR);
    SplitAtFirst(a.codeRevision, fa, b.codeRevision, fb, SEPARATOR);
    OrderedNamesAreKeys(a.fingerprint);
    OrderedNamesAreKeys(b.fingerprint);
    assert fa + "" == fa && fb + "" == fb;
    EntriesDecode(InOrder(a.fingerprint.Keys), a.fingerprint, "",
                  InOrder(b.fingerprint.Keys), b.fingerprint, "", '=', false);
    SameMap(a.fingerprint, b.fingerprint);
  }

  /** The input bytes determine the upstream keys and the source. */
  lemma InputBytesDecode(a: KeyInputs, b: KeyInputs)
    requires WellFormed(a) && WellFormed(b)
    requires InputBytes(a) == InputBytes(b)
    ensures a.upstreamKeys == b.upstreamKeys && a.sourceFingerprint == b.sourceFingerprint
  {
    OrderedNamesAreKeys(a.upstreamKeys);
    OrderedNamesAreKeys(b.upstreamKeys);
    InputParts(a);
    InputParts(b);
    var ta, tb := [SEPARATOR] + a.sourceFingerprint, [SEPARATOR] + b.sourceFingerprint;
    var na, nb := InOrder(a.upstreamKeys.Keys), InOrder(b.upstreamKeys.Keys);
    EntriesDecode(na, a.upstreamKeys, ta, nb, b.upstreamKeys, tb, ':', true);
    assert ta[1..] == a.sourceFingerprint && tb[1..] == b.sourceFingerprint;
    SameMap(a.upstreamKeys, b.upstreamKeys);
  }

  lemma InputParts(a: KeyInputs)
    ensures InputBytes(a) == Entries(InOrder(a.upstreamKeys.Keys), ':', a.upstreamKeys) + ([SEPARATOR] + a.sourceFingerprint)
  {
  }

  /** Two well-formed inputs hash the same bytes iff every component is equal,
      maps compared as maps. */
  lemma BytesAreInjective(a: KeyInputs, b: KeyInputs)
    requires WellFormed(a) && WellFormed(b)
    ensures InputBytes(a) == InputBytes(b) && ConfigBytes(a) == ConfigBytes(b) <==> a == b
  {
    if InputBytes(a) == InputBytes(b) && ConfigBytes(a) == ConfigBytes(b) {
      ConfigBytesDecode(a, b);
      InputBytesDecode(a, b);
    }
  }

  /** With a collision-free digest, the key identifies the inputs. */
  lemma KeyIsInjective(h: string -> string, a: KeyInputs, b: KeyInputs)
    requires IsDigest(h) && WellFormed(a) && WellFormed(b)
    ensures Key(h, a) == Key(h, b) <==> a == b
  {
    BytesAreInjective(a, b);
    if Key(h, a) == Key(h, b) {
      BothDigestsAgree(h, InputBytes(a), ConfigBytes(a), InputBytes(b), ConfigBytes(b));
    }
  }

  lemma BothDigestsAgree(h: string -> string, ia: string, ca: string, ib: string, cb: string)
    requires IsDigest(h) && h(h(ia) + [SEPARATOR] + h(ca)) == h(h(ib) + [SEPARATOR] + h(cb))
    ensures ia == ib && ca == cb
  {
    assert IsHex(h(ia)) && IsHex(h(ib));
    SplitAtFirst(h(ia), h(ca), h(ib), h(cb), SEPARATOR);
  }

  /** The condition on fingerprint values is needed: a separator inside one
      makes two different fingerprints the same bytes. */
  lemma SeparatorInValueCollides(x: string)
    ensures var one := map["a" := "1" + [SEPARATOR] + "b=2"];
            var two := map["a" := "1", "b" := "2"];
            one != two && FingerprintBytes(one) == FingerprintBytes(two)
  {
    var one := map["a" := "1" + [SEPARATOR] + "b=2"];
    var two := map["a" := "1", "b" := "2"];
    BeforeOrders({"a", "b"});
    assert Before("a", "b");
    assert one.Keys == Elements(["a"]) == {"a"};
    AscendingIsUnique(Before, InOrder(one.Keys), ["a"]);
    assert Elements(["a", "b"]) == {"a", "b"} == two.Keys;
    AscendingIsUnique(Before, InOrder(two.Keys), ["a", "b"]);
    assert Entries(["a"], '=', one) == "a=1" + [SEPARATOR] + "b=2" + [SEPARATOR];
    assert Entries(["b"], '=', two) == "b=2" + [SEPARATOR];
    assert ["a", "b"][1..] == ["b"];
    assert Entries(["a", "b"], '=', two) == "a=1" + [SEPARATOR] + "b=2" + [SEPARATOR];
    assert "b" in two;
  }
}

/** What an artifact key stands for.

  A key hashes the keys of the artifacts a stage consumed, and each of those
  hashes the keys before it. Unfolded, a key is a tree. This module proves that
  the key determines the whole tree, so that a key has one meaning: what running
  every stage of the tree yields, as far as its keys say from which source.
  */
module KeyTrees {
  import opened ArtifactHash

  type Content = string

  /** Derives a key from well-formed inputs. `HashedKey(h)` is the one the program
      uses; the lemmas need no more of it than `IdentifiesInputs`. */
  type Keyer = KeyInputs -> string

  ghost function HashedKey(h: string -> string): Keyer {
    (inputs: KeyInputs) => if inputs.config.Canonical? then Key(h, inputs) else ""
  }

  ghost predicate IdentifiesInputs(key: Keyer) {
    && (forall a, b {:trigger WellFormed(a), WellFormed(b)} |
          WellFormed(a) && WellFormed(b) && key(a) == key(b) :: a == b)
    && (forall a {:trigger WellFormed(a)} | WellFormed(a) :: key(a) != "" && IsHex(key(a)))
  }

  /** What the pipeline needs of a key holds of the hashed key. */
  lemma HashedKeyIdentifiesInputs(h: string -> string)
    requires IsDigest(h)
    ensures IdentifiesInputs(HashedKey(h))
  {
    var key := HashedKey(h);
    forall a, b | WellFormed(a) && WellFormed(b) && key(a) == key(b) ensures a == b {
      KeyIsInjective(h, a, b);
    }
  }

  /** Everything but the inputs that determines what a stage computes. */
  datatype Recipe = Recipe(stage: string, version: string, revision: string, config: string,
                           fingerprint: map<string, string>)

  datatype KeyTree = KeyTree(recipe: Recipe, upstream: map<string, KeyTree>, source: string)

  /** What a stage computes from its recipe, the contents it reads and the source media. */
  type Semantics = (Recipe, map<string, Content>, string) -> Content

  ghost predicate GoodRecipe(r: Recipe) {
    && SEPARATOR !in r.stage && SEPARATOR !in r.version && SEPARATOR !in r.revision
    && SEPARATOR !in r.config
    && (forall k | k in r.fingerprint :: SEPARATOR !in k && '=' !in k && SEPARATOR !in r.fingerprint[k])
  }

  ghost predicate GoodTree(t: KeyTree)
    decreases t, 1
  {
    && GoodRecipe(t.recipe)
    && GoodUpstream(t)
  }

  ghost predicate GoodUpstream(t: KeyTree)
    decreases t, 0
  {
    forall d | d in t.upstream :: SEPARATOR !in d && GoodTree(t.upstream[d])
  }

  /** The key of a tree: its root hashed over the keys of its subtrees. */
  ghost function Digest(key: Keyer, t: KeyTree): string
    decreases t, 1
  {
    key(InputsFor(t.recipe, UpstreamDigests(key, t), t.source))
  }

  ghost function UpstreamDigests(key: Keyer, t: KeyTree): map<string, string>
    decreases t, 0
  {
    map d | d in t.upstream :: Digest(key, t.upstream[d])
  }

  function InputsFor(r: Recipe, upstreamKeys: map<string, string>, source: string): KeyInputs {
    KeyInputs(r.stage, r.version, r.revision, Canonical(r.config), r.fingerprint, upstreamKeys, source)
  }

  /** `c` is a payload the key tree defines: what its stage computes from
      payloads of the subtrees and the source in the key. A key without a
      source does not say which one: any of `sources`, those the store was
      ever used with. */
  ghost predicate Derives(sem: Semantics, sources: set<string>, t: KeyTree, c: Content)
    decreases t, 1
  {
    exists read: map<string, Content>, source: string ::
      DerivesAll(sem, sources, t, read) && KeyAllows(sources, t, source) && c == sem(t.recipe, read, source)
  }

  ghost predicate KeyAllows(sources: set<string>, t: KeyTree, source: string) {
    if t.source == "" then source in sources else source == t.source
  }

  ghost predicate DerivesAll(sem: Semantics, sources: set<string>, t: KeyTree, read: map<string, Content>)
    decreases t, 0
  {
    read.Keys == t.upstream.Keys && forall d | d in t.upstream :: Derives(sem, sources, t.upstream[d], read[d])
  }

  /** The payload a key tree defines when every stage whose key leaves the
      source out sees `blind`. */
  ghost function Payload(sem: Semantics, blind: string, t: KeyTree): Content
    decreases t, 1
  {
    sem(t.recipe, UpstreamPayloads(sem, blind, t), if t.source == "" then blind else t.source)
  }

  ghost function UpstreamPayloads(sem: Semantics, blind: string, t: KeyTree): map<string, Content>
    decreases t, 0
  {
    map d | d in t.upstream :: Payload(sem, blind, t.upstream[d])
  }

  /** No stage of the tree whose key leaves the source out can tell the
      sources apart. */
  ghost predicate Unambiguous(sem: Semantics, blind: string, sources: set<string>, t: KeyTree)
    decreases t, 1
  {
    && (t.source == "" ==> forall read: map<string, Content>, source | source in sources ::
          sem(t.recipe, read, source) == sem(t.recipe, read, blind))
    && UnambiguousUpstream(sem, blind, sources, t)
  }

  ghost predicate UnambiguousUpstream(sem: Semantics, blind: string, sources: set<string>, t: KeyTree)
    decreases t, 0
  {
    forall d | d in t.upstream :: Unambiguous(sem, blind, sources, t.upstream[d])
  }

  /** In a store only ever used with one source, every tree is unambiguous. */
  lemma {:induction false} OneSourceIsUnambiguous(sem: Semantics, blind: string, t: KeyTree)
    ensures Unambiguous(sem, blind, {blind}, t)
    decreases t
  {
    forall d | d in t.upstream ensures Unambiguous(sem, blind, {blind}, t.upstream[d]) {
      OneSourceIsUnambiguous(sem, blind, t.upstream[d]);
    }
  }

  /** Of an unambiguous tree, exactly one payload can be derived. */
  lemma {:induction false} DerivesOnlyPayload(sem: Semantics, blind: string, sources: set<string>, t: KeyTree, c: Content)
    requires Unambiguous(sem, blind, sources, t)
    ensures Derives(sem, sources, t, c) ==> c == Payload(sem, blind, t)
    ensures blind in sources && c == Payload(sem, blind, t) ==> Derives(sem, sources, t, c)
    decreases t, 1
  {
    if Derives(sem, sources, t, c) {
      var read, source :| DerivesAll(sem, sources, t, read) && KeyAllows(sources, t, source) && c == sem(t.recipe, read, source);
      DerivesOnlyPayloads(sem, blind, sources, t, read);
    }
    DerivesOnlyPayloads(sem, blind, sources, t, UpstreamPayloads(sem, blind, t));
    if blind in sources {
      assert KeyAllows(sources, t, if t.source == "" then blind else t.source);
    }
  }

  lemma {:induction false} DerivesOnlyPayloads(sem: Semantics, blind: string, sources: set<string>, t: KeyTree,
                                               read: map<string, Content>)
    requires UnambiguousUpstream(sem, blind, sources, t)
    ensures DerivesAll(sem, sources, t, read) ==> read == UpstreamPayloads(sem, blind, t)
    ensures blind in sources && read == UpstreamPayloads(sem, blind, t) ==> DerivesAll(sem, sources, t, read)
    decreases t, 0
  {
    forall d | d in t.upstream && d in read
      ensures Derives(sem, sources, t.upstream[d], read[d]) ==> read[d] == Payload(sem, blind, t.upstream[d])
      ensures blind in sources && read[d] == Payload(sem, blind, t.upstream[d]) ==> Derives(sem, sources, t.upstream[d], read[d])
    {
      DerivesOnlyPayload(sem, blind, sources, t.upstream[d], read[d]);
    }
  }

  lemma {:induction false} GoodTreesHashGoodInputs(key: Keyer, t: KeyTree)
    requires IdentifiesInputs(key) && GoodTree(t)
    ensures WellFormed(InputsFor(t.recipe, UpstreamDigests(key, t), t.source))
    ensures IsHex(Digest(key, t)) && Digest(key, t) != ""
    decreases t
  {
    var up := UpstreamDigests(key, t);
    forall d | d in up ensures SEPARATOR !in d && IsHex(up[d]) {
      GoodTreesHashGoodInputs(key, t.upstream[d]);
    }
    assert WellFormed(InputsFor(t.recipe, up, t.source));
  }

  lemma DigestDeterminesRoot(key: Keyer, s: KeyTree, t: KeyTree)
    requires IdentifiesInputs(key) && GoodTree(s) && GoodTree(t) && Digest(key, s) == Digest(key, t)
    ensures s.recipe == t.recipe && s.source == t.source && s.upstream.Keys == t.upstream.Keys
    ensures forall d | d in s.upstream :: Digest(key, s.upstream[d]) == Digest(key, t.upstream[d])
  {
    var us, ut := UpstreamDigests(key, s), UpstreamDigests(key, t);
    GoodTreesHashGoodInputs(key, s);
    GoodTreesHashGoodInputs(key, t);
    assert InputsFor(s.recipe, us, s.source) == InputsFor(t.recipe, ut, t.source);
    assert s.upstream.Keys == us.Keys == ut.Keys == t.upstream.Keys;
    forall d | d in s.upstream ensures Digest(key, s.upstream[d]) == Digest(key, t.upstream[d]) {
      assert us[d] == ut[d];
    }
  }

  /** A key determines the tree it was derived from, all the way down. */
  lemma {:induction false} DigestIsInjective(key: Keyer, s: KeyTree, t: KeyTree)
    requires IdentifiesInputs(key) && GoodTree(s) && GoodTree(t) && Digest(key, s) == Digest(key, t)
    ensures s == t
    decreases s
  {
    DigestDeterminesRoot(key, s, t);
    forall d | d in s.upstream ensures s.upstream[d] == t.upstream[d] {
      DigestIsInjective(key, s.upstream[d], t.upstream[d]);
    }
    assert s.upstream == t.upstream;
  }
}

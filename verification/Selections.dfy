/** Which stages a run covers, told by the options and the registry. */
module Selections {
  import opened Planning
  import opened Planner

  /** The stage is one the options ask for: named, when stages are named, and
      otherwise between the two ends of the range and not disabled. */
  ghost predicate Wanted(opts: Options, j: nat)
    requires j < |opts.registry|
  {
    var all := opts.registry;
    if opts.only != [] then all[j].name in opts.only
    else
      && all[j].name !in opts.disabled
      && (opts.fromStage == "" || NamedUpTo(all, j, opts.fromStage))
      && (opts.toStage == "" || NamedFrom(all, j, opts.toStage))
  }

  ghost predicate NamedUpTo(all: seq<Stage>, j: nat, name: string)
    requires j < |all|
  {
    exists f | 0 <= f <= j :: all[f].name == name
  }

  ghost predicate NamedFrom(all: seq<Stage>, j: nat, name: string)
    requires j < |all|
  {
    exists t | j <= t < |all| :: all[t].name == name
  }

  ghost predicate Named(all: seq<Stage>, name: string) {
    exists j | 0 <= j < |all| :: all[j].name == name
  }

  ghost predicate NamedOptional(all: seq<Stage>, name: string) {
    exists j | 0 <= j < |all| :: all[j].name == name && all[j].optional
  }

  /** Why nothing can be planned. */
  ghost predicate Explains(opts: Options, e: PlanError) {
    var all := opts.registry;
    match e
    case NoSuchStage(name) =>
      !Named(all, name) && (name in opts.disabled || name in opts.only || name == opts.fromStage != "" || name == opts.toStage != "")
    case NotOptional(name) => name in opts.disabled && Named(all, name) && !NamedOptional(all, name)
    case BackwardsRange =>
      all == [] || exists t, f | 0 <= t < f < |all| :: all[f].name == opts.fromStage && all[t].name == opts.toStage
    case EmptyRange => opts.only == [] && forall j | 0 <= j < |all| :: !Wanted(opts, j)
    case _ => false
  }

  lemma OrdinalMeans(all: seq<Stage>, name: string)
    requires DistinctNames(all)
    ensures OrdinalOf(all, name) == 0 <==> !Named(all, name)
    ensures forall j | 0 <= j < |all| && all[j].name == name :: OrdinalOf(all, name) == j + 1
  {
    if j :| 0 <= j < |all| && all[j].name == name { assert all[j] in all; }
    if s :| s in all && s.name == name { var j :| 0 <= j < |all| && all[j] == s; }
  }

  lemma OrdinalBounds(all: seq<Stage>, name: string, j: nat)
    requires DistinctNames(all) && j < |all|
    ensures NamedUpTo(all, j, name) <==> 0 < OrdinalOf(all, name) <= j + 1
    ensures OrdinalOf(all, name) > 0 ==> (NamedFrom(all, j, name) <==> j + 1 <= OrdinalOf(all, name))
  {
    OrdinalMeans(all, name);
    var o := OrdinalOf(all, name);
    if o > 0 { assert all[o - 1].name == name; }
  }

  lemma WantedIsInRange(opts: Options, j: nat)
    requires ValidRegistry(opts.registry) && j < |opts.registry| && opts.only == []
    requires opts.fromStage != "" ==> From(opts) > 0
    requires opts.toStage != "" ==> To(opts) > 0
    ensures Wanted(opts, j) <==> InRange(opts)(opts.registry[j], j + 1)
  {
    OrdinalBounds(opts.registry, opts.fromStage, j);
    OrdinalBounds(opts.registry, opts.toStage, j);
    var s := opts.registry[j];
    assert InRange(opts)(s, j + 1) <==> s.name !in opts.disabled && From(opts) <= j + 1 <= To(opts);
    assert From(opts) <= j + 1 <==> opts.fromStage == "" || NamedUpTo(opts.registry, j, opts.fromStage);
    assert j + 1 <= To(opts) <==> opts.toStage == "" || NamedFrom(opts.registry, j, opts.toStage);
  }

  lemma ChosenAreWanted(all: seq<Stage>, want: (Stage, nat) -> bool, j: nat)
    requires j < |all|
    ensures Selected(all[j], j + 1) in Chosen(all, |all|, want) <==> want(all[j], j + 1)
  {
    ChosenAre(all, |all|, want);
  }

  /** A selection is exactly what is wanted. */
  lemma SelectionMeans(opts: Options, j: nat)
    requires ValidRegistry(opts.registry) && Selection(opts).Ok? && j < |opts.registry|
    ensures Selected(opts.registry[j], j + 1) in Selection(opts).value <==> Wanted(opts, j)
  {
    if opts.only != [] {
      ChosenAreWanted(opts.registry, Listed(opts), j);
    } else {
      ChosenAreWanted(opts.registry, InRange(opts), j);
      WantedIsInRange(opts, j);
    }
  }

  lemma OptionalMeans(all: seq<Stage>, name: string)
    requires DistinctNames(all)
    ensures OrdinalOf(all, name) == 0 <==> !Named(all, name)
    ensures NamedOptional(all, name) <==> OrdinalOf(all, name) > 0 && all[OrdinalOf(all, name) - 1].optional
  {
    OrdinalMeans(all, name);
  }

  lemma {:induction false} DisabledMeans(all: seq<Stage>, names: seq<string>)
    requires DistinctNames(all)
    ensures DisabledProblem(all, names).None? <==> forall name | name in names :: NamedOptional(all, name)
    ensures match DisabledProblem(all, names)
            case None => true
            case Some(NoSuchStage(name)) => name in names && !Named(all, name)
            case Some(NotOptional(name)) => name in names && Named(all, name) && !NamedOptional(all, name)
            case Some(_) => false
  {
    if names != [] {
      OptionalMeans(all, names[0]);
      DisabledMeans(all, names[1..]);
      assert names == [names[0]] + names[1..];
    }
  }

  lemma {:induction false} UnknownMeans(all: seq<Stage>, names: seq<string>)
    ensures FirstUnknown(all, names).None? <==> forall name | name in names :: Named(all, name)
    ensures FirstUnknown(all, names).Some? ==> FirstUnknown(all, names).value in names && !Named(all, FirstUnknown(all, names).value)
  {
    if names != [] {
      assert Named(all, names[0]) <==> Registered(all, names[0]) by {
        if s :| s in all && s.name == names[0] { var j :| 0 <= j < |all| && all[j] == s; }
        if j :| 0 <= j < |all| && all[j].name == names[0] { assert all[j] in all; }
      }
      UnknownMeans(all, names[1..]);
      assert names == [names[0]] + names[1..];
    }
  }

  /** Both ends of the range, where given, are known. */
  ghost predicate EndsKnown(opts: Options) {
    (opts.fromStage != "" ==> Named(opts.registry, opts.fromStage)) && (opts.toStage != "" ==> Named(opts.registry, opts.toStage))
  }

  lemma EndsMean(opts: Options)
    requires ValidRegistry(opts.registry)
    ensures opts.fromStage != "" ==> (From(opts) == 0 <==> !Named(opts.registry, opts.fromStage))
    ensures opts.toStage != "" ==> (To(opts) == 0 <==> !Named(opts.registry, opts.toStage))
  {
    OrdinalMeans(opts.registry, opts.fromStage);
    OrdinalMeans(opts.registry, opts.toStage);
  }

  /** Between known ends, the range selects something iff something is wanted. */
  lemma SomethingWanted(opts: Options)
    requires ValidRegistry(opts.registry) && opts.only == [] && EndsKnown(opts)
    ensures Chosen(opts.registry, |opts.registry|, InRange(opts)) != [] <==>
              exists j | 0 <= j < |opts.registry| :: Wanted(opts, j)
  {
    var all := opts.registry;
    EndsMean(opts);
    var chosen := Chosen(all, |all|, InRange(opts));
    forall j | 0 <= j < |all| ensures Wanted(opts, j) <==> Selected(all[j], j + 1) in chosen {
      WantedIsInRange(opts, j);
      ChosenAreWanted(all, InRange(opts), j);
    }
    if chosen != [] {
      var first := chosen[0];
      assert first == Selected(all[first.ordinal - 1], first.ordinal);
      assert Wanted(opts, first.ordinal - 1);
    }
  }

  lemma {:induction false} NoneChosen(all: seq<Stage>, n: nat, want: (Stage, nat) -> bool)
    requires n <= |all| && forall s, o :: !want(s, o)
    ensures Chosen(all, n, want) == []
  {
    if n > 0 { NoneChosen(all, n - 1, want); }
  }

  lemma BackwardsMeans(opts: Options)
    requires ValidRegistry(opts.registry) && opts.only == [] && EndsKnown(opts) && From(opts) > To(opts)
    ensures Explains(opts, BackwardsRange) && Chosen(opts.registry, |opts.registry|, InRange(opts)) == []
  {
    var all := opts.registry;
    EndsMean(opts);
    if all != [] {
      assert opts.fromStage != "" && opts.toStage != "";
      assert all[From(opts) - 1].name == opts.fromStage && all[To(opts) - 1].name == opts.toStage;
    }
    NoneChosen(all, |all|, InRange(opts));
  }

  lemma RangeMeans(opts: Options)
    requires ValidRegistry(opts.registry) && opts.only == [] && DisabledProblem(opts.registry, opts.disabled).None?
    ensures Selection(opts).Error? ==> Explains(opts, Selection(opts).error)
    ensures Selection(opts).Ok? <==> EndsKnown(opts) && exists j | 0 <= j < |opts.registry| :: Wanted(opts, j)
  {
    EndsMean(opts);
    if EndsKnown(opts) {
      SomethingWanted(opts);
      if From(opts) > To(opts) { BackwardsMeans(opts); }
    }
  }

  /** Stages can be selected iff every disabled one is known and optional, every
      one named is known, and a range has two known ends and wants some stage.
      Otherwise the error is one that explains it. */
  lemma SelectionSucceedsIff(opts: Options)
    requires ValidRegistry(opts.registry)
    ensures var all := opts.registry;
            Selection(opts).Ok? <==>
              && (forall name | name in opts.disabled :: NamedOptional(all, name))
              && if opts.only != [] then forall name | name in opts.only :: Named(all, name)
                 else EndsKnown(opts) && exists j | 0 <= j < |all| :: Wanted(opts, j)
    ensures Selection(opts).Error? ==> Explains(opts, Selection(opts).error)
  {
    DisabledMeans(opts.registry, opts.disabled);
    UnknownMeans(opts.registry, opts.only);
    if opts.only == [] && DisabledProblem(opts.registry, opts.disabled).None? { RangeMeans(opts); }
  }
}

/** What GC prunes and what it keeps. */
module Retention {
  import opened Sorting
  import opened ArtifactStore
  import opened Optional
  import opened StoreSafety

  ghost function PlacesSet(d: Disk, keys: set<string>): set<Place>
    requires keys <= d.rows.Keys
  {
    set k | k in keys :: (d.rows[k].stage, d.rows[k].id)
  }

  ghost function Without(d: Disk, keys: set<string>): Disk
    requires keys <= d.rows.Keys
  {
    d.(rows := d.rows - keys, dirs := d.dirs - PlacesSet(d, keys))
  }

  /** Pruning removes exactly the listed rows and their directories. */
  lemma {:induction false} AfterPrune(d: Disk, keys: seq<string>)
    requires UniqueIds(d)
    requires (forall k | k in keys :: k in d.rows) && Distinct(keys)
    ensures Elements(keys) <= d.rows.Keys
    ensures Exec(d, PruneSteps(PlacesOf(d, keys))) == Without(d, Elements(keys))
    decreases |keys|
  {
    if keys == [] {
      assert d.rows - Elements(keys) == d.rows && d.dirs - PlacesSet(d, Elements(keys)) == d.dirs;
    } else {
      var n := |keys| - 1;
      assert forall x | x in keys[..n] :: x in keys;
      AfterPrune(d, keys[..n]);
      LastPruned(d, keys);
      ExecAppend(d, PruneSteps(PlacesOf(d, keys[..n])), PruneRow(d, keys[n]));
      LastElement(keys);
      PruneOne(d, Elements(keys[..n]), keys[n]);
    }
  }

  /** A row is deleted before its directory. */
  function PruneRow(d: Disk, k: string): seq<Step>
    requires k in d.rows
  {
    [DeleteRow(d.rows[k].id), DropDir((d.rows[k].stage, d.rows[k].id))]
  }

  lemma LastPruned(d: Disk, keys: seq<string>)
    requires keys != [] && forall k | k in keys :: k in d.rows
    ensures forall k | k in keys[..|keys| - 1] :: k in d.rows
    ensures PruneSteps(PlacesOf(d, keys)) == PruneSteps(PlacesOf(d, keys[..|keys| - 1])) + PruneRow(d, keys[|keys| - 1])
  {
    var n := |keys| - 1;
    forall k | k in keys[..n] ensures k in keys {}
    assert PlacesOf(d, keys)[..n] == PlacesOf(d, keys[..n]);
  }

  lemma LastElement(keys: seq<string>)
    requires keys != [] && Distinct(keys)
    ensures Elements(keys) == Elements(keys[..|keys| - 1]) + {keys[|keys| - 1]}
    ensures keys[|keys| - 1] !in Elements(keys[..|keys| - 1])
  {
    var n := |keys| - 1;
    assert keys == keys[..n] + [keys[n]];
  }

  lemma PruneOne(d: Disk, gone: set<string>, k: string)
    requires UniqueIds(d) && gone <= d.rows.Keys
    requires k in d.rows && k !in gone
    ensures Exec(Without(d, gone), PruneRow(d, k)) == Without(d, gone + {k})
  {
    var place := (d.rows[k].stage, d.rows[k].id);
    TwoSteps(Without(d, gone), DeleteRow(place.1), DropDir(place));
    RowDeleted(d, gone, k);
    assert PlacesSet(d, gone + {k}) == PlacesSet(d, gone) + {place};
  }

  lemma PrunedRows(d: Disk, stage: string, retention: int)
    requires UniqueIds(d)
    ensures Distinct(Pruned(d, stage, retention))
    ensures Elements(Pruned(d, stage, retention)) <= StageKeys(d, stage) <= d.rows.Keys
  {
    var found := ByAge(d, stage);
    NewerOrders(d, StageKeys(d, stage));
    forall i, j | 0 <= i < j < |found| ensures found[i] != found[j] {
      assert Newer(d)(found[i], found[j]);
    }
  }

  lemma AfterGC(d: Disk, stage: string, retention: int)
    requires UniqueIds(d)
    ensures Elements(Pruned(d, stage, retention)) <= d.rows.Keys
    ensures Exec(d, GCSteps(d, stage, retention)) == Without(d, Elements(Pruned(d, stage, retention)))
  {
    PrunedRows(d, stage, retention);
    AfterPrune(d, Pruned(d, stage, retention));
  }

  /** A store part-way through pruning `keys`: so many rows and directories are gone. */
  ghost function PartlyPruned(d: Disk, keys: seq<string>, rows: nat, dirs: nat): Disk
    requires (forall k | k in keys :: k in d.rows) && rows <= |keys| && dirs <= |keys|
  {
    FirstOnes(d, keys, dirs);
    Without(d, Elements(keys[..dirs])).(rows := d.rows - Elements(keys[..rows]))
  }

  lemma FirstOnes(d: Disk, keys: seq<string>, j: nat)
    requires (forall k | k in keys :: k in d.rows) && j <= |keys|
    ensures (forall k | k in keys[..j] :: k in d.rows) && Elements(keys[..j]) <= d.rows.Keys
    ensures PlacesOf(d, keys)[..j] == PlacesOf(d, keys[..j])
  {
    forall k | k in keys[..j] ensures k in keys {}
  }

  lemma RowDeleted(d: Disk, gone: set<string>, k: string)
    requires UniqueIds(d) && gone <= d.rows.Keys && k in d.rows
    ensures Do(Without(d, gone), DeleteRow(d.rows[k].id)) == Without(d, gone).(rows := d.rows - (gone + {k}))
  {
    assert Do(Without(d, gone), DeleteRow(d.rows[k].id)).rows == d.rows - (gone + {k});
  }

  lemma NextElement(keys: seq<string>, j: nat)
    requires j < |keys|
    ensures Elements(keys[..j + 1]) == Elements(keys[..j]) + {keys[j]}
  {
    assert keys[..j + 1] == keys[..j] + [keys[j]];
  }

  /** Each row goes before its directory, one after the other. */
  lemma PrunedSoFar(d: Disk, keys: seq<string>, steps: seq<Step>, j: nat)
    requires UniqueIds(d) && (forall k | k in keys :: k in d.rows) && Distinct(keys) && j <= |keys|
    requires steps == PruneSteps(PlacesOf(d, keys))
    ensures |steps| == 2 * |keys|
    ensures Exec(d, steps[..2 * j]) == PartlyPruned(d, keys, j, j)
    ensures j < |keys| ==> Exec(d, steps[..2 * j + 1]) == PartlyPruned(d, keys, j + 1, j)
  {
    PruneStepsPrefix(PlacesOf(d, keys), j);
    PruneStepsArePairs(PlacesOf(d, keys));
    FirstOnes(d, keys, j);
    AfterPrune(d, keys[..j]);
    if j < |keys| {
      OneMoreStep(d, steps, 2 * j);
      RowDeleted(d, Elements(keys[..j]), keys[j]);
      NextElement(keys, j);
    }
  }

  lemma StoppedPrune(d: Disk, keys: seq<string>, steps: seq<Step>, n: nat, rows: nat, dirs: nat)
    requires UniqueIds(d) && (forall k | k in keys :: k in d.rows) && Distinct(keys)
    requires n == rows + dirs && dirs <= rows <= dirs + 1 && rows <= |keys| && steps == PruneSteps(PlacesOf(d, keys))
    ensures |steps| == 2 * |keys|
    ensures Exec(d, steps[..n]) == PartlyPruned(d, keys, rows, dirs)
  {
    PrunedSoFar(d, keys, steps, dirs);
    if rows == dirs {
      assert n == 2 * dirs;
    } else {
      assert n == 2 * dirs + 1 && rows == dirs + 1;
    }
  }

  /** A GC that an error stops after `n` steps hides the artifacts whose rows
      are gone by then, and leaves every other one as it was. */
  lemma StoppedGC(law: Law, d: Disk, stage: string, retention: int, n: nat, rows: nat, dirs: nat, key: string)
    requires Consistent(law, d) && DistinctIds(law.stageOf.Keys)
    requires n == rows + dirs && dirs <= rows <= dirs + 1 && rows <= |Pruned(d, stage, retention)|
    ensures var all, pruned := GCSteps(d, stage, retention), Pruned(d, stage, retention);
            && |all| == 2 * |pruned|
            && Exec(d, all[..n]) == PartlyPruned(d, pruned, rows, dirs)
            && Lookup(Exec(d, all[..n]), key) == if key in Elements(pruned[..rows]) then None else Lookup(d, key)
  {
    var all, pruned := GCSteps(d, stage, retention), Pruned(d, stage, retention);
    PrunedRows(d, stage, retention);
    StoppedPrune(d, pruned, all, n, rows, dirs);
    PartlyPrunedLookup(d, pruned, rows, dirs, key);
  }

  lemma PartlyPrunedLookup(d: Disk, keys: seq<string>, rows: nat, dirs: nat, key: string)
    requires UniqueIds(d) && (forall k | k in keys :: k in d.rows) && dirs <= rows <= |keys|
    ensures Lookup(PartlyPruned(d, keys, rows, dirs), key) == if key in Elements(keys[..rows]) then None else Lookup(d, key)
  {
    forall k | k in Elements(keys[..dirs]) ensures k in Elements(keys[..rows]) {
      var i :| 0 <= i < dirs && keys[..dirs][i] == k;
      assert keys[..rows][i] == k;
    }
    FirstOnes(d, keys, dirs);
    if key in d.rows && key !in Elements(keys[..rows]) {
      assert (d.rows[key].stage, d.rows[key].id) !in PlacesSet(d, Elements(keys[..dirs]));
    }
  }

  ghost function NewerRows(d: Disk, key: string): set<string>
    requires key in d.rows
  {
    set k | k in d.rows && d.rows[k].stage == d.rows[key].stage &&
      (d.rows[k].createdAt > d.rows[key].createdAt
       || (d.rows[k].createdAt == d.rows[key].createdAt && Before(d.rows[key].id, d.rows[k].id)))
  }

  lemma {:induction false} CountDistinct(s: seq<string>)
    requires Distinct(s)
    ensures |Elements(s)| == |s|
    decreases |s|
  {
    if s != [] {
      var n := |s| - 1;
      assert s == s[..n] + [s[n]];
      assert Elements(s) == Elements(s[..n]) + {s[n]};
      CountDistinct(s[..n]);
    }
  }

  /** Before a row come, newest first, exactly those that are newer. */
  lemma NewerComeBefore(d: Disk, stage: string, i: nat)
    requires UniqueIds(d) && i < |ByAge(d, stage)| && ByAge(d, stage)[i] in d.rows
    ensures Elements(ByAge(d, stage)[..i]) == NewerRows(d, ByAge(d, stage)[i])
  {
    var found := ByAge(d, stage);
    var key := found[i];
    ByAgeMeans(d, stage);
    assert d.rows[key].stage == stage;
    forall k | k in NewerRows(d, key) ensures k in found[..i] {
      var j :| 0 <= j < |found| && found[j] == k;
      NewerIsOrder(d.rows[k], d.rows[key], d.rows[k]);
      assert j < i;
      assert found[..i][j] == k;
    }
  }

  /** A row of the stage is pruned iff `retention` or more rows of it are newer. */
  lemma PrunedIffEnoughNewer(d: Disk, stage: string, retention: nat, key: string)
    requires UniqueIds(d) && key in StageKeys(d, stage)
    ensures key in Pruned(d, stage, retention) <==> |NewerRows(d, key)| >= retention
  {
    var found := ByAge(d, stage);
    ByAgeMeans(d, stage);
    var i :| 0 <= i < |found| && found[i] == key;
    NewerComeBefore(d, stage, i);
    CountDistinct(found[..i]);
    var m := Min(retention, |found|);
    if i >= m {
      assert found[m..][i - m] == key;
    } else {
      forall j | m <= j < |found| ensures found[j] != key {}
    }
  }

  /** The documented promise, that the newest version is never pruned, holds
      exactly when the retention is not zero. */
  lemma NewestSurvivesIffRetained(law: Law, d: Disk, stage: string, retention: int, key: string)
    requires Consistent(law, d) && DistinctIds(law.stageOf.Keys)
    requires key in StageKeys(d, stage) && NewerRows(d, key) == {}
    ensures var d' := Exec(d, GCSteps(d, stage, retention));
            && (key in d'.rows <==> retention != 0)
            && Lookup(d', key) == if retention == 0 then None else Lookup(d, key)
  {
    AfterGC(d, stage, retention);
    var pruned := Pruned(d, stage, retention);
    if retention >= 0 {
      PrunedIffEnoughNewer(d, stage, retention, key);
    }
    assert key in pruned <==> retention == 0;
    LookupWithout(d, Elements(pruned), key);
  }

  /** Pruning other rows leaves a lookup as it was: no two rows share a directory. */
  lemma LookupWithout(d: Disk, gone: set<string>, key: string)
    requires UniqueIds(d) && gone <= d.rows.Keys
    ensures Lookup(Without(d, gone), key) == if key in gone then None else Lookup(d, key)
  {
    if key in d.rows && key !in gone {
      assert (d.rows[key].stage, d.rows[key].id) !in PlacesSet(d, gone);
    }
  }
}

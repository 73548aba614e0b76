/** The artifact store: internal/artifact/store.go.

  A store is a table of rows (the index) and a tree of directories (the
  record). Every operation is a list of steps that are atomic on their own and
  nothing more: one statement of SQL, one rename, one removal. A crash, or an
  error half-way, is a prefix of that list. `Disk` is the state between two
  steps; class `Store` performs the steps and keeps a ghost trail of them.
  */
module ArtifactStore {
  import opened Sorting
  import opened ArtifactHash
  import opened KeyTrees
  import opened Optional

  /** Rows are written as ready or failed; nothing writes `building`. */
  datatype Status = Ready | Errored

  datatype Row = Row(id: string, stage: string, status: Status, createdAt: nat)

  datatype Manifest = Manifest(id: string, stage: string, key: string, primary: string)

  datatype Dir = Dir(manifest: Option<Manifest>, files: map<string, Content>)

  /** A published directory is found by stage and id. */
  type Place = (string, string)

  /** Rows are unique by key. `clock` stands for the time of day, which only
      moves forward; `nextTemp` for the names MkdirTemp has not used. */
  datatype Disk = Disk(rows: map<string, Row>, dirs: map<Place, Dir>, temps: map<nat, Dir>,
                       clock: nat, nextTemp: nat)

  const EMPTY_DISK := Disk(map[], map[], map[], 0, 0)

  datatype Artifact = Artifact(id: string, stage: string, key: string)

  const MANIFEST_NAME := "manifest.json"

  // ---------------------------------------------------------------------
  // Reading
  // ---------------------------------------------------------------------

  /** What a key finds: a row that says ready and still has its directory. */
  function Lookup(d: Disk, key: string): Option<Artifact> {
    if key in d.rows && d.rows[key].status == Ready && (d.rows[key].stage, d.rows[key].id) in d.dirs
    then Some(Artifact(d.rows[key].id, d.rows[key].stage, key))
    else None
  }

  /** The file the artifact's manifest points at. */
  function Open(d: Disk, a: Artifact): Option<Content> {
    if (a.stage, a.id) in d.dirs then
      var dir := d.dirs[(a.stage, a.id)];
      if dir.manifest.Some? && dir.manifest.value.primary in dir.files
      then Some(dir.files[dir.manifest.value.primary])
      else None
    else None
  }

  ghost function StageKeys(d: Disk, stage: string): set<string> {
    set k | k in d.rows && d.rows[k].stage == stage
  }

  /** ORDER BY created_at DESC, id DESC. */
  predicate IsNewer(a: Row, b: Row) {
    a.createdAt > b.createdAt || (a.createdAt == b.createdAt && Before(b.id, a.id))
  }

  function Newer(d: Disk): (string, string) -> bool {
    (a: string, b: string) => a in d.rows && b in d.rows && IsNewer(d.rows[a], d.rows[b])
  }

  /** The id is the table's primary key. */
  ghost predicate UniqueIds(d: Disk) {
    forall a, b | a in d.rows && b in d.rows && a != b :: d.rows[a].id != d.rows[b].id
  }

  lemma NewerIsOrder(a: Row, b: Row, c: Row)
    ensures !IsNewer(a, a) && !(IsNewer(a, b) && IsNewer(b, a))
    ensures IsNewer(a, b) && IsNewer(b, c) ==> IsNewer(a, c)
    ensures a.id != b.id ==> IsNewer(a, b) || IsNewer(b, a)
  {
    BeforeIsIrreflexive(a.id);
    if a.id != b.id { BeforeIsTotal(a.id, b.id); }
    if Before(c.id, b.id) && Before(b.id, a.id) { BeforeIsTransitive(c.id, b.id, a.id); }
    if Before(b.id, a.id) && Before(a.id, b.id) { BeforeIsTransitive(a.id, b.id, a.id); }
  }

  lemma NewerOrders(d: Disk, keys: set<string>)
    requires UniqueIds(d) && keys <= d.rows.Keys
    ensures StrictOrderOn(Newer(d), keys)
  {
    forall x, y, z | x in keys && y in keys && z in keys
      ensures !Newer(d)(x, x)
      ensures Newer(d)(x, y) && Newer(d)(y, z) ==> Newer(d)(x, z)
      ensures x != y ==> Newer(d)(x, y) || Newer(d)(y, x)
    {
      NewerIsOrder(d.rows[x], d.rows[y], d.rows[z]);
    }
  }

  /** A set of rows, newest first. */
  ghost predicate NewestFirst(d: Disk, keys: set<string>, s: seq<string>) {
    Ascending(Newer(d), s) && Elements(s) == keys
  }

  /** The key of the newest ready row of a stage, if it has one. */
  ghost predicate IsLatestKey(d: Disk, stage: string, key: string) {
    && key in d.rows && d.rows[key].stage == stage && d.rows[key].status == Ready
    && forall k | k in d.rows && d.rows[k].stage == stage && d.rows[k].status == Ready && k != key ::
         IsNewer(d.rows[key], d.rows[k])
  }

  lemma LatestIsUnique(d: Disk, stage: string, key: string)
    requires IsLatestKey(d, stage, key)
    ensures forall k | IsLatestKey(d, stage, k) :: k == key
  {
    forall k | IsLatestKey(d, stage, k) ensures k == key {
      NewerIsOrder(d.rows[k], d.rows[key], d.rows[k]);
    }
  }

  /** The latest artifact is that of the newest ready row, by time and then by
      id, if its directory is there. */
  lemma LatestMeans(d: Disk, stage: string, key: string)
    requires key in d.rows && d.rows[key].stage == stage && d.rows[key].status == Ready
    requires forall k | k in d.rows && k != key && d.rows[k].stage == stage && d.rows[k].status == Ready ::
               || d.rows[k].createdAt < d.rows[key].createdAt
               || (d.rows[k].createdAt == d.rows[key].createdAt && Before(d.rows[k].id, d.rows[key].id))
    ensures LatestIn(d, stage)
         == if (stage, d.rows[key].id) in d.dirs then Some(Artifact(d.rows[key].id, stage, key)) else None
  {
    assert IsLatestKey(d, stage, key);
    LatestIsUnique(d, stage, key);
  }

  /** A stage without a ready row has no latest artifact. */
  lemma NoneIsLatest(d: Disk, stage: string)
    requires forall k | k in d.rows && d.rows[k].stage == stage :: d.rows[k].status != Ready
    ensures LatestIn(d, stage) == None
  {
  }

  /** What the best so far is newer than, a better one is newer than too. */
  lemma BestYet(d: Disk, old_: string, better: string)
    requires old_ in d.rows && better in d.rows && IsNewer(d.rows[better], d.rows[old_])
    ensures forall k | k in d.rows && IsNewer(d.rows[old_], d.rows[k]) :: IsNewer(d.rows[better], d.rows[k])
  {
    forall k | k in d.rows && IsNewer(d.rows[old_], d.rows[k]) ensures IsNewer(d.rows[better], d.rows[k]) {
      NewerIsOrder(d.rows[better], d.rows[old_], d.rows[k]);
    }
  }

  /** The newest ready artifact of a stage: what a stage left out of a run
      contributes to it. */
  ghost function LatestIn(d: Disk, stage: string): Option<Artifact> {
    if key :| IsLatestKey(d, stage, key) then Lookup(d, key) else None
  }

  // ---------------------------------------------------------------------
  // Steps
  // ---------------------------------------------------------------------

  datatype Step =
    | MakeTemp
    | WriteFile(temp: nat, name: string, content: Content)
    | WriteManifest(temp: nat, manifest: Manifest)
    | DropTemp(temp: nat)
    | DropDir(place: Place)
    | Rename(temp: nat, place: Place)
    | Upsert(key: string, id: string, stage: string, status: Status)
    | DeleteRow(id: string)
    | DropArtifacts

  /** The primary key on id refuses a new row whose id another key already has. */
  predicate IdTaken(d: Disk, key: string, id: string) {
    key !in d.rows && exists k | k in d.rows :: d.rows[k].id == id
  }

  function Do(d: Disk, s: Step): Disk {
    match s
    case MakeTemp => d.(temps := d.temps[d.nextTemp := Dir(None, map[])], nextTemp := d.nextTemp + 1)
    case WriteFile(t, name, content) =>
      if t in d.temps then d.(temps := d.temps[t := d.temps[t].(files := d.temps[t].files[name := content])]) else d
    case WriteManifest(t, m) =>
      if t in d.temps then d.(temps := d.temps[t := d.temps[t].(manifest := Some(m))]) else d
    case DropTemp(t) => d.(temps := d.temps - {t})
    case DropDir(place) => d.(dirs := d.dirs - {place})
    case Rename(t, place) =>
      if t in d.temps && place !in d.dirs then d.(temps := d.temps - {t}, dirs := d.dirs[place := d.temps[t]]) else d
    case Upsert(key, id, stage, status) =>
      if key in d.rows then
        d.(rows := d.rows[key := d.rows[key].(status := status, createdAt := d.clock)], clock := d.clock + 1)
      else if IdTaken(d, key, id) then d
      else d.(rows := d.rows[key := Row(id, stage, status, d.clock)], clock := d.clock + 1)
    case DeleteRow(id) => d.(rows := map k | k in d.rows && d.rows[k].id != id :: d.rows[k])
    case DropArtifacts => d.(dirs := map[], temps := map[])
  }

  function Exec(d: Disk, steps: seq<Step>): Disk
    decreases |steps|
  {
    if steps == [] then d else Do(Exec(d, steps[..|steps| - 1]), steps[|steps| - 1])
  }

  lemma {:induction false} ExecAppend(d: Disk, a: seq<Step>, b: seq<Step>)
    ensures Exec(d, a + b) == Exec(Exec(d, a), b)
    decreases |b|
  {
    if b == [] {
      assert a + b == a;
    } else {
      var b' := b[..|b| - 1];
      assert (a + b)[..|a + b| - 1] == a + b';
      ExecAppend(d, a, b');
    }
  }

  lemma OneMoreStep(d: Disk, steps: seq<Step>, n: nat)
    requires n < |steps|
    ensures steps[..n + 1] == steps[..n] + [steps[n]]
    ensures Exec(d, steps[..n + 1]) == Do(Exec(d, steps[..n]), steps[n])
  {
    assert steps[..n + 1][..n] == steps[..n];
  }

  lemma UpsertKeepsIds(d: Disk, key: string, id: string, stage: string, status: Status)
    requires UniqueIds(d)
    ensures UniqueIds(Do(d, Upsert(key, id, stage, status)))
  {
    var d' := Do(d, Upsert(key, id, stage, status));
    assert forall k | k in d'.rows && k in d.rows :: d'.rows[k].id == d.rows[k].id;
  }

  lemma StepKeepsIds(d: Disk, s: Step)
    requires UniqueIds(d)
    ensures UniqueIds(Do(d, s))
  {
    if s.Upsert? {
      UpsertKeepsIds(d, s.key, s.id, s.stage, s.status);
    } else {
      var d' := Do(d, s);
      assert forall k | k in d'.rows :: k in d.rows && d'.rows[k] == d.rows[k];
    }
  }

  lemma {:induction false} StepsKeepIds(d: Disk, steps: seq<Step>)
    requires UniqueIds(d)
    ensures UniqueIds(Exec(d, steps))
    decreases |steps|
  {
    if steps != [] {
      StepsKeepIds(d, steps[..|steps| - 1]);
      StepKeepsIds(Exec(d, steps[..|steps| - 1]), steps[|steps| - 1]);
    }
  }

  // ---------------------------------------------------------------------
  // The steps of each operation
  // ---------------------------------------------------------------------

  /** The files a stage writes, in the order it writes them. */
  type Files = seq<(string, Content)>

  function Writes(temp: nat, files: Files): seq<Step> {
    seq(|files|, i requires 0 <= i < |files| => WriteFile(temp, files[i].0, files[i].1))
  }

  /** What the files hold once all of them are written. */
  function Contents(files: Files): map<string, Content> {
    if files == [] then map[]
    else Contents(files[..|files| - 1])[files[|files| - 1].0 := files[|files| - 1].1]
  }

  /** Begin, and the stage writing its files. */
  function BeginSteps(d: Disk, files: Files): seq<Step> {
    [MakeTemp] + Writes(d.nextTemp, files)
  }

  /** Commit refuses a missing, empty or reserved primary before it changes anything. */
  predicate Publishable(files: map<string, Content>, primary: string) {
    primary != "" && primary != MANIFEST_NAME && primary in files
  }

  function CommitSteps(temp: nat, stage: string, key: string, primary: string): seq<Step> {
    var id := IDForKey(key);
    [WriteManifest(temp, Manifest(id, stage, key, primary)), DropDir((stage, id)),
     Rename(temp, (stage, id)), Upsert(key, id, stage, Ready)]
  }

  /** What goes wrong while an attempt is aborted: its directory stays behind,
      or no row records the failure. Neither keeps the other step from being tried. */
  datatype AbortFault = AbortFault(keepsTemp: bool, losesRow: bool)

  function AbortSteps(temp: nat, stage: string, key: string, fault: AbortFault): seq<Step> {
    (if fault.keepsTemp then [] else [DropTemp(temp)])
    + (if fault.losesRow then [] else [Upsert(key, IDForKey(key), stage, Errored)])
  }

  /** Each pruned row goes before its directory. */
  function PruneSteps(places: seq<Place>): seq<Step> {
    if places == [] then []
    else PruneSteps(places[..|places| - 1]) + [DeleteRow(places[|places| - 1].1), DropDir(places[|places| - 1])]
  }

  /** Row and directory of each place in turn. */
  predicate ArePairs(steps: seq<Step>, places: seq<Place>) {
    && |steps| == 2 * |places|
    && forall i | 0 <= i < |places| :: steps[2 * i] == DeleteRow(places[i].1) && steps[2 * i + 1] == DropDir(places[i])
  }

  lemma {:induction false} PruneStepsArePairs(places: seq<Place>)
    ensures ArePairs(PruneSteps(places), places)
    decreases |places|
  {
    if places != [] {
      var n := |places| - 1;
      PruneStepsArePairs(places[..n]);
      forall i | 0 <= i < n ensures places[i] == places[..n][i] {}
    }
  }

  lemma {:induction false} PruneStepsPrefix(places: seq<Place>, j: nat)
    requires j <= |places|
    ensures |PruneSteps(places)| == 2 * |places| && PruneSteps(places)[..2 * j] == PruneSteps(places[..j])
    decreases |places|
  {
    PruneStepsArePairs(places);
    if j < |places| {
      var n := |places| - 1;
      PruneStepsPrefix(places[..n], j);
      assert places[..n][..j] == places[..j];
    } else {
      assert places[..j] == places;
    }
  }

  function PlacesOf(d: Disk, keys: seq<string>): seq<Place>
    requires forall k | k in keys :: k in d.rows
  {
    seq(|keys|, i requires 0 <= i < |keys| => (d.rows[keys[i]].stage, d.rows[keys[i]].id))
  }

  /** So many rows lost both row and directory before an error after `fault` steps. */
  predicate PrunedBefore(fault: nat, all: nat, removed: nat) {
    2 * removed <= fault && (if removed < all then fault < 2 * removed + 2 else removed == all)
  }

  function Min(a: nat, b: nat): nat { if a < b then a else b }

  /** A stage's rows, newest first. */
  ghost function ByAge(d: Disk, stage: string): (found: seq<string>)
    requires UniqueIds(d)
    ensures NewestFirst(d, StageKeys(d, stage), found)
  {
    ByAgeExists(d, StageKeys(d, stage));
    var found: seq<string> :| NewestFirst(d, StageKeys(d, stage), found);
    found
  }

  /** Each of the stage's rows is there once, after those recorded later and,
      of those recorded with it, after those with a greater id. */
  lemma ByAgeMeans(d: Disk, stage: string)
    requires UniqueIds(d)
    ensures forall k :: k in ByAge(d, stage) <==> k in d.rows && d.rows[k].stage == stage
    ensures var found := ByAge(d, stage);
            forall i, j | 0 <= i < j < |found| ::
              && found[i] in d.rows && found[j] in d.rows && found[i] != found[j]
              && var newer, older := d.rows[found[i]], d.rows[found[j]];
                 newer.createdAt > older.createdAt || (newer.createdAt == older.createdAt && Before(older.id, newer.id))
  {
    var found := ByAge(d, stage);
    assert forall k :: k in found <==> k in Elements(found);
    forall i, j | 0 <= i < j < |found|
      ensures found[i] in d.rows && found[j] in d.rows && found[i] != found[j] && IsNewer(d.rows[found[i]], d.rows[found[j]])
    {
      assert Newer(d)(found[i], found[j]);
      NewerIsOrder(d.rows[found[i]], d.rows[found[j]], d.rows[found[i]]);
    }
  }

  lemma {:induction false} ByAgeExists(d: Disk, keys: set<string>)
    requires UniqueIds(d) && keys <= d.rows.Keys
    ensures exists found: seq<string> :: NewestFirst(d, keys, found)
  {
    if keys == {} {
      assert NewestFirst(d, keys, []);
    } else {
      var x :| x in keys;
      ByAgeExists(d, keys - {x});
      var rest: seq<string> :| NewestFirst(d, keys - {x}, rest);
      NewerOrders(d, keys);
      assert Elements(rest) + {x} == keys;
      assert x !in rest by { assert x !in Elements(rest); }
      InsertAscends(Newer(d), x, rest);
      InsertKeepsElements(Newer(d), x, rest);
      assert NewestFirst(d, keys, Insert(Newer(d), x, rest));
    }
  }

  /** The rows GC prunes: those past the first `retention`, newest first. */
  ghost function Pruned(d: Disk, stage: string, retention: int): (keys: seq<string>)
    requires UniqueIds(d)
    ensures forall k | k in keys :: k in d.rows && d.rows[k].stage == stage
  {
    var found := ByAge(d, stage);
    assert forall k | k in found :: k in Elements(found);
    if retention < 0 then []
    else
      var keys := found[Min(retention, |found|)..];
      assert forall k | k in keys :: k in found;
      keys
  }

  ghost function GCSteps(d: Disk, stage: string, retention: int): seq<Step>
    requires UniqueIds(d)
  {
    PruneSteps(PlacesOf(d, Pruned(d, stage, retention)))
  }

  /** RemoveAll, visiting the rows in the order the query yields them. */
  function RemoveAllSteps(d: Disk, order: seq<string>): seq<Step>
    requires forall k | k in order :: k in d.rows
  {
    PruneSteps(PlacesOf(d, order)) + [DropArtifacts]
  }

  function SweepSteps(order: seq<nat>): seq<Step> {
    seq(|order|, i requires 0 <= i < |order| => DropTemp(order[i]))
  }

  // ---------------------------------------------------------------------
  // The class
  // ---------------------------------------------------------------------

  datatype CommitError = AlreadyFinished | NoPrimary | ReservedPrimary | MissingPrimary | IdConflict | StorageFault

  datatype Committed = Published(artifact: Artifact) | Refused(error: CommitError)

  class Store {
    const h: string -> string
    var rows: map<string, Row>
    var dirs: map<Place, Dir>
    var temps: map<nat, Dir>
    var clock: nat
    var nextTemp: nat
    /** Every step since the store was opened. */
    ghost var trail: seq<Step>

    constructor (h: string -> string)
      ensures this.h == h && State() == EMPTY_DISK && trail == []
    {
      this.h := h;
      rows, dirs, temps, clock, nextTemp, trail := map[], map[], map[], 0, 0, [];
    }

    function State(): Disk
      reads this
    {
      Disk(rows, dirs, temps, clock, nextTemp)
    }

    /** The operation performed exactly these steps. */
    twostate predicate Performed(steps: seq<Step>)
      reads this
    {
      trail == old(trail) + steps && State() == Exec(old(State()), steps)
    }

    method Perform(s: Step)
      modifies this
      ensures Performed([s]) && State() == Do(old(State()), s)
    {
      match s {
        case MakeTemp =>
          temps := temps[nextTemp := Dir(None, map[])];
          nextTemp := nextTemp + 1;
        case WriteFile(t, name, content) =>
          if t in temps { temps := temps[t := temps[t].(files := temps[t].files[name := content])]; }
        case WriteManifest(t, m) =>
          if t in temps { temps := temps[t := temps[t].(manifest := Some(m))]; }
        case DropTemp(t) =>
          temps := temps - {t};
        case DropDir(place) =>
          dirs := dirs - {place};
        case Rename(t, place) =>
          if t in temps && place !in dirs {
            dirs := dirs[place := temps[t]];
            temps := temps - {t};
          }
        case Upsert(key, id, stage, status) =>
          if key in rows {
            rows := rows[key := rows[key].(status := status, createdAt := clock)];
            clock := clock + 1;
          } else if !(exists k | k in rows :: rows[k].id == id) {
            rows := rows[key := Row(id, stage, status, clock)];
            clock := clock + 1;
          }
        case DeleteRow(id) =>
          rows := map k | k in rows && rows[k].id != id :: rows[k];
        case DropArtifacts =>
          dirs := map[];
          temps := map[];
      }
      trail := trail + [s];
      assert [s][..|[s]| - 1] == [];
      assert Exec(old(State()), []) == old(State());
      assert State() == Do(old(State()), s);
    }

    method QueryByAge(stage: string) returns (found: seq<string>)
      requires UniqueIds(State())
      ensures found == ByAge(State(), stage)
    {
      var d := State();
      found := [];
      var left := rows.Keys;
      ghost var seen: set<string> := {};
      while left != {}
        invariant seen !! left && seen + left == rows.Keys
        invariant Distinct(found) && Elements(found) == set k | k in seen && rows[k].stage == stage
        decreases left
      {
        var k :| k in left;
        if rows[k].stage == stage {
          assert k !in found by { assert k !in Elements(found); }
          assert Elements(found + [k]) == Elements(found) + {k};
          found := found + [k];
        }
        left := left - {k};
        seen := seen + {k};
      }
      assert Elements(found) == StageKeys(d, stage);
      NewerOrders(d, Elements(found));
      SortEnumerates(Newer(d), found);
      AscendingIsUnique(Newer(d), Sort(Newer(d), found), ByAge(d, stage));
      found := Sort(Newer(d), found);
    }

    /** Performs the next of the steps begun in `d`. */
    method PerformNext(s: Step, ghost d: Disk, ghost before: seq<Step>, ghost steps: seq<Step>, ghost n: nat)
      requires n < |steps| && steps[n] == s
      requires trail == before + steps[..n] && State() == Exec(d, steps[..n])
      modifies this
      ensures trail == before + steps[..n + 1] && State() == Exec(d, steps[..n + 1])
    {
      Perform(s);
      OneMoreStep(d, steps, n);
    }

    /** Deletes rows and their directories, one after the other, until the
        disk or the database reports an error after `fault` steps. */
    method Prune(places: seq<Place>, fault: nat) returns (removed: nat)
      modifies this
      ensures |PruneSteps(places)| == 2 * |places| && PrunedBefore(fault, |places|, removed)
      ensures Performed(PruneSteps(places)[..Min(fault, 2 * |places|)])
    {
      PruneStepsArePairs(places);
      removed := PrunePairs(places, fault, PruneSteps(places));
    }

    method PrunePairs(places: seq<Place>, fault: nat, ghost steps: seq<Step>) returns (removed: nat)
      requires ArePairs(steps, places)
      modifies this
      ensures PrunedBefore(fault, |places|, removed) && Performed(steps[..Min(fault, 2 * |places|)])
    {
      ghost var d, before := State(), trail;
      for i := 0 to |places|
        invariant 2 * i <= fault
        invariant trail == before + steps[..2 * i] && State() == Exec(d, steps[..2 * i])
      {
        var (stage, id) := places[i];
        if fault == 2 * i { return i; }
        PerformNext(DeleteRow(id), d, before, steps, 2 * i);
        if fault == 2 * i + 1 { return i; }
        PerformNext(DropDir((stage, id)), d, before, steps, 2 * i + 1);
      }
      removed := |places|;
    }

    /** Retention: prunes a stage's superseded rows. A negative retention keeps all. */
    method GC(stage: string, retention: int, fault: nat) returns (removed: nat)
      requires UniqueIds(State())
      modifies this
      ensures Performed(GCSteps(old(State()), stage, retention)[..Min(fault, |GCSteps(old(State()), stage, retention)|)])
      ensures PrunedBefore(fault, |Pruned(old(State()), stage, retention)|, removed)
    {
      if retention < 0 {
        assert PlacesOf(State(), []) == [];
        assert Exec(State(), []) == State();
        return 0;
      }
      var d := State();
      var found := QueryByAge(stage);
      assert forall k | k in found :: k in Elements(found);
      var candidates := found[Min(retention, |found|)..];
      assert forall k | k in candidates :: k in found;
      removed := Prune(PlacesOf(d, candidates), fault);
    }

    /** The keys of all rows, in some order. */
    method QueryAll() returns (found: seq<string>)
      ensures Elements(found) == rows.Keys && Distinct(found)
      ensures forall k | k in found :: k in rows
    {
      found := [];
      var left := rows.Keys;
      while left != {}
        invariant Elements(found) !! left && Elements(found) + left == rows.Keys && Distinct(found)
        decreases left
      {
        var k :| k in left;
        assert k !in found by { assert k !in Elements(found); }
        assert Elements(found + [k]) == Elements(found) + {k};
        found := found + [k];
        left := left - {k};
      }
      assert Elements(found) == rows.Keys;
      assert forall k | k in found :: k in Elements(found);
    }

    /** Discards every artifact, rows and directories. An error of the last
        step, which clears the tree, is not reported. */
    method RemoveAll(fault: nat) returns (removed: nat, ghost order: seq<string>)
      modifies this
      ensures Elements(order) == old(rows).Keys && Distinct(order) && PrunedBefore(fault, |order|, removed)
      ensures |RemoveAllSteps(old(State()), order)| == 2 * |order| + 1
      ensures Performed(RemoveAllSteps(old(State()), order)[..Min(fault, 2 * |order| + 1)])
    {
      var d := State();
      var found := QueryAll();
      order := found;
      var places := PlacesOf(d, found);
      removed := Prune(places, fault);
      ghost var all := RemoveAllSteps(d, found);
      assert all[..2 * |found|] == PruneSteps(places);
      if fault <= 2 * |found| {
        assert all[..fault] == PruneSteps(places)[..fault];
        return;
      }
      assert PruneSteps(places)[..2 * |found|] == PruneSteps(places);
      PerformNext(DropArtifacts, d, old(trail), all, 2 * |found|);
    }

    /** Removes what writers that were killed left behind, until one removal fails. */
    method SweepTempDirectories(fault: nat) returns (removed: nat, ghost order: seq<nat>)
      modifies this
      ensures Elements(order) <= old(temps).Keys && Distinct(order) && removed == |order| <= fault
      ensures removed < fault ==> Elements(order) == old(temps).Keys
      ensures Performed(SweepSteps(order))
    {
      assert Exec(State(), []) == State();
      var left := temps.Keys;
      removed, order := 0, [];
      while left != {} && removed < fault
        invariant Elements(order) !! left && Elements(order) + left == old(temps).Keys && Distinct(order)
        invariant removed == |order| <= fault
        invariant Performed(SweepSteps(order))
        decreases left
      {
        var t :| t in left;
        assert t !in order by { assert t !in Elements(order); }
        Perform(DropTemp(t));
        ExecAppend(old(State()), SweepSteps(order), [DropTemp(t)]);
        assert SweepSteps(order + [t]) == SweepSteps(order) + [DropTemp(t)];
        assert Elements(order + [t]) == Elements(order) + {t};
        left := left - {t};
        removed, order := removed + 1, order + [t];
      }
    }

    method Latest(stage: string) returns (latest: Option<Artifact>)
      requires UniqueIds(State())
      ensures latest == LatestIn(State(), stage)
    {
      var d := State();
      var best: Option<string> := None;
      var left := rows.Keys;
      while left != {}
        invariant left <= rows.Keys
        invariant best.None? ==> forall k | k in rows && rows[k].stage == stage && rows[k].status == Ready :: k in left
        invariant best.Some? ==>
                    && best.value in rows && rows[best.value].stage == stage && rows[best.value].status == Ready
                    && forall k | k in rows && rows[k].stage == stage && rows[k].status == Ready && k != best.value ::
                         k in left || IsNewer(rows[best.value], rows[k])
        decreases left
      {
        var k :| k in left;
        if rows[k].stage == stage && rows[k].status == Ready && (best.None? || IsNewer(rows[k], rows[best.value])) {
          if best.Some? { BestYet(d, best.value, k); }
          best := Some(k);
        } else if best.Some? && k != best.value {
          NewerIsOrder(rows[k], rows[best.value], rows[k]);
        }
        left := left - {k};
      }
      if best.None? {
        assert forall k :: !IsLatestKey(d, stage, k);
        return None;
      }
      assert IsLatestKey(d, stage, best.value);
      LatestIsUnique(d, stage, best.value);
      latest := Lookup(d, best.value);
    }

    /** Starts writing an artifact, unless its inputs have no key or the disk
        refuses a temporary directory. */
    method Begin(inputs: KeyInputs, fault: bool) returns (writer: Writer?)
      modifies this
      ensures inputs.config.Unencodable? || fault ==> writer == null && Performed([])
      ensures inputs.config.Canonical? && !fault ==>
                && writer != null && fresh(writer) && writer.store == this && !writer.done
                && writer.stage == inputs.stage && writer.key == Key(h, inputs)
                && writer.temp == old(nextTemp)
                && Performed([MakeTemp])
    {
      assert Exec(State(), []) == State();
      var derived := DeriveKey(h, inputs);
      if derived.NoCanonicalForm? || fault { return null; }
      var temp := nextTemp;
      Perform(MakeTemp);
      writer := new Writer(this, inputs.stage, derived.derived.key, temp);
    }
  }

  /** One attempt at an artifact: a directory nobody else looks into yet. */
  class Writer {
    const store: Store
    const stage: string
    const key: string
    const temp: nat
    var done: bool

    constructor (store: Store, stage: string, key: string, temp: nat)
      ensures this.store == store && this.stage == stage && this.key == key && this.temp == temp && !done
    {
      this.store, this.stage, this.key, this.temp, this.done := store, stage, key, temp, false;
    }

    /** What the stage has written so far. */
    function Written(): map<string, Content>
      reads store
    {
      if temp in store.temps then store.temps[temp].files else map[]
    }

    /** The stage writing one file into the writer's directory. */
    method Write(name: string, content: Content)
      modifies store
      ensures store.Performed([WriteFile(temp, name, content)])
      ensures temp in old(store.temps) ==> temp in store.temps && Written() == old(Written())[name := content]
    {
      store.Perform(WriteFile(temp, name, content));
    }

    /** Makes the directory visible and says so in the index. `fault` is how many of the steps
        succeed before the disk or the database reports an error: all four when
        nothing goes wrong. */
    method Commit(primary: string, fault: nat) returns (r: Committed)
      modifies this, store
      ensures done
      ensures old(done) || !Publishable(old(Written()), primary) ==> store.Performed([])
      ensures old(done) ==> r == Refused(AlreadyFinished)
      ensures !old(done) && !Publishable(old(Written()), primary) ==>
                r == Refused(if primary == "" then NoPrimary
                             else if primary == MANIFEST_NAME then ReservedPrimary else MissingPrimary)
      ensures !old(done) && Publishable(old(Written()), primary) ==>
                && store.Performed(CommitSteps(temp, stage, key, primary)[..Min(fault, 4)])
                && r == (if fault < 4 then Refused(StorageFault)
                         else if IdTaken(old(store.State()), key, IDForKey(key)) then Refused(IdConflict)
                         else Published(Artifact(IDForKey(key), stage, key)))
    {
      assert Exec(store.State(), []) == store.State();
      if done { return Refused(AlreadyFinished); }
      done := true;
      if primary == "" { return Refused(NoPrimary); }
      if primary == MANIFEST_NAME { return Refused(ReservedPrimary); }
      if primary !in Written() { return Refused(MissingPrimary); }
      var conflict := Publish(primary, fault, CommitSteps(temp, stage, key, primary));
      r := if fault < 4 then Refused(StorageFault)
           else if conflict then Refused(IdConflict) else Published(Artifact(IDForKey(key), stage, key));
    }

    /** Manifest, removal of what was there, rename, row; as far as `fault` lets it. */
    method Publish(primary: string, fault: nat, ghost steps: seq<Step>) returns (conflict: bool)
      requires steps == CommitSteps(temp, stage, key, primary)
      modifies store
      ensures store.Performed(steps[..Min(fault, 4)])
      ensures fault >= 4 ==> conflict == IdTaken(old(store.State()), key, IDForKey(key))
    {
      ghost var d, before := store.State(), store.trail;
      var id := IDForKey(key);
      conflict := false;
      CommitKeepsRows(d, temp, stage, key, primary);
      if fault == 0 { return; }
      store.PerformNext(WriteManifest(temp, Manifest(id, stage, key, primary)), d, before, steps, 0);
      if fault == 1 { return; }
      store.PerformNext(DropDir((stage, id)), d, before, steps, 1);
      if fault == 2 { return; }
      store.PerformNext(Rename(temp, (stage, id)), d, before, steps, 2);
      if fault == 3 { return; }
      conflict := key !in store.rows && exists k | k in store.rows :: store.rows[k].id == id;
      store.PerformNext(Upsert(key, id, stage, Ready), d, before, steps, 3);
    }

    /** Gives the attempt up: no files stay behind, and a row says it failed. */
    method Abort(fault: AbortFault)
      modifies this, store
      ensures done && store.Performed(AbortSteps(temp, stage, key, fault))
    {
      done := true;
      ghost var d0 := store.State();
      ghost var drop := if fault.keepsTemp then [] else [DropTemp(temp)];
      assert Exec(d0, []) == d0;
      if !fault.keepsTemp { store.Perform(DropTemp(temp)); }
      if !fault.losesRow { store.Perform(Upsert(key, IDForKey(key), stage, Errored)); }
      ExecAppend(d0, drop, [Upsert(key, IDForKey(key), stage, Errored)]);
      assert AbortSteps(temp, stage, key, fault)
          == drop + (if fault.losesRow then [] else [Upsert(key, IDForKey(key), stage, Errored)]);
      assert drop + [] == drop;
    }
  }

  /** Only the last step of a commit writes to the index. */
  lemma CommitKeepsRows(d: Disk, temp: nat, stage: string, key: string, primary: string)
    ensures Exec(d, CommitSteps(temp, stage, key, primary)[..3]).rows == d.rows
  {
    StepByStep(d, CommitSteps(temp, stage, key, primary));
  }

  lemma StepByStep(d: Disk, s: seq<Step>)
    requires |s| == 4
    ensures s[..0] == [] && s[..1] == [s[0]] && s[..2] == [s[0], s[1]] && s[..3] == [s[0], s[1], s[2]] && s[..4] == s
    ensures Exec(d, s[..1]) == Do(d, s[0])
    ensures Exec(d, s[..2]) == Do(Do(d, s[0]), s[1])
    ensures Exec(d, s[..3]) == Do(Do(Do(d, s[0]), s[1]), s[2])
    ensures Exec(d, s[..4]) == Exec(d, s) == Do(Do(Do(Do(d, s[0]), s[1]), s[2]), s[3])
  {
    assert s[..3][..2] == s[..2] && s[..2][..1] == s[..1] && s[..1][..0] == [];
    assert Exec(d, s[..1]) == Do(d, s[0]);
    assert Exec(d, s[..2]) == Do(Do(d, s[0]), s[1]);
    assert Exec(d, s[..3]) == Do(Do(Do(d, s[0]), s[1]), s[2]);
  }

  lemma TwoSteps(d: Disk, a: Step, b: Step)
    ensures Exec(d, [a, b]) == Do(Do(d, a), b)
  {
    assert [a, b][..1] == [a] && [a][..0] == [];
    assert Exec(d, [a]) == Do(d, a);
  }
}

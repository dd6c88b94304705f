/** Rebuilding the directory tree from an unordered bag of directory records
    (internal/indexer/indexer.go, buildTree). */
module BuildTree {
  import opened Order
  import opened Paths
  import opened Tree

  /** A directory record as read back from its caption. */
  datatype DirRec = DirRec(parent: Id, name: string, msg: nat)

  type Records = map<Id, DirRec>

  const RECOVERED_DIR: string := "_recovered"
  const RECOVERED_ROOT_ID: Id := "00000000000000000000RECVRD"

  /** Decode accepts no record without an id or a name. */
  predicate WellFormed(recs: Records) {
    "" !in recs && forall id | id in recs :: recs[id].name != ""
  }

  function RowFor(recs: Records, rows: Dirs, id: Id): Dir
    requires id in recs
  {
    Dir(recs[id].parent, recs[id].name, Join(DirPath(rows, recs[id].parent), recs[id].name), recs[id].msg)
  }

  const RECOVERY_ROW: Dir := Dir("", RECOVERED_DIR, Join(ROOT, RECOVERED_DIR), 0)

  function RescuedRow(recs: Records, id: Id): Dir
    requires id in recs
  {
    Dir(RECOVERED_ROOT_ID, recs[id].name, Join(Join(ROOT, RECOVERED_DIR), recs[id].name), recs[id].msg)
  }

  /** The records whose parent already has a row. */
  function Ready(recs: Records, rows: Dirs): set<Id> {
    set id | id in recs && id !in rows && (recs[id].parent == "" || recs[id].parent in rows)
  }

  function Waiting(recs: Records, rows: Dirs): set<Id> {
    recs.Keys - rows.Keys
  }

  /** The fixpoint that place computes, one tree level at a time. */
  function PlaceAll(recs: Records, rows: Dirs): (out: Dirs)
    ensures rows.Keys <= out.Keys
    decreases |Waiting(recs, rows)|
  {
    var ready := Ready(recs, rows);
    if ready == {} then rows
    else
      var more := rows + map id | id in ready :: RowFor(recs, rows, id);
      LevelProgress(recs, rows);
      PlaceAll(recs, more)
  }

  /** The records to re-root in one pass: those whose parent has no record, or, when
      only cycles are left, the lowest id. */
  ghost function ToRescue(recs: Records, waiting: set<Id>): (chosen: set<Id>)
    requires waiting != {} && waiting <= recs.Keys
    ensures chosen != {} && chosen <= waiting
  {
    var tops := set id | id in waiting && recs[id].parent !in recs;
    if tops == {} then {Lowest(waiting)} else tops
  }

  function Reroot(recs: Records, rows: Dirs, started: bool, chosen: set<Id>): Dirs
    requires chosen <= recs.Keys
  {
    (if started then rows else rows[RECOVERED_ROOT_ID := RECOVERY_ROW])
    + map id | id in chosen :: RescuedRow(recs, id)
  }

  ghost function Rescue(recs: Records, rows: Dirs, started: bool): Dirs
    decreases |Waiting(recs, rows)|
  {
    if Waiting(recs, rows) == {} then rows
    else
      var chosen := ToRescue(recs, Waiting(recs, rows));
      var next := PlaceAll(recs, Reroot(recs, rows, started, chosen));
      RescueProgress(recs, rows, started, chosen);
      Rescue(recs, next, true)
  }

  /** The tree that buildTree hands to dedupePaths. */
  ghost function Rebuilt(recs: Records): Dirs {
    Rescue(recs, PlaceAll(recs, map[]), false)
  }

  lemma RescueProgress(recs: Records, rows: Dirs, started: bool, chosen: set<Id>)
    requires chosen != {} && chosen <= Waiting(recs, rows)
    ensures |Waiting(recs, PlaceAll(recs, Reroot(recs, rows, started, chosen)))| < |Waiting(recs, rows)|
  {
    var next := PlaceAll(recs, Reroot(recs, rows, started, chosen));
    var id :| id in chosen;
    assert id in next;
    assert id in Waiting(recs, rows) && id !in Waiting(recs, next);
    assert Waiting(recs, next) < Waiting(recs, rows);
    SubsetSize(Waiting(recs, next), Waiting(recs, rows));
  }

  // ------------------------------------------------- order independence

  /** rows extends base by rows computed from their parents' rows. */
  predicate Derived(recs: Records, base: Dirs, rows: Dirs) {
    && base.Keys <= rows.Keys <= base.Keys + recs.Keys
    && (forall id | id in base :: rows[id] == base[id])
    && forall id | id in rows && id !in base ::
         rows[id] == RowFor(recs, rows, id) && (recs[id].parent == "" || recs[id].parent in rows)
  }

  lemma DerivedGrows(recs: Records, base: Dirs, rows: Dirs, add: set<Id>)
    requires Derived(recs, base, rows) && "" !in rows && WellFormed(recs) && add <= Ready(recs, rows)
    ensures Derived(recs, base, rows + map id | id in add :: RowFor(recs, rows, id))
    ensures "" !in rows + map id | id in add :: RowFor(recs, rows, id)
  {
    var more := rows + map id | id in add :: RowFor(recs, rows, id);
    forall id | id in more && id !in base
      ensures more[id] == RowFor(recs, more, id) && (recs[id].parent == "" || recs[id].parent in more)
    {
      var p := recs[id].parent;
      assert p == "" || p in rows;
      assert DirPath(more, p) == DirPath(rows, p);
    }
  }

  lemma {:induction false} PlaceAllDerived(recs: Records, base: Dirs, rows: Dirs)
    requires WellFormed(recs) && "" !in rows && Derived(recs, base, rows)
    ensures Derived(recs, base, PlaceAll(recs, rows)) && Ready(recs, PlaceAll(recs, rows)) == {}
    ensures "" !in PlaceAll(recs, rows)
    decreases |Waiting(recs, rows)|
  {
    var ready := Ready(recs, rows);
    if ready != {} {
      DerivedGrows(recs, base, rows, ready);
      LevelProgress(recs, rows);
      PlaceAllDerived(recs, base, rows + map id | id in ready :: RowFor(recs, rows, id));
    }
  }

  lemma {:induction false} DerivedAgree(recs: Records, base: Dirs, u: Dirs, v: Dirs, id: Id)
    requires WellFormed(recs) && "" !in u && "" !in v
    requires Derived(recs, base, u) && Derived(recs, base, v) && Ready(recs, v) == {}
    requires id in u
    ensures id in v && u[id] == v[id]
    decreases |u[id].path|
  {
    if id !in base {
      var p := recs[id].parent;
      JoinLonger(DirPath(u, p), recs[id].name);
      if p != "" {
        DerivedAgree(recs, base, u, v, p);
      }
      assert id in Ready(recs, v) || id in v;
    }
  }

  /** Any closed derivation is the fixpoint, whatever order the records came in. */
  lemma DerivedUnique(recs: Records, base: Dirs, u: Dirs)
    requires WellFormed(recs) && "" !in u && Derived(recs, base, u) && Ready(recs, u) == {}
    ensures u == PlaceAll(recs, base)
  {
    var v := PlaceAll(recs, base);
    PlaceAllDerived(recs, base, base);
    forall id | id in u ensures id in v && u[id] == v[id] {
      DerivedAgree(recs, base, u, v, id);
    }
    forall id | id in v ensures id in u {
      DerivedAgree(recs, base, v, u, id);
    }
  }

  // ------------------------------------------------- the algorithm

  lemma PlaceOne(recs: Records, base: Dirs, rows: Dirs, id: Id)
    requires WellFormed(recs) && "" !in rows && Derived(recs, base, rows) && id in Ready(recs, rows)
    ensures Derived(recs, base, rows[id := RowFor(recs, rows, id)])
    ensures Waiting(recs, rows[id := RowFor(recs, rows, id)]) < Waiting(recs, rows)
  {
    OneRow(recs, rows, id);
    hide *;
    DerivedGrows(recs, base, rows, {id});
  }

  lemma OneRow(recs: Records, rows: Dirs, id: Id)
    requires id in Ready(recs, rows)
    ensures rows[id := RowFor(recs, rows, id)] == rows + map k | k in {id} :: RowFor(recs, rows, k)
    ensures Waiting(recs, rows[id := RowFor(recs, rows, id)]) < Waiting(recs, rows)
  {
    assert id in Waiting(recs, rows);
  }

  /** One pass of place over the records, in any order. */
  method PlacePass(recs: Records, ghost base: Dirs, resolved: Dirs) returns (out: Dirs, progress: bool)
    requires WellFormed(recs) && "" !in resolved && Derived(recs, base, resolved)
    ensures "" !in out && Derived(recs, base, out)
    ensures progress ==> Waiting(recs, out) < Waiting(recs, resolved)
    ensures !progress ==> out == resolved && Ready(recs, out) == {}
  {
    out, progress := resolved, false;
    var todo := recs.Keys;
    while todo != {}
      invariant "" !in out && Derived(recs, base, out)
      invariant todo <= recs.Keys
      invariant !progress ==> out == resolved && Ready(recs, out) <= todo
      invariant progress ==> Waiting(recs, out) < Waiting(recs, resolved)
      decreases todo
    {
      var id :| id in todo;
      todo := todo - {id};
      if id !in out && (recs[id].parent == "" || recs[id].parent in out) {
        PlaceOne(recs, base, out, id);
        out := out[id := RowFor(recs, out, id)];
        progress := true;
      }
    }
  }

  method Place(recs: Records, resolved: Dirs) returns (out: Dirs)
    requires WellFormed(recs) && "" !in resolved
    ensures out == PlaceAll(recs, resolved) && "" !in out
  {
    out := resolved;
    var progress := true;
    while progress
      invariant "" !in out && Derived(recs, resolved, out)
      invariant !progress ==> Ready(recs, out) == {}
      decreases |Waiting(recs, out)|, progress
    {
      ghost var before := out;
      out, progress := PlacePass(recs, resolved, out);
      if progress {
        SubsetSize(Waiting(recs, out), Waiting(recs, before));
      }
    }
    DerivedUnique(recs, resolved, out);
  }

  method CollectTops(recs: Records, resolved: Dirs) returns (tops: set<Id>)
    ensures tops == set id | id in Waiting(recs, resolved) && recs[id].parent !in recs
  {
    tops := {};
    var todo := recs.Keys;
    while todo != {}
      invariant todo <= recs.Keys
      invariant tops == set id | id in Waiting(recs, resolved) && id !in todo && recs[id].parent !in recs
      decreases todo
    {
      var id :| id in todo;
      todo := todo - {id};
      if id !in resolved && recs[id].parent !in recs {
        tops := tops + {id};
      }
    }
  }

  method FindLowest(recs: Records, resolved: Dirs) returns (lowest: Id)
    requires WellFormed(recs)
    ensures Waiting(recs, resolved) == {} <==> lowest == ""
    ensures Waiting(recs, resolved) != {} ==> lowest == Lowest(Waiting(recs, resolved))
  {
    lowest := "";
    var todo := recs.Keys;
    while todo != {}
      invariant todo <= recs.Keys
      invariant lowest == "" ==> Waiting(recs, resolved) <= todo
      invariant lowest != "" ==> IsLowest(Waiting(recs, resolved) - todo, lowest)
      decreases todo
    {
      var id :| id in todo;
      ghost var seen := Waiting(recs, resolved) - todo;
      todo := todo - {id};
      if id !in resolved {
        if lowest != "" && id != lowest { LessTotal(id, lowest); }
        if lowest == "" || Less(id, lowest) {
          forall k | k in seen && lowest != "" && k != lowest ensures Less(id, k) {
            LessTransitive(id, lowest, k);
          }
          assert Waiting(recs, resolved) - todo == seen + {id};
          lowest := id;
        } else {
          assert Waiting(recs, resolved) - todo == seen + {id};
        }
      } else {
        assert Waiting(recs, resolved) - todo == seen;
      }
    }
    if lowest != "" {
      assert Waiting(recs, resolved) - todo == Waiting(recs, resolved);
      LowestUnique(Waiting(recs, resolved), lowest, Lowest(Waiting(recs, resolved)));
    }
  }

  lemma RerootMore(recs: Records, rows: Dirs, started: bool, placed: set<Id>, id: Id)
    requires placed <= recs.Keys && id in recs
    ensures Reroot(recs, rows, started, {}) == if started then rows else rows[RECOVERED_ROOT_ID := RECOVERY_ROW]
    ensures Reroot(recs, rows, started, placed + {id}) == Reroot(recs, rows, started, placed)[id := RescuedRow(recs, id)]
  {
    var t, u := Reroot(recs, rows, started, placed + {id}), Reroot(recs, rows, started, placed)[id := RescuedRow(recs, id)];
    assert t.Keys == u.Keys;
    hide RescuedRow;
  }

  /** Re-roots the chosen records, creating the recovery folder with the first one. */
  method RerootAll(recs: Records, rows: Dirs, tops: set<Id>, rescued: nat) returns (resolved: Dirs, count: nat)
    requires tops <= recs.Keys && tops != {}
    ensures resolved == Reroot(recs, rows, rescued != 0, tops) && count > 0
  {
    resolved, count := rows, rescued;
    var left := tops;
    while left != {}
      invariant left <= tops
      invariant left == tops ==> resolved == rows && count == rescued
      invariant left != tops ==> count > 0 && resolved == Reroot(recs, rows, rescued != 0, tops - left)
      decreases left
    {
      var id :| id in left;
      ghost var placed := tops - left;
      left := left - {id};
      assert tops - left == placed + {id};
      RerootMore(recs, rows, rescued != 0, placed, id);
      hide Reroot, RescuedRow;
      if count == 0 {
        resolved := resolved[RECOVERED_ROOT_ID := RECOVERY_ROW];
      }
      resolved := resolved[id := RescuedRow(recs, id)];
      count := count + 1;
    }
    assert tops - left == tops;
  }

  /** buildTree terminates on any records and yields one tree, however the two map
      iterations and the list of tops are ordered. */
  method Build(recs: Records) returns (resolved: Dirs)
    requires WellFormed(recs)
    ensures resolved == Rebuilt(recs)
  {
    resolved := Place(recs, map[]);
    var rescued := 0;
    while true
      invariant "" !in resolved
      invariant Rescue(recs, resolved, rescued != 0) == Rebuilt(recs)
      decreases |Waiting(recs, resolved)|
    {
      var tops := CollectTops(recs, resolved);
      if tops == {} {
        var lowest := FindLowest(recs, resolved);
        if lowest == "" {
          break;
        }
        tops := {lowest};
      }
      assert tops == ToRescue(recs, Waiting(recs, resolved));
      RescueProgress(recs, resolved, rescued != 0, tops);
      resolved, rescued := RerootAll(recs, resolved, tops, rescued);
      resolved := Place(recs, resolved);
    }
  }

  // ------------------------------------------------- one row per record

  ghost function Unplaced(recs: Records): set<Id> {
    Waiting(recs, PlaceAll(recs, map[]))
  }

  lemma PlaceAllKeys(recs: Records, rows: Dirs)
    requires WellFormed(recs) && "" !in rows
    ensures var out := PlaceAll(recs, rows);
            "" !in out && rows.Keys <= out.Keys <= rows.Keys + recs.Keys
  {
    PlaceAllDerived(recs, rows, rows);
  }

  /** The re-rooted table of one rescue pass. */
  ghost function Rerooted(recs: Records, rows: Dirs, started: bool): Dirs
    requires Waiting(recs, rows) != {}
  {
    Reroot(recs, rows, started, ToRescue(recs, Waiting(recs, rows)))
  }

  lemma RescueStep(recs: Records, rows: Dirs, started: bool)
    requires WellFormed(recs) && "" !in rows && Waiting(recs, rows) != {}
    ensures var base := Rerooted(recs, rows, started);
            var next := PlaceAll(recs, base);
            && Rescue(recs, rows, started) == Rescue(recs, next, true)
            && |Waiting(recs, next)| < |Waiting(recs, rows)|
            && "" !in base && Derived(recs, base, next) && Ready(recs, next) == {} && "" !in next
  {
    var base := Rerooted(recs, rows, started);
    var chosen := ToRescue(recs, Waiting(recs, rows));
    assert base == Reroot(recs, rows, started, chosen) && "" !in base && Derived(recs, base, base);
    assert Rescue(recs, rows, started) == Rescue(recs, PlaceAll(recs, base), true);
    hide *;
    PlaceAllDerived(recs, base, base);
    RescueProgress(recs, rows, started, chosen);
  }

  lemma RerootKeys(recs: Records, rows: Dirs, started: bool, chosen: set<Id>)
    requires WellFormed(recs) && "" !in rows && chosen <= recs.Keys
    ensures var base := Reroot(recs, rows, started, chosen);
            && "" !in base
            && PlaceAll(recs, base).Keys + recs.Keys == rows.Keys + recs.Keys + (if started then {} else {RECOVERED_ROOT_ID})
  {
    PlaceAllKeys(recs, Reroot(recs, rows, started, chosen));
  }

  lemma RescueOnce(recs: Records, rows: Dirs, started: bool) returns (next: Dirs)
    requires WellFormed(recs) && "" !in rows && Waiting(recs, rows) != {}
    ensures Rescue(recs, rows, started) == Rescue(recs, next, true)
    ensures |Waiting(recs, next)| < |Waiting(recs, rows)| && "" !in next
    ensures next.Keys + recs.Keys == rows.Keys + recs.Keys + (if started then {} else {RECOVERED_ROOT_ID})
  {
    next := PlaceAll(recs, Rerooted(recs, rows, started));
    RescueStep(recs, rows, started);
    RerootKeys(recs, rows, started, ToRescue(recs, Waiting(recs, rows)));
  }

  lemma {:induction false} RescueKeys(recs: Records, rows: Dirs)
    requires WellFormed(recs) && "" !in rows
    ensures Rescue(recs, rows, true).Keys == rows.Keys + recs.Keys
    decreases |Waiting(recs, rows)|
  {
    if Waiting(recs, rows) == {} {
      NoneWaiting(recs, rows);
    } else {
      var next := RescueOnce(recs, rows, true);
      RescueKeys(recs, next);
    }
  }

  lemma NoneWaiting(recs: Records, rows: Dirs)
    requires Waiting(recs, rows) == {}
    ensures rows.Keys == rows.Keys + recs.Keys
  {
    forall id | id in recs ensures id in rows {
      assert id !in Waiting(recs, rows);
    }
  }

  /** Every record gets exactly one row, and the only other row is the recovery folder,
      created when some record is not reachable from the root. */
  lemma OneRowPerRecord(recs: Records)
    requires WellFormed(recs)
    ensures Rebuilt(recs).Keys == recs.Keys + (if Unplaced(recs) == {} then {} else {RECOVERED_ROOT_ID})
  {
    var rows := PlaceAll(recs, map[]);
    PlaceAllKeys(recs, map[]);
    if Waiting(recs, rows) == {} {
      NoneWaiting(recs, rows);
    } else {
      var next := RescueOnce(recs, rows, false);
      RescueKeys(recs, next);
    }
  }

  // ------------------------------------------------- parents and paths

  /** Parents exist and paths extend theirs: Linked, but for the shape of names. */
  predicate Chained(rows: Dirs) {
    && "" !in rows
    && forall id | id in rows ::
         && (rows[id].parent == "" || rows[id].parent in rows)
         && rows[id].path == Join(DirPath(rows, rows[id].parent), rows[id].name)
  }

  lemma DerivedChained(recs: Records, base: Dirs, rows: Dirs)
    requires WellFormed(recs) && "" !in rows && Chained(base) && Derived(recs, base, rows)
    ensures Chained(rows)
  {
    forall id | id in rows
      ensures rows[id].parent == "" || rows[id].parent in rows
      ensures rows[id].path == Join(DirPath(rows, rows[id].parent), rows[id].name)
    {
      if id in base {
        assert DirPath(rows, rows[id].parent) == DirPath(base, rows[id].parent);
      }
    }
  }

  lemma RerootChained(recs: Records, rows: Dirs, started: bool, chosen: set<Id>)
    requires WellFormed(recs) && Chained(rows) && RECOVERED_ROOT_ID !in recs
    requires started <==> RECOVERED_ROOT_ID in rows
    requires started ==> rows[RECOVERED_ROOT_ID] == RECOVERY_ROW
    requires chosen <= Waiting(recs, rows)
    ensures Chained(Reroot(recs, rows, started, chosen))
    ensures Reroot(recs, rows, started, chosen).Keys == rows.Keys + {RECOVERED_ROOT_ID} + chosen
    ensures Reroot(recs, rows, started, chosen)[RECOVERED_ROOT_ID] == RECOVERY_ROW
  {
    var base := Reroot(recs, rows, started, chosen);
    assert base[RECOVERED_ROOT_ID] == RECOVERY_ROW;
    forall id | id in base
      ensures base[id].parent == "" || base[id].parent in base
      ensures base[id].path == Join(DirPath(base, base[id].parent), base[id].name)
    {
      if id !in chosen && id != RECOVERED_ROOT_ID {
        assert rows[id].parent != RECOVERED_ROOT_ID || started;
        assert DirPath(base, rows[id].parent) == DirPath(rows, rows[id].parent);
      }
    }
  }

  lemma {:induction false} RescueChained(recs: Records, rows: Dirs, started: bool)
    requires WellFormed(recs) && Chained(rows) && RECOVERED_ROOT_ID !in recs
    requires started <==> RECOVERED_ROOT_ID in rows
    requires started ==> rows[RECOVERED_ROOT_ID] == RECOVERY_ROW
    ensures Chained(Rescue(recs, rows, started))
    decreases |Waiting(recs, rows)|
  {
    if Waiting(recs, rows) != {} {
      var chosen := ToRescue(recs, Waiting(recs, rows));
      var base := Reroot(recs, rows, started, chosen);
      RerootChained(recs, rows, started, chosen);
      PlaceAllDerived(recs, base, base);
      DerivedChained(recs, base, PlaceAll(recs, base));
      RescueProgress(recs, rows, started, chosen);
      RescueChained(recs, PlaceAll(recs, base), true);
    }
  }

  /** No record claims the reserved id of the recovery folder, or the folder is not made. */
  ghost predicate ReservedIdFree(recs: Records) {
    RECOVERED_ROOT_ID !in recs || Unplaced(recs) == {}
  }

  lemma NothingRescued(recs: Records)
    requires Unplaced(recs) == {}
    ensures Rebuilt(recs) == PlaceAll(recs, map[])
  {
    hide PlaceAll;
  }

  /** Missing parents, cycles, any order: the rows always form a tree of paths. */
  lemma RebuiltChained(recs: Records)
    requires WellFormed(recs) && ReservedIdFree(recs)
    ensures Chained(Rebuilt(recs))
  {
    PlaceAllDerived(recs, map[], map[]);
    DerivedChained(recs, map[], PlaceAll(recs, map[]));
    if Unplaced(recs) == {} {
      NothingRescued(recs);
    } else {
      RescueChained(recs, PlaceAll(recs, map[]), false);
    }
  }

  /** Every row but the recovery folder keeps the name and the message of its record. */
  predicate Tells(recs: Records, rows: Dirs) {
    forall id | id in rows && id != RECOVERED_ROOT_ID ::
      id in recs && rows[id].name == recs[id].name && rows[id].msg == recs[id].msg
  }

  lemma DerivedTells(recs: Records, base: Dirs, rows: Dirs)
    requires Tells(recs, base) && Derived(recs, base, rows) && RECOVERED_ROOT_ID !in recs
    ensures Tells(recs, rows)
    ensures RECOVERED_ROOT_ID in rows ==> RECOVERED_ROOT_ID in base && rows[RECOVERED_ROOT_ID] == base[RECOVERED_ROOT_ID]
  {
    forall id | id in rows && id != RECOVERED_ROOT_ID
      ensures id in recs && rows[id].name == recs[id].name && rows[id].msg == recs[id].msg
    {
      if id in base { assert rows[id] == base[id]; }
    }
  }

  lemma RerootTells(recs: Records, rows: Dirs, started: bool)
    requires Tells(recs, rows) && RECOVERED_ROOT_ID !in recs && Waiting(recs, rows) != {}
    requires RECOVERED_ROOT_ID in rows ==> rows[RECOVERED_ROOT_ID] == RECOVERY_ROW
    ensures var base := Rerooted(recs, rows, started);
            Tells(recs, base) && (RECOVERED_ROOT_ID in base ==> base[RECOVERED_ROOT_ID] == RECOVERY_ROW)
  {
    hide PlainName, Join;
  }

  lemma {:induction false} RescueTells(recs: Records, rows: Dirs, started: bool)
    requires WellFormed(recs) && "" !in rows && Tells(recs, rows) && RECOVERED_ROOT_ID !in recs
    requires RECOVERED_ROOT_ID in rows ==> rows[RECOVERED_ROOT_ID] == RECOVERY_ROW
    ensures Tells(recs, Rescue(recs, rows, started))
    ensures var out := Rescue(recs, rows, started); RECOVERED_ROOT_ID in out ==> out[RECOVERED_ROOT_ID] == RECOVERY_ROW
    decreases |Waiting(recs, rows)|
  {
    if Waiting(recs, rows) != {} {
      var base := Rerooted(recs, rows, started);
      RerootTells(recs, rows, started);
      hide *;
      RescueStep(recs, rows, started);
      DerivedTells(recs, base, PlaceAll(recs, base));
      RescueTells(recs, PlaceAll(recs, base), true);
    }
  }

  /** Whatever is missing or cyclic, directory names that are plain rebuild a linked tree
      in which each record has its own name and message. */
  lemma RebuiltLinked(recs: Records)
    requires WellFormed(recs) && ReservedIdFree(recs)
    ensures Tells(recs, Rebuilt(recs))
    ensures (forall id | id in recs :: PlainName(recs[id].name)) ==> AllLinked(Rebuilt(recs))
  {
    RebuiltTells(recs);
    RebuiltChained(recs);
    assert PlainName(RECOVERED_DIR);
    hide *;
    if forall id | id in recs :: PlainName(recs[id].name) {
      ChainedPlain(recs, Rebuilt(recs));
    }
  }

  lemma ChainedPlain(recs: Records, rows: Dirs)
    requires Chained(rows) && Tells(recs, rows) && PlainName(RECOVERED_DIR)
    requires RECOVERED_ROOT_ID in rows ==>
               rows[RECOVERED_ROOT_ID].name == RECOVERED_DIR
               || (RECOVERED_ROOT_ID in recs && rows[RECOVERED_ROOT_ID].name == recs[RECOVERED_ROOT_ID].name)
    requires forall id | id in recs :: PlainName(recs[id].name)
    ensures AllLinked(rows)
  {
    hide PlainName;
  }

  lemma RebuiltTells(recs: Records)
    requires WellFormed(recs) && ReservedIdFree(recs)
    ensures var rows := Rebuilt(recs);
            && Tells(recs, rows)
            && (RECOVERED_ROOT_ID in rows ==>
                  rows[RECOVERED_ROOT_ID].name == RECOVERED_DIR
                  || (RECOVERED_ROOT_ID in recs && rows[RECOVERED_ROOT_ID].name == recs[RECOVERED_ROOT_ID].name))
  {
    PlaceAllDerived(recs, map[], map[]);
    if Unplaced(recs) == {} {
      NothingRescued(recs);
      var rows := Rebuilt(recs);
      assert forall id | id in rows :: id in recs && rows[id].name == recs[id].name && rows[id].msg == recs[id].msg;
    } else {
      DerivedTells(recs, map[], PlaceAll(recs, map[]));
      RescueTells(recs, PlaceAll(recs, map[]), false);
    }
  }

  // ------------------------------------------------- who is re-rooted

  /** Every waiting record whose parent has no record; when there is none, and only cycles are
      left, the waiting record with the lowest id alone. */
  lemma RescueChoice(recs: Records, waiting: set<Id>)
    requires waiting != {} && waiting <= recs.Keys
    ensures var chosen := ToRescue(recs, waiting);
            if exists id :: id in waiting && recs[id].parent !in recs
            then forall id :: id in chosen <==> id in waiting && recs[id].parent !in recs
            else exists m :: chosen == {m} && m in waiting && forall k | k in waiting && k != m :: Less(m, k)
  {
    var tops := set id | id in waiting && recs[id].parent !in recs;
    if tops == {} {
      assert ToRescue(recs, waiting) == {Lowest(waiting)};
      assert forall id | id in waiting :: id !in tops;
    }
  }

  /** Of two directories that are each other's parents, the older one moves under the
      recovery folder and the other stays below it. */
  lemma CycleOfTwo(a: Id, b: Id, m: string, n: string)
    requires a != "" && b != "" && m != "" && n != "" && Less(a, b) && a != RECOVERED_ROOT_ID && b != RECOVERED_ROOT_ID
    ensures var rows := Rebuilt(map[a := DirRec(b, m, 1), b := DirRec(a, n, 2)]);
            && rows.Keys == {RECOVERED_ROOT_ID, a, b} && rows[RECOVERED_ROOT_ID] == RECOVERY_ROW
            && rows[a].parent == RECOVERED_ROOT_ID && rows[a].path == Join("/" + RECOVERED_DIR, m)
            && rows[b].parent == a && rows[b].path == Join(rows[a].path, n)
  {
    var recs: Records := map[a := DirRec(b, m, 1), b := DirRec(a, n, 2)];
    var none: Dirs := map[];
    LowerIsChosen(recs, a, b);
    CycleWaits(recs, none, a, b);
    assert PlaceAll(recs, none) == none;
    var base := Reroot(recs, none, false, {a});
    assert base == map[RECOVERED_ROOT_ID := RECOVERY_ROW, a := RescuedRow(recs, a)];
    hide ToRescue, Reroot, Ready;
    OtherFollows(recs, base, a, b);
    assert Join(ROOT, RECOVERED_DIR) == "/" + RECOVERED_DIR;
    hide Waiting, RowFor, Join;
  }

  lemma CycleWaits(recs: Records, none: Dirs, a: Id, b: Id)
    requires a != "" && b != "" && a != b && none == map[] && recs.Keys == {a, b} && recs[a].parent == b && recs[b].parent == a
    ensures Ready(recs, none) == {} && Waiting(recs, none) == {a, b}
  {
  }

  lemma LowerIsChosen(recs: Records, a: Id, b: Id)
    requires Less(a, b) && recs.Keys == {a, b} && recs[a].parent == b && recs[b].parent == a
    ensures a != b && ToRescue(recs, {a, b}) == {a}
  {
    hide Less;
    LessIrreflexive(a);
    assert IsLowest({a, b}, a);
    LowestUnique({a, b}, a, Lowest({a, b}));
    hide IsLowest;
    assert (set id | id in {a, b} && recs[id].parent !in recs) == {};
  }

  lemma OtherFollows(recs: Records, base: Dirs, a: Id, b: Id)
    requires a != "" && a != b && b != RECOVERED_ROOT_ID && a != RECOVERED_ROOT_ID
    requires recs.Keys == {a, b} && recs[b].parent == a && base.Keys == {RECOVERED_ROOT_ID, a}
    ensures var rows := base[b := RowFor(recs, base, b)];
            PlaceAll(recs, base) == rows && Waiting(recs, rows) == {} && Rescue(recs, rows, true) == rows
  {
    var rows := base[b := RowFor(recs, base, b)];
    assert Ready(recs, base) == {b} && Ready(recs, rows) == {} && Waiting(recs, rows) == {};
    assert rows == base + map id | id in {b} :: RowFor(recs, base, id);
    hide Ready, Waiting, RowFor;
    assert PlaceAll(recs, rows) == rows;
  }

  // ------------------------------------------------- acyclicity

  ghost predicate RankedBy(rows: Dirs, rank: map<Id, nat>) {
    && rank.Keys == rows.Keys
    && forall id | id in rows && rows[id].parent != "" ::
         rows[id].parent in rows && rank[rows[id].parent] < rank[id]
  }

  /** No directory is its own ancestor. */
  ghost predicate Acyclic(rows: Dirs) {
    exists rank :: RankedBy(rows, rank)
  }

  lemma {:induction false} PlaceAllRanked(recs: Records, rows: Dirs, rank: map<Id, nat>) returns (out: map<Id, nat>)
    requires WellFormed(recs) && RankedBy(rows, rank) && "" !in rows
    ensures RankedBy(PlaceAll(recs, rows), out)
    decreases |Waiting(recs, rows)|
  {
    var ready := Ready(recs, rows);
    if ready == {} {
      out := rank;
    } else {
      var more := rows + map id | id in ready :: RowFor(recs, rows, id);
      var up := LevelRanked(recs, rows, rank);
      LevelProgress(recs, rows);
      out := PlaceAllRanked(recs, more, up);
    }
  }

  lemma LevelProgress(recs: Records, rows: Dirs)
    requires Ready(recs, rows) != {}
    ensures |Waiting(recs, rows + map id | id in Ready(recs, rows) :: RowFor(recs, rows, id))| < |Waiting(recs, rows)|
  {
    var more := rows + map id | id in Ready(recs, rows) :: RowFor(recs, rows, id);
    var id :| id in Ready(recs, rows);
    assert id in Waiting(recs, rows) && id in more;
    SubsetSize(Waiting(recs, more), Waiting(recs, rows));
  }

  lemma LevelRanked(recs: Records, rows: Dirs, rank: map<Id, nat>) returns (up: map<Id, nat>)
    requires WellFormed(recs) && RankedBy(rows, rank) && "" !in rows
    ensures RankedBy(rows + map id | id in Ready(recs, rows) :: RowFor(recs, rows, id), up)
  {
    up := rank + map id | id in Ready(recs, rows) :: if recs[id].parent in rows then rank[recs[id].parent] + 1 else 0;
  }

  lemma RerootRanked(recs: Records, rows: Dirs, started: bool, chosen: set<Id>, rank: map<Id, nat>)
    returns (up: map<Id, nat>)
    requires WellFormed(recs) && RankedBy(rows, rank) && chosen <= Waiting(recs, rows)
    requires started ==> RECOVERED_ROOT_ID in rows
    requires RECOVERED_ROOT_ID !in chosen
    ensures RankedBy(Reroot(recs, rows, started, chosen), up)
  {
    var top := if started then rank else rank[RECOVERED_ROOT_ID := 0];
    up := top + map id | id in chosen :: top[RECOVERED_ROOT_ID] + 1;
    var base := Reroot(recs, rows, started, chosen);
    forall id | id in base && base[id].parent != "" ensures base[id].parent in base && up[base[id].parent] < up[id] {
      if id !in chosen {
        assert id in rows && rows[id] == base[id];
        assert rows[id].parent in rows && rows[id].parent !in chosen;
      }
    }
  }

  lemma {:induction false} RescueRanked(recs: Records, rows: Dirs, started: bool, rank: map<Id, nat>)
    requires WellFormed(recs) && RankedBy(rows, rank) && "" !in rows
    requires started ==> RECOVERED_ROOT_ID in rows
    requires !started && Waiting(recs, rows) != {} ==> RECOVERED_ROOT_ID !in ToRescue(recs, Waiting(recs, rows))
    ensures Acyclic(Rescue(recs, rows, started))
    decreases |Waiting(recs, rows)|
  {
    if Waiting(recs, rows) == {} {
      assert RankedBy(Rescue(recs, rows, started), rank);
    } else {
      var chosen := ToRescue(recs, Waiting(recs, rows));
      var base := Reroot(recs, rows, started, chosen);
      var up := RerootRanked(recs, rows, started, chosen, rank);
      var next := PlaceAllRanked(recs, base, up);
      PlaceAllDerived(recs, base, base);
      RescueProgress(recs, rows, started, chosen);
      RescueRanked(recs, PlaceAll(recs, base), true, next);
    }
  }

  /** Rows once placed are never touched again. */
  lemma {:induction false} RescueKeeps(recs: Records, rows: Dirs, id: Id)
    requires WellFormed(recs) && "" !in rows && id in rows
    ensures id in Rescue(recs, rows, true) && Rescue(recs, rows, true)[id] == rows[id]
    decreases |Waiting(recs, rows)|
  {
    if Waiting(recs, rows) != {} {
      var chosen := ToRescue(recs, Waiting(recs, rows));
      var base := Reroot(recs, rows, true, chosen);
      PlaceAllDerived(recs, base, base);
      RescueProgress(recs, rows, true, chosen);
      RescueKeeps(recs, PlaceAll(recs, base), id);
    }
  }

  /** The records re-rooted first, if any. */
  ghost predicate RecoveryIdRescued(recs: Records) {
    Unplaced(recs) != {} && RECOVERED_ROOT_ID in ToRescue(recs, Unplaced(recs))
  }

  /** The rebuilt tree is acyclic exactly when no record claims the reserved id of the
      recovery folder and has to be rescued itself: that record becomes its own parent. */
  lemma AcyclicIff(recs: Records)
    requires WellFormed(recs)
    ensures Acyclic(Rebuilt(recs)) <==> !RecoveryIdRescued(recs)
  {
    var rows := PlaceAll(recs, map[]);
    PlaceAllDerived(recs, map[], map[]);
    if !RecoveryIdRescued(recs) {
      assert RankedBy(map[], map[]);
      var rank := PlaceAllRanked(recs, map[], map[]);
      RescueRanked(recs, rows, false, rank);
    } else {
      var chosen := ToRescue(recs, Waiting(recs, rows));
      var base := Reroot(recs, rows, false, chosen);
      PlaceAllDerived(recs, base, base);
      RescueProgress(recs, rows, false, chosen);
      assert base[RECOVERED_ROOT_ID].parent == RECOVERED_ROOT_ID;
      RescueKeeps(recs, PlaceAll(recs, base), RECOVERED_ROOT_ID);
      assert Rebuilt(recs)[RECOVERED_ROOT_ID].parent == RECOVERED_ROOT_ID;
      SelfParentCyclic(Rebuilt(recs), RECOVERED_ROOT_ID);
    }
  }

  lemma SelfParentCyclic(rows: Dirs, id: Id)
    requires id in rows && id != "" && rows[id].parent == id
    ensures !Acyclic(rows)
  {
    forall rank: map<Id, nat> ensures !RankedBy(rows, rank) {
      assert id in rank ==> !(rank[rows[id].parent] < rank[id]);
    }
  }

  /** One stray record that carries the reserved id and names a lost parent. */
  lemma SelfParentExample(recs: Records, lost: Id)
    requires lost != "" && lost != RECOVERED_ROOT_ID
    requires recs == map[RECOVERED_ROOT_ID := DirRec(lost, "x", 7)]
    ensures WellFormed(recs) && !Acyclic(Rebuilt(recs))
  {
    var rows := PlaceAll(recs, map[]);
    PlaceAllDerived(recs, map[], map[]);
    assert RECOVERED_ROOT_ID !in rows by {
      assert lost !in recs;
    }
    assert RECOVERED_ROOT_ID in Unplaced(recs);
    assert recs[RECOVERED_ROOT_ID].parent !in recs;
    AcyclicIff(recs);
  }

  // ------------------------------------------------- captioned parents

  /** Following recs' parents from id ends, after steps steps, at the root or at a
      parent without a record: the chain enters no cycle. */
  predicate ChainEnds(recs: Records, id: Id, steps: nat)
    requires id in recs
    decreases steps
  {
    var p := recs[id].parent;
    if p == "" || p !in recs then steps == 0
    else steps > 0 && ChainEnds(recs, p, steps - 1)
  }

  /** The records still waiting whose parent has no record. */
  function Tops(recs: Records, rows: Dirs): set<Id> {
    set id | id in Waiting(recs, rows) && recs[id].parent !in recs
  }

  /** One rescue pass is enough for every chain that ends. */
  lemma {:induction false} EndingChainPlaced(recs: Records, rows: Dirs, next: Dirs, id: Id, steps: nat)
    requires WellFormed(recs) && id in recs && ChainEnds(recs, id, steps)
    requires Ready(recs, rows) == {} && Ready(recs, next) == {}
    requires rows.Keys + Tops(recs, rows) <= next.Keys
    ensures id in next && (Tops(recs, rows) == {} ==> id in rows)
    decreases steps
  {
    var p := recs[id].parent;
    assert id !in Ready(recs, rows) && id !in Ready(recs, next);
    if p in recs && p != "" {
      EndingChainPlaced(recs, rows, next, p, steps - 1);
    } else {
      assert p != "" && id !in rows ==> id in Tops(recs, rows);
    }
  }

  /** A directory keeps its captioned parent when that parent has a record and its
      chain of ancestors enters no cycle. */
  lemma CaptionedParentKept(recs: Records, id: Id, steps: nat)
    requires WellFormed(recs) && id in recs && id != RECOVERED_ROOT_ID
    requires recs[id].parent == "" || recs[id].parent in recs
    requires ChainEnds(recs, id, steps)
    ensures id in Rebuilt(recs)
    ensures Rebuilt(recs)[id].parent == recs[id].parent && Rebuilt(recs)[id].name == recs[id].name
  {
    var rows := PlaceAll(recs, map[]);
    PlaceAllDerived(recs, map[], map[]);
    assert Rebuilt(recs) == Rescue(recs, rows, false);
    if Waiting(recs, rows) != {} {
      KeptByRescue(recs, rows, id, steps);
    } else {
      assert id !in Waiting(recs, rows);
    }
  }

  lemma KeptByRescue(recs: Records, rows: Dirs, id: Id, steps: nat)
    requires WellFormed(recs) && "" !in rows && Derived(recs, map[], rows) && Ready(recs, rows) == {}
    requires Waiting(recs, rows) != {}
    requires id in recs && id != RECOVERED_ROOT_ID && ChainEnds(recs, id, steps)
    requires recs[id].parent == "" || recs[id].parent in recs
    ensures var out := Rescue(recs, rows, false);
            id in out && out[id].parent == recs[id].parent && out[id].name == recs[id].name
  {
    RescueStep(recs, rows, false);
    var base := Rerooted(recs, rows, false);
    var next := PlaceAll(recs, base);
    TopsRerooted(recs, rows);
    EndingChainPlaced(recs, rows, next, id, steps);
    RescueKeeps(recs, next, id);
    NotRerooted(recs, rows, id);
    assert next[id] == if id in rows then rows[id] else RowFor(recs, next, id);
  }

  lemma TopsRerooted(recs: Records, rows: Dirs)
    requires Waiting(recs, rows) != {}
    ensures rows.Keys + Tops(recs, rows) <= Rerooted(recs, rows, false).Keys
  {
    assert Tops(recs, rows) == set k | k in Waiting(recs, rows) && recs[k].parent !in recs;
  }

  lemma NotRerooted(recs: Records, rows: Dirs, id: Id)
    requires WellFormed(recs) && Waiting(recs, rows) != {} && Derived(recs, map[], rows) && Ready(recs, rows) == {}
    requires id in recs && id != RECOVERED_ROOT_ID && (recs[id].parent == "" || recs[id].parent in recs)
    requires Tops(recs, rows) == {} ==> id in rows
    ensures var base := Rerooted(recs, rows, false);
            if id in rows then id in base && base[id] == rows[id] else id !in base
  {
    assert Tops(recs, rows) == set k | k in Waiting(recs, rows) && recs[k].parent !in recs;
    assert id !in Ready(recs, rows);
  }

  // ------------------------------------------------- an intact channel

  function RecordsOf(dirs: Dirs): Records {
    map id | id in dirs :: DirRec(dirs[id].parent, dirs[id].name, dirs[id].msg)
  }

  /** Records of a consistent table rebuild exactly that table. */
  lemma IntactRecordsRebuild(dirs: Dirs)
    requires AllLinked(dirs)
    ensures WellFormed(RecordsOf(dirs)) && Rebuilt(RecordsOf(dirs)) == dirs
  {
    var recs := RecordsOf(dirs);
    forall id | id in dirs ensures Linked(dirs, id) {}
    forall id | id in dirs ensures dirs[id] == RowFor(recs, dirs, id) {
      assert Linked(dirs, id);
    }
    assert Derived(recs, map[], dirs);
    DerivedUnique(recs, map[], dirs);
    assert Waiting(recs, dirs) == {};
  }
}

/** The rows of the staged-download cache and what staging and sweeping do to them under one
    byte limit (internal/drive/download.go, internal/database/downloads.go). */
module StagedCache {
  import opened Sums
  import opened Text

  type Id = string

  datatype Status = Pending | Running | Ready | Complete | Failed | Cancelled | Expired

  /** A staged row of download_jobs; hasPath stands for cache_path <> '', expires 0 for never.
      The file is None once it has been deleted. */
  datatype Row = Row(file: Option<Id>, size: nat, status: Status, hasPath: bool, expires: int, lastUsed: int)

  type Rows = map<Id, Row>

  predicate Active(r: Row) {
    r.status == Pending || r.status == Running
  }

  /** What CacheUsage counts: reservations of active jobs, and bytes that may be on disk. */
  predicate Counted(r: Row) {
    Active(r) || r.hasPath
  }

  /** What EvictableDownloads lists. */
  predicate Evictable(r: Row) {
    !Active(r) && r.hasPath
  }

  function Weight(r: Row): nat {
    if Counted(r) then r.size else 0
  }

  function Weights(rows: Rows): map<Id, nat> {
    map k | k in rows :: Weight(rows[k])
  }

  ghost function Usage(rows: Rows): nat {
    Total(Weights(rows))
  }

  lemma UsageSplit(rows: Rows, k: Id)
    requires k in rows
    ensures Usage(rows) == Weight(rows[k]) + Usage(rows - {k})
  {
    TotalSplit(Weights(rows), k);
    assert Weights(rows) - {k} == Weights(rows - {k});
  }

  lemma UsagePut(rows: Rows, k: Id, r: Row)
    ensures Usage(rows[k := r]) == Usage(rows - {k}) + Weight(r)
    ensures k !in rows ==> Usage(rows[k := r]) == Usage(rows) + Weight(r)
  {
    UsageSplit(rows[k := r], k);
    assert rows[k := r] - {k} == rows - {k};
    assert k !in rows ==> rows - {k} == rows;
  }

  // ------------------------------------------------------------ eviction

  /** EvictableDownloads: least recently used first. */
  ghost predicate IsLru(rows: Rows, ids: seq<Id>) {
    && (forall k :: k in ids <==> k in rows && Evictable(rows[k]))
    && (forall i, j | 0 <= i < j < |ids| :: ids[i] != ids[j])
    && (forall i, j | 0 <= i < j < |ids| :: rows[ids[i]].lastUsed <= rows[ids[j]].lastUsed)
  }

  function Elements(ids: seq<Id>): set<Id> {
    set k | k in ids
  }

  /** A row of EvictableDownloads as it was when it was listed. */
  datatype Candidate = Candidate(id: Id, size: nat)

  function Ids(list: seq<Candidate>): set<Id> {
    set c | c in list :: c.id
  }

  /** The listing in one snapshot of the rows. */
  ghost predicate IsListing(rows: Rows, list: seq<Candidate>) {
    && (forall k :: k in Ids(list) <==> k in rows && Evictable(rows[k]))
    && (forall i, j | 0 <= i < j < |list| :: list[i].id != list[j].id)
    && (forall c | c in list :: c.id in rows && c.size == rows[c.id].size)
    && (forall i, j | 0 <= i < j < |list| :: rows[list[i].id].lastUsed <= rows[list[j].id].lastUsed)
  }

  function Less(used: nat, size: nat): nat {
    if used >= size then used - size else 0
  }

  /** What makeRoomFor makes of its own count: a candidate whose row is gone cannot be deleted
      any more, and nothing is subtracted for it. */
  function Spent(rows: Rows, used: nat, list: seq<Candidate>): nat {
    if list == [] then used
    else
      var c, was := list[|list| - 1], Spent(rows, used, list[..|list| - 1]);
      if c.id in rows && c.id !in Ids(list[..|list| - 1]) then Less(was, c.size) else was
  }

  lemma NextSpent(rows: Rows, used: nat, list: seq<Candidate>, i: nat)
    requires i < |list|
    ensures var was, now, next, c := rows - Ids(list[..i]), Spent(rows, used, list[..i]), rows - Ids(list[..i + 1]), list[i];
            if c.id in was then next == was - {c.id} && Spent(rows, used, list[..i + 1]) == Less(now, c.size)
            else next == was && Spent(rows, used, list[..i + 1]) == now
  {
    assert list[..i + 1] == list[..i] + [list[i]] && list[..i + 1][..i] == list[..i];
    assert Ids(list[..i + 1]) == Ids(list[..i]) + {list[i].id} by {
      assert forall c :: c in list[..i + 1] <==> c in list[..i] || c == list[i];
    }
    hide Ids;
    assert rows - Ids(list[..i + 1]) == rows - Ids(list[..i]) - {list[i].id};
    assert list[i].id !in rows - Ids(list[..i]) ==> rows - Ids(list[..i]) - {list[i].id} == rows - Ids(list[..i]);
  }

  /** makeRoomFor, with nothing else happening between its deletions: evicts the shortest run
      of candidates that makes the new file fit by its own count, and refuses only when all
      of them are not enough. */
  method MakeRoomFor(rows: Rows, limit: nat, size: nat, used: nat, list: seq<Candidate>)
    returns (left: Rows, now: nat, ghost n: nat, ok: bool)
    ensures n <= |list| && left == rows - Ids(list[..n]) && now == Spent(rows, used, list[..n])
    ensures ok <==> now + size <= limit
    ensures !ok ==> n == |list|
    ensures forall i | 0 <= i < n :: Spent(rows, used, list[..i]) + size > limit
  {
    left, now, n := rows, used, 0;
    assert rows - Ids(list[..0]) == rows && Spent(rows, used, list[..0]) == used;
    hide *;
    var i := 0;
    while i < |list| && now + size > limit
      invariant n == i <= |list| && left == rows - Ids(list[..i]) && now == Spent(rows, used, list[..i])
      invariant forall j | 0 <= j < i :: Spent(rows, used, list[..j]) + size > limit
    {
      NextSpent(rows, used, list, i);
      if list[i].id in left {
        left, now := left - {list[i].id}, Less(now, list[i].size);
      }
      i, n := i + 1, n + 1;
    }
    ok := now + size <= limit;
  }

  /** When the usage and the list are those of the rows themselves, the count is the usage of
      what is left. */
  lemma {:induction false} SpentIsUsage(rows: Rows, list: seq<Candidate>, n: nat)
    requires IsListing(rows, list) && n <= |list|
    ensures Spent(rows, Usage(rows), list[..n]) == Usage(rows - Ids(list[..n]))
  {
    if n == 0 {
      assert rows - Ids(list[..0]) == rows;
    } else {
      SpentIsUsage(rows, list, n - 1);
      NextSpent(rows, Usage(rows), list, n - 1);
      ListedOnce(rows, list, n - 1);
      hide Usage, IsListing, Ids, Spent;
      UsageSplit(rows - Ids(list[..n - 1]), list[n - 1].id);
    }
  }

  lemma ListedOnce(rows: Rows, list: seq<Candidate>, i: nat)
    requires IsListing(rows, list) && i < |list|
    ensures list[i].id in rows - Ids(list[..i]) && Weight(rows[list[i].id]) == list[i].size
  {
    assert list[i] in list && list[i].id in Ids(list);
    assert list[i].id !in Ids(list[..i]);
    hide Usage;
  }

  /** What the sweep does to expired copies and finished leftovers. */
  predicate Sweepable(r: Row, now: int) {
    (r.expires != 0 && r.expires <= now) || r.status == Failed || r.status == Cancelled || r.status == Expired
  }

  function Swept(r: Row, now: int): Row {
    r.(hasPath := false, expires := 0,
       status := if r.expires != 0 && r.expires <= now && r.status != Expired then Expired else r.status)
  }

  function AfterSweep(rows: Rows, done: set<Id>, now: int): Rows {
    map k | k in rows :: if k in done && Evictable(rows[k]) && Sweepable(rows[k], now) then Swept(rows[k], now) else rows[k]
  }

  lemma SweepOne(rows: Rows, done: set<Id>, now: int, k: Id)
    requires k in rows && k !in done && Evictable(rows[k])
    ensures var was, more := AfterSweep(rows, done, now), AfterSweep(rows, done + {k}, now);
            && k in was && was[k] == rows[k]
            && more == (if Sweepable(rows[k], now) then was[k := Swept(rows[k], now)] else was)
            && Usage(more) == Usage(was) - (if Sweepable(rows[k], now) then rows[k].size else 0)
            && Usage(was) >= rows[k].size
  {
    var was, more := AfterSweep(rows, done, now), AfterSweep(rows, done + {k}, now);
    assert was[k] == rows[k];
    assert more == if Sweepable(rows[k], now) then was[k := Swept(rows[k], now)] else was;
    UsagePut(was, k, more[k]);
    UsageSplit(was, k);
    assert was[k := was[k]] == was;
    hide Usage;
  }

  /** The copies that survive the first pass of a sweep, least recently used first. */
  ghost predicate IsLive(swept: Rows, live: seq<Id>, now: int) {
    IsLru(swept, live) && forall k | k in live :: !Sweepable(swept[k], now)
  }

  lemma NothingSwept(rows: Rows, lru: seq<Id>, now: int)
    ensures AfterSweep(rows, Elements(lru[..0]), now) == rows && LiveSoFar(rows, lru[..0], [], now)
    ensures lru[..|lru|] == lru
  {
  }

  /** The first pass: expired copies and finished leftovers lose their bytes, and nothing
      else changes. */
  method SweepExpired(rows: Rows, now: int, usage: nat, lru: seq<Id>) returns (left: Rows, live: seq<Id>, used: nat)
    requires IsLru(rows, lru) && usage == Usage(rows)
    ensures left == AfterSweep(rows, Elements(lru), now) && used == Usage(left) <= usage && IsLive(left, live, now)
  {
    hide *;
    left, live, used := rows, [], usage;
    NothingSwept(rows, lru, now);
    for i := 0 to |lru|
      invariant left == AfterSweep(rows, Elements(lru[..i]), now) && used == Usage(left) <= usage
      invariant LiveSoFar(rows, lru[..i], live, now)
    {
      var k := lru[i];
      NextCandidate(rows, lru, i, live, now);
      SweepOne(rows, Elements(lru[..i]), now, k);
      if Sweepable(rows[k], now) {
        used := used - rows[k].size;
        left := left[k := Swept(rows[k], now)];
      } else {
        live := live + [k];
      }
    }
    AllSwept(rows, lru, live, now);
  }

  ghost predicate LiveSoFar(rows: Rows, done: seq<Id>, live: seq<Id>, now: int) {
    && (forall k :: k in live <==> k in done && k in rows && !Sweepable(rows[k], now))
    && (forall i, j | 0 <= i < j < |live| :: live[i] != live[j])
    && (forall i, j | 0 <= i < j < |live| :: rows[live[i]].lastUsed <= rows[live[j]].lastUsed)
  }

  lemma NextCandidate(rows: Rows, lru: seq<Id>, i: nat, live: seq<Id>, now: int)
    requires IsLru(rows, lru) && i < |lru| && LiveSoFar(rows, lru[..i], live, now)
    ensures lru[i] in rows && lru[i] !in Elements(lru[..i]) && Evictable(rows[lru[i]])
    ensures Elements(lru[..i + 1]) == Elements(lru[..i]) + {lru[i]}
    ensures LiveSoFar(rows, lru[..i + 1], if Sweepable(rows[lru[i]], now) then live else live + [lru[i]], now)
  {
    assert lru[i] in lru && lru[i] !in lru[..i];
    assert lru[..i + 1] == lru[..i] + [lru[i]];
    forall j | 0 <= j < |live| ensures rows[live[j]].lastUsed <= rows[lru[i]].lastUsed {
      assert live[j] in live && live[j] in lru[..i];
    }
    assert forall j | 0 <= j < |live| :: live[j] in live;
    hide Evictable, Sweepable;
  }

  lemma AllSwept(rows: Rows, lru: seq<Id>, live: seq<Id>, now: int)
    requires IsLru(rows, lru) && LiveSoFar(rows, lru, live, now)
    ensures IsLive(AfterSweep(rows, Elements(lru), now), live, now)
  {
    assert forall j | 0 <= j < |live| :: live[j] in live;
  }

  /** The rows after the first n of the ids have gone. */
  function Without(rows: Rows, ids: seq<Id>, n: nat): Rows
    requires n <= |ids|
  {
    rows - Elements(ids[..n])
  }

  lemma LiveOne(swept: Rows, live: seq<Id>, i: nat)
    requires IsLru(swept, live) && i < |live|
    ensures live[i] in swept && Without(swept, live, i + 1) == Without(swept, live, i) - {live[i]}
    ensures Usage(Without(swept, live, i + 1)) == Usage(Without(swept, live, i)) - swept[live[i]].size
  {
    assert live[i] in live && live[i] !in live[..i];
    assert live[..i + 1] == live[..i] + [live[i]];
    assert Without(swept, live, i + 1) == Without(swept, live, i) - {live[i]};
    UsageSplit(Without(swept, live, i), live[i]);
    hide Usage;
  }

  lemma NoneGone(swept: Rows, live: seq<Id>)
    ensures Without(swept, live, 0) == swept
  {
  }

  /** The second pass: while the limit is exceeded, and only then, the least recently used
      of the live copies goes. */
  method Trim(swept: Rows, limit: int, usage: nat, live: seq<Id>) returns (left: Rows, ghost n: nat)
    requires IsLru(swept, live) && usage == Usage(swept)
    ensures n <= |live| && left == Without(swept, live, n)
    ensures forall i | 0 <= i < n :: Usage(Without(swept, live, i)) > limit > 0
    ensures limit > 0 ==> Usage(left) <= limit || n == |live|
  {
    hide *;
    var used := usage;
    left, n := swept, 0;
    NoneGone(swept, live);
    var i := 0;
    while i < |live| && limit > 0 && used > limit
      invariant n == i <= |live| && left == Without(swept, live, i) && used == Usage(left)
      invariant forall j | 0 <= j < i :: Usage(Without(swept, live, j)) > limit > 0
    {
      LiveOne(swept, live, i);
      left := left - {live[i]};
      used := used - swept[live[i]].size;
      i, n := i + 1, n + 1;
    }
  }

  /** What the first pass leaves: expired copies and finished leftovers lose their bytes, and
      nothing else changes. */
  ghost predicate FirstPass(rows: Rows, swept: Rows, now: int) {
    && swept.Keys == rows.Keys
    && forall k | k in rows ::
         var r := rows[k];
         swept[k] ==
         if r.status == Pending || r.status == Running || !r.hasPath then r
         else if r.expires != 0 && r.expires <= now then r.(status := Expired, hasPath := false, expires := 0)
         else if r.status == Ready || r.status == Complete then r
         else r.(hasPath := false, expires := 0)
  }

  lemma SweepIsFirstPass(rows: Rows, lru: seq<Id>, now: int)
    requires IsLru(rows, lru)
    ensures FirstPass(rows, AfterSweep(rows, Elements(lru), now), now)
  {
  }

  lemma SweepLeaves(swept: Rows, live: seq<Id>, n: nat)
    requires IsLru(swept, live) && n <= |live|
    ensures Without(swept, live, 0) == swept && Without(swept, live, n).Keys <= swept.Keys
    ensures forall k | k in Without(swept, live, n) :: Without(swept, live, n)[k] == swept[k]
    ensures n == |live| ==> forall k | k in Without(swept, live, n) :: !Evictable(swept[k])
    ensures forall k | k in swept && !Evictable(swept[k]) :: k in Without(swept, live, n)
  {
    assert live[..|live|] == live && forall k | k in live[..n] :: k in live;
  }

  /** SweepCache over the rows, all deletions succeeding: live are the copies that survive the
      first pass, n those of them that go. */
  method Sweep(rows: Rows, limit: int, now: int, usage: nat, lru: seq<Id>)
    returns (left: Rows, ghost swept: Rows, ghost live: seq<Id>, ghost n: nat)
    requires IsLru(rows, lru) && usage == Usage(rows)
    ensures FirstPass(rows, swept, now)
    ensures IsLru(swept, live) && n <= |live| && left == Without(swept, live, n)
    ensures limit <= 0 || Usage(swept) <= limit ==> left == swept
    ensures forall i | 0 <= i < n :: Usage(Without(swept, live, i)) > limit > 0
    ensures limit > 0 ==> Usage(left) <= limit || forall k | k in left :: !Evictable(left[k])
    ensures forall k | k in swept && !Evictable(swept[k]) :: k in left
  {
    hide *;
    var first, copies, used := SweepExpired(rows, now, usage, lru);
    SweepIsFirstPass(rows, lru, now);
    LiveIsLru(first, copies, now);
    swept, live := first, copies;
    left, n := Trim(first, limit, used, copies);
    SweepLeaves(swept, live, n);
  }

  lemma LiveIsLru(swept: Rows, live: seq<Id>, now: int)
    requires IsLive(swept, live, now)
    ensures IsLru(swept, live)
  {
  }
}

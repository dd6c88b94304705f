/** Daily byte budgets: what a transfer may reserve, and what stays true of the books
    (internal/drive/quota.go). */
module Quota {
  import opened Text

  datatype Direction = Upload | Download

  datatype Key = Key(account: string, date: string, direction: Direction)

  /** One reservation: settled once, for the expected size unless told otherwise. */
  datatype Reservation = Reservation(key: Key, expected: int, actual: Option<int>, committed: bool)

  /** used and reserved are the tracker's maps, an absent key meaning zero; res lists every
      reservation ever handed out. */
  datatype Books = Books(used: map<Key, int>, reserved: map<Key, int>, res: seq<Reservation>)

  function At(m: map<Key, int>, key: Key): int {
    if key in m then m[key] else 0
  }

  predicate IsOpen(r: Reservation, key: Key) {
    !r.committed && r.key == key
  }

  /** The outstanding bytes of a key, and how many outstanding reservations hold any. */
  function Outstanding(res: seq<Reservation>, key: Key): int {
    if res == [] then 0
    else Outstanding(res[..|res| - 1], key) + if IsOpen(res[|res| - 1], key) then res[|res| - 1].expected else 0
  }

  function Holders(res: seq<Reservation>, key: Key): nat {
    if res == [] then 0
    else Holders(res[..|res| - 1], key) + if IsOpen(res[|res| - 1], key) && res[|res| - 1].expected > 0 then 1 else 0
  }

  /** What a settled reservation costs. */
  function Cost(r: Reservation): int {
    if r.actual.Some? then r.actual.value else r.expected
  }

  // ------------------------------------------------------------ the decisions

  /** mayStart: the content fits, or it is alone. */
  predicate MayStart(used: int, reserved: int, limit: int, size: int) {
    size <= 0 || limit <= 0
    || (used < limit && reserved < limit - used && (size <= limit - used - reserved || reserved == 0))
  }

  /** fits: the bytes that remain cover the content. */
  predicate Fits(used: int, reserved: int, limit: int, size: int) {
    size <= 0 || limit <= 0 || (used < limit && reserved < limit - used && size <= limit - used - reserved)
  }

  // ------------------------------------------------------------ the transitions

  function Reserved(b: Books, key: Key, size: int): Books {
    var n := if size < 0 then 0 else size;
    b.(reserved := b.reserved[key := At(b.reserved, key) + n], res := b.res + [Reservation(key, n, None, false)])
  }

  function ActualSet(b: Books, id: nat, bytes: int): Books
    requires id < |b.res|
  {
    if b.res[id].committed then b
    else b.(res := b.res[id := b.res[id].(actual := Some(if bytes < 0 then 0 else bytes))])
  }

  function Committed(b: Books, id: nat): Books
    requires id < |b.res|
  {
    var r := b.res[id];
    if r.committed then b
    else
      b.(reserved := b.reserved[r.key := if At(b.reserved, r.key) >= r.expected then At(b.reserved, r.key) - r.expected else 0],
         used := b.used[r.key := At(b.used, r.key) + if Cost(r) > 0 then Cost(r) else 0],
         res := b.res[id := r.(committed := true)])
  }

  // ------------------------------------------------------------ what the books keep

  /** reserved is exactly the uncommitted reservations, key by key. */
  ghost predicate Balanced(b: Books) {
    && (forall key :: At(b.reserved, key) == Outstanding(b.res, key))
    && forall i | 0 <= i < |b.res| :: b.res[i].expected >= 0
  }

  /** What settled transfers of a key were charged beyond what they had reserved. */
  function Overrun(res: seq<Reservation>, key: Key): (over: int)
    ensures over >= 0
  {
    if res == [] then 0 else Overrun(res[..|res| - 1], key) + OverrunOf(res[|res| - 1], key)
  }

  function OverrunOf(r: Reservation, key: Key): int {
    if r.committed && r.key == key && Cost(r) > r.expected then Cost(r) - r.expected else 0
  }

  /** With limit in force for key, and but for the overrun: the reservations fit, or a
      single content crosses the limit, having started below it, or nothing is outstanding. */
  predicate WithinLimit(b: Books, key: Key, limit: int) {
    || At(b.used, key) + At(b.reserved, key) <= limit + Overrun(b.res, key)
    || (Holders(b.res, key) == 1 && At(b.used, key) < limit + Overrun(b.res, key))
    || Holders(b.res, key) == 0
  }

  /** No content is larger than most. */
  predicate AtMost(b: Books, most: int) {
    forall i | 0 <= i < |b.res| :: b.res[i].expected <= most
  }

  ghost predicate Kept(b: Books, key: Key, limit: int, most: int) {
    && Balanced(b) && AtMost(b, most) && WithinLimit(b, key, limit)
    && At(b.used, key) < limit + most + Overrun(b.res, key)
  }

  lemma {:induction false} OverrunUpdate(res: seq<Reservation>, id: nat, r: Reservation, key: Key)
    requires id < |res|
    ensures Overrun(res[id := r], key) == Overrun(res, key) - OverrunOf(res[id], key) + OverrunOf(r, key)
  {
    var n := |res| - 1;
    if id == n {
      assert res[id := r][..n] == res[..n];
    } else {
      assert res[id := r][..n] == res[..n][id := r];
      OverrunUpdate(res[..n], id, r, key);
    }
    hide OverrunOf;
  }

  lemma OverrunAppend(res: seq<Reservation>, r: Reservation, key: Key)
    ensures Overrun(res + [r], key) == Overrun(res, key) + OverrunOf(r, key)
  {
    assert (res + [r])[..|res|] == res;
  }

  /** Nobody was charged more than it had reserved. */
  lemma {:induction false} NoOverrun(res: seq<Reservation>, key: Key)
    requires forall i | 0 <= i < |res| :: res[i].actual.Some? ==> res[i].actual.value <= res[i].expected
    ensures Overrun(res, key) == 0
  {
    if res != [] { NoOverrun(res[..|res| - 1], key); }
  }

  lemma {:induction false} OutstandingUpdate(res: seq<Reservation>, id: nat, r: Reservation, key: Key)
    requires id < |res|
    ensures Outstanding(res[id := r], key) ==
            Outstanding(res, key) - (if IsOpen(res[id], key) then res[id].expected else 0) + if IsOpen(r, key) then r.expected else 0
    ensures Holders(res[id := r], key) ==
            Holders(res, key) - (if IsOpen(res[id], key) && res[id].expected > 0 then 1 else 0)
            + if IsOpen(r, key) && r.expected > 0 then 1 else 0
  {
    var n := |res| - 1;
    if id == n {
      assert res[id := r][..n] == res[..n];
    } else {
      assert res[id := r][..n] == res[..n][id := r];
      OutstandingUpdate(res[..n], id, r, key);
    }
    hide IsOpen;
  }

  lemma OutstandingAppend(res: seq<Reservation>, r: Reservation, key: Key)
    ensures Outstanding(res + [r], key) == Outstanding(res, key) + if IsOpen(r, key) then r.expected else 0
    ensures Holders(res + [r], key) == Holders(res, key) + if IsOpen(r, key) && r.expected > 0 then 1 else 0
  {
    assert (res + [r])[..|res|] == res;
  }

  /** Nothing is reserved exactly when nobody holds anything. */
  lemma {:induction false} HoldersHold(res: seq<Reservation>, key: Key)
    requires forall i | 0 <= i < |res| :: res[i].expected >= 0
    ensures Outstanding(res, key) >= 0 && (Outstanding(res, key) == 0 <==> Holders(res, key) == 0)
  {
    if res != [] {
      HoldersHold(res[..|res| - 1], key);
    }
  }

  /** An open reservation is part of what is outstanding. */
  lemma {:induction false} OneOutstanding(res: seq<Reservation>, id: nat, key: Key)
    requires id < |res| && IsOpen(res[id], key) && forall i | 0 <= i < |res| :: res[i].expected >= 0
    ensures Outstanding(res, key) >= res[id].expected
    ensures res[id].expected > 0 ==> Holders(res, key) >= 1
  {
    OutstandingUpdate(res, id, res[id].(committed := true), key);
    HoldersHold(res[id := res[id].(committed := true)], key);
  }

  lemma ReserveKept(b: Books, key: Key, limit: int, most: int, k: Key, size: int)
    requires Kept(b, key, limit, most) && limit > 0 && size <= most && 0 <= most
    requires k == key ==> MayStart(At(b.used, key), At(b.reserved, key), limit, size)
    ensures Kept(Reserved(b, k, size), key, limit, most)
  {
    var c := Reserved(b, k, size);
    forall x ensures At(c.reserved, x) == Outstanding(c.res, x) {
      OutstandingAppend(b.res, c.res[|b.res|], x);
    }
    OutstandingAppend(b.res, c.res[|b.res|], key);
    OverrunAppend(b.res, c.res[|b.res|], key);
    HoldersHold(b.res, key);
    hide Outstanding, Holders, Overrun;
  }

  lemma SetActualKept(b: Books, key: Key, limit: int, most: int, id: nat, bytes: int)
    requires Kept(b, key, limit, most) && id < |b.res|
    ensures Kept(ActualSet(b, id, bytes), key, limit, most)
  {
    var c := ActualSet(b, id, bytes);
    if !b.res[id].committed {
      forall x ensures At(c.reserved, x) == Outstanding(c.res, x) {
        OutstandingUpdate(b.res, id, c.res[id], x);
      }
      OutstandingUpdate(b.res, id, c.res[id], key);
      OverrunUpdate(b.res, id, c.res[id], key);
    }
    hide Outstanding, Holders, Overrun;
  }

  lemma CommitKept(b: Books, key: Key, limit: int, most: int, id: nat)
    requires Kept(b, key, limit, most) && id < |b.res| && limit > 0
    ensures Kept(Committed(b, id), key, limit, most)
  {
    var c, r := Committed(b, id), b.res[id];
    if !r.committed {
      OneOutstanding(b.res, id, r.key);
      forall x ensures At(c.reserved, x) == Outstanding(c.res, x) {
        OutstandingUpdate(b.res, id, c.res[id], x);
      }
      OutstandingUpdate(b.res, id, c.res[id], key);
      OverrunUpdate(b.res, id, c.res[id], key);
      HoldersHold(b.res, key);
      HoldersHold(c.res, key);
    }
    hide Outstanding, Holders, Overrun;
  }

  // ------------------------------------------------------------ runs

  datatype Event = Reserve(key: Key, size: int) | SetActual(id: nat, bytes: int) | Commit(id: nat)

  /** The events of a run in which key's limit is fixed. Other keys may do as they like. */
  predicate Allowed(b: Books, key: Key, limit: int, most: int, e: Event) {
    match e
    case Reserve(k, size) => size <= most && (k == key ==> MayStart(At(b.used, key), At(b.reserved, key), limit, size))
    case SetActual(id, bytes) => id < |b.res|
    case Commit(id) => id < |b.res|
  }

  function Next(b: Books, e: Event): Books
    requires e.Reserve? || e.id < |b.res|
  {
    match e
    case Reserve(k, size) => Reserved(b, k, size)
    case SetActual(id, bytes) => ActualSet(b, id, bytes)
    case Commit(id) => Committed(b, id)
  }

  predicate IsRun(b: Books, key: Key, limit: int, most: int, events: seq<Event>)
    decreases |events|
  {
    events == [] || (Allowed(b, key, limit, most, events[0]) && IsRun(Next(b, events[0]), key, limit, most, events[1..]))
  }

  function After(b: Books, key: Key, limit: int, most: int, events: seq<Event>): Books
    requires IsRun(b, key, limit, most, events)
    decreases |events|
  {
    if events == [] then b else After(Next(b, events[0]), key, limit, most, events[1..])
  }

  /** In every reachable state reserved is the sum of the uncommitted reservations, and but
      for what transfers were charged beyond their reservations the limit is respected,
      except by one content that crosses it alone: used stays below the limit plus the
      largest content plus the overrun. */
  lemma {:induction false} RunKept(b: Books, key: Key, limit: int, most: int, events: seq<Event>)
    requires Kept(b, key, limit, most) && limit > 0 && most >= 0 && IsRun(b, key, limit, most, events)
    ensures var c := After(b, key, limit, most, events);
            var over := Overrun(c.res, key);
            && Kept(c, key, limit, most)
            && At(c.reserved, key) == Outstanding(c.res, key)
            && At(c.used, key) < limit + most + over
            && (|| At(c.used, key) + At(c.reserved, key) <= limit + over
                || (Holders(c.res, key) == 1 && At(c.used, key) < limit + over)
                || (Holders(c.res, key) == 0 && At(c.reserved, key) == 0))
    decreases |events|
  {
    if events == [] {
      HoldersHold(b.res, key);
    } else {
      match events[0] {
        case Reserve(k, size) => ReserveKept(b, key, limit, most, k, size);
        case SetActual(id, bytes) => SetActualKept(b, key, limit, most, id, bytes);
        case Commit(id) => CommitKept(b, key, limit, most, id);
      }
      hide Kept, Reserved, ActualSet, Committed;
      RunKept(Next(b, events[0]), key, limit, most, events[1..]);
    }
  }

  /** Settling twice charges once. */
  lemma CommitOnce(b: Books, id: nat)
    requires id < |b.res|
    ensures Committed(Committed(b, id), id) == Committed(b, id)
    ensures forall bytes :: ActualSet(Committed(b, id), id, bytes) == Committed(b, id)
  {
  }

  /** Settling a reservation takes what it had reserved off its key, and charges what was
      used: the actual bytes when they were told, else what was expected. */
  lemma CommitCharges(b: Books, id: nat)
    requires Balanced(b) && id < |b.res| && !b.res[id].committed
    ensures var c, r := Committed(b, id), b.res[id];
            && At(c.reserved, r.key) == At(b.reserved, r.key) - r.expected
            && At(c.used, r.key) == At(b.used, r.key) +
               (if r.actual.None? then r.expected else if r.actual.value > 0 then r.actual.value else 0)
            && (forall k | k != r.key :: At(c.used, k) == At(b.used, k) && At(c.reserved, k) == At(b.reserved, k))
            && c.res == b.res[id := r.(committed := true)]
  {
    OneOutstanding(b.res, id, b.res[id].key);
    hide Outstanding, Holders;
  }

  /** A content fits when used, reserved and its own bytes stay within the limit; without a
      limit, or without bytes, always. It may start when it fits, or when nothing is reserved
      and the limit is not reached yet. */
  lemma FitsMayStart(used: int, reserved: int, limit: int, size: int)
    requires reserved >= 0
    ensures Fits(used, reserved, limit, size) <==> size <= 0 || limit <= 0 || used + reserved + size <= limit
    ensures MayStart(used, reserved, limit, size) <==> Fits(used, reserved, limit, size) || (reserved == 0 && used < limit)
    ensures MayStart(used, reserved, limit, size) && !Fits(used, reserved, limit, size)
            ==> reserved == 0 && used < limit < used + size
  {
  }

  /** When no transfer is charged more than it reserved, used stays below the limit plus
      the largest content. */
  lemma HonestRunBounded(key: Key, limit: int, most: int, events: seq<Event>)
    requires limit > 0 && most >= 0 && IsRun(Books(map[], map[], []), key, limit, most, events)
    requires var c := After(Books(map[], map[], []), key, limit, most, events);
             forall i | 0 <= i < |c.res| :: c.res[i].actual.Some? ==> c.res[i].actual.value <= c.res[i].expected
    ensures At(After(Books(map[], map[], []), key, limit, most, events).used, key) < limit + most
  {
    var b := Books(map[], map[], []);
    RunKept(b, key, limit, most, events);
    NoOverrun(After(b, key, limit, most, events).res, key);
    hide IsRun, After, Overrun;
  }

  /** The bound is attained: a key one byte below its limit, then the largest content, and
      that charged over more than it reserved. */
  lemma BoundIsAttained(key: Key, limit: int, most: int, over: int)
    requires limit > 0 && most > 0 && over >= 0
    ensures var events := [Reserve(key, limit - 1), Commit(0), Reserve(key, most), SetActual(1, most + over), Commit(1)];
            var biggest := if limit - 1 > most then limit - 1 else most;
            IsRun(Books(map[], map[], []), key, limit, biggest, events)
            && var c := After(Books(map[], map[], []), key, limit, biggest, events);
               At(c.used, key) == limit + most + over - 1 && Overrun(c.res, key) == over
  {
    var biggest := if limit - 1 > most then limit - 1 else most;
    var r0, r1 := Reservation(key, limit - 1, None, true), Reservation(key, most, Some(most + over), true);
    var b := Books(map[], map[], []);
    var b1 := Books(map[], map[key := limit - 1], [r0.(committed := false)]);
    var b2 := Books(map[key := limit - 1], map[key := 0], [r0]);
    var b3 := Books(map[key := limit - 1], map[key := most], [r0, Reservation(key, most, None, false)]);
    var b4 := Books(map[key := limit - 1], map[key := most], [r0, r1.(committed := false)]);
    var b5 := Books(map[key := limit - 1 + most + over], map[key := 0], [r0, r1]);
    assert Next(b, Reserve(key, limit - 1)) == b1 && Next(b1, Commit(0)) == b2;
    assert Next(b2, Reserve(key, most)) == b3 && Next(b3, SetActual(1, most + over)) == b4;
    assert Next(b4, Commit(1)) == b5;
    OverrunAppend([], r0, key);
    OverrunAppend([r0], r1, key);
    assert [r0] + [r1] == [r0, r1] && [] + [r0] == [r0];
    hide Next, Overrun, IsRun, After;
    FiveEvents(b, key, limit, biggest, [Reserve(key, limit - 1), Commit(0), Reserve(key, most), SetActual(1, most + over), Commit(1)],
               b1, b2, b3, b4, b5);
  }

  lemma FiveEvents(b: Books, key: Key, limit: int, most: int, e: seq<Event>, b1: Books, b2: Books, b3: Books, b4: Books, b5: Books)
    requires |e| == 5
    requires Allowed(b, key, limit, most, e[0]) && Next(b, e[0]) == b1
    requires Allowed(b1, key, limit, most, e[1]) && Next(b1, e[1]) == b2
    requires Allowed(b2, key, limit, most, e[2]) && Next(b2, e[2]) == b3
    requires Allowed(b3, key, limit, most, e[3]) && Next(b3, e[3]) == b4
    requires Allowed(b4, key, limit, most, e[4]) && Next(b4, e[4]) == b5
    ensures IsRun(b, key, limit, most, e) && After(b, key, limit, most, e) == b5
  {
    hide Next, Allowed;
    assert e[1..][1..] == e[2..] && e[2..][1..] == e[3..] && e[3..][1..] == e[4..] && e[4..][1..] == [];
    assert IsRun(b4, key, limit, most, e[4..]) && After(b4, key, limit, most, e[4..]) == b5;
    assert IsRun(b3, key, limit, most, e[3..]) && After(b3, key, limit, most, e[3..]) == b5;
    assert IsRun(b2, key, limit, most, e[2..]) && After(b2, key, limit, most, e[2..]) == b5;
    assert IsRun(b1, key, limit, most, e[1..]) && After(b1, key, limit, most, e[1..]) == b5;
  }

  // ------------------------------------------------------------ the tracker

  class QuotaTracker {
    var used: map<Key, int>
    var reserved: map<Key, int>
    var res: seq<Reservation>
    var generation: nat

    ghost function Ledger(): Books
      reads this
    {
      Books(used, reserved, res)
    }

    constructor (used: map<Key, int>)
      ensures Ledger() == Books(used, map[], []) && Balanced(Ledger())
    {
      this.used, this.reserved, this.res, this.generation := used, map[], [], 0;
    }

    /** reserve: the same decision as mayStart, and the claim, in one critical section. */
    method Reserve(key: Key, limit: int, size: int) returns (id: Option<nat>)
      modifies this
      ensures id == if MayStart(At(old(used), key), At(old(reserved), key), limit, size) then Some(|old(res)|) else None
      ensures Ledger() == if id.Some? then Reserved(old(Ledger()), key, size) else old(Ledger())
    {
      var n := if size < 0 then 0 else size;
      if limit > 0 && n > 0 {
        var u, r := At(used, key), At(reserved, key);
        if u >= limit || r >= limit - u {
          return None;
        }
        var remaining := limit - u - r;
        if n > remaining && r != 0 {
          return None;
        }
      }
      id := Some(|res|);
      reserved := reserved[key := At(reserved, key) + n];
      res := res + [Reservation(key, n, None, false)];
    }

    method SetActual(id: nat, bytes: int)
      requires id < |res|
      modifies this`res
      ensures Ledger() == ActualSet(old(Ledger()), id, bytes)
      ensures old(res)[id].committed ==> res == old(res)
      ensures !old(res)[id].committed ==> res[id].actual == Some(if bytes >= 0 then bytes else 0)
    {
      if !res[id].committed {
        res := res[id := res[id].(actual := Some(if bytes < 0 then 0 else bytes))];
      }
    }

    method Commit(id: nat)
      requires id < |res|
      modifies this
      ensures Ledger() == Committed(old(Ledger()), id)
      ensures generation == old(generation) + if old(res)[id].committed then 0 else 1
    {
      var r := res[id];
      if r.committed {
        return;
      }
      res := res[id := r.(committed := true)];
      var actual := if r.actual.Some? then r.actual.value else r.expected;
      if At(reserved, r.key) >= r.expected {
        reserved := reserved[r.key := At(reserved, r.key) - r.expected];
      } else {
        reserved := reserved[r.key := 0];
      }
      if actual > 0 {
        used := used[r.key := At(used, r.key) + actual];
      } else {
        used := used[r.key := At(used, r.key)];
      }
      generation := generation + 1;
    }
  }
}

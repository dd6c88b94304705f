/** Document handles: access hashes and file references are only good for the account they
    were minted for (internal/drive/source.go, internal/database/tree.go). */
module Handles {
  import opened Text

  type Account = string
  type SegKey = (string, int)
  type SourceId = nat
  type CallId = nat

  /** Who a secret was minted for, and for which message's document. */
  datatype Secret = Secret(account: Account, msg: nat)

  /** An access hash and a file reference, as one read presents them. */
  datatype Handle = Handle(hash: Secret, ref: Secret)

  /** A segment row; owner "" is unknown, and then the stored handle is nobody's. */
  datatype Row = Row(msg: nat, handle: Handle, owner: Account)

  /** An open source: the account it reads through, the row as it was when it was opened,
      and what it has learned since. */
  datatype Source = Source(key: SegKey, account: Account, seg: Row, state: Option<Handle>)

  /** A Chunk call under way, with the handle it has settled on. */
  datatype Call = Call(source: SourceId, handle: Option<Handle>)

  /** One ReadChunk: the account, the document asked for, and the handle presented. */
  datatype Request = Request(account: Account, msg: nat, handle: Handle)

  datatype World = World(
    rows: map<SegKey, Row>, cache: map<(SegKey, Account), Handle>, sources: map<SourceId, Source>,
    calls: map<CallId, Call>, sent: seq<Request>)

  datatype Event =
    | Upload(key: SegKey, account: Account, msg: nat)
    | Rescan(key: SegKey, account: Account, msg: nat)
    | Open(id: SourceId, key: SegKey, account: Account)
    | Begin(c: CallId, id: SourceId)
    | Refresh(c: CallId)
    | ShareRefresh(c: CallId, leader: SourceId)
    | Send(c: CallId)
    | Moved(c: CallId)
    | Persist(c: CallId)
    | End(c: CallId)
    | Close(id: SourceId)
    | Evict(key: SegKey, account: Account)

  /** The handle RefreshDoc mints: for this account, for the message it re-reads. */
  function Minted(account: Account, msg: nat): Handle {
    Handle(Secret(account, msg), Secret(account, msg))
  }

  predicate OwnsStored(s: Source) {
    s.seg.owner != "" && s.seg.owner == s.account
  }

  /** current: what the stream has learned, then the account's cache entry, then the stored
      row if this account put it there. */
  function Current(w: World, s: Source): Option<Handle> {
    if s.state.Some? then s.state
    else if (s.key, s.account) in w.cache then Some(w.cache[(s.key, s.account)])
    else if OwnsStored(s) then Some(s.seg.handle)
    else None
  }

  predicate Enabled(w: World, e: Event) {
    match e
    case Upload(_, account, _) => account != ""
    case Rescan(_, _, _) => true
    case Open(id, key, account) => id !in w.sources && key in w.rows && account != ""
    case Begin(c, id) => c !in w.calls && id in w.sources
    case Refresh(c) => c in w.calls && w.calls[c].source in w.sources
    case ShareRefresh(c, leader) =>
      && c in w.calls && w.calls[c].source in w.sources && leader in w.sources
      && w.sources[leader].key == w.sources[w.calls[c].source].key
      && w.sources[leader].account == w.sources[w.calls[c].source].account
    case Send(c) => c in w.calls && w.calls[c].source in w.sources && w.calls[c].handle.Some?
    case Moved(c) => c in w.calls && w.calls[c].source in w.sources && w.calls[c].handle.Some?
    case Persist(c) => c in w.calls && w.calls[c].source in w.sources && w.calls[c].handle.Some?
    case End(c) => c in w.calls
    case Close(id) => id in w.sources && forall c | c in w.calls :: w.calls[c].source != id
    case Evict(_, _) => true
  }

  /** remember. */
  function Remembered(w: World, id: SourceId, h: Handle): World
    requires id in w.sources
  {
    var s := w.sources[id];
    w.(sources := w.sources[id := s.(state := Some(h))], cache := w.cache[(s.key, s.account) := h])
  }

  /** refresh starts by dropping what it knows. */
  function Dropped(w: World, id: SourceId): World
    requires id in w.sources
  {
    var s := w.sources[id];
    w.(sources := w.sources[id := s.(state := None)], cache := w.cache - {(s.key, s.account)})
  }

  function Next(w: World, e: Event): World
    requires Enabled(w, e)
  {
    match e
    case Upload(key, account, msg) => w.(rows := w.rows[key := Row(msg, Minted(account, msg), account)])
    case Rescan(key, account, msg) => w.(rows := w.rows[key := Row(msg, Minted(account, msg), account)])
    case Open(id, key, account) => w.(sources := w.sources[id := Source(key, account, w.rows[key], None)])
    case Begin(c, id) => w.(calls := w.calls[c := Call(id, Current(w, w.sources[id]))])
    case Refresh(c) =>
      var id := w.calls[c].source;
      var h := Minted(w.sources[id].account, w.sources[id].seg.msg);
      var learned := Remembered(Dropped(w, id), id, h);
      learned.(calls := learned.calls[c := Call(id, Some(h))])
    case ShareRefresh(c, leader) =>
      var id := w.calls[c].source;
      var h := Minted(w.sources[leader].account, w.sources[leader].seg.msg);
      var learned := Remembered(Dropped(w, id), leader, h);
      learned.(calls := learned.calls[c := Call(id, Some(h))])
    case Send(c) =>
      var s := w.sources[w.calls[c].source];
      w.(sent := w.sent + [Request(s.account, s.seg.msg, w.calls[c].handle.value)])
    case Moved(c) => Remembered(w, w.calls[c].source, w.calls[c].handle.value)
    case Persist(c) =>
      var s := w.sources[w.calls[c].source];
      if OwnsStored(s) && s.key in w.rows && w.rows[s.key].owner == s.account then
        var row := w.rows[s.key];
        w.(rows := w.rows[s.key := row.(handle := Handle(row.handle.hash, w.calls[c].handle.value.ref))])
      else w
    case End(c) => w.(calls := w.calls - {c})
    case Close(id) => w.(sources := w.sources - {id})
    case Evict(key, account) => w.(cache := w.cache - {(key, account)})
  }

  /** A call settles on what its stream has learned, else on what the account's cache holds,
      else on the stored handle if the account stored it; it has none exactly when all three
      fail, and must then refresh before it can send. */
  lemma BeginEffect(w: World, c: CallId, id: SourceId)
    requires Enabled(w, Begin(c, id))
    ensures var s, x := w.sources[id], Next(w, Begin(c, id));
            var h := x.calls[c].handle;
            && x == w.(calls := w.calls[c := Call(id, h)])
            && (s.state.Some? ==> h == s.state)
            && (s.state.None? && (s.key, s.account) in w.cache ==> h == Some(w.cache[(s.key, s.account)]))
            && (h.None? <==> s.state.None? && (s.key, s.account) !in w.cache && (s.seg.owner == "" || s.seg.owner != s.account))
            && (h.Some? ==> h == s.state || h == Some(s.seg.handle) || ((s.key, s.account) in w.cache && h == Some(w.cache[(s.key, s.account)])))
            && (Enabled(x, Send(c)) <==> h.Some?)
  {
  }

  /** A refresh leaves the fresh handle with the call, with the stream that fetched it and in
      the cache; a call that shared another stream's refresh forgets what its own had learned. */
  lemma RefreshEffect(w: World, e: Event)
    requires Enabled(w, e) && (e.Refresh? || e.ShareRefresh?)
    ensures var id := w.calls[e.c].source;
            var who := if e.Refresh? then id else e.leader;
            var s, x := w.sources[who], Next(w, e);
            var h := Minted(s.account, s.seg.msg);
            && x.calls[e.c] == Call(id, Some(h)) && Enabled(x, Send(e.c))
            && x.sources[who].state == Some(h) && (s.key, s.account) in x.cache && x.cache[(s.key, s.account)] == h
            && (who != id ==> x.sources[id].state.None?)
            && x.rows == w.rows && x.sent == w.sent
            && (forall k | k in w.cache && k != (s.key, s.account) :: k in x.cache && x.cache[k] == w.cache[k])
  {
  }

  /** A handle that worked after a move becomes what the stream and the cache know; a stored
      row takes over its file reference exactly when it is still the account's own, and never
      its access hash; closing a stream, ending a call and evicting touch nothing else. */
  lemma LearnEffect(w: World, e: Event)
    requires Enabled(w, e)
    ensures var x := Next(w, e);
            && (e.Moved? ==>
                  var s := w.sources[w.calls[e.c].source];
                  x.sources[w.calls[e.c].source].state == w.calls[e.c].handle && (s.key, s.account) in x.cache
                  && Some(x.cache[(s.key, s.account)]) == w.calls[e.c].handle && x.rows == w.rows)
            && (e.Persist? ==>
                  var s := w.sources[w.calls[e.c].source];
                  && x == w.(rows := x.rows) && x.rows.Keys == w.rows.Keys
                  && (forall k | k in w.rows && k != s.key :: x.rows[k] == w.rows[k])
                  && (s.key in w.rows ==>
                        && x.rows[s.key] == w.rows[s.key].(handle := x.rows[s.key].handle)
                        && x.rows[s.key].handle.hash == w.rows[s.key].handle.hash
                        && x.rows[s.key].handle.ref ==
                           if s.account != "" && s.seg.owner == s.account && w.rows[s.key].owner == s.account then w.calls[e.c].handle.value.ref
                           else w.rows[s.key].handle.ref))
            && (e.End? ==> e.c !in x.calls && x == w.(calls := x.calls) && forall c | c in w.calls && c != e.c :: c in x.calls && x.calls[c] == w.calls[c])
            && (e.Close? ==> e.id !in x.sources && x == w.(sources := x.sources) && forall i | i in w.sources && i != e.id :: i in x.sources && x.sources[i] == w.sources[i])
            && (e.Evict? ==> (e.key, e.account) !in x.cache && x == w.(cache := x.cache)
                             && forall k | k in w.cache && k != (e.key, e.account) :: k in x.cache && x.cache[k] == w.cache[k])
  {
  }

  // ------------------------------------------------------------ what every state keeps

  predicate Belongs(h: Handle, account: Account) {
    h.hash.account == account && h.ref.account == account
  }

  predicate RowOk(r: Row) {
    r.owner != "" ==> Belongs(r.handle, r.owner)
  }

  predicate SourceOk(s: Source) {
    RowOk(s.seg) && (s.state.Some? ==> Belongs(s.state.value, s.account))
  }

  predicate CallOk(w: World, c: CallId)
    requires c in w.calls
  {
    var call := w.calls[c];
    call.source in w.sources && (call.handle.Some? ==> Belongs(call.handle.value, w.sources[call.source].account))
  }

  /** Every secret in sight belongs to the account that will present it. */
  ghost predicate Kept(w: World) {
    && (forall k | k in w.rows :: RowOk(w.rows[k]))
    && (forall k, a | (k, a) in w.cache :: Belongs(w.cache[(k, a)], a))
    && (forall id | id in w.sources :: SourceOk(w.sources[id]))
    && (forall c | c in w.calls :: CallOk(w, c))
    && (forall i | 0 <= i < |w.sent| :: Belongs(w.sent[i].handle, w.sent[i].account))
  }

  lemma Holders(w: World, e: Event)
    requires Kept(w) && Enabled(w, e)
    ensures e.Begin? ==> SourceOk(w.sources[e.id])
    ensures e.Refresh? || e.ShareRefresh? || e.Send? || e.Moved? || e.Persist? ==>
              CallOk(w, e.c) && SourceOk(w.sources[w.calls[e.c].source])
    ensures e.ShareRefresh? ==> SourceOk(w.sources[e.leader])
  {
    hide CallOk, SourceOk, RowOk;
    if e.Refresh? || e.ShareRefresh? || e.Send? || e.Moved? || e.Persist? { assert CallOk(w, e.c); }
  }

  lemma CallsStay(w: World, e: Event)
    requires Kept(w) && Enabled(w, e)
    ensures forall c | c in Next(w, e).calls :: CallOk(Next(w, e), c)
  {
    var x := Next(w, e);
    Holders(w, e);
    forall c | c in x.calls ensures CallOk(x, c) {
      if c in w.calls { assert CallOk(w, c); }
    }
  }

  lemma StepKept(w: World, e: Event)
    requires Kept(w) && Enabled(w, e)
    ensures Kept(Next(w, e))
  {
    Holders(w, e);
    CallsStay(w, e);
    StoresStay(w, e);
    hide Next, Enabled, CallOk, SourceOk, RowOk;
  }

  lemma StoresStay(w: World, e: Event)
    requires Kept(w) && Enabled(w, e)
    ensures var x := Next(w, e);
            && (forall k | k in x.rows :: RowOk(x.rows[k]))
            && (forall k, a | (k, a) in x.cache :: Belongs(x.cache[(k, a)], a))
            && (forall id | id in x.sources :: SourceOk(x.sources[id]))
            && (forall i | 0 <= i < |x.sent| :: Belongs(x.sent[i].handle, x.sent[i].account))
  {
    Holders(w, e);
  }

  predicate IsRun(w: World, events: seq<Event>)
    decreases |events|
  {
    events == [] || (Enabled(w, events[0]) && IsRun(Next(w, events[0]), events[1..]))
  }

  function After(w: World, events: seq<Event>): World
    requires IsRun(w, events)
    decreases |events|
  {
    if events == [] then w else After(Next(w, events[0]), events[1..])
  }

  lemma {:induction false} RunKept(w: World, events: seq<Event>)
    requires Kept(w) && IsRun(w, events)
    ensures Kept(After(w, events))
    decreases |events|
  {
    if events != [] {
      StepKept(w, events[0]);
      hide Kept, Enabled, Next;
      RunKept(Next(w, events[0]), events[1..]);
    }
  }

  const EMPTY_WORLD: World := World(map[], map[], map[], map[], [])

  /** Through expiries, migrations, shared refreshes, cache hits and re-uploads, every
      request presents a hash and a reference minted for the account that sends it, and the
      handle stored in a row belongs to the account the row names. */
  lemma HandlesBelong(events: seq<Event>)
    requires IsRun(EMPTY_WORLD, events)
    ensures var w := After(EMPTY_WORLD, events);
            && (forall i | 0 <= i < |w.sent| :: Belongs(w.sent[i].handle, w.sent[i].account))
            && (forall k | k in w.rows && w.rows[k].owner != "" :: Belongs(w.rows[k].handle, w.rows[k].owner))
  {
    RunKept(EMPTY_WORLD, events);
    hide IsRun, After;
  }

  // ------------------------------------------------------------ the document

  predicate ForMessage(h: Handle, msg: nat) {
    h.hash.msg == msg && h.ref.msg == msg
  }

  predicate SourceSays(w: World, s: Source) {
    && s.key in w.rows && s.seg.msg == w.rows[s.key].msg && ForMessage(s.seg.handle, s.seg.msg)
    && (s.state.Some? ==> ForMessage(s.state.value, s.seg.msg))
  }

  predicate CallSays(w: World, call: Call) {
    call.source in w.sources && (call.handle.Some? ==> ForMessage(call.handle.value, w.sources[call.source].seg.msg))
  }

  /** The cache and the streams speak of the message the rows speak of. */
  ghost predicate SameDocument(w: World) {
    && (forall k | k in w.rows :: ForMessage(w.rows[k].handle, w.rows[k].msg))
    && (forall k, a | (k, a) in w.cache :: k in w.rows && ForMessage(w.cache[(k, a)], w.rows[k].msg))
    && (forall id | id in w.sources :: SourceSays(w, w.sources[id]))
    && (forall c | c in w.calls :: CallSays(w, w.calls[c]))
    && (forall i | 0 <= i < |w.sent| :: ForMessage(w.sent[i].handle, w.sent[i].msg))
  }

  /** Nobody has a handle of the segment at hand. */
  ghost predicate Unused(w: World, key: SegKey) {
    (forall a :: (key, a) !in w.cache) && forall id | id in w.sources :: w.sources[id].key != key
  }

  /** A segment is stored for the first time, or as the same message, or while no account's
      cache and no open stream knows of it. */
  ghost predicate Harmless(w: World, e: Event) {
    (e.Upload? || e.Rescan?) && e.key in w.rows ==> w.rows[e.key].msg == e.msg || Unused(w, e.key)
  }

  /** A step keeps every handle at hand one of the very document it is kept for, exactly
      when it stores no segment again that somebody has a handle of. */
  lemma StepSameDocumentIff(w: World, e: Event)
    requires SameDocument(w) && Enabled(w, e)
    ensures SameDocument(Next(w, e)) <==> Harmless(w, e)
  {
    if Harmless(w, e) {
      StoresSay(w, e);
      StreamsSay(w, e);
      CallsSay(w, e);
    } else {
      RestoredBreaks(w, e);
    }
    hide Next, Enabled, ForMessage, SourceSays, CallSays, Harmless;
  }

  lemma RestoredBreaks(w: World, e: Event)
    requires SameDocument(w) && Enabled(w, e) && !Harmless(w, e)
    ensures !SameDocument(Next(w, e))
  {
    var x := Next(w, e);
    if a :| (e.key, a) in w.cache {
      assert ForMessage(w.cache[(e.key, a)], w.rows[e.key].msg);
      assert (e.key, a) in x.cache && !ForMessage(x.cache[(e.key, a)], x.rows[e.key].msg);
    } else {
      var id :| id in w.sources && w.sources[id].key == e.key;
      assert SourceSays(w, w.sources[id]);
      assert !SourceSays(x, x.sources[id]);
    }
  }

  ghost predicate AllHarmless(w: World, events: seq<Event>)
    requires IsRun(w, events)
    decreases |events|
  {
    events == [] || (Harmless(w, events[0]) && AllHarmless(Next(w, events[0]), events[1..]))
  }

  lemma {:induction false} SameDocumentRun(w: World, events: seq<Event>)
    requires SameDocument(w) && IsRun(w, events) && AllHarmless(w, events)
    ensures SameDocument(After(w, events))
    decreases |events|
  {
    if events != [] {
      StepSameDocumentIff(w, events[0]);
      hide SameDocument, Enabled, Next, Harmless;
      SameDocumentRun(Next(w, events[0]), events[1..]);
    }
  }

  /** So in every run of such steps each request presents a handle of the very document it
      asks for. */
  lemma RequestsFitDocuments(events: seq<Event>)
    requires IsRun(EMPTY_WORLD, events) && AllHarmless(EMPTY_WORLD, events)
    ensures var w := After(EMPTY_WORLD, events);
            forall i | 0 <= i < |w.sent| :: ForMessage(w.sent[i].handle, w.sent[i].msg)
  {
    SameDocumentRun(EMPTY_WORLD, events);
    hide IsRun, After, AllHarmless;
  }

  lemma Speakers(w: World, e: Event)
    requires SameDocument(w) && Enabled(w, e)
    ensures e.Begin? ==> SourceSays(w, w.sources[e.id])
    ensures e.Refresh? || e.ShareRefresh? || e.Send? || e.Moved? || e.Persist? ==>
              CallSays(w, w.calls[e.c]) && SourceSays(w, w.sources[w.calls[e.c].source])
    ensures e.ShareRefresh? ==> SourceSays(w, w.sources[e.leader])
  {
    hide ForMessage, SourceSays, CallSays;
  }

  lemma StoresSay(w: World, e: Event)
    requires SameDocument(w) && Enabled(w, e) && Harmless(w, e)
    ensures var x := Next(w, e);
            && (forall k | k in x.rows :: ForMessage(x.rows[k].handle, x.rows[k].msg))
            && (forall k, a | (k, a) in x.cache :: k in x.rows && ForMessage(x.cache[(k, a)], x.rows[k].msg))
            && (forall i | 0 <= i < |x.sent| :: ForMessage(x.sent[i].handle, x.sent[i].msg))
  {
    Speakers(w, e);
    hide Unused;
  }

  lemma StreamsSay(w: World, e: Event)
    requires SameDocument(w) && Enabled(w, e) && Harmless(w, e)
    ensures forall id | id in Next(w, e).sources :: SourceSays(Next(w, e), Next(w, e).sources[id])
  {
    Speakers(w, e);
    var x := Next(w, e);
    hide CallSays;
    forall id | id in x.sources ensures SourceSays(x, x.sources[id]) {
      if id in w.sources { assert SourceSays(w, w.sources[id]); }
    }
  }

  /** A call that was under way keeps its stream, and learns only by refreshing. */
  lemma CallAfter(w: World, e: Event, c: CallId)
    requires Enabled(w, e) && c in w.calls && c in Next(w, e).calls && w.calls[c].source in w.sources
    ensures var id, x := w.calls[c].source, Next(w, e);
            && x.calls[c].source == id && id in x.sources && x.sources[id].seg == w.sources[id].seg
            && (x.calls[c].handle == w.calls[c].handle || ((e.Refresh? || e.ShareRefresh?) && e.c == c))
  {
    hide Current, Minted, OwnsStored;
  }

  lemma CallsSay(w: World, e: Event)
    requires SameDocument(w) && Enabled(w, e) && Harmless(w, e)
    ensures forall c | c in Next(w, e).calls :: CallSays(Next(w, e), Next(w, e).calls[c])
  {
    Speakers(w, e);
    var x := Next(w, e);
    forall c | c in x.calls ensures CallSays(x, x.calls[c]) {
      if c in w.calls {
        assert CallSays(w, w.calls[c]);
        CallAfter(w, e, c);
      }
    }
    hide Enabled;
  }

  /** Storing a segment again leaves the old document's handle in the cache, and a stream
      opened afterwards presents it for the new document. */
  lemma StaleHandleExample(key: SegKey, a: Account, first: nat, second: nat) returns (events: seq<Event>)
    requires a != "" && first != second
    ensures IsRun(EMPTY_WORLD, events)
    ensures After(EMPTY_WORLD, events).sent == [Request(a, second, Minted(a, first))]
  {
    hide *;
    var w, before := ReadThenStoreAgain(key, a, first, second);
    var after := OpenAndRead(w, key, a, first, second);
    RunJoin(EMPTY_WORLD, before, after);
    events := before + after;
  }

  lemma {:induction false} RunJoin(w: World, run: seq<Event>, more: seq<Event>)
    requires IsRun(w, run) && IsRun(After(w, run), more)
    ensures IsRun(w, run + more) && After(w, run + more) == After(After(w, run), more)
    decreases |run|
  {
    hide Enabled, Next;
    if run == [] {
      assert run + more == more;
    } else {
      assert (run + more)[0] == run[0] && (run + more)[1..] == run[1..] + more;
      RunJoin(Next(w, run[0]), run[1..], more);
    }
  }

  lemma RunOne(w: World, e: Event, rest: seq<Event>)
    requires Enabled(w, e) && IsRun(Next(w, e), rest)
    ensures IsRun(w, [e] + rest) && After(w, [e] + rest) == After(Next(w, e), rest)
  {
    assert ([e] + rest)[1..] == rest;
  }

  lemma ReadThenStoreAgain(key: SegKey, a: Account, first: nat, second: nat) returns (w: World, events: seq<Event>)
    requires a != ""
    ensures IsRun(EMPTY_WORLD, events) && After(EMPTY_WORLD, events) == w
    ensures w.sent == [] && 1 !in w.sources && 1 !in w.calls
    ensures key in w.rows && w.rows[key] == Row(second, Minted(a, second), a)
    ensures (key, a) in w.cache && w.cache[(key, a)] == Minted(a, first)
  {
    var w1 := Next(EMPTY_WORLD, Upload(key, a, first));
    var w2 := Next(w1, Open(0, key, a));
    var w3 := Next(w2, Begin(0, 0));
    var w4 := Next(w3, Refresh(0));
    assert w4.rows == w1.rows && (key, a) in w4.cache && w4.cache[(key, a)] == Minted(a, first);
    w := Next(w4, Upload(key, a, second));
    hide Next, Enabled;
    RunOne(w4, Upload(key, a, second), []);
    RunOne(w3, Refresh(0), [Upload(key, a, second)] + []);
    RunOne(w2, Begin(0, 0), [Refresh(0)] + ([Upload(key, a, second)] + []));
    RunOne(w1, Open(0, key, a), [Begin(0, 0)] + ([Refresh(0)] + ([Upload(key, a, second)] + [])));
    events := [Open(0, key, a)] + ([Begin(0, 0)] + ([Refresh(0)] + ([Upload(key, a, second)] + [])));
    RunOne(EMPTY_WORLD, Upload(key, a, first), events);
    events := [Upload(key, a, first)] + events;
  }

  lemma OpenAndRead(w: World, key: SegKey, a: Account, first: nat, second: nat) returns (events: seq<Event>)
    requires a != "" && w.sent == [] && 1 !in w.sources && 1 !in w.calls
    requires key in w.rows && w.rows[key] == Row(second, Minted(a, second), a)
    requires (key, a) in w.cache && w.cache[(key, a)] == Minted(a, first)
    ensures IsRun(w, events) && After(w, events).sent == [Request(a, second, Minted(a, first))]
  {
    var w1 := Next(w, Open(1, key, a));
    assert Current(w1, w1.sources[1]) == Some(Minted(a, first));
    var w2 := Next(w1, Begin(1, 1));
    var w3 := Next(w2, Send(1));
    hide Next, Enabled;
    RunOne(w2, Send(1), []);
    RunOne(w1, Begin(1, 1), [Send(1)] + []);
    RunOne(w, Open(1, key, a), [Begin(1, 1)] + ([Send(1)] + []));
    events := [Open(1, key, a)] + ([Begin(1, 1)] + ([Send(1)] + []));
  }
}

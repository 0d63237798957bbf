/**
 The transactional store: item rows, the ingress table that deduplicates deliveries, and
 the append-only journal. `Step` is one committed (or rolled back) transaction as a
 function on values; the class below performs the same transactions on its own fields.
 */
module WorkflowStore {
  import opened Prelude
  import opened WorkflowItem

  datatype Entry = Entry(key: Digest, action: Action, item: Item)

  datatype IngressRow = IngressRow(seal: Digest, key: Digest, status: Status)

  datatype Db = Db(items: map<Digest, Item>, ingress: map<string, IngressRow>, journal: seq<Entry>)

  const EMPTY := Db(map[], map[], [])

  datatype Event =
    | Deliver(eventId: string, source: Source)
    | Apply(key: Digest, op: Op)

  datatype Reply = Reply(item: Item, status: Status)

  type Scope = set<(string, string, string)>

  /** What a normalised source must satisfy besides having well-formed text fields. */
  predicate Admissible(source: Source, allowed: Scope) {
    && (source.id.provider, source.id.account, source.id.repository) in allowed
    && 0 <= source.revision < 0x8000_0000_0000_0000
    && (source.state == SourceMerged ==> source.id.kind == PullRequest && source.headSha.Some?)
  }

  function Row(db: Db, key: Digest): Option<Item> {
    if key in db.items then Some(db.items[key]) else None
  }

  /** Commit an outcome: a write replaces the row and appends exactly one journal entry. */
  function Commit(db: Db, key: Digest, outcome: Outcome): (Db, Result<Reply, Error>) {
    match outcome
    case Write(item, action, status) =>
      (db.(items := db.items[key := item], journal := db.journal + [Entry(key, action, item)]),
       Ok(Reply(item, status)))
    case Keep(item, status) => (db, Ok(Reply(item, status)))
    case Reject(error) => (db, Err(error))
  }

  function DeliverStep(db: Db, allowed: Scope, eventId: string, source: Source): (Db, Result<Reply, Error>) {
    if !Admissible(source, allowed) then (db, Err(ESource))
    else
      var key := SourceKey(source.id);
      if eventId in db.ingress then
        var prior := db.ingress[eventId];
        if prior.seal != SourceSha(source) || prior.key != key then (db, Err(EEventReuse))
        else if key !in db.items then (db, Err(ENotFound))
        else (db, Ok(Reply(db.items[key], Duplicate)))
      else
        var (next, reply) := Commit(db, key, ObserveStep(key, Row(db, key), source));
        if reply.Err? then (db, reply)
        else (next.(ingress := next.ingress[eventId := IngressRow(SourceSha(source), key, reply.value.status)]), reply)
  }

  /** Sources enter through delivery only; every other operation addresses one row. */
  function Step(db: Db, allowed: Scope, event: Event): (Db, Result<Reply, Error>) {
    match event
    case Deliver(eventId, source) => DeliverStep(db, allowed, eventId, source)
    case Apply(key, op) =>
      if op.ObserveSource? then (db, Err(ESource))
      else Commit(db, key, Transition(key, Row(db, key), op))
  }

  /** The database after any sequence of transactions of any actors, from the empty store. */
  function Execute(allowed: Scope, events: seq<Event>): Db {
    if events == [] then EMPTY
    else Step(Execute(allowed, events[..|events| - 1]), allowed, events[|events| - 1]).0
  }

  // ------------------------------------------------- per-key journal traces

  /** The journal entries of one key, oldest first. */
  function History(journal: seq<Entry>, key: Digest): seq<Entry> {
    if journal == [] then []
    else
      var n := |journal| - 1;
      History(journal[..n], key) + (if journal[n].key == key then [journal[n]] else [])
  }

  function Current(h: seq<Entry>): Option<Item> {
    if h == [] then None else Some(h[|h| - 1].item)
  }

  ghost predicate Writes(key: Digest, current: Option<Item>, op: Op, e: Entry) {
    && e.key == key
    && (op.ObserveSource? ==> SourceKey(op.source.id) == key)
    && (var outcome := Transition(key, current, op);
        outcome.Write? && outcome.item == e.item && outcome.action == e.action)
  }

  /** Each entry is the result of one operation on the item before it. */
  ghost predicate Legal(key: Digest, h: seq<Entry>) {
    h != [] ==>
      var n := |h| - 1;
      && Legal(key, h[..n])
      && exists op :: Writes(key, Current(h[..n]), op, h[n])
  }

  /** Ingress rows name stored keys, and no stored source is older than a delivered one. */
  ghost predicate IngressOk(db: Db) {
    forall id | id in db.ingress ::
      var row := db.ingress[id];
      && row.key in db.items
      && row.seal.SourceSha?
      && row.key == SourceKey(row.seal.source.id)
      && row.seal.source.revision <= db.items[row.key].source.revision
  }

  ghost predicate Consistent(db: Db) {
    && (forall key :: Legal(key, History(db.journal, key)) && Current(History(db.journal, key)) == Row(db, key))
    && IngressOk(db)
  }

  lemma HistoryAppend(journal: seq<Entry>, e: Entry, key: Digest)
    ensures History(journal + [e], key) == History(journal, key) + (if e.key == key then [e] else [])
  {
    assert (journal + [e])[..|journal|] == journal;
  }

  lemma LegalAppend(key: Digest, h: seq<Entry>, op: Op, e: Entry)
    requires Legal(key, h) && Writes(key, Current(h), op, e)
    ensures Legal(key, h + [e])
  {
    var g := h + [e];
    assert g[..|h|] == h;
    assert Writes(key, Current(g[..|h|]), op, g[|h|]);
  }

  lemma CommitConsistent(db: Db, key: Digest, op: Op)
    requires Consistent(db)
    requires op.ObserveSource? ==> SourceKey(op.source.id) == key
    ensures
      var next := Commit(db, key, Transition(key, Row(db, key), op)).0;
      && Consistent(next) && next.ingress == db.ingress
      && (op.ObserveSource? && !Transition(key, Row(db, key), op).Reject? ==>
            key in next.items && op.source.revision <= next.items[key].source.revision)
  {
    var outcome := Transition(key, Row(db, key), op);
    if outcome.Write? {
      var e := Entry(key, outcome.action, outcome.item);
      var next := Commit(db, key, outcome).0;
      forall k ensures Legal(k, History(next.journal, k)) && Current(History(next.journal, k)) == Row(next, k) {
        assert Legal(k, History(db.journal, k)) && Current(History(db.journal, k)) == Row(db, k);
        HistoryAppend(db.journal, e, k);
        if k == key {
          LegalAppend(key, History(db.journal, key), op, e);
        } else {
          assert History(next.journal, k) == History(db.journal, k);
        }
      }
    }
  }

  /** Every transaction keeps the store consistent, whatever actor runs it. */
  lemma StepConsistent(db: Db, allowed: Scope, event: Event)
    requires Consistent(db)
    ensures Consistent(Step(db, allowed, event).0)
  {
    match event
    case Apply(key, op) =>
      if !op.ObserveSource? { CommitConsistent(db, key, op); }
    case Deliver(eventId, source) =>
      var key := SourceKey(source.id);
      CommitConsistent(db, key, ObserveSource(source));
  }

  /** Every row of every reachable store is the last journal row of its key, and every
      key's journal is a legal trace: the journal is a complete record of the item. */
  lemma {:induction false} ReachableConsistent(allowed: Scope, events: seq<Event>)
    ensures Consistent(Execute(allowed, events))
  {
    if events == [] {
    } else {
      ReachableConsistent(allowed, events[..|events| - 1]);
      StepConsistent(Execute(allowed, events[..|events| - 1]), allowed, events[|events| - 1]);
    }
  }

  /** The journal only grows, and an old entry never changes. */
  lemma StepExtendsJournal(db: Db, allowed: Scope, event: Event)
    ensures db.journal <= Step(db, allowed, event).0.journal
  {
  }

  /** In a consistent store a row is filed under its own key. */
  lemma KeyedRow(db: Db, key: Digest)
    requires Consistent(db)
    ensures key in db.items ==> db.items[key].sourceKey == key
  {
    assert Legal(key, History(db.journal, key)) && Current(History(db.journal, key)) == Row(db, key);
    if key in db.items { LegalKeyed(key, History(db.journal, key)); }
  }

  lemma {:induction false} LegalKeyed(key: Digest, h: seq<Entry>)
    requires Legal(key, h) && h != []
    ensures h[|h| - 1].item.sourceKey == key
  {
    var n := |h| - 1;
    var op :| Writes(key, Current(h[..n]), op, h[n]);
    if n > 0 { LegalKeyed(key, h[..n]); }
  }
}

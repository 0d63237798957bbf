/** Convergence of source deliveries under any order and duplication. */
module WorkflowIntake {
  import opened Prelude
  import opened WorkflowItem
  import opened WorkflowStore
  import opened WorkflowHistory
  import opened WorkflowSafety

  datatype Delivery = Delivery(id: string, source: Source)

  function DeliverAll(db: Db, allowed: Scope, ds: seq<Delivery>): Db {
    if ds == [] then db
    else
      var d := ds[|ds| - 1];
      Step(DeliverAll(db, allowed, ds[..|ds| - 1]), allowed, Deliver(d.id, d.source)).0
  }

  /** The admissible sources delivered for one key. */
  ghost predicate Offered(allowed: Scope, ds: seq<Delivery>, key: Digest, source: Source) {
    exists i :: 0 <= i < |ds| && ds[i].source == source && Admissible(source, allowed) && SourceKey(source.id) == key
  }

  /** One source per event id and one source per revision of a key, also against what the
      store already holds. */
  ghost predicate Coherent(db: Db, ds: seq<Delivery>) {
    && (forall i, j | 0 <= i < |ds| && 0 <= j < |ds| && ds[i].id == ds[j].id :: ds[i].source == ds[j].source)
    && (forall i | 0 <= i < |ds| && ds[i].id in db.ingress :: db.ingress[ds[i].id].seal == SourceSha(ds[i].source))
    && (forall i, j | 0 <= i < |ds| && 0 <= j < |ds| && ds[i].source.id == ds[j].source.id
                      && ds[i].source.revision == ds[j].source.revision :: ds[i].source == ds[j].source)
    && (forall i | 0 <= i < |ds| && SourceKey(ds[i].source.id) in db.items
                   && db.items[SourceKey(ds[i].source.id)].source.revision == ds[i].source.revision ::
          db.items[SourceKey(ds[i].source.id)].source == ds[i].source)
  }

  /** The row is the untouched old one, or carries a delivered source in its first phase. */
  ghost predicate Settled(db: Db, allowed: Scope, ds: seq<Delivery>, key: Digest, item: Item) {
    || (key in db.items && item == db.items[key])
    || (var run := if key in db.items && db.items[key].run.Some?
                   then Some(db.items[key].run.value.(invalidated := true)) else None;
        && Offered(allowed, ds, key, item.source)
        && (key in db.items ==> db.items[key].source.revision < item.source.revision)
        && item.run == run
        && item.phase == (if run.Some? then RetirementRequired else RuntimePhase(item.source))
        && item.attempts == 0 && item.lastRun.None? && item.phaseEvidence.None? && item.incident == [])
  }

  ghost predicate Converged(db: Db, allowed: Scope, ds: seq<Delivery>, key: Digest, final: Db) {
    && ((exists s :: Offered(allowed, ds, key, s)) || key in db.items ==> key in final.items)
    && (key in final.items ==>
          && Settled(db, allowed, ds, key, final.items[key])
          && (forall s | Offered(allowed, ds, key, s) :: s.revision <= final.items[key].source.revision)
          && (key in db.items ==> db.items[key].source.revision <= final.items[key].source.revision))
  }

  ghost predicate IngressFrom(db: Db, ds: seq<Delivery>, final: Db) {
    forall id | id in final.ingress ::
      || (id in db.ingress && final.ingress[id] == db.ingress[id])
      || (exists i :: 0 <= i < |ds| && ds[i].id == id && final.ingress[id].seal == SourceSha(ds[i].source))
  }

  lemma OfferedAppend(allowed: Scope, ds: seq<Delivery>, d: Delivery, key: Digest)
    ensures forall s :: Offered(allowed, ds + [d], key, s) <==>
      Offered(allowed, ds, key, s) || (s == d.source && Admissible(s, allowed) && SourceKey(s.id) == key)
  {
    var all := ds + [d];
    forall s | Offered(allowed, ds, key, s) ensures Offered(allowed, all, key, s) {
      var i :| 0 <= i < |ds| && ds[i].source == s;
      assert all[i].source == s;
    }
    assert all[|ds|].source == d.source;
  }

  /** A delivery that leaves the row alone keeps convergence when it offers nothing newer. */
  lemma UnchangedRowConverges(db: Db, allowed: Scope, ds: seq<Delivery>, d: Delivery, mid: Db, next: Db, key: Digest)
    requires Converged(db, allowed, ds, key, mid)
    requires Row(next, key) == Row(mid, key)
    requires Offered(allowed, [d], key, d.source) ==>
      key in mid.items && d.source.revision <= mid.items[key].source.revision
    ensures Converged(db, allowed, ds + [d], key, next)
  {
    OfferedAppend(allowed, ds, d, key);
    assert [d][0].source == d.source;
    if key in next.items {
      assert next.items[key] == mid.items[key];
      assert Settled(db, allowed, ds + [d], key, next.items[key]);
    }
  }

  /** One more delivery keeps the convergence, for every key. */
  lemma DeliveryConverges(db: Db, allowed: Scope, ds: seq<Delivery>, d: Delivery, mid: Db, key: Digest)
    requires Consistent(mid) && Coherent(db, ds + [d]) && IngressFrom(db, ds, mid)
    requires Converged(db, allowed, ds, key, mid)
    ensures Converged(db, allowed, ds + [d], key, Step(mid, allowed, Deliver(d.id, d.source)).0)
  {
    var next := Step(mid, allowed, Deliver(d.id, d.source)).0;
    if SourceKey(d.source.id) != key || !Admissible(d.source, allowed) {
      UnchangedRowConverges(db, allowed, ds, d, mid, next, key);
    } else if d.id in mid.ingress {
      SealMatches(db, ds, d, mid);
      UnchangedRowConverges(db, allowed, ds, d, mid, next, key);
    } else if key in mid.items && d.source.revision <= mid.items[key].source.revision {
      if mid.items[key].source.revision == d.source.revision {
        SourceMatches(db, allowed, ds, d, key, mid.items[key]);
      }
      UnchangedRowConverges(db, allowed, ds, d, mid, next, key);
    } else {
      NewRowConverges(db, allowed, ds, d, mid, key);
    }
  }

  lemma NewRowConverges(db: Db, allowed: Scope, ds: seq<Delivery>, d: Delivery, mid: Db, key: Digest)
    requires SourceKey(d.source.id) == key && Admissible(d.source, allowed) && d.id !in mid.ingress
    requires Converged(db, allowed, ds, key, mid)
    requires key in mid.items ==> mid.items[key].source.revision < d.source.revision
    ensures Converged(db, allowed, ds + [d], key, Step(mid, allowed, Deliver(d.id, d.source)).0)
  {
    OfferedAppend(allowed, ds, d, key);
    assert Offered(allowed, ds + [d], key, d.source);
    var next := Step(mid, allowed, Deliver(d.id, d.source)).0;
    var outcome := ObserveStep(key, Row(mid, key), d.source);
    assert outcome.Write? && next.items[key] == outcome.item;
    assert Settled(db, allowed, ds + [d], key, next.items[key]);
  }

  lemma SealMatches(db: Db, ds: seq<Delivery>, d: Delivery, mid: Db)
    requires Coherent(db, ds + [d]) && IngressFrom(db, ds, mid) && d.id in mid.ingress
    ensures mid.ingress[d.id].seal == SourceSha(d.source)
  {
    var all := ds + [d];
    assert all[|ds|] == d;
    if !(d.id in db.ingress && mid.ingress[d.id] == db.ingress[d.id]) {
      var i :| 0 <= i < |ds| && ds[i].id == d.id && mid.ingress[d.id].seal == SourceSha(ds[i].source);
      assert all[i] == ds[i];
    }
  }

  lemma SourceMatches(db: Db, allowed: Scope, ds: seq<Delivery>, d: Delivery, key: Digest, item: Item)
    requires Coherent(db, ds + [d]) && SourceKey(d.source.id) == key
    requires Settled(db, allowed, ds, key, item) && item.source.revision == d.source.revision
    ensures item.source == d.source
  {
    var all := ds + [d];
    assert all[|ds|] == d;
    if !(key in db.items && item == db.items[key]) {
      var i :| 0 <= i < |ds| && ds[i].source == item.source;
      assert all[i] == ds[i];
    }
  }

  lemma CoherentPrefix(db: Db, ds: seq<Delivery>, d: Delivery)
    requires Coherent(db, ds + [d])
    ensures Coherent(db, ds)
  {
    var all := ds + [d];
    assert forall i | 0 <= i < |ds| :: all[i] == ds[i];
  }

  lemma IngressAppend(db: Db, allowed: Scope, ds: seq<Delivery>, d: Delivery, mid: Db)
    requires IngressFrom(db, ds, mid)
    ensures IngressFrom(db, ds + [d], Step(mid, allowed, Deliver(d.id, d.source)).0)
  {
    var all := ds + [d];
    var next := Step(mid, allowed, Deliver(d.id, d.source)).0;
    assert all[|ds|] == d;
    forall id | id in next.ingress && id in mid.ingress && !(id in db.ingress && mid.ingress[id] == db.ingress[id])
      ensures exists i :: 0 <= i < |all| && all[i].id == id && next.ingress[id].seal == SourceSha(all[i].source)
    {
      var i :| 0 <= i < |ds| && ds[i].id == id && mid.ingress[id].seal == SourceSha(ds[i].source);
      assert all[i] == ds[i];
    }
  }

  lemma {:induction false} DeliveriesConverge(db: Db, allowed: Scope, ds: seq<Delivery>)
    requires Consistent(db) && Coherent(db, ds)
    ensures Consistent(DeliverAll(db, allowed, ds))
    ensures IngressFrom(db, ds, DeliverAll(db, allowed, ds))
    ensures forall key :: Converged(db, allowed, ds, key, DeliverAll(db, allowed, ds))
  {
    if ds == [] {
    } else {
      var n := |ds| - 1;
      var before, d := ds[..n], ds[n];
      assert ds == before + [d];
      CoherentPrefix(db, before, d);
      DeliveriesConverge(db, allowed, before);
      var mid := DeliverAll(db, allowed, before);
      StepConsistent(mid, allowed, Deliver(d.id, d.source));
      IngressAppend(db, allowed, before, d, mid);
      forall key ensures Converged(db, allowed, ds, key, DeliverAll(db, allowed, ds)) {
        DeliveryConverges(db, allowed, before, d, mid, key);
      }
    }
  }

  /** Whatever the order and duplication, two delivery lists that offer the same sources
      leave the same item in every row, all but its epoch; its source is the one of the
      highest revision. */
  lemma OrderIrrelevant(db: Db, allowed: Scope, ds: seq<Delivery>, es: seq<Delivery>, key: Digest)
    requires Consistent(db) && Coherent(db, ds) && Coherent(db, es)
    requires forall s :: Offered(allowed, ds, key, s) <==> Offered(allowed, es, key, s)
    requires exists s :: Offered(allowed, ds, key, s)
    ensures
      var one, two := DeliverAll(db, allowed, ds), DeliverAll(db, allowed, es);
      && key in one.items && key in two.items
      && one.items[key].(epoch := 0) == two.items[key].(epoch := 0)
      && (forall s | Offered(allowed, ds, key, s) :: s.revision <= one.items[key].source.revision)
      && (key !in db.items ==>
            && Offered(allowed, ds, key, one.items[key].source)
            && one.items[key].phase == RuntimePhase(one.items[key].source))
  {
    DeliveriesConverge(db, allowed, ds);
    DeliveriesConverge(db, allowed, es);
    var one, two := DeliverAll(db, allowed, ds), DeliverAll(db, allowed, es);
    assert Converged(db, allowed, ds, key, one) && Converged(db, allowed, es, key, two);
    KeyedRow(one, key);
    KeyedRow(two, key);
    SettledSource(db, allowed, ds, es, key, one.items[key], two.items[key]);
    SettledAlike(db, allowed, ds, es, key, one.items[key], two.items[key]);
  }

  /** Both rows carry the newest source. */
  lemma SettledSource(db: Db, allowed: Scope, ds: seq<Delivery>, es: seq<Delivery>, key: Digest, a: Item, b: Item)
    requires Coherent(db, ds) && Settled(db, allowed, ds, key, a) && Settled(db, allowed, es, key, b)
    requires forall s :: Offered(allowed, ds, key, s) <==> Offered(allowed, es, key, s)
    requires forall s | Offered(allowed, ds, key, s) ::
      s.revision <= a.source.revision && s.revision <= b.source.revision
    requires key in db.items ==>
      db.items[key].source.revision <= a.source.revision && db.items[key].source.revision <= b.source.revision
    ensures a.source == b.source
  {
    if Offered(allowed, ds, key, a.source) && Offered(allowed, ds, key, b.source) {
      var i :| 0 <= i < |ds| && ds[i].source == a.source && SourceKey(a.source.id) == key;
      var j :| 0 <= j < |ds| && ds[j].source == b.source && SourceKey(b.source.id) == key;
    }
  }

  lemma SettledAlike(db: Db, allowed: Scope, ds: seq<Delivery>, es: seq<Delivery>, key: Digest, a: Item, b: Item)
    requires Settled(db, allowed, ds, key, a) && Settled(db, allowed, es, key, b)
    requires a.source == b.source && a.sourceKey == b.sourceKey
    ensures a.(epoch := 0) == b.(epoch := 0)
  {
  }

  // ------------------------------------------ deliveries among all other operations

  /** A delivery that reaches the tables. */
  predicate Takes(allowed: Scope, e: Event) {
    e.Deliver? && Admissible(e.source, allowed)
  }

  ghost predicate Delivered(allowed: Scope, events: seq<Event>, source: Source) {
    exists i :: 0 <= i < |events| && Takes(allowed, events[i]) && events[i].source == source
  }

  /** One source per event id, and one source per revision of an external object. */
  ghost predicate OneSourceEach(allowed: Scope, events: seq<Event>) {
    forall i, j | 0 <= i < |events| && 0 <= j < |events| && Takes(allowed, events[i]) && Takes(allowed, events[j]) ::
      && (events[i].eventId == events[j].eventId ==> events[i].source == events[j].source)
      && (events[i].source.id == events[j].source.id && events[i].source.revision == events[j].source.revision ==>
            events[i].source == events[j].source)
  }

  ghost predicate RecordedFrom(allowed: Scope, events: seq<Event>, id: string, row: IngressRow) {
    exists i :: 0 <= i < |events| && Takes(allowed, events[i]) && events[i].eventId == id
      && row.seal == SourceSha(events[i].source)
  }

  /** No delivered source is newer than its row. */
  ghost predicate NoneNewer(allowed: Scope, events: seq<Event>, db: Db) {
    forall s | Delivered(allowed, events, s) ::
      SourceKey(s.id) in db.items && s.revision <= db.items[SourceKey(s.id)].source.revision
  }

  ghost predicate RowsDelivered(allowed: Scope, events: seq<Event>, db: Db) {
    forall key | key in db.items ::
      Delivered(allowed, events, db.items[key].source) && SourceKey(db.items[key].source.id) == key
  }

  ghost predicate IngressDelivered(allowed: Scope, events: seq<Event>, db: Db) {
    forall id | id in db.ingress :: RecordedFrom(allowed, events, id, db.ingress[id])
  }

  ghost predicate Newest(allowed: Scope, events: seq<Event>, db: Db) {
    && NoneNewer(allowed, events, db)
    && RowsDelivered(allowed, events, db)
    && IngressDelivered(allowed, events, db)
  }

  lemma DeliveredAppend(allowed: Scope, events: seq<Event>, e: Event)
    ensures forall s :: Delivered(allowed, events + [e], s) <==>
      Delivered(allowed, events, s) || (Takes(allowed, e) && e.source == s)
    ensures forall id, row | RecordedFrom(allowed, events, id, row) :: RecordedFrom(allowed, events + [e], id, row)
  {
    var all := events + [e];
    assert all[|events|] == e;
    forall s | Delivered(allowed, events, s) ensures Delivered(allowed, all, s) {
      var i :| 0 <= i < |events| && Takes(allowed, events[i]) && events[i].source == s;
      assert all[i] == events[i];
    }
    forall id, row | RecordedFrom(allowed, events, id, row) ensures RecordedFrom(allowed, all, id, row) {
      var i :| 0 <= i < |events| && Takes(allowed, events[i]) && events[i].eventId == id
        && row.seal == SourceSha(events[i].source);
      assert all[i] == events[i];
    }
  }

  /** Only deliveries change sources, create rows, or record event ids. */
  lemma ApplyKeepsSources(db: Db, allowed: Scope, key: Digest, op: Op)
    ensures
      var next := Step(db, allowed, Apply(key, op)).0;
      && next.items.Keys == db.items.Keys && next.ingress == db.ingress
      && forall k | k in db.items :: next.items[k].source == db.items[k].source
  {
  }

  lemma RecordedMatches(allowed: Scope, events: seq<Event>, db: Db, id: string, source: Source)
    requires OneSourceEach(allowed, events + [Deliver(id, source)]) && Admissible(source, allowed)
    requires id in db.ingress && RecordedFrom(allowed, events, id, db.ingress[id])
    ensures db.ingress[id].seal == SourceSha(source)
  {
    var all := events + [Deliver(id, source)];
    var i :| 0 <= i < |events| && Takes(allowed, events[i]) && events[i].eventId == id
      && db.ingress[id].seal == SourceSha(events[i].source);
    assert all[i] == events[i] && all[|events|] == Deliver(id, source);
  }

  lemma RevisionMatches(allowed: Scope, events: seq<Event>, id: string, source: Source, stored: Source)
    requires OneSourceEach(allowed, events + [Deliver(id, source)]) && Admissible(source, allowed)
    requires Delivered(allowed, events, stored) && stored.id == source.id && stored.revision == source.revision
    ensures stored == source
  {
    var all := events + [Deliver(id, source)];
    var i :| 0 <= i < |events| && Takes(allowed, events[i]) && events[i].source == stored;
    assert all[i] == events[i] && all[|events|] == Deliver(id, source);
  }

  /** What a coherent delivery does to its own row and to the ingress table: the row has the
      newer of the two sources, and every new ingress row is of this delivery. */
  ghost predicate Taken(db: Db, next: Db, id: string, source: Source) {
    var key := SourceKey(source.id);
    && next.items.Keys == db.items.Keys + {key}
    && (forall k | k in db.items && k != key :: next.items[k] == db.items[k])
    && source.revision <= next.items[key].source.revision
    && (key in db.items ==> db.items[key].source.revision <= next.items[key].source.revision)
    && (next.items[key].source == source || (key in db.items && next.items[key].source == db.items[key].source))
    && (forall i | i in next.ingress :: (i in db.ingress && next.ingress[i] == db.ingress[i])
                                        || (i == id && next.ingress[i].seal == SourceSha(source)))
  }

  lemma FreshDeliveryTaken(db: Db, allowed: Scope, id: string, source: Source)
    requires Admissible(source, allowed) && id !in db.ingress
    requires
      var key := SourceKey(source.id);
      key in db.items && db.items[key].source.revision == source.revision ==> db.items[key].source == source
    ensures Taken(db, Step(db, allowed, Deliver(id, source)).0, id, source)
  {
  }

  lemma RepeatedDeliveryTaken(db: Db, allowed: Scope, id: string, source: Source)
    requires Admissible(source, allowed) && IngressOk(db)
    requires id in db.ingress && db.ingress[id].seal == SourceSha(source)
    ensures Taken(db, Step(db, allowed, Deliver(id, source)).0, id, source)
  {
    assert db.ingress[id].key in db.items && db.ingress[id].key == SourceKey(source.id);
    assert db.items.Keys + {SourceKey(source.id)} == db.items.Keys;
  }

  lemma DeliveryTaken(allowed: Scope, events: seq<Event>, db: Db, id: string, source: Source)
    requires IngressOk(db) && Newest(allowed, events, db) && Admissible(source, allowed)
    requires OneSourceEach(allowed, events + [Deliver(id, source)])
    ensures Taken(db, Step(db, allowed, Deliver(id, source)).0, id, source)
  {
    var key := SourceKey(source.id);
    if id in db.ingress {
      RecordedMatches(allowed, events, db, id, source);
      RepeatedDeliveryTaken(db, allowed, id, source);
    } else {
      if key in db.items && db.items[key].source.revision == source.revision {
        RevisionMatches(allowed, events, id, source, db.items[key].source);
      }
      FreshDeliveryTaken(db, allowed, id, source);
    }
  }

  lemma TakenNoneNewer(allowed: Scope, events: seq<Event>, db: Db, next: Db, id: string, source: Source)
    requires NoneNewer(allowed, events, db) && Admissible(source, allowed) && Taken(db, next, id, source)
    ensures NoneNewer(allowed, events + [Deliver(id, source)], next)
  {
    DeliveredAppend(allowed, events, Deliver(id, source));
    forall s | Delivered(allowed, events + [Deliver(id, source)], s)
      ensures SourceKey(s.id) in next.items && s.revision <= next.items[SourceKey(s.id)].source.revision
    {
      if Delivered(allowed, events, s) && SourceKey(s.id) != SourceKey(source.id) {
        assert next.items[SourceKey(s.id)] == db.items[SourceKey(s.id)];
      }
    }
  }

  lemma TakenRowsDelivered(allowed: Scope, events: seq<Event>, db: Db, next: Db, id: string, source: Source)
    requires RowsDelivered(allowed, events, db) && Admissible(source, allowed) && Taken(db, next, id, source)
    ensures RowsDelivered(allowed, events + [Deliver(id, source)], next)
  {
    DeliveredAppend(allowed, events, Deliver(id, source));
    assert Delivered(allowed, events + [Deliver(id, source)], source);
    forall key | key in next.items
      ensures Delivered(allowed, events + [Deliver(id, source)], next.items[key].source)
      ensures SourceKey(next.items[key].source.id) == key
    {
      if key != SourceKey(source.id) { assert next.items[key] == db.items[key]; }
    }
  }

  lemma TakenIngressDelivered(allowed: Scope, events: seq<Event>, db: Db, next: Db, id: string, source: Source)
    requires IngressDelivered(allowed, events, db) && Admissible(source, allowed) && Taken(db, next, id, source)
    ensures IngressDelivered(allowed, events + [Deliver(id, source)], next)
  {
    var all := events + [Deliver(id, source)];
    DeliveredAppend(allowed, events, Deliver(id, source));
    forall i | i in next.ingress ensures RecordedFrom(allowed, all, i, next.ingress[i]) {
      if i in db.ingress && next.ingress[i] == db.ingress[i] {
        assert RecordedFrom(allowed, events, i, db.ingress[i]);
      } else {
        assert all[|events|].eventId == i;
      }
    }
  }

  lemma SourcesKeptNewest(allowed: Scope, events: seq<Event>, e: Event, db: Db, next: Db)
    requires Newest(allowed, events, db) && !Takes(allowed, e)
    requires next.items.Keys == db.items.Keys && next.ingress == db.ingress
    requires forall k | k in db.items :: next.items[k].source == db.items[k].source
    ensures Newest(allowed, events + [e], next)
  {
    DeliveredAppend(allowed, events, e);
    forall i | i in next.ingress ensures RecordedFrom(allowed, events + [e], i, next.ingress[i]) {
      assert RecordedFrom(allowed, events, i, db.ingress[i]);
    }
  }

  lemma NewestStep(allowed: Scope, events: seq<Event>, e: Event, db: Db)
    requires IngressOk(db) && Newest(allowed, events, db) && OneSourceEach(allowed, events + [e])
    ensures Newest(allowed, events + [e], Step(db, allowed, e).0)
  {
    var next := Step(db, allowed, e).0;
    match e
    case Apply(key, op) =>
      ApplyKeepsSources(db, allowed, key, op);
      SourcesKeptNewest(allowed, events, e, db, next);
    case Deliver(id, source) =>
      if Admissible(source, allowed) {
        DeliveryTaken(allowed, events, db, id, source);
        TakenNoneNewer(allowed, events, db, next, id, source);
        TakenRowsDelivered(allowed, events, db, next, id, source);
        TakenIngressDelivered(allowed, events, db, next, id, source);
      } else {
        SourcesKeptNewest(allowed, events, e, db, db);
      }
  }

  lemma {:induction false} NewestKept(allowed: Scope, events: seq<Event>)
    requires OneSourceEach(allowed, events)
    ensures Newest(allowed, events, Execute(allowed, events))
  {
    if events == [] {
    } else {
      var n := |events| - 1;
      assert events == events[..n] + [events[n]];
      assert OneSourceEach(allowed, events[..n]) by {
        assert forall i | 0 <= i < n :: events[..n][i] == events[i];
      }
      NewestKept(allowed, events[..n]);
      ReachableConsistent(allowed, events[..n]);
      NewestStep(allowed, events[..n], events[n], Execute(allowed, events[..n]));
    }
  }

  /** Deliveries in any order and multiplicity, among claims, heartbeats, retirements, advances
      and checkpoints of any actors: a key has a row exactly when a source was delivered for
      it, and the row carries the delivered source of the highest revision. */
  lemma NewestSourceWins(allowed: Scope, events: seq<Event>, key: Digest)
    requires OneSourceEach(allowed, events)
    ensures
      var db := Execute(allowed, events);
      && (key in db.items <==> exists s :: Delivered(allowed, events, s) && SourceKey(s.id) == key)
      && (key in db.items ==>
            && Delivered(allowed, events, db.items[key].source)
            && forall s | Delivered(allowed, events, s) && SourceKey(s.id) == key ::
                 s.revision <= db.items[key].source.revision)
  {
    NewestKept(allowed, events);
  }

  ghost predicate NeverClaimed(db: Db, key: Digest) {
    var h := History(db.journal, key);
    forall i | 0 <= i < |h| :: h[i].action != RunClaimed
  }

  /** Without a claim of the key, nothing but source updates can have happened to its item. */
  lemma {:induction false} UnclaimedItem(key: Digest, h: seq<Entry>)
    requires Trace(key, h) && h != [] && forall i | 0 <= i < |h| :: h[i].action != RunClaimed
    ensures
      var item := h[|h| - 1].item;
      item == Item(key, item.source, item.epoch, RuntimePhase(item.source), None, 0, None, None, [])
  {
    var n := |h| - 1;
    if n > 0 { UnclaimedItem(key, h[..n]); }
  }

  /** Two runs that deliver the same sources, whatever else happens in them and in whatever
      order, end with the same source in every row; and with the same item but for its epoch
      when no run of that key was ever claimed. */
  lemma SameDeliveriesSameSource(allowed: Scope, first: seq<Event>, second: seq<Event>, key: Digest)
    requires OneSourceEach(allowed, first) && OneSourceEach(allowed, second)
    requires forall s :: Delivered(allowed, first, s) <==> Delivered(allowed, second, s)
    ensures
      var one, two := Execute(allowed, first), Execute(allowed, second);
      && (key in one.items <==> key in two.items)
      && (key in one.items ==>
            && one.items[key].source == two.items[key].source
            && (NeverClaimed(one, key) && NeverClaimed(two, key) ==>
                  one.items[key].(epoch := 0) == two.items[key].(epoch := 0)))
  {
    NewestSourceWins(allowed, first, key);
    NewestSourceWins(allowed, second, key);
    var one, two := Execute(allowed, first), Execute(allowed, second);
    if key in one.items {
      var a, b := one.items[key].source, two.items[key].source;
      assert Delivered(allowed, first, b) && Delivered(allowed, second, a);
      NewestKept(allowed, first);
      NewestKept(allowed, second);
      OneSource(allowed, first, a, b);
      if NeverClaimed(one, key) && NeverClaimed(two, key) {
        UnclaimedRow(allowed, first, key);
        UnclaimedRow(allowed, second, key);
      }
    }
  }

  lemma OneSource(allowed: Scope, events: seq<Event>, a: Source, b: Source)
    requires OneSourceEach(allowed, events) && Delivered(allowed, events, a) && Delivered(allowed, events, b)
    requires a.id == b.id && a.revision == b.revision
    ensures a == b
  {
  }

  lemma UnclaimedRow(allowed: Scope, events: seq<Event>, key: Digest)
    requires key in Execute(allowed, events).items
    requires NeverClaimed(Execute(allowed, events), key)
    ensures
      var item := Execute(allowed, events).items[key];
      item == Item(key, item.source, item.epoch, RuntimePhase(item.source), None, 0, None, None, [])
  {
    ReachableTrace(allowed, events, key);
    UnclaimedItem(key, History(Execute(allowed, events).journal, key));
  }

  // ---------------------------------------------------------------- redelivery

  lemma StepKeepsIngress(db: Db, allowed: Scope, event: Event, id: string)
    requires id in db.ingress
    ensures
      var next := Step(db, allowed, event).0;
      id in next.ingress && next.ingress[id] == db.ingress[id]
  {
  }

  lemma {:induction false} IngressStays(allowed: Scope, events: seq<Event>, more: seq<Event>, id: string)
    requires id in Execute(allowed, events).ingress
    ensures
      var late := Execute(allowed, events + more);
      id in late.ingress && late.ingress[id] == Execute(allowed, events).ingress[id]
  {
    if more == [] {
      assert events + more == events;
    } else {
      var n := |more| - 1;
      IngressStays(allowed, events, more[..n], id);
      assert events + more == (events + more[..n]) + [more[n]];
      ExecuteSplit(allowed, events + more[..n], more[n]);
      StepKeepsIngress(Execute(allowed, events + more[..n]), allowed, more[n], id);
    }
  }

  /** Once an event id has been accepted, redelivering it changes no table, however much has
      happened since: the same bytes answer "duplicate" with the row of that time, other
      bytes are refused. */
  lemma RedeliveryChangesNothing(allowed: Scope, events: seq<Event>, id: string, source: Source,
                                 more: seq<Event>, other: Source)
    requires Step(Execute(allowed, events), allowed, Deliver(id, source)).1.Ok?
    ensures
      var late := Execute(allowed, events + [Deliver(id, source)] + more);
      var again := Step(late, allowed, Deliver(id, other));
      && again.0 == late
      && SourceKey(source.id) in late.items
      && (other == source ==> again.1 == Ok(Reply(late.items[SourceKey(source.id)], Duplicate)))
      && (other != source ==> again.1 == Err(if Admissible(other, allowed) then EEventReuse else ESource))
  {
    var upTo := events + [Deliver(id, source)];
    ReachableConsistent(allowed, events);
    ExecuteSplit(allowed, events, Deliver(id, source));
    FirstDelivery(Execute(allowed, events), allowed, id, source);
    IngressStays(allowed, upTo, more, id);
    ReachableConsistent(allowed, upTo + more);
  }

  lemma FirstDelivery(db: Db, allowed: Scope, id: string, source: Source)
    requires Step(db, allowed, Deliver(id, source)).1.Ok?
    ensures
      var next := Step(db, allowed, Deliver(id, source)).0;
      && Admissible(source, allowed) && id in next.ingress
      && next.ingress[id].seal == SourceSha(source) && next.ingress[id].key == SourceKey(source.id)
  {
  }
}

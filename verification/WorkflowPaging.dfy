/** Paging through one key's journal with a sequence-number cursor. */
module WorkflowPaging {
  import opened Prelude
  import opened WorkflowItem
  import opened WorkflowStore
  import opened WorkflowHistory
  import opened WorkflowRuntime

  /** A journal row as the database returns it; sequence numbers start at one. */
  datatype Row = Row(sequence: nat, entry: Entry)

  datatype Page = Page(events: seq<Row>, nextCursor: nat, hasMore: bool)

  /** The rows of `key` with a sequence number above `after`, in order. */
  function Rows(journal: seq<Entry>, key: Digest, after: nat): seq<Row>
    decreases |journal| - after
  {
    if after >= |journal| then []
    else
      (if journal[after].key == key then [Row(after + 1, journal[after])] else [])
      + Rows(journal, key, after + 1)
  }

  function PageOf(rows: seq<Row>, after: nat, limit: nat): Page
    requires limit > 0
  {
    var events := if |rows| > limit then rows[..limit] else rows;
    Page(events, if events == [] then after else events[|events| - 1].sequence, |rows| > limit)
  }

  /** The row query: scan forward and stop at `most` rows. */
  method SelectRows(journal: seq<Entry>, key: Digest, after: nat, most: nat) returns (rows: seq<Row>)
    ensures
      var all := Rows(journal, key, after);
      if |all| > most then rows == all[..most] else rows == all
  {
    rows := [];
    var i := after;
    while i < |journal| && |rows| < most
      invariant after <= i
      invariant |rows| <= most
      invariant Rows(journal, key, after) == rows + Rows(journal, key, i)
    {
      if journal[i].key == key {
        rows := rows + [Row(i + 1, journal[i])];
      }
      i := i + 1;
    }
  }

  /** A recorded event as it is checked before it is returned: its source is normalised and in
      scope, and is the one the key stands for. */
  predicate Recorded(allowed: Scope, key: Digest, e: Entry) {
    Admissible(e.item.source, allowed) && e.item.sourceKey == key && SourceKey(e.item.source.id) == key
  }

  predicate AllRecorded(allowed: Scope, key: Digest, rows: seq<Row>) {
    forall i | 0 <= i < |rows| :: Recorded(allowed, key, rows[i].entry)
  }

  method CheckRows(allowed: Scope, key: Digest, rows: seq<Row>) returns (readable: bool)
    ensures readable == AllRecorded(allowed, key, rows)
  {
    var i := 0;
    while i < |rows|
      invariant 0 <= i <= |rows|
      invariant forall k | 0 <= k < i :: Recorded(allowed, key, rows[k].entry)
    {
      if !Recorded(allowed, key, rows[i].entry) {
        return false;
      }
      i := i + 1;
    }
    return true;
  }

  /** Query one row more than the page holds; the extra one only says whether more follow. */
  method ReadPage(store: WorkflowEventStore, key: Digest, after: int, limit: int) returns (r: Result<Page, Error>)
    ensures
      if !(0 <= after < 0x8000_0000_0000_0000) || !(1 <= limit <= 100) then r == Err(ECursor)
      else if key !in store.items then r == Err(ENotFound)
      else if !Admissible(store.items[key].source, store.allowed) then r == Err(ESource)
      else
        var page := PageOf(Rows(store.journal, key, after), after, limit);
        r == if AllRecorded(store.allowed, key, page.events) then Ok(page) else Err(EIntegrity)
    ensures r.Ok? ==> forall i | 0 <= i < |r.value.events| ::
      var item := r.value.events[i].entry.item;
      && item.sourceKey == key && SourceKey(item.source.id) == key
      && (item.source.id.provider, item.source.id.account, item.source.id.repository) in store.allowed
  {
    if !(0 <= after < 0x8000_0000_0000_0000) || !(1 <= limit <= 100) {
      return Err(ECursor);
    }
    if key !in store.items {
      return Err(ENotFound);
    }
    if !Admissible(store.items[key].source, store.allowed) {
      return Err(ESource);
    }
    var rows := SelectRows(store.journal, key, after, limit + 1);
    TruncatedQuery(Rows(store.journal, key, after), after, limit);
    var page := PageOf(rows, after, limit);
    var readable := CheckRows(store.allowed, key, page.events);
    r := if readable then Ok(page) else Err(EIntegrity);
  }

  /** The page can be cut from a query that stopped one row after the limit. */
  lemma TruncatedQuery(all: seq<Row>, after: nat, limit: nat)
    requires limit > 0
    ensures |all| > limit + 1 ==> PageOf(all[..limit + 1], after, limit) == PageOf(all, after, limit)
  {
    if |all| > limit + 1 { assert all[..limit + 1][..limit] == all[..limit]; }
  }

  // ------------------------------------------------------ following the cursor

  lemma {:induction false} RowsOrdered(journal: seq<Entry>, key: Digest, after: nat, i: nat)
    requires i < |Rows(journal, key, after)|
    ensures
      var rows := Rows(journal, key, after);
      && after < rows[i].sequence <= |journal|
      && rows[i].entry == journal[rows[i].sequence - 1]
      && Rows(journal, key, rows[i].sequence) == rows[i + 1..]
    decreases |journal| - after
  {
    if journal[after].key == key {
      if i > 0 { RowsOrdered(journal, key, after + 1, i - 1); }
    } else {
      RowsOrdered(journal, key, after + 1, i);
    }
  }

  /** The concatenation of all pages from `after` on, following `nextCursor` until no more. */
  function Follow(journal: seq<Entry>, key: Digest, after: nat, limit: nat): seq<Row>
    requires limit > 0
    decreases |journal| - after
  {
    var page := PageOf(Rows(journal, key, after), after, limit);
    if page.hasMore then
      RowsOrdered(journal, key, after, limit - 1);
      RowsOrdered(journal, key, after, limit);
      page.events + Follow(journal, key, page.nextCursor, limit)
    else page.events
  }

  lemma {:induction false} FollowIsRows(journal: seq<Entry>, key: Digest, after: nat, limit: nat)
    requires limit > 0
    ensures Follow(journal, key, after, limit) == Rows(journal, key, after)
    decreases |journal| - after
  {
    var rows := Rows(journal, key, after);
    var page := PageOf(rows, after, limit);
    if page.hasMore {
      RowsOrdered(journal, key, after, limit - 1);
      RowsOrdered(journal, key, after, limit);
      FollowIsRows(journal, key, page.nextCursor, limit);
      assert rows == rows[..limit] + rows[limit..];
    }
  }

  function Entries(rows: seq<Row>): seq<Entry> {
    seq(|rows|, i requires 0 <= i < |rows| => rows[i].entry)
  }

  lemma {:induction false} RowsAppend(journal: seq<Entry>, e: Entry, key: Digest, after: nat)
    requires after <= |journal|
    ensures
      Rows(journal + [e], key, after)
      == Rows(journal, key, after) + (if e.key == key then [Row(|journal| + 1, e)] else [])
    decreases |journal| - after
  {
    if after < |journal| {
      RowsAppend(journal, e, key, after + 1);
    } else {
      assert Rows(journal + [e], key, after + 1) == [];
    }
  }

  lemma {:induction false} RowsAreHistory(journal: seq<Entry>, key: Digest)
    ensures Entries(Rows(journal, key, 0)) == History(journal, key)
  {
    if journal == [] {
    } else {
      var n := |journal| - 1;
      RowsAreHistory(journal[..n], key);
      RowsAppend(journal[..n], journal[n], key, 0);
      assert journal[..n] + [journal[n]] == journal;
    }
  }

  /** Following the cursor from zero, with any page size, terminates and yields exactly the
      key's journal in order. */
  lemma PagingCompletes(journal: seq<Entry>, key: Digest, limit: nat)
    requires limit > 0
    ensures Entries(Follow(journal, key, 0, limit)) == History(journal, key)
  {
    FollowIsRows(journal, key, 0, limit);
    RowsAreHistory(journal, key);
  }

  lemma {:induction false} RowsGrow(journal: seq<Entry>, more: seq<Entry>, key: Digest, after: nat)
    ensures Rows(journal, key, after) <= Rows(journal + more, key, after)
    decreases |more|
  {
    if more == [] {
      assert journal + more == journal;
    } else {
      var n := |more| - 1;
      RowsGrow(journal, more[..n], key, after);
      assert journal + more == (journal + more[..n]) + [more[n]];
      if after <= |journal + more[..n]| { RowsAppend(journal + more[..n], more[n], key, after); }
    }
  }

  /** Pages are stable while other actors write: a page that announces more never changes,
      and a last page can only be extended. */
  lemma PagesStable(journal: seq<Entry>, more: seq<Entry>, key: Digest, after: nat, limit: nat)
    requires limit > 0
    ensures
      var page := PageOf(Rows(journal, key, after), after, limit);
      var later := PageOf(Rows(journal + more, key, after), after, limit);
      && page.events <= later.events
      && (page.hasMore ==> later == page)
  {
    RowsGrow(journal, more, key, after);
  }

  // --------------------------------------------------- pages of reachable stores

  /** Every stored source passed the intake checks. */
  ghost predicate InScope(allowed: Scope, db: Db) {
    && (forall key | key in db.items :: Admissible(db.items[key].source, allowed))
    && (forall i | 0 <= i < |db.journal| :: Admissible(db.journal[i].item.source, allowed))
  }

  lemma CommitInScope(allowed: Scope, db: Db, key: Digest, outcome: Outcome)
    requires InScope(allowed, db) && (outcome.Write? ==> Admissible(outcome.item.source, allowed))
    ensures InScope(allowed, Commit(db, key, outcome).0)
  {
  }

  lemma ApplyKeepsSource(key: Digest, item: Item, op: Op)
    requires !op.ObserveSource? && Transition(key, Some(item), op).Write?
    ensures Transition(key, Some(item), op).item.source == item.source
  {
  }

  lemma StepInScope(db: Db, allowed: Scope, event: Event)
    requires InScope(allowed, db)
    ensures InScope(allowed, Step(db, allowed, event).0)
  {
    match event
    case Apply(key, op) =>
      if !op.ObserveSource? {
        var outcome := Transition(key, WorkflowStore.Row(db, key), op);
        if outcome.Write? { ApplyKeepsSource(key, db.items[key], op); }
        CommitInScope(allowed, db, key, outcome);
      }
    case Deliver(id, source) =>
      if Admissible(source, allowed) {
        var key := SourceKey(source.id);
        CommitInScope(allowed, db, key, ObserveStep(key, WorkflowStore.Row(db, key), source));
      }
  }

  lemma {:induction false} ReachableInScope(allowed: Scope, events: seq<Event>)
    ensures InScope(allowed, Execute(allowed, events))
  {
    if events == [] {
    } else {
      ReachableInScope(allowed, events[..|events| - 1]);
      StepInScope(Execute(allowed, events[..|events| - 1]), allowed, events[|events| - 1]);
    }
  }

  lemma {:induction false} LegalPrefix(key: Digest, h: seq<Entry>, i: nat)
    requires Legal(key, h) && i <= |h|
    ensures Legal(key, h[..i])
  {
    if i == |h| {
      assert h[..i] == h;
    } else {
      LegalPrefix(key, h[..|h| - 1], i);
      assert h[..|h| - 1][..i] == h[..i];
    }
  }

  lemma HistoryRecorded(allowed: Scope, key: Digest, journal: seq<Entry>, h: seq<Entry>, i: nat)
    requires forall e | e in h :: e in journal
    requires forall k | 0 <= k < |journal| :: Admissible(journal[k].item.source, allowed)
    requires Legal(key, h) && i < |h|
    ensures Recorded(allowed, key, h[i])
  {
    LegalPrefix(key, h, i + 1);
    assert h[i] in h && h[i] in journal;
    LastRecorded(allowed, key, h[..i + 1]);
  }

  lemma LastRecorded(allowed: Scope, key: Digest, h: seq<Entry>)
    requires Legal(key, h) && h != [] && Admissible(h[|h| - 1].item.source, allowed)
    ensures Recorded(allowed, key, h[|h| - 1])
  {
    LegalIsTrace(key, h);
    TraceItemOk(key, h);
  }

  lemma {:induction false} HistoryFromJournal(journal: seq<Entry>, key: Digest)
    ensures forall e | e in History(journal, key) :: e in journal
  {
    if journal == [] {
    } else {
      HistoryFromJournal(journal[..|journal| - 1], key);
    }
  }

  /** No reader of a reachable store is ever refused a page for its contents: every row of the
      key's journal, and the current row, passes the checks made on reading. */
  lemma ReachablePagesReadable(allowed: Scope, events: seq<Event>, key: Digest, after: nat, limit: nat)
    requires limit > 0 && key in Execute(allowed, events).items
    ensures
      var db := Execute(allowed, events);
      && Admissible(db.items[key].source, allowed)
      && AllRecorded(allowed, key, PageOf(Rows(db.journal, key, after), after, limit).events)
  {
    var db := Execute(allowed, events);
    ReachableInScope(allowed, events);
    ReachableConsistent(allowed, events);
    assert Legal(key, History(db.journal, key));
    HistoryFromJournal(db.journal, key);
    RowsAreHistory(db.journal, key);
    var rows := Rows(db.journal, key, after);
    forall i | 0 <= i < |rows| ensures Recorded(allowed, key, rows[i].entry) {
      var k := RowInHistory(db.journal, key, after, i);
      HistoryRecorded(allowed, key, db.journal, History(db.journal, key), k);
    }
  }

  lemma RowInHistory(journal: seq<Entry>, key: Digest, after: nat, i: nat) returns (k: nat)
    requires i < |Rows(journal, key, after)|
    ensures k < |History(journal, key)| && History(journal, key)[k] == Rows(journal, key, after)[i].entry
  {
    RowsAreHistory(journal, key);
    RowsSuffix(journal, key, after);
    var all := Rows(journal, key, 0);
    k := |all| - |Rows(journal, key, after)| + i;
    assert Entries(all)[k] == all[k].entry;
  }

  lemma {:induction false} RowsSuffix(journal: seq<Entry>, key: Digest, after: nat)
    ensures |Rows(journal, key, after)| <= |Rows(journal, key, 0)|
    ensures Rows(journal, key, after) == Rows(journal, key, 0)[|Rows(journal, key, 0)| - |Rows(journal, key, after)|..]
    decreases after
  {
    if after > 0 { RowsSuffix(journal, key, after - 1); }
  }
}

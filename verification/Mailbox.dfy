/** Whole histories of the notifications table: generation, delivery and the retention cleanup
    (domains/retention/service.py) in any order. */
module Mailbox {
  import opened Prelude
  import opened Tables
  import opened Notifications
  import opened Dispatch

  // The table with its id counter, and every call made to the message client so far.
  datatype Mail = Mail(book: Book, calls: seq<Id>)

  datatype Event =
    | Generated(triggers: seq<Trigger>, at: int)
    | Dispatched(users: seq<User>, accepts: Client, limit: nat)
    | CleanedUp(cutoff: int)

  // DELETE FROM notifications WHERE created_at < cutoff leaves these.
  function Retained(cutoff: int): Notification -> bool { (n: Notification) => n.createdAt >= cutoff }

  function Apply(uuid: Printer, m: Mail, e: Event): Mail {
    match e
    case Generated(triggers, at) => m.(book := NotifiedAll(uuid, m.book, triggers, at))
    case Dispatched(users, accepts, limit) =>
      Mail(m.book.(notes := AfterDispatch(m.book.notes, users, accepts, limit)),
           m.calls + CallsFor(users, Batch(m.book.notes, users, limit)))
    case CleanedUp(cutoff) => m.(book := m.book.(notes := Filter(m.book.notes, Retained(cutoff))))
  }

  function Run(uuid: Printer, m: Mail, events: seq<Event>): Mail
    decreases |events|
  {
    if events == [] then m else Run(uuid, Apply(uuid, m, events[0]), events[1..])
  }

  // ---- delivered at most once ----

  // Ids are unique and handed out; a row the client was called for is no longer waiting.
  ghost predicate MailOk(m: Mail) {
    && Distinct(m.book.notes, NoteId())
    && (forall n | n in m.book.notes :: n.id < m.book.nextId)
    && AllDifferent(m.calls)
    && (forall id | id in m.calls :: id < m.book.nextId)
    && (forall n | n in m.book.notes && n.id in m.calls :: n.status != Created)
  }

  lemma NotifiedMailOk(uuid: Printer, m: Mail, t: Trigger, at: int)
    requires MailOk(m)
    ensures MailOk(m.(book := Notified(uuid, m.book, t, at)))
  {
    if Find(m.book.notes, HasKey(KeyOfTrigger(uuid, t))).None? {
      DistinctAppend(m.book.notes, NoteId(), NoteOf(uuid, m.book.nextId, t, at));
    }
  }

  lemma {:induction false} GeneratedMailOk(uuid: Printer, m: Mail, triggers: seq<Trigger>, at: int)
    requires MailOk(m)
    ensures MailOk(m.(book := NotifiedAll(uuid, m.book, triggers, at)))
  {
    if triggers != [] {
      var n := |triggers| - 1;
      GeneratedMailOk(uuid, m, triggers[..n], at);
      NotifiedMailOk(uuid, m.(book := NotifiedAll(uuid, m.book, triggers[..n], at)), triggers[n], at);
    }
  }

  lemma {:induction false} CallsAreOfBatch(users: seq<User>, batch: seq<Notification>)
    requires Distinct(batch, NoteId())
    ensures AllDifferent(CallsFor(users, batch))
    ensures forall id | id in CallsFor(users, batch) :: id in Ids(batch)
  {
    if batch != [] {
      var k := |batch| - 1;
      var last := batch[k];
      DistinctPrefix(batch, NoteId(), k);
      CallsAreOfBatch(users, batch[..k]);
      assert batch == batch[..k] + [last];
      forall id | id in CallsFor(users, batch[..k]) ensures id in Ids(batch) && id != last.id {
        var n :| n in batch[..k] && n.id == id;
        var i :| 0 <= i < k && batch[..k][i] == n;
        assert NoteId()(batch[i]) != NoteId()(batch[k]);
        assert n in batch;
      }
      if Reachable(users)(last) {
        DifferentConcat(CallsFor(users, batch[..k]), [last.id]);
      }
    }
  }

  lemma DifferentConcat(a: seq<Id>, b: seq<Id>)
    requires AllDifferent(a) && AllDifferent(b) && forall id | id in b :: id !in a
    ensures AllDifferent(a + b)
  {
    forall i, j | 0 <= i < |a| && 0 <= j < |b| ensures a[i] != b[j] {
      assert b[j] in b;
    }
  }

  lemma NewCalls(m: Mail, users: seq<User>, batch: seq<Notification>)
    requires MailOk(m) && Distinct(batch, NoteId())
    requires forall n | n in batch :: n in m.book.notes && n.status == Created
    ensures AllDifferent(m.calls + CallsFor(users, batch))
    ensures forall id | id in m.calls + CallsFor(users, batch) :: id < m.book.nextId && (id in m.calls || id in Ids(batch))
  {
    CallsAreOfBatch(users, batch);
    forall id | id in Ids(batch) ensures id !in m.calls && id < m.book.nextId {
      var n :| n in batch && n.id == id;
    }
    DifferentConcat(m.calls, CallsFor(users, batch));
  }

  lemma DispatchedMailOk(m: Mail, users: seq<User>, accepts: Client, limit: nat)
    requires MailOk(m)
    ensures MailOk(Mail(m.book.(notes := AfterDispatch(m.book.notes, users, accepts, limit)),
                        m.calls + CallsFor(users, Batch(m.book.notes, users, limit))))
  {
    var notes, batch := m.book.notes, Batch(m.book.notes, users, limit);
    var after := AfterDispatch(notes, users, accepts, limit);
    DispatchSettles(notes, users, accepts, limit);
    NewCalls(m, users, batch);
    SettledStatuses(notes, after, Ids(batch), m.calls, m.book.nextId);
    AssembleMail(m, after, users, batch);
  }

  lemma AssembleMail(m: Mail, after: seq<Notification>, users: seq<User>, batch: seq<Notification>)
    requires Distinct(after, NoteId())
    requires forall n | n in after :: n.id < m.book.nextId
    requires forall n | n in after && (n.id in m.calls || n.id in Ids(batch)) :: n.status != Created
    requires AllDifferent(m.calls + CallsFor(users, batch))
    requires forall id | id in m.calls + CallsFor(users, batch) :: id < m.book.nextId && (id in m.calls || id in Ids(batch))
    ensures MailOk(Mail(m.book.(notes := after), m.calls + CallsFor(users, batch)))
  {}

  lemma SettledStatuses(notes: seq<Notification>, after: seq<Notification>, ids: set<Id>, calls: seq<Id>, nextId: Id)
    requires SettledIn(notes, after, ids)
    requires forall n | n in notes :: n.id < nextId
    requires forall n | n in notes && n.id in calls :: n.status != Created
    ensures forall n | n in after :: n.id < nextId
    ensures forall n | n in after && (n.id in calls || n.id in ids) :: n.status != Created
  {
    forall n | n in after
      ensures n.id < nextId
      ensures n.id in calls || n.id in ids ==> n.status != Created
    {
      var i :| 0 <= i < |after| && after[i] == n;
      assert notes[i] in notes;
    }
  }

  lemma EventKeepsMailOk(uuid: Printer, m: Mail, e: Event)
    requires MailOk(m)
    ensures MailOk(Apply(uuid, m, e))
  {
    match e
    case Generated(triggers, at) => GeneratedMailOk(uuid, m, triggers, at);
    case Dispatched(users, accepts, limit) => DispatchedMailOk(m, users, accepts, limit);
    case CleanedUp(cutoff) => DistinctFilter(m.book.notes, Retained(cutoff), NoteId());
  }

  lemma {:induction false} RunKeepsMailOk(uuid: Printer, m: Mail, events: seq<Event>)
    requires MailOk(m)
    ensures MailOk(Run(uuid, m, events))
    decreases |events|
  {
    if events != [] {
      EventKeepsMailOk(uuid, m, events[0]);
      RunKeepsMailOk(uuid, Apply(uuid, m, events[0]), events[1..]);
    }
  }

  // Over any history the client is called at most once for each notification.
  lemma DeliveredAtMostOnce(uuid: Printer, events: seq<Event>)
    ensures AllDifferent(Run(uuid, Mail(Book(0, []), []), events).calls)
  {
    RunKeepsMailOk(uuid, Mail(Book(0, []), []), events);
  }

  // ---- notified at most once ----

  lemma DispatchKeepsBook(uuid: Printer, book: Book, users: seq<User>, accepts: Client, limit: nat)
    requires BookOk(uuid, book)
    ensures BookOk(uuid, book.(notes := AfterDispatch(book.notes, users, accepts, limit)))
  {
    var after := AfterDispatch(book.notes, users, accepts, limit);
    var batch := Batch(book.notes, users, limit);
    SettledRows(book.notes, users, accepts, batch, |batch|);
    forall i, j | 0 <= i < j < |after| ensures KeyOfNote()(after[i]) != KeyOfNote()(after[j]) {
      assert KeyOfNote()(book.notes[i]) != KeyOfNote()(book.notes[j]);
    }
    forall n | n in after
      ensures n.id < book.nextId && n.watchlistId.Some? && n.offerId.Some?
      ensures n.dedupeKey == DedupeKey(uuid, n.watchlistId.value, n.offerId.value, n.kind)
    {
      var i :| 0 <= i < |after| && after[i] == n;
      assert book.notes[i] in book.notes;
    }
  }

  lemma EventKeepsBook(uuid: Printer, m: Mail, e: Event)
    requires BookOk(uuid, m.book)
    ensures BookOk(uuid, Apply(uuid, m, e).book)
  {
    match e
    case Generated(triggers, at) => NotifiedAllOk(uuid, m.book, triggers, at);
    case Dispatched(users, accepts, limit) => DispatchKeepsBook(uuid, m.book, users, accepts, limit);
    case CleanedUp(cutoff) => DistinctFilter(m.book.notes, Retained(cutoff), KeyOfNote());
  }

  // The row at a position stays the row at that position, but for its status.
  ghost predicate RowsStay(notes: seq<Notification>, after: seq<Notification>) {
    && |notes| <= |after|
    && forall i | 0 <= i < |notes| :: after[i] == notes[i].(status := after[i].status)
  }

  lemma EventKeepsRows(uuid: Printer, m: Mail, e: Event)
    requires !e.CleanedUp?
    ensures RowsStay(m.book.notes, Apply(uuid, m, e).book.notes)
  {
    match e
    case Generated(triggers, at) => NotifiedAllAdds(uuid, m.book, triggers, at);
    case Dispatched(users, accepts, limit) =>
      var batch := Batch(m.book.notes, users, limit);
      SettledRows(m.book.notes, users, accepts, batch, |batch|);
  }

  lemma {:induction false} RunKeepsBook(uuid: Printer, m: Mail, events: seq<Event>)
    requires BookOk(uuid, m.book)
    ensures BookOk(uuid, Run(uuid, m, events).book)
    ensures (forall e | e in events :: !e.CleanedUp?) ==> RowsStay(m.book.notes, Run(uuid, m, events).book.notes)
    decreases |events|
  {
    if events != [] {
      var e, next := events[0], Apply(uuid, m, events[0]);
      EventKeepsBook(uuid, m, e);
      RunKeepsBook(uuid, next, events[1..]);
      if forall e | e in events :: !e.CleanedUp? {
        assert e in events;
        EventKeepsRows(uuid, m, e);
      }
    }
  }

  // At no time has a triple two rows; and without a cleanup the row a triple once got stays its
  // only row for ever.
  lemma NotifiedAtMostOnce(uuid: Printer, m: Mail, events: seq<Event>, t: Trigger, i: nat)
    requires BookOk(uuid, m.book)
    ensures var notes := Run(uuid, m, events).book.notes;
            forall j, k | 0 <= j < |notes| && 0 <= k < |notes| && IsFor(notes[j], t) && IsFor(notes[k], t) :: j == k
    ensures i < |m.book.notes| && IsFor(m.book.notes[i], t) && (forall e | e in events :: !e.CleanedUp?) ==>
              var notes := Run(uuid, m, events).book.notes;
              && i < |notes| && notes[i].id == m.book.notes[i].id
              && forall j | 0 <= j < |notes| :: IsFor(notes[j], t) <==> j == i
  {
    RunKeepsBook(uuid, m, events);
    AtMostOneRow(uuid, Run(uuid, m, events).book, t);
  }

  // A cleanup forgets: a triple that has a row is notified again at the next run exactly when
  // that row was older than the cutoff.
  lemma CleanupForgetsIff(uuid: Printer, m: Mail, t: Trigger, i: nat, cutoff: int, at: int)
    requires BookOk(uuid, m.book) && i < |m.book.notes| && IsFor(m.book.notes[i], t)
    ensures var cleaned := Apply(uuid, m, CleanedUp(cutoff));
            (Notified(uuid, cleaned.book, t, at) != cleaned.book) <==> m.book.notes[i].createdAt < cutoff
  {
    var notes, row := m.book.notes, m.book.notes[i];
    assert row in notes;
    forall n | n in Filter(notes, Retained(cutoff)) && HasKey(KeyOfTrigger(uuid, t))(n) ensures n == row {
      SameKeySameRow(notes, KeyOfNote(), n, row);
    }
    if row.createdAt >= cutoff {
      assert row in Filter(notes, Retained(cutoff)) && HasKey(KeyOfTrigger(uuid, t))(row);
    }
  }

  // ---- lost undelivered ----

  // A row that is gone is never delivered: its id is not given out again.
  ghost predicate Gone(m: Mail, id: Id) {
    id < m.book.nextId && id !in m.calls && forall n | n in m.book.notes :: n.id != id
  }

  lemma {:induction false} NotifiedStaysGone(uuid: Printer, m: Mail, triggers: seq<Trigger>, at: int, id: Id)
    requires Gone(m, id)
    ensures Gone(m.(book := NotifiedAll(uuid, m.book, triggers, at)), id)
  {
    if triggers != [] {
      NotifiedStaysGone(uuid, m, triggers[..|triggers| - 1], at, id);
    }
  }

  lemma SettledStaysGone(notes: seq<Notification>, after: seq<Notification>, ids: set<Id>, id: Id)
    requires SettledIn(notes, after, ids) && forall n | n in notes :: n.id != id
    ensures forall n | n in after :: n.id != id
  {
    forall n | n in after ensures n.id != id {
      var i :| 0 <= i < |after| && after[i] == n;
      assert notes[i] in notes;
    }
  }

  lemma DispatchStaysGone(notes: seq<Notification>, users: seq<User>, accepts: Client, limit: nat, id: Id)
    requires Distinct(notes, NoteId()) && forall n | n in notes :: n.id != id
    ensures forall n | n in AfterDispatch(notes, users, accepts, limit) :: n.id != id
    ensures id !in CallsFor(users, Batch(notes, users, limit))
  {
    DispatchSettles(notes, users, accepts, limit);
    SettledStaysGone(notes, AfterDispatch(notes, users, accepts, limit), Ids(Batch(notes, users, limit)), id);
    CallsAreOfBatch(users, Batch(notes, users, limit));
  }

  lemma EventStaysGone(uuid: Printer, m: Mail, e: Event, id: Id)
    requires MailOk(m) && Gone(m, id)
    ensures Gone(Apply(uuid, m, e), id)
  {
    match e
    case Generated(triggers, at) => NotifiedStaysGone(uuid, m, triggers, at, id);
    case Dispatched(users, accepts, limit) =>
      DispatchStaysGone(m.book.notes, users, accepts, limit, id);
    case CleanedUp(cutoff) =>
  }

  lemma {:induction false} RunStaysGone(uuid: Printer, m: Mail, events: seq<Event>, id: Id)
    requires MailOk(m) && Gone(m, id)
    ensures Gone(Run(uuid, m, events), id)
    decreases |events|
  {
    if events != [] {
      EventKeepsMailOk(uuid, m, events[0]);
      EventStaysGone(uuid, m, events[0], id);
      RunStaysGone(uuid, Apply(uuid, m, events[0]), events[1..], id);
    }
  }

  lemma {:induction false} CallsInclude(users: seq<User>, batch: seq<Notification>, n: Notification)
    requires n in batch && Reachable(users)(n)
    ensures n.id in CallsFor(users, batch)
  {
    var k := |batch| - 1;
    if batch[k] != n {
      assert n in batch[..k];
      CallsInclude(users, batch[..k], n);
    }
  }

  // One dispatch to the row's user with room for the whole table delivers it.
  lemma DispatchReaches(uuid: Printer, m: Mail, n: Notification, users: seq<User>, accepts: Client)
    requires n in m.book.notes && n.status == Created && users == [User(n.userId, Some(0))]
    ensures n.id in Apply(uuid, m, Dispatched(users, accepts, |m.book.notes|)).calls
  {
    var user, queue := users[0], Queue(m.book.notes, users);
    assert HasUserId(n.userId)(user) && Find(users, HasUserId(n.userId)) == Some(user);
    SortContents(Filter(m.book.notes, IsPending(users)), OldestFirst());
    assert n in queue && |queue| <= |m.book.notes|;
    CallsInclude(users, Batch(m.book.notes, users, |m.book.notes|), n);
  }

  lemma RunOfOne(uuid: Printer, m: Mail, e: Event)
    ensures Run(uuid, m, [e]) == Apply(uuid, m, e)
  {
    assert [e][1..] == [];
    assert Run(uuid, Apply(uuid, m, e), []) == Apply(uuid, m, e);
  }

  lemma CanBeDelivered(uuid: Printer, m: Mail, n: Notification) returns (events: seq<Event>)
    requires n in m.book.notes && n.status == Created
    ensures n.id in Run(uuid, m, events).calls
  {
    var users: seq<User> := [User(n.userId, Some(0))];
    var accepts: Client := _ => true;
    DispatchReaches(uuid, m, n, users, accepts);
    RunOfOne(uuid, m, Dispatched(users, accepts, |m.book.notes|));
    events := [Dispatched(users, accepts, |m.book.notes|)];
  }

  lemma CleanedIsNeverDelivered(uuid: Printer, m: Mail, n: Notification, cutoff: int, events: seq<Event>)
    requires MailOk(m) && n in m.book.notes && n.status == Created && n.createdAt < cutoff
    ensures n.id !in Run(uuid, Apply(uuid, m, CleanedUp(cutoff)), events).calls
  {
    var cleaned := Apply(uuid, m, CleanedUp(cutoff));
    forall k | k in cleaned.book.notes ensures k.id != n.id {
      if k.id == n.id { SameKeySameRow(m.book.notes, NoteId(), k, n); }
    }
    EventKeepsMailOk(uuid, m, CleanedUp(cutoff));
    RunStaysGone(uuid, cleaned, events, n.id);
  }

  // A cleanup does not ask whether a notification was delivered: one that is still waiting can be
  // delivered later exactly if it is not older than the cutoff.
  lemma LostUndeliveredIff(uuid: Printer, m: Mail, n: Notification, cutoff: int)
    requires MailOk(m) && n in m.book.notes && n.status == Created
    ensures (exists events :: n.id in Run(uuid, Apply(uuid, m, CleanedUp(cutoff)), events).calls) <==> n.createdAt >= cutoff
  {
    var cleaned := Apply(uuid, m, CleanedUp(cutoff));
    if n.createdAt >= cutoff {
      assert n in cleaned.book.notes;
      var events := CanBeDelivered(uuid, cleaned, n);
    } else {
      forall events ensures n.id !in Run(uuid, cleaned, events).calls {
        CleanedIsNeverDelivered(uuid, m, n, cutoff, events);
      }
    }
  }
}

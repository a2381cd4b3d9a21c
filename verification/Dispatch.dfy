/** Delivering notifications (domains/notifications/service.py): a queue drained oldest first, a
    limited number of rows at a time, each row settled once. The history of a mailbox interleaves
    generation, delivery and the retention cleanup. */
module Dispatch {
  import opened Prelude
  import opened Tables
  import opened Notifications

  function NoteId(): Notification -> Id { (n: Notification) => n.id }

  // A row waiting for delivery, joined with its user.
  function IsPending(users: seq<User>): Notification -> bool {
    (n: Notification) => n.status == Created && Find(users, HasUserId(n.userId)).Some?
  }

  function OldestFirst(): (Notification, Notification) -> bool {
    (a: Notification, b: Notification) => a.createdAt <= b.createdAt
  }

  function Queue(notes: seq<Notification>, users: seq<User>): seq<Notification> {
    Sort(Filter(notes, IsPending(users)), OldestFirst())
  }

  function Batch(notes: seq<Notification>, users: seq<User>, limit: nat): seq<Notification> {
    var queue := Queue(notes, users);
    if limit < |queue| then queue[..limit] else queue
  }

  // What the message client answers for a row.
  type Client = Id -> bool

  function TelegramOf(users: seq<User>, n: Notification): Option<int> {
    match Find(users, HasUserId(n.userId)) case None => None case Some(u) => u.telegramId
  }

  function Outcome(users: seq<User>, accepts: Client, n: Notification): NoteStatus {
    if TelegramOf(users, n).Some? && accepts(n.id) then Sent else Undelivered
  }

  function Settling(id: Id, status: NoteStatus): Notification -> Notification {
    (n: Notification) => if n.id == id then n.(status := status) else n
  }

  function SettledBatch(notes: seq<Notification>, users: seq<User>, accepts: Client,
                        batch: seq<Notification>, k: nat): seq<Notification>
    requires k <= |batch|
  {
    if k == 0 then notes
    else MapSeq(SettledBatch(notes, users, accepts, batch, k - 1),
                Settling(batch[k - 1].id, Outcome(users, accepts, batch[k - 1])))
  }

  // The rows for which the client is called: those whose user can be reached.
  function Reachable(users: seq<User>): Notification -> bool { (n: Notification) => TelegramOf(users, n).Some? }

  function CallsFor(users: seq<User>, batch: seq<Notification>): seq<Id> {
    if batch == [] then []
    else
      var last := batch[|batch| - 1];
      CallsFor(users, batch[..|batch| - 1]) + if Reachable(users)(last) then [last.id] else []
  }

  function Delivered(users: seq<User>, accepts: Client): Notification -> bool {
    (n: Notification) => Outcome(users, accepts, n) == Sent
  }

  datatype DispatchStats = DispatchStats(sent: nat, failed: nat, skipped: nat)

  method DeliverNotification(session: Session, note: Notification, accepts: Client)
    returns (sent: bool, called: seq<Id>)
    modifies session`notifications
    ensures session.notifications ==
              MapSeq(old(session.notifications), Settling(note.id, Outcome(session.users, accepts, note)))
    ensures called == if Reachable(session.users)(note) then [note.id] else []
    ensures sent <==> Delivered(session.users, accepts)(note)
    ensures Distinct(session.users, UserId()) ==>
              && (sent <==> HasTelegram(session.users, note) && accepts(note.id))
              && (called != [] <==> HasTelegram(session.users, note))
    ensures session.notifications == MapSeq(old(session.notifications), Settling(note.id, if sent then Sent else Undelivered))
  {
    if Distinct(session.users, UserId()) {
      OutcomeMeans(session.users, accepts, note);
    }
    if TelegramOf(session.users, note).None? {
      session.notifications := MapSeq(session.notifications, Settling(note.id, Undelivered));
      return false, [];
    }
    called := [note.id];
    sent := accepts(note.id);
    if sent {
      session.notifications := MapSeq(session.notifications, Settling(note.id, Sent));
    } else {
      session.notifications := MapSeq(session.notifications, Settling(note.id, Undelivered));
    }
  }

  lemma OneMoreNote(users: seq<User>, accepts: Client, batch: seq<Notification>, i: nat)
    requires i < |batch|
    ensures CallsFor(users, batch[..i + 1]) ==
              CallsFor(users, batch[..i]) + if Reachable(users)(batch[i]) then [batch[i].id] else []
    ensures |Filter(batch[..i + 1], Delivered(users, accepts))| ==
              |Filter(batch[..i], Delivered(users, accepts))| + if Delivered(users, accepts)(batch[i]) then 1 else 0
  {
    assert batch[..i + 1] == batch[..i] + [batch[i]];
    assert batch[..i + 1][..i] == batch[..i];
    FilterLast(batch[..i], batch[i], Delivered(users, accepts));
  }

  // The loop of a dispatch over its batch.
  method DeliverBatch(session: Session, accepts: Client, batch: seq<Notification>)
    returns (stats: DispatchStats, calls: seq<Id>)
    modifies session`notifications
    ensures session.notifications == SettledBatch(old(session.notifications), session.users, accepts, batch, |batch|)
    ensures calls == CallsFor(session.users, batch)
    ensures stats.sent == |Filter(batch, Delivered(session.users, accepts))|
    ensures stats.sent + stats.failed == |batch| && stats.skipped == 0
  {
    ghost var notes, users := session.notifications, session.users;
    var sent, failed := 0, 0;
    calls := [];
    for i := 0 to |batch|
      invariant session.notifications == SettledBatch(notes, users, accepts, batch, i)
      invariant calls == CallsFor(users, batch[..i])
      invariant sent == |Filter(batch[..i], Delivered(users, accepts))| && sent + failed == i
    {
      OneMoreNote(users, accepts, batch, i);
      var ok, called := DeliverNotification(session, batch[i], accepts);
      calls := calls + called;
      if ok {
        sent := sent + 1;
      } else {
        failed := failed + 1;
      }
    }
    assert batch[..|batch|] == batch;
    stats := DispatchStats(sent, failed, 0);
  }

  method DispatchCreatedNotifications(session: Session, accepts: Client, limit: nat)
    returns (stats: DispatchStats, calls: seq<Id>)
    modifies session`notifications
    ensures session.notifications == AfterDispatch(old(session.notifications), session.users, accepts, limit)
    ensures var batch := Batch(old(session.notifications), session.users, limit);
            && calls == CallsFor(session.users, batch)
            && stats.sent == |Filter(batch, Delivered(session.users, accepts))|
            && stats.sent + stats.failed == |batch| && stats.skipped == 0
    ensures Distinct(old(session.notifications), NoteId()) && Distinct(session.users, UserId()) ==>
              DispatchDone(old(session.notifications), session.notifications, session.users, accepts, limit, stats, calls)
  {
    ghost var notes := session.notifications;
    var batch := Batch(session.notifications, session.users, limit);
    stats, calls := DeliverBatch(session, accepts, batch);
    if Distinct(notes, NoteId()) && Distinct(session.users, UserId()) {
      CallIsDone(notes, session.users, accepts, limit, stats);
    }
  }

  // ---- one call ----

  function Ids(notes: seq<Notification>): set<Id> { set n | n in notes :: n.id }

  function PendingIds(notes: seq<Notification>, users: seq<User>): set<Id> {
    set n | n in notes && IsPending(users)(n) :: n.id
  }

  ghost predicate SettledIn(notes: seq<Notification>, after: seq<Notification>, ids: set<Id>) {
    && |after| == |notes|
    && forall i | 0 <= i < |notes| ::
         && after[i] == notes[i].(status := after[i].status)
         && (notes[i].id !in ids ==> after[i] == notes[i])
         && (notes[i].id in ids ==> after[i].status != Created)
  }

  lemma {:induction false} SettledRows(notes: seq<Notification>, users: seq<User>, accepts: Client,
                                       batch: seq<Notification>, k: nat)
    requires k <= |batch|
    ensures SettledIn(notes, SettledBatch(notes, users, accepts, batch, k), Ids(batch[..k]))
  {
    if k > 0 {
      SettledRows(notes, users, accepts, batch, k - 1);
      assert batch[..k] == batch[..k - 1] + [batch[k - 1]];
    }
  }

  lemma OldestFirstIsTotal()
    ensures TotalPreorder(OldestFirst())
  {}

  lemma QueueOfPending(notes: seq<Notification>, users: seq<User>)
    requires Distinct(notes, NoteId())
    ensures var queue := Queue(notes, users);
            && Sorted(queue, OldestFirst()) && Distinct(queue, NoteId())
            && forall n :: n in queue <==> n in notes && IsPending(users)(n)
  {
    var pending := Filter(notes, IsPending(users));
    OldestFirstIsTotal();
    SortContents(pending, OldestFirst());
    SortSorted(pending, OldestFirst());
    DistinctFilter(notes, IsPending(users), NoteId());
    DistinctPermuted(pending, Queue(notes, users), NoteId());
  }

  lemma {:induction false} CountIds(notes: seq<Notification>)
    requires Distinct(notes, NoteId())
    ensures |Ids(notes)| == |notes|
  {
    if notes != [] {
      var k := |notes| - 1;
      DistinctPrefix(notes, NoteId(), k);
      CountIds(notes[..k]);
      assert notes == notes[..k] + [notes[k]];
      forall i | 0 <= i < k ensures notes[..k][i].id != notes[k].id {
        assert NoteId()(notes[i]) != NoteId()(notes[k]);
      }
      assert Ids(notes) == Ids(notes[..k]) + {notes[k].id};
    }
  }

  // The batch is the oldest pending rows, as many as the limit allows.
  lemma BatchIsOldest(notes: seq<Notification>, users: seq<User>, limit: nat)
    requires Distinct(notes, NoteId())
    ensures var batch, pending := Batch(notes, users, limit), PendingIds(notes, users);
            && Distinct(batch, NoteId())
            && Ids(batch) <= pending && |Ids(batch)| == |batch|
            && |batch| == (if limit < |pending| then limit else |pending|)
            && OldestBatch(notes, users, batch)
  {
    var queue, batch := Queue(notes, users), Batch(notes, users, limit);
    QueueOfPending(notes, users);
    CountIds(queue);
    assert Ids(queue) == PendingIds(notes, users);
    DistinctPrefix(queue, NoteId(), |batch|);
    assert batch == queue[..|batch|];
    CountIds(batch);
    forall a, b | a in batch && b in notes && IsPending(users)(b) && b.id !in Ids(batch)
      ensures a.createdAt <= b.createdAt
    {
      BatchPrecedes(queue, |batch|, a, b);
    }
  }

  lemma BatchPrecedes(queue: seq<Notification>, k: nat, a: Notification, b: Notification)
    requires k <= |queue| && Sorted(queue, OldestFirst())
    requires a in queue[..k] && b in queue && b.id !in Ids(queue[..k])
    ensures a.createdAt <= b.createdAt
  {
    var i :| 0 <= i < k && queue[i] == a;
    var j :| 0 <= j < |queue| && queue[j] == b;
    forall m | 0 <= m < k ensures queue[m].id in Ids(queue[..k]) {
      assert queue[..k][m] in queue[..k];
    }
    assert OldestFirst()(queue[i], queue[j]);
  }

  function AfterDispatch(notes: seq<Notification>, users: seq<User>, accepts: Client, limit: nat): seq<Notification> {
    var batch := Batch(notes, users, limit);
    SettledBatch(notes, users, accepts, batch, |batch|)
  }

  ghost predicate SettlesOldest(notes: seq<Notification>, after: seq<Notification>, users: seq<User>, limit: nat) {
    var settled, n := PendingIds(notes, users) - PendingIds(after, users), |PendingIds(notes, users)|;
    && SettledIn(notes, after, settled)
    && PendingIds(after, users) <= PendingIds(notes, users)
    && |settled| == (if limit < n then limit else n)
    && |PendingIds(after, users)| == n - |settled|
    && NoneOlderLeft(notes, after, users, settled)
  }

  ghost predicate NoneOlderLeft(notes: seq<Notification>, after: seq<Notification>, users: seq<User>, settled: set<Id>) {
    forall a, b | a in notes && b in after && a.id in settled && IsPending(users)(b) :: a.createdAt <= b.createdAt
  }

  ghost predicate OldestBatch(notes: seq<Notification>, users: seq<User>, batch: seq<Notification>) {
    forall a, b | a in batch && b in notes && IsPending(users)(b) && b.id !in Ids(batch) :: a.createdAt <= b.createdAt
  }

  // One call settles as many pending rows as the limit allows, leaves every other row as it was,
  // and leaves no row pending that is older than one it settled.
  lemma DispatchSettles(notes: seq<Notification>, users: seq<User>, accepts: Client, limit: nat)
    requires Distinct(notes, NoteId())
    ensures SettlesOldest(notes, AfterDispatch(notes, users, accepts, limit), users, limit)
    ensures Distinct(AfterDispatch(notes, users, accepts, limit), NoteId())
    ensures SettledIn(notes, AfterDispatch(notes, users, accepts, limit), Ids(Batch(notes, users, limit)))
    ensures Distinct(Batch(notes, users, limit), NoteId())
    ensures forall n | n in Batch(notes, users, limit) :: n in notes && n.status == Created
  {
    var batch, after := Batch(notes, users, limit), AfterDispatch(notes, users, accepts, limit);
    SettledRows(notes, users, accepts, batch, |batch|);
    assert batch[..|batch|] == batch;
    SettledKeepsIds(notes, after, Ids(batch));
    BatchIsOldest(notes, users, limit);
    QueueOfPending(notes, users);
    assert forall n | n in batch :: n in Queue(notes, users);
    SettledOlder(notes, after, users, batch);
    SettlingIds(notes, after, users, Ids(batch), limit);
  }

  lemma SettlingIds(notes: seq<Notification>, after: seq<Notification>, users: seq<User>, ids: set<Id>, limit: nat)
    requires SettledIn(notes, after, ids) && NoneOlderLeft(notes, after, users, ids)
    requires ids <= PendingIds(notes, users)
    requires |ids| == if limit < |PendingIds(notes, users)| then limit else |PendingIds(notes, users)|
    ensures SettlesOldest(notes, after, users, limit)
  {
    PendingAfter(notes, after, users, ids);
    var before, left := PendingIds(notes, users), PendingIds(after, users);
    SetMinus(before, ids);
    assert before - left == ids;
  }

  lemma PendingAfter(notes: seq<Notification>, after: seq<Notification>, users: seq<User>, ids: set<Id>)
    requires SettledIn(notes, after, ids)
    ensures PendingIds(after, users) == PendingIds(notes, users) - ids
  {
    forall id | id in PendingIds(after, users) ensures id in PendingIds(notes, users) - ids {
      var n :| n in after && IsPending(users)(n) && n.id == id;
      var i :| 0 <= i < |after| && after[i] == n;
      assert notes[i] in notes;
    }
    forall id | id in PendingIds(notes, users) - ids ensures id in PendingIds(after, users) {
      var n :| n in notes && IsPending(users)(n) && n.id == id;
      var i :| 0 <= i < |notes| && notes[i] == n;
      assert after[i] in after;
    }
  }

  lemma SettledKeepsIds(notes: seq<Notification>, after: seq<Notification>, ids: set<Id>)
    requires Distinct(notes, NoteId()) && SettledIn(notes, after, ids)
    ensures Distinct(after, NoteId())
  {
    forall i, j | 0 <= i < j < |after| ensures NoteId()(after[i]) != NoteId()(after[j]) {
      assert NoteId()(notes[i]) != NoteId()(notes[j]);
    }
  }

  lemma SettledOlder(notes: seq<Notification>, after: seq<Notification>, users: seq<User>, batch: seq<Notification>)
    requires Distinct(notes, NoteId()) && SettledIn(notes, after, Ids(batch))
    requires forall x | x in batch :: x in notes
    requires OldestBatch(notes, users, batch)
    ensures NoneOlderLeft(notes, after, users, Ids(batch))
  {
    forall a, b | a in notes && b in after && a.id in Ids(batch) && IsPending(users)(b)
      ensures a.createdAt <= b.createdAt
    {
      var x :| x in batch && x.id == a.id;
      SameKeySameRow(notes, NoteId(), x, a);
      var j :| 0 <= j < |after| && after[j] == b;
      assert notes[j] in notes;
    }
  }

  // ---- what became of the rows ----

  // The row waits for delivery to a user of the table.
  ghost predicate Waits(users: seq<User>, n: Notification) {
    n.status == Created && exists u :: u in users && u.id == n.userId
  }

  ghost predicate HasTelegram(users: seq<User>, n: Notification) {
    exists u :: u in users && u.id == n.userId && u.telegramId.Some?
  }

  // The ids of the rows that a call moved from waiting to the status.
  ghost function Moved(notes: seq<Notification>, after: seq<Notification>, status: NoteStatus): set<Id>
    requires |after| == |notes|
  {
    set i | 0 <= i < |notes| && notes[i].status == Created && after[i].status == status :: notes[i].id
  }

  // A row that a call touches was waiting; it is sent if its user has a Telegram id and the client
  // takes the message, and undelivered otherwise. The client was called for exactly the touched rows
  // whose user has one.
  ghost predicate RowsSettled(notes: seq<Notification>, after: seq<Notification>, users: seq<User>, accepts: Client,
                              calls: seq<Id>)
  {
    && |after| == |notes|
    && (forall i | 0 <= i < |notes| :: after[i] == notes[i].(status := after[i].status))
    && (forall i | 0 <= i < |notes| && after[i] != notes[i] ::
          && Waits(users, notes[i])
          && after[i].status == (if HasTelegram(users, notes[i]) && accepts(notes[i].id) then Sent else Undelivered))
    && (forall i | 0 <= i < |notes| ::
          notes[i].id in calls <==> after[i] != notes[i] && HasTelegram(users, notes[i]))
  }

  lemma UserFound(users: seq<User>, n: Notification)
    requires Distinct(users, UserId())
    ensures Find(users, HasUserId(n.userId)).Some? <==> exists u :: u in users && u.id == n.userId
    ensures TelegramOf(users, n).Some? <==> HasTelegram(users, n)
  {
    forall u | u in users && u.id == n.userId ensures Find(users, HasUserId(n.userId)) == Some(u) {
      assert HasUserId(n.userId)(u);
      SameKeySameRow(users, UserId(), u, Find(users, HasUserId(n.userId)).value);
    }
  }

  ghost predicate EachSettled(notes: seq<Notification>, after: seq<Notification>, users: seq<User>, accepts: Client,
                              batch: seq<Notification>)
  {
    && |after| == |notes|
    && forall i | 0 <= i < |notes| ::
         after[i] == if notes[i] in batch then notes[i].(status := Outcome(users, accepts, notes[i])) else notes[i]
  }

  lemma {:induction false} SettledOutcomes(notes: seq<Notification>, users: seq<User>, accepts: Client,
                                           batch: seq<Notification>, k: nat)
    requires Distinct(notes, NoteId()) && k <= |batch| && forall x | x in batch :: x in notes
    ensures EachSettled(notes, SettledBatch(notes, users, accepts, batch, k), users, accepts, batch[..k])
  {
    if k > 0 {
      var last := batch[k - 1];
      SettledOutcomes(notes, users, accepts, batch, k - 1);
      assert batch[..k] == batch[..k - 1] + [last];
      assert last in batch;
      forall i | 0 <= i < |notes| ensures notes[i].id == last.id <==> notes[i] == last {
        if notes[i].id == last.id { SameKeySameRow(notes, NoteId(), notes[i], last); }
      }
    }
  }

  lemma {:induction false} CallsAreReachable(users: seq<User>, batch: seq<Notification>)
    ensures forall id :: id in CallsFor(users, batch) <==> exists n :: n in batch && Reachable(users)(n) && n.id == id
  {
    if batch != [] {
      var k := |batch| - 1;
      CallsAreReachable(users, batch[..k]);
      assert batch == batch[..k] + [batch[k]];
    }
  }

  lemma BatchOf(notes: seq<Notification>, users: seq<User>, limit: nat)
    requires Distinct(notes, NoteId()) && Distinct(users, UserId())
    ensures forall n | n in Batch(notes, users, limit) :: n in notes && Waits(users, n)
    ensures Distinct(Batch(notes, users, limit), NoteId())
  {
    var queue := Queue(notes, users);
    QueueOfPending(notes, users);
    DistinctPrefix(queue, NoteId(), |Batch(notes, users, limit)|);
    assert Batch(notes, users, limit) == queue[..|Batch(notes, users, limit)|];
    forall n | n in Batch(notes, users, limit) ensures n in notes && Waits(users, n) {
      assert n in queue;
      UserFound(users, n);
    }
  }

  lemma OutcomeMeans(users: seq<User>, accepts: Client, n: Notification)
    requires Distinct(users, UserId())
    ensures Outcome(users, accepts, n) == if HasTelegram(users, n) && accepts(n.id) then Sent else Undelivered
    ensures Reachable(users)(n) <==> HasTelegram(users, n)
    ensures Delivered(users, accepts)(n) <==> Outcome(users, accepts, n) == Sent
  {
    UserFound(users, n);
  }

  lemma BatchIsSettled(notes: seq<Notification>, after: seq<Notification>, users: seq<User>, accepts: Client,
                       batch: seq<Notification>)
    requires Distinct(notes, NoteId()) && Distinct(users, UserId())
    requires forall n | n in batch :: n in notes && Waits(users, n)
    requires EachSettled(notes, after, users, accepts, batch)
    ensures RowsSettled(notes, after, users, accepts, CallsFor(users, batch))
  {
    CallsAreReachable(users, batch);
    forall n ensures Outcome(users, accepts, n) == (if HasTelegram(users, n) && accepts(n.id) then Sent else Undelivered)
      ensures Reachable(users)(n) <==> HasTelegram(users, n)
    {
      OutcomeMeans(users, accepts, n);
    }
    forall i | 0 <= i < |notes| ensures after[i] != notes[i] <==> notes[i] in batch {}
    forall i | 0 <= i < |notes|
      ensures notes[i].id in CallsFor(users, batch) <==> notes[i] in batch && HasTelegram(users, notes[i])
    {
      forall n | n in batch && n.id == notes[i].id ensures n == notes[i] {
        SameKeySameRow(notes, NoteId(), n, notes[i]);
      }
    }
  }

  lemma MovedByBatch(notes: seq<Notification>, after: seq<Notification>, users: seq<User>, accepts: Client, batch: seq<Notification>,
                     status: NoteStatus, reaches: Notification -> bool)
    requires Distinct(notes, NoteId()) && Distinct(batch, NoteId()) && status != Created
    requires forall n | n in batch :: n in notes && n.status == Created
    requires forall n | n in batch :: reaches(n) <==> Outcome(users, accepts, n) == status
    requires EachSettled(notes, after, users, accepts, batch)
    ensures |Moved(notes, after, status)| == |Filter(batch, reaches)|
  {
    DistinctFilter(batch, reaches, NoteId());
    CountIds(Filter(batch, reaches));
    forall id | id in Ids(Filter(batch, reaches)) ensures id in Moved(notes, after, status) {
      var n :| n in batch && reaches(n) && n.id == id;
      var i :| 0 <= i < |notes| && notes[i] == n;
      assert after[i].status == status;
    }
    forall id | id in Moved(notes, after, status) ensures id in Ids(Filter(batch, reaches)) {
      var i :| 0 <= i < |notes| && notes[i].status == Created && after[i].status == status && notes[i].id == id;
      assert notes[i] in Filter(batch, reaches);
    }
    assert Moved(notes, after, status) == Ids(Filter(batch, reaches));
  }

  function Missed(users: seq<User>, accepts: Client): Notification -> bool {
    (n: Notification) => Outcome(users, accepts, n) == Undelivered
  }

  // The counts of a batch are the numbers of rows it moved to either status.
  lemma BatchIsCounted(notes: seq<Notification>, after: seq<Notification>, users: seq<User>, accepts: Client,
                       batch: seq<Notification>)
    requires Distinct(notes, NoteId()) && Distinct(batch, NoteId())
    requires forall n | n in batch :: n in notes && n.status == Created
    requires EachSettled(notes, after, users, accepts, batch)
    ensures |Moved(notes, after, Sent)| == |Filter(batch, Delivered(users, accepts))|
    ensures |Moved(notes, after, Undelivered)| == |batch| - |Filter(batch, Delivered(users, accepts))|
  {
    MovedByBatch(notes, after, users, accepts, batch, Sent, Delivered(users, accepts));
    MovedByBatch(notes, after, users, accepts, batch, Undelivered, Missed(users, accepts));
    FilterSplit(batch, Delivered(users, accepts), Missed(users, accepts));
  }

  ghost function WaitingIds(notes: seq<Notification>, users: seq<User>): set<Id> {
    set n | n in notes && Waits(users, n) :: n.id
  }

  lemma WaitingArePending(notes: seq<Notification>, users: seq<User>)
    requires Distinct(users, UserId())
    ensures WaitingIds(notes, users) == PendingIds(notes, users)
    ensures forall n | n in notes :: Waits(users, n) <==> IsPending(users)(n)
  {
    forall n | n in notes ensures Waits(users, n) <==> IsPending(users)(n) {
      UserFound(users, n);
    }
  }

  function Fewer(a: nat, b: nat): nat { if a < b then a else b }

  // What a call does, seen from outside: the rows settled as they should, the counts of the rows that
  // changed, as many as wait or the limit allows, and none left waiting that is older.
  ghost predicate DispatchDone(notes: seq<Notification>, after: seq<Notification>, users: seq<User>, accepts: Client,
                               limit: nat, stats: DispatchStats, calls: seq<Id>)
  {
    && RowsSettled(notes, after, users, accepts, calls)
    && stats == DispatchStats(|Moved(notes, after, Sent)|, |Moved(notes, after, Undelivered)|, 0)
    && stats.sent + stats.failed == Fewer(limit, |WaitingIds(notes, users)|)
    && forall i, j | 0 <= i < |notes| && 0 <= j < |notes| && after[i] != notes[i] && Waits(users, after[j]) ::
         notes[i].createdAt <= notes[j].createdAt
  }

  lemma NoneOlderWaits(notes: seq<Notification>, after: seq<Notification>, users: seq<User>, accepts: Client,
                       batch: seq<Notification>)
    requires Distinct(notes, NoteId()) && Distinct(users, UserId())
    requires forall n | n in batch :: n in notes && Waits(users, n)
    requires EachSettled(notes, after, users, accepts, batch) && OldestBatch(notes, users, batch)
    ensures forall i, j | 0 <= i < |notes| && 0 <= j < |notes| && after[i] != notes[i] && Waits(users, after[j]) ::
              notes[i].createdAt <= notes[j].createdAt
  {
    WaitingArePending(notes, users);
    forall i, j | 0 <= i < |notes| && 0 <= j < |notes| && after[i] != notes[i] && Waits(users, after[j])
      ensures notes[i].createdAt <= notes[j].createdAt
    {
      assert notes[i] in batch && after[j] == notes[j] && notes[j] in notes;
      if notes[j].id in Ids(batch) {
        var n :| n in batch && n.id == notes[j].id;
        SameKeySameRow(notes, NoteId(), n, notes[j]);
      }
    }
  }

  lemma CallIsDone(notes: seq<Notification>, users: seq<User>, accepts: Client, limit: nat, stats: DispatchStats)
    requires Distinct(notes, NoteId()) && Distinct(users, UserId())
    requires var batch := Batch(notes, users, limit);
             && stats.sent == |Filter(batch, Delivered(users, accepts))|
             && stats.sent + stats.failed == |batch| && stats.skipped == 0
    ensures DispatchDone(notes, AfterDispatch(notes, users, accepts, limit), users, accepts, limit, stats,
                         CallsFor(users, Batch(notes, users, limit)))
  {
    var batch, after := Batch(notes, users, limit), AfterDispatch(notes, users, accepts, limit);
    BatchOf(notes, users, limit);
    SettledOutcomes(notes, users, accepts, batch, |batch|);
    assert batch[..|batch|] == batch;
    BatchIsSettled(notes, after, users, accepts, batch);
    BatchIsCounted(notes, after, users, accepts, batch);
    BatchIsOldest(notes, users, limit);
    WaitingArePending(notes, users);
    NoneOlderWaits(notes, after, users, accepts, batch);
  }

  // ---- draining the queue ----

  function AfterDispatches(notes: seq<Notification>, users: seq<User>, limit: nat, clients: seq<Client>)
    : seq<Notification>
    decreases |clients|
  {
    if clients == [] then notes
    else AfterDispatches(AfterDispatch(notes, users, clients[0], limit), users, limit, clients[1..])
  }

  function Left(pending: nat, limit: nat, calls: nat): nat
    decreases calls
  {
    if calls == 0 then pending else Left(if limit < pending then pending - limit else 0, limit, calls - 1)
  }

  lemma {:induction false} LeftIs(pending: nat, limit: nat, calls: nat)
    ensures Left(pending, limit, calls) == if pending <= calls * limit then 0 else pending - calls * limit
    decreases calls
  {
    if calls > 0 {
      assert calls * limit == (calls - 1) * limit + limit;
      LeftIs(if limit < pending then pending - limit else 0, limit, calls - 1);
    }
  }

  lemma OneDispatchLeaves(notes: seq<Notification>, users: seq<User>, accepts: Client, limit: nat)
    requires Distinct(notes, NoteId())
    ensures Distinct(AfterDispatch(notes, users, accepts, limit), NoteId())
    ensures var n := |PendingIds(notes, users)|;
            |PendingIds(AfterDispatch(notes, users, accepts, limit), users)| == if limit < n then n - limit else 0
  {
    DispatchSettles(notes, users, accepts, limit);
  }

  lemma {:induction false} DispatchesLeave(notes: seq<Notification>, users: seq<User>, limit: nat, clients: seq<Client>)
    requires Distinct(notes, NoteId())
    ensures |PendingIds(AfterDispatches(notes, users, limit, clients), users)| ==
              Left(|PendingIds(notes, users)|, limit, |clients|)
    decreases |clients|
  {
    if clients != [] {
      OneDispatchLeaves(notes, users, clients[0], limit);
      DispatchesLeave(AfterDispatch(notes, users, clients[0], limit), users, limit, clients[1..]);
    }
  }

  // n pending rows are all settled after some number of calls exactly when that number times the
  // limit is at least n, whatever the client answers.
  lemma QueueDrains(notes: seq<Notification>, users: seq<User>, limit: nat, clients: seq<Client>)
    requires Distinct(notes, NoteId())
    ensures PendingIds(AfterDispatches(notes, users, limit, clients), users) == {} <==>
              |PendingIds(notes, users)| <= |clients| * limit
  {
    var left := PendingIds(AfterDispatches(notes, users, limit, clients), users);
    DispatchesLeave(notes, users, limit, clients);
    LeftIs(|PendingIds(notes, users)|, limit, |clients|);
    assert left == {} <==> |left| == 0;
  }
}

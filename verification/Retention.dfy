/** The nightly cleanup (domains/retention/service.py): expired sessions, old notifications, and old
    source sync runs together with their items. */
module Retention {
  import opened Prelude
  import opened Tables
  import Mailbox
  import Tokens

  datatype CleanupStats = CleanupStats(sessions: nat, notifications: nat, items: nat, runs: nat)

  function StartedBefore(cutoff: int): SyncRun -> bool { (r: SyncRun) => r.startedAt < cutoff }

  function StartedSince(cutoff: int): SyncRun -> bool { (r: SyncRun) => r.startedAt >= cutoff }

  function RunIds(runs: seq<SyncRun>): set<Id> { set r | r in runs :: r.id }

  function OutsideRuns(ids: set<Id>): RunItem -> bool { (i: RunItem) => i.runId !in ids }

  function OfRun(id: Id): RunItem -> bool { (i: RunItem) => i.runId == id }

  // DELETE FROM source_sync_run_items WHERE sync_run_id IN (the old runs)
  function KeptItems(items: seq<RunItem>, runs: seq<SyncRun>, cutoff: int): seq<RunItem> {
    Filter(items, OutsideRuns(RunIds(Filter(runs, StartedBefore(cutoff)))))
  }

  method DeleteOldRuns(session: Session, cutoff: int) returns (items: nat, runs: nat)
    modifies session`runs, session`items
    ensures session.runs == Filter(old(session.runs), StartedSince(cutoff))
    ensures session.items == KeptItems(old(session.items), old(session.runs), cutoff)
    ensures items == |old(session.items)| - |session.items| && runs == |old(session.runs)| - |session.runs|
  {
    var oldRunIds := RunIds(Filter(session.runs, StartedBefore(cutoff)));
    if oldRunIds == {} {
      NothingOld(session.items, session.runs, cutoff);
      return 0, 0;
    }
    var keptItems, keptRuns := Filter(session.items, OutsideRuns(oldRunIds)), Filter(session.runs, StartedSince(cutoff));
    items := |session.items| - |keptItems|;
    session.items := keptItems;
    runs := |session.runs| - |keptRuns|;
    session.runs := keptRuns;
  }

  method DeleteOldNotifications(session: Session, cutoff: int) returns (deleted: nat)
    modifies session`notifications
    ensures session.notifications == Filter(old(session.notifications), Mailbox.Retained(cutoff))
    ensures deleted == |old(session.notifications)| - |session.notifications|
  {
    var kept := Filter(session.notifications, Mailbox.Retained(cutoff));
    deleted := |session.notifications| - |kept|;
    session.notifications := kept;
  }

  // Each table keeps exactly the rows the cutoffs spare, and the counts are those of the rows gone.
  method CleanupRetainedData(session: Session, now: int, notificationDays: int, syncDays: int)
    returns (stats: CleanupStats)
    modifies session`sessions, session`notifications, session`runs, session`items
    ensures session.sessions == Filter(old(session.sessions), Tokens.Unexpired(now))
    ensures session.notifications ==
              Filter(old(session.notifications), Mailbox.Retained(now - notificationDays * DAY))
    ensures session.runs == Filter(old(session.runs), StartedSince(now - syncDays * DAY))
    ensures session.items == KeptItems(old(session.items), old(session.runs), now - syncDays * DAY)
    ensures stats == CleanupStats(|old(session.sessions)| - |session.sessions|,
                                  |old(session.notifications)| - |session.notifications|,
                                  |old(session.items)| - |session.items|, |old(session.runs)| - |session.runs|)
  {
    var expired := Tokens.CleanupSessions(session, now);
    var notifications := DeleteOldNotifications(session, now - notificationDays * DAY);
    var items, runs := DeleteOldRuns(session, now - syncDays * DAY);
    stats := CleanupStats(expired, notifications, items, runs);
  }

  lemma NothingOld(items: seq<RunItem>, runs: seq<SyncRun>, cutoff: int)
    requires RunIds(Filter(runs, StartedBefore(cutoff))) == {}
    ensures KeptItems(items, runs, cutoff) == items
    ensures Filter(runs, StartedSince(cutoff)) == runs
  {
    FilterAll(items, OutsideRuns({}));
    forall r | r in runs ensures StartedSince(cutoff)(r) {
      assert StartedBefore(cutoff)(r) ==> r.id in RunIds(Filter(runs, StartedBefore(cutoff)));
    }
    FilterAll(runs, StartedSince(cutoff));
  }

  // ---- runs and their items ----

  function RunId(): SyncRun -> Id { (r: SyncRun) => r.id }

  ghost predicate NoOrphans(items: seq<RunItem>, runs: seq<SyncRun>) {
    forall i | i in items :: i.runId in RunIds(runs)
  }

  // Between the two deletions and after them every item has its run; a run that is kept keeps all
  // its items in order; a run that goes leaves none.
  lemma RunsGoWithTheirItems(items: seq<RunItem>, runs: seq<SyncRun>, cutoff: int)
    requires NoOrphans(items, runs) && Distinct(runs, RunId())
    ensures var kept := KeptItems(items, runs, cutoff);
            && NoOrphans(kept, runs) && NoOrphans(kept, Filter(runs, StartedSince(cutoff)))
            && forall r | r in runs ::
                 Filter(kept, OfRun(r.id)) == if r.startedAt >= cutoff then Filter(items, OfRun(r.id)) else []
  {
    var gone := RunIds(Filter(runs, StartedBefore(cutoff)));
    forall i | i in KeptItems(items, runs, cutoff)
      ensures i.runId in RunIds(Filter(runs, StartedSince(cutoff)))
    {
      var r :| r in runs && r.id == i.runId;
      assert StartedBefore(cutoff)(r) ==> r.id in gone;
      assert r in Filter(runs, StartedSince(cutoff));
    }
    forall r | r in runs
      ensures Filter(KeptItems(items, runs, cutoff), OfRun(r.id))
              == if r.startedAt >= cutoff then Filter(items, OfRun(r.id)) else []
    {
      GoneIff(runs, cutoff, r);
      ItemsOfRun(items, gone, r.id);
    }
  }

  lemma GoneIff(runs: seq<SyncRun>, cutoff: int, r: SyncRun)
    requires Distinct(runs, RunId()) && r in runs
    ensures r.id in RunIds(Filter(runs, StartedBefore(cutoff))) <==> r.startedAt < cutoff
  {
    if r.id in RunIds(Filter(runs, StartedBefore(cutoff))) {
      var x :| x in Filter(runs, StartedBefore(cutoff)) && x.id == r.id;
      SameKeySameRow(runs, RunId(), x, r);
    }
    if r.startedAt < cutoff {
      assert r in Filter(runs, StartedBefore(cutoff));
    }
  }

  lemma {:induction false} ItemsOfRun(items: seq<RunItem>, gone: set<Id>, id: Id)
    ensures Filter(Filter(items, OutsideRuns(gone)), OfRun(id)) == if id in gone then [] else Filter(items, OfRun(id))
  {
    if items != [] {
      ItemsOfRun(items[1..], gone, id);
      FilterCons(items[0], Filter(items[1..], OutsideRuns(gone)), OfRun(id));
    }
  }
}

/** The source scheduler (domains/stores/service.py, jobs/sync.py): each round syncs the due
    configs that have waited longest, up to a limit, and reschedules them. */
module Scheduler {
  import opened Prelude
  import opened Tables
  import opened Sync

  function ConfigId(): SourceConfig -> Id { (c: SourceConfig) => c.id }

  predicate Schedulable(c: SourceConfig) { c.active && c.interval.Some? }

  predicate DueAt(c: SourceConfig, now: int) {
    Schedulable(c) && (c.nextSyncAt.None? || c.nextSyncAt.value <= now)
  }

  function Due(now: int): SourceConfig -> bool { (c: SourceConfig) => DueAt(c, now) }

  // ORDER BY next_sync_at NULLS FIRST, id
  predicate NoLater(a: SourceConfig, b: SourceConfig) {
    if a.nextSyncAt == b.nextSyncAt then a.id <= b.id
    else a.nextSyncAt.None? || (b.nextSyncAt.Some? && a.nextSyncAt.value < b.nextSyncAt.value)
  }

  function Waiting(): (SourceConfig, SourceConfig) -> bool {
    (a: SourceConfig, b: SourceConfig) => NoLater(a, b)
  }

  function DueConfigs(configs: seq<SourceConfig>, now: int, limit: nat): seq<SourceConfig> {
    Take(Sort(Filter(configs, Due(now)), Waiting()), limit)
  }

  function Rescheduled(c: SourceConfig, at: int): SourceConfig {
    c.(lastSyncAt := Some(at),
       nextSyncAt := if c.interval.None? then None else Some(at + c.interval.value * MINUTE))
  }

  function Marking(id: Id, at: int): SourceConfig -> SourceConfig {
    (c: SourceConfig) => if c.id == id then Rescheduled(c, at) else c
  }

  method MarkSourceConfigSynced(session: Session, config: SourceConfig, at: int)
    modifies session`configs
    ensures session.configs == MapSeq(old(session.configs), Marking(config.id, at))
  {
    session.configs := MapSeq(session.configs, Marking(config.id, at));
  }

  // Exactly the marked config changes, and from then on it is due again just when its interval is over.
  lemma MarkingDefers(configs: seq<SourceConfig>, config: SourceConfig, at: int, now: int)
    requires Distinct(configs, ConfigId()) && config in configs
    ensures var after := MapSeq(configs, Marking(config.id, at));
            && Distinct(after, ConfigId())
            && (forall c | c in configs && c != config :: c in after)
            && (exists c :: c in after && c.id == config.id)
            && (forall c | c in after :: c in configs || c == Rescheduled(config, at))
            && (forall c | c in after && c.id == config.id ::
                  && c.lastSyncAt == Some(at) && c.active == config.active && c.interval == config.interval
                  && (DueAt(c, now) <==> config.active && config.interval.Some? && now - at >= config.interval.value * 60))
  {
    var after := MapSeq(configs, Marking(config.id, at));
    forall i, j | 0 <= i < j < |after| ensures ConfigId()(after[i]) != ConfigId()(after[j]) {
      assert ConfigId()(configs[i]) != ConfigId()(configs[j]);
    }
    forall c | c in configs && c != config ensures c in after {
      var i :| 0 <= i < |configs| && configs[i] == c;
      MarkedOnly(configs, config, c);
      assert after[i] == c;
    }
    var k :| 0 <= k < |configs| && configs[k] == config;
    assert after[k] == Rescheduled(config, at);
    forall c | c in after ensures if c.id == config.id then c == Rescheduled(config, at) else c in configs {
      var i :| 0 <= i < |after| && after[i] == c;
      MarkedOnly(configs, config, configs[i]);
    }
  }

  lemma MarkedOnly(configs: seq<SourceConfig>, config: SourceConfig, c: SourceConfig)
    requires Distinct(configs, ConfigId()) && config in configs && c in configs
    ensures c.id == config.id <==> c == config
  {
    if c.id == config.id { SameKeySameRow(configs, ConfigId(), c, config); }
  }

  // The i-th reading of the clock during a round.
  type Clock = nat -> int

  // The configs after the first n of the batch have been synced and marked.
  function MarkedBatch(configs: seq<SourceConfig>, batch: seq<SourceConfig>, clock: Clock, n: nat): seq<SourceConfig>
    requires n <= |batch|
  {
    if n == 0 then configs
    else MapSeq(MarkedBatch(configs, batch, clock, n - 1), Marking(batch[n - 1].id, clock(n - 1)))
  }

  datatype RoundStats = RoundStats(scheduled: nat, succeeded: nat, partiallyFailed: nat, failed: nat)

  function StatusIs(status: RunStatus): SyncRun -> bool { (r: SyncRun) => r.status == status }

  // What each config's source delivers is given by the config's id.
  type Feeds = Id -> Option<seq<Timed>>

  // The tables a round writes.
  datatype RoundState = RoundState(configs: seq<SourceConfig>, db: Db, runs: seq<SyncRun>, items: seq<RunItem>)

  function RoundStateOf(session: Session): RoundState
    reads session
  {
    RoundState(session.configs, session.State(), session.runs, session.items)
  }

  type ConfigStep = (RoundState, SourceConfig, int) -> RoundState

  // After one config's source was synced and the config marked: a source that fails to deliver its
  // records leaves a failed run and nothing else.
  function Syncing(env: Env, feeds: Feeds): ConfigStep {
    (t: RoundState, config: SourceConfig, at: int) =>
      var id, started := t.db.nextId, t.db.(nextId := t.db.nextId + 1);
      var marked := MapSeq(t.configs, Marking(config.id, at));
      match feeds(config.id)
      case None =>
        RoundState(marked, started, t.runs + [SyncRun(id, config.storeId, Some(config.id), Failed, 0, 0, 0, at)], t.items)
      case Some(feed) =>
        var (after, outcomes) := RunRecords(env, started, config.storeId, Some(config.id), feed);
        RoundState(marked, after, t.runs + [FinishedRun(id, config.storeId, Some(config.id), outcomes, at)],
               t.items + ItemsOf(id, feed, outcomes))
  }

  function SyncedBatch(step: ConfigStep, t: RoundState, batch: seq<SourceConfig>, clock: Clock, n: nat): RoundState
    requires n <= |batch|
  {
    if n == 0 then t else step(SyncedBatch(step, t, batch, clock, n - 1), batch[n - 1], clock(n - 1))
  }

  method SyncConfig(session: Session, env: Env, config: SourceConfig, feeds: Feeds, at: int)
    returns (run: SyncRun)
    modifies session`nextId, session`brands, session`categories, session`products, session`mappings
    modifies session`offers, session`snapshots, session`analytics, session`runs, session`items, session`configs
    ensures RoundStateOf(session) == Syncing(env, feeds)(old(RoundStateOf(session)), config, at)
    ensures session.runs == old(session.runs) + [run] && run.status != Running
  {
    run := RunSourceSync(session, env, config.storeId, Some(config.id), feeds(config.id), at);
    MarkSourceConfigSynced(session, config, at);
  }

  // The runs made are counted by their status; none is left running.
  ghost predicate Counted(stats: RoundStats, made: seq<SyncRun>) {
    && stats.scheduled == |made|
    && stats.succeeded == |Filter(made, StatusIs(Succeeded))|
    && stats.partiallyFailed == |Filter(made, StatusIs(PartiallyFailed))|
    && stats.failed == |Filter(made, StatusIs(Failed))|
    && forall r | r in made :: r.status != Running
  }

  function OneMore(stats: RoundStats, run: SyncRun): RoundStats {
    var more := stats.(scheduled := stats.scheduled + 1);
    if run.status == Succeeded then more.(succeeded := more.succeeded + 1)
    else if run.status == PartiallyFailed then more.(partiallyFailed := more.partiallyFailed + 1)
    else more.(failed := more.failed + 1)
  }

  lemma OneMoreRun(stats: RoundStats, made: seq<SyncRun>, run: SyncRun)
    requires Counted(stats, made) && run.status != Running
    ensures Counted(OneMore(stats, run), made + [run])
  {
    FilterLast(made, run, StatusIs(Succeeded));
    FilterLast(made, run, StatusIs(PartiallyFailed));
    FilterLast(made, run, StatusIs(Failed));
  }

  // The loop of a round over the configs of its batch.
  method SyncBatch(session: Session, env: Env, batch: seq<SourceConfig>, feeds: Feeds, clock: Clock)
    returns (stats: RoundStats, ghost made: seq<SyncRun>)
    modifies session`nextId, session`brands, session`categories, session`products, session`mappings
    modifies session`offers, session`snapshots, session`analytics, session`runs, session`items, session`configs
    ensures RoundStateOf(session) == SyncedBatch(Syncing(env, feeds), old(RoundStateOf(session)), batch, clock, |batch|)
    ensures session.runs == old(session.runs) + made && |made| == |batch|
    ensures Counted(stats, made)
  {
    ghost var before, step := RoundStateOf(session), Syncing(env, feeds);
    made := [];
    var succeeded, partiallyFailed, failed := 0, 0, 0;
    for i := 0 to |batch|
      invariant RoundStateOf(session) == SyncedBatch(step, before, batch, clock, i)
      invariant session.runs == before.runs + made && |made| == i
      invariant Counted(RoundStats(i, succeeded, partiallyFailed, failed), made)
    {
      var run := SyncConfig(session, env, batch[i], feeds, clock(i));
      ConcatAssociative(before.runs, made, [run]);
      OneMoreRun(RoundStats(i, succeeded, partiallyFailed, failed), made, run);
      made := made + [run];
      if run.status == Succeeded {
        succeeded := succeeded + 1;
      } else if run.status == PartiallyFailed {
        partiallyFailed := partiallyFailed + 1;
      } else {
        failed := failed + 1;
      }
    }
    stats := RoundStats(|batch|, succeeded, partiallyFailed, failed);
  }

  method RunDueSourceConfigs(session: Session, env: Env, limit: nat, now: int, feeds: Feeds, clock: Clock)
    returns (stats: RoundStats, ghost made: seq<SyncRun>)
    modifies session`nextId, session`brands, session`categories, session`products, session`mappings
    modifies session`offers, session`snapshots, session`analytics, session`runs, session`items, session`configs
    ensures var batch := DueConfigs(old(session.configs), now, limit);
            && RoundStateOf(session) == SyncedBatch(Syncing(env, feeds), old(RoundStateOf(session)), batch, clock, |batch|)
            && session.runs == old(session.runs) + made && |made| == |batch|
            && Counted(stats, made)
  {
    var batch := DueConfigs(session.configs, now, limit);
    stats, made := SyncBatch(session, env, batch, feeds, clock);
  }

  // What syncing one config leaves: the config marked, and one run of its own.
  ghost predicate LeavesOne(t: RoundState, after: RoundState, config: SourceConfig, at: int) {
    && after.configs == MapSeq(t.configs, Marking(config.id, at))
    && |after.runs| == |t.runs| + 1 && t.runs <= after.runs
    && IsRunOf(after.runs[|t.runs|], config, at)
  }

  predicate IsRunOf(run: SyncRun, config: SourceConfig, at: int) {
    run.configId == Some(config.id) && run.storeId == config.storeId && run.startedAt == at
  }

  lemma OneConfigLeaves(env: Env, feeds: Feeds, t: RoundState, config: SourceConfig, at: int)
    ensures LeavesOne(t, Syncing(env, feeds)(t, config, at), config, at)
  {
    var after := Syncing(env, feeds)(t, config, at);
    match feeds(config.id)
    case None =>
      assert after.runs == t.runs + [SyncRun(t.db.nextId, config.storeId, Some(config.id), Failed, 0, 0, 0, at)];
    case Some(feed) =>
      var outcomes := RunRecords(env, t.db.(nextId := t.db.nextId + 1), config.storeId, Some(config.id), feed).1;
      assert after.runs == t.runs + [FinishedRun(t.db.nextId, config.storeId, Some(config.id), outcomes, at)];
  }

  lemma {:induction false} StepsLeave(step: ConfigStep, t: RoundState, batch: seq<SourceConfig>, clock: Clock, n: nat)
    requires n <= |batch| && forall s, c, at :: LeavesOne(s, step(s, c, at), c, at)
    ensures var after := SyncedBatch(step, t, batch, clock, n);
            && after.configs == MarkedBatch(t.configs, batch, clock, n)
            && |after.runs| == |t.runs| + n && t.runs <= after.runs
            && forall i | 0 <= i < n :: IsRunOf(after.runs[|t.runs| + i], batch[i], clock(i))
  {
    if n > 0 {
      StepsLeave(step, t, batch, clock, n - 1);
      var before := SyncedBatch(step, t, batch, clock, n - 1);
      assert LeavesOne(before, step(before, batch[n - 1], clock(n - 1)), batch[n - 1], clock(n - 1));
    }
  }

  // What a round leaves: the configs marked in turn, and for each config of the batch one run of its
  // own, in order.
  lemma BatchLeaves(env: Env, feeds: Feeds, t: RoundState, batch: seq<SourceConfig>, clock: Clock)
    ensures var after := SyncedBatch(Syncing(env, feeds), t, batch, clock, |batch|);
            && after.configs == MarkedBatch(t.configs, batch, clock, |batch|)
            && |after.runs| == |t.runs| + |batch| && t.runs <= after.runs
            && forall i | 0 <= i < |batch| :: IsRunOf(after.runs[|t.runs| + i], batch[i], clock(i))
  {
    forall s, c, at ensures LeavesOne(s, Syncing(env, feeds)(s, c, at), c, at) {
      OneConfigLeaves(env, feeds, s, c, at);
    }
    StepsLeave(Syncing(env, feeds), t, batch, clock, |batch|);
  }

  // ---- no starvation ----

  function Ids(configs: seq<SourceConfig>): set<Id> { set c | c in configs :: c.id }

  // A config that was never synced comes first, then the one due for longest, then the older one.
  predicate Before(a: SourceConfig, b: SourceConfig) {
    || (a.nextSyncAt.None? && b.nextSyncAt.Some?)
    || (a.nextSyncAt.Some? && b.nextSyncAt.Some? && a.nextSyncAt.value < b.nextSyncAt.value)
    || (a.nextSyncAt == b.nextSyncAt && a.id < b.id)
  }

  // The schedulable configs that come before the given one.
  function Ahead(configs: seq<SourceConfig>, target: SourceConfig): set<Id> {
    set c | c in configs && c.active && c.interval.Some? && c.id != target.id && Before(c, target) :: c.id
  }

  lemma BeforeIff(a: SourceConfig, b: SourceConfig)
    requires a.id != b.id
    ensures Before(a, b) <==> NoLater(a, b)
  {}

  lemma WaitingIsTotal()
    ensures TotalPreorder(Waiting())
  {}

  lemma {:induction false} DistinctIds(configs: seq<SourceConfig>)
    requires Distinct(configs, ConfigId())
    ensures |Ids(configs)| == |configs|
  {
    if configs != [] {
      var n := |configs| - 1;
      var rest, c := configs[..n], configs[n];
      DistinctPrefix(configs, ConfigId(), n);
      DistinctIds(rest);
      assert configs == rest + [c];
      forall i | 0 <= i < n ensures rest[i].id != c.id {
        assert ConfigId()(configs[i]) != ConfigId()(configs[n]);
      }
      assert Ids(configs) == Ids(rest) + {c.id};
    }
  }

  lemma QueueOfDue(configs: seq<SourceConfig>, now: int)
    requires Distinct(configs, ConfigId())
    ensures var queue := Sort(Filter(configs, Due(now)), Waiting());
            && Sorted(queue, Waiting()) && Distinct(queue, ConfigId())
            && forall c :: c in queue <==> c in configs && DueAt(c, now)
  {
    var due := Filter(configs, Due(now));
    WaitingIsTotal();
    SortContents(due, Waiting());
    SortSorted(due, Waiting());
    DistinctFilter(configs, Due(now), ConfigId());
    DistinctPermuted(due, Sort(due, Waiting()), ConfigId());
  }

  // In a sorted queue, a row stands before another exactly if it has another id and is no later.
  lemma BeforeInQueue(queue: seq<SourceConfig>, i: nat, j: nat)
    requires Sorted(queue, Waiting()) && Distinct(queue, ConfigId())
    requires i < |queue| && j < |queue|
    ensures j < i <==> queue[j].id != queue[i].id && NoLater(queue[j], queue[i])
  {
    if j < i {
      assert Waiting()(queue[j], queue[i]);
      assert ConfigId()(queue[j]) != ConfigId()(queue[i]);
    } else if i < j {
      assert Waiting()(queue[i], queue[j]);
      assert ConfigId()(queue[i]) != ConfigId()(queue[j]);
    }
  }

  // In the queue of due configs, the ones before a due config are exactly the ones ahead of it.
  lemma PositionInQueue(configs: seq<SourceConfig>, now: int, queue: seq<SourceConfig>, i: nat)
    requires Sorted(queue, Waiting()) && Distinct(queue, ConfigId())
    requires forall c :: c in queue <==> c in configs && DueAt(c, now)
    requires i < |queue| && DueAt(queue[i], now)
    ensures Ids(queue[..i]) == Ahead(configs, queue[i])
  {
    var target := queue[i];
    forall id | id in Ids(queue[..i]) ensures id in Ahead(configs, target) {
      var c :| c in queue[..i] && c.id == id;
      var j :| 0 <= j < i && queue[j] == c;
      BeforeInQueue(queue, i, j);
      BeforeIff(c, target);
      assert c in queue;
    }
    forall id | id in Ahead(configs, target) ensures id in Ids(queue[..i]) {
      var c :| c in configs && c.active && c.interval.Some? && c.id == id && c.id != target.id && Before(c, target);
      BeforeIff(c, target);
      assert DueAt(c, now);
      var j :| 0 <= j < |queue| && queue[j] == c;
      BeforeInQueue(queue, i, j);
      assert c in queue[..i];
    }
  }

  // What marking a batch does to each row.
  lemma {:induction false} MarkedRows(configs: seq<SourceConfig>, batch: seq<SourceConfig>, clock: Clock, n: nat, now: int)
    requires n <= |batch| && forall i: nat :: clock(i) >= now
    ensures var after := MarkedBatch(configs, batch, clock, n);
            && |after| == |configs|
            && forall j | 0 <= j < |configs| ::
                 && (configs[j].id !in Ids(batch[..n]) ==> after[j] == configs[j])
                 && (configs[j].id in Ids(batch[..n]) ==> MarkedNow(configs[j], after[j], now))
  {
    if n > 0 {
      MarkedRows(configs, batch, clock, n - 1, now);
      assert batch[..n] == batch[..n - 1] + [batch[n - 1]];
    }
  }

  // A marked row waits from then on for at least its interval.
  ghost predicate MarkedNow(c: SourceConfig, after: SourceConfig, now: int) {
    && after.id == c.id && after.active == c.active && after.interval == c.interval
    && (c.interval.Some? ==> after.nextSyncAt.Some? && after.nextSyncAt.value >= now + c.interval.value * MINUTE)
  }

  ghost predicate IntervalsPositive(configs: seq<SourceConfig>) {
    forall c | c in configs && c.interval.Some? :: c.interval.value >= 1
  }

  // A due config is synced this round exactly if fewer than the limit are ahead of it.
  lemma SyncedIff(configs: seq<SourceConfig>, now: int, limit: nat, target: SourceConfig)
    requires Distinct(configs, ConfigId()) && target in configs && target.active && target.interval.Some?
    requires target.nextSyncAt.None? || target.nextSyncAt.value <= now
    ensures target in DueConfigs(configs, now, limit) <==> |Ahead(configs, target)| < limit
    ensures target !in DueConfigs(configs, now, limit) ==>
              var batch := DueConfigs(configs, now, limit);
              && |batch| == limit && |Ids(batch)| == limit
              && Ids(batch) <= Ahead(configs, target) && target.id !in Ids(batch)
  {
    var queue := Sort(Filter(configs, Due(now)), Waiting());
    QueueOfDue(configs, now);
    var i :| 0 <= i < |queue| && queue[i] == target;
    PositionInQueue(configs, now, queue, i);
    DistinctPrefix(queue, ConfigId(), i);
    DistinctIds(queue[..i]);
    if limit <= i {
      BatchBefore(queue, i, limit);
    } else {
      assert Take(queue, limit)[i] == target;
    }
  }

  // Nothing else is synced.
  lemma BatchIsDue(configs: seq<SourceConfig>, now: int, limit: nat, c: SourceConfig)
    requires c in DueConfigs(configs, now, limit)
    ensures c in configs && c.active && c.interval.Some? && (c.nextSyncAt.None? || c.nextSyncAt.value <= now)
  {
    var due := Filter(configs, Due(now));
    SortContents(due, Waiting());
    assert c in Sort(due, Waiting());
  }

  lemma BatchBefore(queue: seq<SourceConfig>, i: nat, limit: nat)
    requires Distinct(queue, ConfigId()) && limit <= i < |queue|
    ensures var batch := Take(queue, limit);
            && |batch| == limit && |Ids(batch)| == limit
            && Ids(batch) <= Ids(queue[..i]) && queue[i].id !in Ids(batch) && queue[i] !in batch
  {
    var batch := Take(queue, limit);
    assert batch == queue[..limit];
    DistinctPrefix(queue, ConfigId(), limit);
    DistinctIds(batch);
    forall id | id in Ids(batch) ensures id in Ids(queue[..i]) && id != queue[i].id {
      var c :| c in batch && c.id == id;
      var j :| 0 <= j < limit && batch[j] == c;
      assert queue[..i][j] == c;
      assert ConfigId()(queue[j]) != ConfigId()(queue[i]);
    }
    forall c | c in batch ensures c != queue[i] {
      assert c.id in Ids(batch);
    }
  }

  // A round that does not reach a due config moves exactly its batch from ahead of it to behind it.
  lemma RoundMovesBatchBehind(configs: seq<SourceConfig>, batch: seq<SourceConfig>, now: int, clock: Clock,
                              target: SourceConfig)
    requires Distinct(configs, ConfigId()) && IntervalsPositive(configs)
    requires target in configs && DueAt(target, now) && target.id !in Ids(batch)
    requires forall i: nat :: clock(i) >= now
    ensures var after := MarkedBatch(configs, batch, clock, |batch|);
            && Distinct(after, ConfigId()) && IntervalsPositive(after) && target in after
            && Ahead(after, target) == Ahead(configs, target) - Ids(batch)
  {
    var after := MarkedBatch(configs, batch, clock, |batch|);
    MarkedRows(configs, batch, clock, |batch|, now);
    assert batch[..|batch|] == batch;
    MarkedTable(configs, after, Ids(batch), now, target);
    MarkedAhead(configs, after, Ids(batch), now, target);
  }

  ghost predicate MarkedIn(configs: seq<SourceConfig>, after: seq<SourceConfig>, ids: set<Id>, now: int) {
    && |after| == |configs|
    && forall j | 0 <= j < |configs| ::
         && (configs[j].id !in ids ==> after[j] == configs[j])
         && (configs[j].id in ids ==> MarkedNow(configs[j], after[j], now))
  }

  lemma MarkedTable(configs: seq<SourceConfig>, after: seq<SourceConfig>, ids: set<Id>, now: int, target: SourceConfig)
    requires Distinct(configs, ConfigId()) && IntervalsPositive(configs) && MarkedIn(configs, after, ids, now)
    requires target in configs && target.id !in ids
    ensures Distinct(after, ConfigId()) && IntervalsPositive(after) && target in after
  {
    forall i, j | 0 <= i < j < |after| ensures ConfigId()(after[i]) != ConfigId()(after[j]) {
      assert ConfigId()(configs[i]) != ConfigId()(configs[j]);
    }
    var t :| 0 <= t < |configs| && configs[t] == target;
    assert after[t] == target;
    forall c | c in after && c.interval.Some? ensures c.interval.value >= 1 {
      var i :| 0 <= i < |after| && after[i] == c;
      assert configs[i] in configs;
    }
  }

  lemma MarkedAhead(configs: seq<SourceConfig>, after: seq<SourceConfig>, ids: set<Id>, now: int, target: SourceConfig)
    requires IntervalsPositive(configs) && MarkedIn(configs, after, ids, now)
    requires DueAt(target, now)
    ensures Ahead(after, target) == Ahead(configs, target) - ids
  {
    forall id | id in Ahead(after, target) ensures id in Ahead(configs, target) - ids {
      var c :| c in after && c.active && c.interval.Some? && c.id != target.id && Before(c, target) && c.id == id;
      var i :| 0 <= i < |after| && after[i] == c;
      assert configs[i] in configs;
    }
    forall id | id in Ahead(configs, target) - ids ensures id in Ahead(after, target) {
      var c :| c in configs && c.active && c.interval.Some? && c.id != target.id && Before(c, target) && c.id == id;
      var i :| 0 <= i < |configs| && configs[i] == c;
      assert after[i] == c;
    }
  }

  // ---- whole runs of rounds ----

  datatype Round = Round(now: int, clock: Clock)

  function AfterRound(configs: seq<SourceConfig>, limit: nat, r: Round): seq<SourceConfig> {
    var batch := DueConfigs(configs, r.now, limit);
    MarkedBatch(configs, batch, r.clock, |batch|)
  }

  // The number, counted from zero, of the first round in which a test on the configs succeeds.
  function FirstRound(hit: (seq<SourceConfig>, Round) -> bool,
                      next: (seq<SourceConfig>, Round) -> seq<SourceConfig>,
                      configs: seq<SourceConfig>, rounds: seq<Round>): Option<nat>
    decreases |rounds|
  {
    if rounds == [] then None
    else if hit(configs, rounds[0]) then Some(0)
    else match FirstRound(hit, next, next(configs, rounds[0]), rounds[1..])
      case None => None
      case Some(n) => Some(n + 1)
  }

  function Syncs(limit: nat, target: SourceConfig): (seq<SourceConfig>, Round) -> bool {
    (configs: seq<SourceConfig>, r: Round) => target in DueConfigs(configs, r.now, limit)
  }

  function Next(limit: nat): (seq<SourceConfig>, Round) -> seq<SourceConfig> {
    (configs: seq<SourceConfig>, r: Round) => AfterRound(configs, limit, r)
  }

  // The round in which a config is first synced.
  function FirstSync(configs: seq<SourceConfig>, limit: nat, rounds: seq<Round>, target: SourceConfig): Option<nat> {
    FirstRound(Syncs(limit, target), Next(limit), configs, rounds)
  }

  // A round that does not sync a due config leaves exactly limit fewer ahead of it.
  lemma MissedRound(configs: seq<SourceConfig>, limit: nat, r: Round, target: SourceConfig)
    requires Distinct(configs, ConfigId()) && IntervalsPositive(configs)
    requires target in configs && DueAt(target, r.now) && forall i: nat :: r.clock(i) >= r.now
    requires target !in DueConfigs(configs, r.now, limit)
    ensures var after := AfterRound(configs, limit, r);
            && Distinct(after, ConfigId()) && IntervalsPositive(after) && target in after
            && |Ahead(after, target)| + limit == |Ahead(configs, target)|
  {
    var batch := DueConfigs(configs, r.now, limit);
    SyncedIff(configs, r.now, limit, target);
    RoundMovesBatchBehind(configs, batch, r.now, r.clock, target);
    SetMinus(Ahead(configs, target), Ids(batch));
  }

  // How many whole batches fit in front.
  function FullRounds(k: nat, limit: nat): nat
    requires limit >= 1
  {
    if k < limit then 0 else FullRounds(k - limit, limit) + 1
  }

  lemma {:induction false} FullRoundsIsQuotient(k: nat, limit: nat)
    requires limit >= 1
    ensures FullRounds(k, limit) == k / limit
  {
    if k < limit {
      QuotientIs(k, limit, 0);
    } else {
      FullRoundsIsQuotient(k - limit, limit);
      OneRoundFewer(k, limit);
    }
  }

  // The clock never goes back, and the config is due when the rounds start.
  ghost predicate DueThroughout(target: SourceConfig, rounds: seq<Round>) {
    forall r | r in rounds ::
      && target.active && target.interval.Some? && (target.nextSyncAt.None? || target.nextSyncAt.value <= r.now)
      && forall i: nat :: r.clock(i) >= r.now
  }

  // What a round must do: it succeeds when fewer than limit are ahead, and otherwise leaves
  // exactly limit fewer ahead.
  ghost predicate Advances(hit: (seq<SourceConfig>, Round) -> bool,
                           next: (seq<SourceConfig>, Round) -> seq<SourceConfig>,
                           waits: seq<SourceConfig> -> bool, ahead: seq<SourceConfig> -> nat, limit: nat, r: Round)
  {
    forall configs | waits(configs) ::
      && hit(configs, r) == (ahead(configs) < limit)
      && (!hit(configs, r) ==> waits(next(configs, r)) && ahead(next(configs, r)) + limit == ahead(configs))
  }

  lemma {:induction false} RankReachesZero(hit: (seq<SourceConfig>, Round) -> bool,
                                           next: (seq<SourceConfig>, Round) -> seq<SourceConfig>,
                                           waits: seq<SourceConfig> -> bool, ahead: seq<SourceConfig> -> nat,
                                           configs: seq<SourceConfig>, limit: nat, rounds: seq<Round>)
    requires limit >= 1 && waits(configs)
    requires forall r | r in rounds :: Advances(hit, next, waits, ahead, limit, r)
    requires FullRounds(ahead(configs), limit) < |rounds|
    ensures FirstRound(hit, next, configs, rounds) == Some(FullRounds(ahead(configs), limit))
    decreases |rounds|
  {
    var r := rounds[0];
    assert r in rounds && Advances(hit, next, waits, ahead, limit, r);
    if !hit(configs, r) {
      RankReachesZero(hit, next, waits, ahead, next(configs, r), limit, rounds[1..]);
    }
  }

  // A well-formed table in which the config waits.
  ghost predicate Waits(configs: seq<SourceConfig>, target: SourceConfig) {
    Distinct(configs, ConfigId()) && IntervalsPositive(configs) && target in configs
  }

  lemma RoundAdvances(limit: nat, target: SourceConfig, r: Round)
    requires DueAt(target, r.now) && forall i: nat :: r.clock(i) >= r.now
    ensures Advances(Syncs(limit, target), Next(limit),
                     configs => Waits(configs, target), configs => |Ahead(configs, target)|, limit, r)
  {
    forall configs | Waits(configs, target)
      ensures Syncs(limit, target)(configs, r) == (|Ahead(configs, target)| < limit)
      ensures !Syncs(limit, target)(configs, r) ==>
                && Waits(AfterRound(configs, limit, r), target)
                && |Ahead(AfterRound(configs, limit, r), target)| + limit == |Ahead(configs, target)|
    {
      SyncedIff(configs, r.now, limit, target);
      if !Syncs(limit, target)(configs, r) {
        MissedRound(configs, limit, r, target);
      }
    }
  }

  // A due config with k schedulable configs ahead of it is synced in round k / limit, counted
  // from zero: never starved, and not a round earlier.
  lemma NoStarvation(configs: seq<SourceConfig>, limit: nat, rounds: seq<Round>, target: SourceConfig)
    requires Distinct(configs, ConfigId()) && IntervalsPositive(configs)
    requires target in configs && limit >= 1 && DueThroughout(target, rounds)
    requires |Ahead(configs, target)| / limit < |rounds|
    ensures FirstSync(configs, limit, rounds, target) == Some(|Ahead(configs, target)| / limit)
  {
    FullRoundsIsQuotient(|Ahead(configs, target)|, limit);
    forall r | r in rounds
      ensures Advances(Syncs(limit, target), Next(limit),
                       configs => Waits(configs, target), configs => |Ahead(configs, target)|, limit, r)
    {
      RoundAdvances(limit, target, r);
    }
    RankReachesZero(Syncs(limit, target), Next(limit), configs => Waits(configs, target),
                    configs => |Ahead(configs, target)|, configs, limit, rounds);
  }

  lemma OneRoundFewer(k: nat, limit: nat)
    requires limit >= 1 && k >= limit
    ensures k / limit == (k - limit) / limit + 1
  {
    var q := (k - limit) / limit;
    assert limit * q <= k - limit < limit * (q + 1);
    QuotientIs(k, limit, q + 1);
  }
}

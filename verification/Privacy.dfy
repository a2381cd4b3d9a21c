/** Exporting, counting and deleting the data of one user (domains/privacy/service.py), with the
    foreign keys of the tables and what the database does about them. */
module Privacy {
  import opened Prelude
  import opened Tables
  import N = Notifications

  // The tables that hold users and what belongs to them.
  datatype Accounts = Accounts(users: seq<User>, sessions: seq<UserSession>, requests: seq<ShoppingRequest>,
                               constraints: seq<RequestConstraints>, recommendations: seq<Recommendation>,
                               watchlists: seq<Watchlist>, notifications: seq<Notification>)

  function AccountsOf(session: Session): Accounts
    reads session
  {
    Accounts(session.users, session.sessions, session.requests, session.constraints, session.recommendations,
             session.watchlists, session.notifications)
  }

  // ---- foreign keys ----

  function UserIds(users: seq<User>): set<Id> { set u | u in users :: u.id }
  function RequestIds(requests: seq<ShoppingRequest>): set<Id> { set r | r in requests :: r.id }
  function WatchlistIds(watchlists: seq<Watchlist>): set<Id> { set w | w in watchlists :: w.id }

  predicate Refers(id: Option<Id>, ids: set<Id>) { id.Some? && id.value in ids }

  ghost predicate NoDangling(a: Accounts) {
    && (forall s | s in a.sessions :: s.userId in UserIds(a.users))
    && (forall r | r in a.requests :: r.userId in UserIds(a.users))
    && (forall c | c in a.constraints :: c.requestId in RequestIds(a.requests))
    && (forall r | r in a.recommendations :: r.requestId in RequestIds(a.requests))
    && (forall w | w in a.watchlists ::
          w.userId in UserIds(a.users)
          && (w.sourceRequestId.Some? ==> w.sourceRequestId.value in RequestIds(a.requests)))
    && (forall n | n in a.notifications ::
          && n.userId in UserIds(a.users)
          && (n.watchlistId.Some? ==> n.watchlistId.value in WatchlistIds(a.watchlists))
          && (n.requestId.Some? ==> n.requestId.value in RequestIds(a.requests)))
  }

  // ---- whose rows ----

  function NoteOf(id: Id): Notification -> bool { (n: Notification) => n.userId == id }
  function NoteOfOther(id: Id): Notification -> bool { (n: Notification) => n.userId != id }
  function WatchlistOf(id: Id): Watchlist -> bool { (w: Watchlist) => w.userId == id }
  function WatchlistOfOther(id: Id): Watchlist -> bool { (w: Watchlist) => w.userId != id }
  function RecommendationIn(ids: set<Id>): Recommendation -> bool { (r: Recommendation) => r.requestId in ids }
  function RecommendationNotIn(ids: set<Id>): Recommendation -> bool { (r: Recommendation) => r.requestId !in ids }
  function ConstraintIn(ids: set<Id>): RequestConstraints -> bool { (c: RequestConstraints) => c.requestId in ids }
  function ConstraintNotIn(ids: set<Id>): RequestConstraints -> bool { (c: RequestConstraints) => c.requestId !in ids }
  function RequestOf(id: Id): ShoppingRequest -> bool { (r: ShoppingRequest) => r.userId == id }
  function RequestOfOther(id: Id): ShoppingRequest -> bool { (r: ShoppingRequest) => r.userId != id }
  function SessionOf(id: Id): UserSession -> bool { (s: UserSession) => s.userId == id }
  function SessionOfOther(id: Id): UserSession -> bool { (s: UserSession) => s.userId != id }
  function OtherUser(id: Id): User -> bool { (u: User) => u.id != id }
  function WithTelegram(telegramId: int): User -> bool { (u: User) => u.telegramId == Some(telegramId) }

  function RequestsOf(a: Accounts, id: Id): set<Id> { RequestIds(Filter(a.requests, RequestOf(id))) }

  function WatchlistsOf(a: Accounts, id: Id): set<Id> { WatchlistIds(Filter(a.watchlists, WatchlistOf(id))) }

  // ---- export and count ----

  datatype UserRows = UserRows(sessions: seq<UserSession>, requests: seq<ShoppingRequest>,
                               constraints: seq<RequestConstraints>, recommendations: seq<Recommendation>,
                               watchlists: seq<Watchlist>, notifications: seq<Notification>)

  datatype UserDataStats = UserDataStats(users: nat, sessions: nat, requests: nat, constraints: nat,
                                         recommendations: nat, watchlists: nat, notifications: nat)

  // The rows an export lists.
  function Exported(a: Accounts, id: Id): UserRows {
    var requests := RequestsOf(a, id);
    UserRows(Filter(a.sessions, SessionOf(id)), Filter(a.requests, RequestOf(id)),
             Filter(a.constraints, ConstraintIn(requests)), Filter(a.recommendations, RecommendationIn(requests)),
             Filter(a.watchlists, WatchlistOf(id)), Filter(a.notifications, NoteOf(id)))
  }

  // The summary an export carries.
  function Summary(r: UserRows): UserDataStats {
    UserDataStats(1, |r.sessions|, |r.requests|, |r.constraints|, |r.recommendations|, |r.watchlists|, |r.notifications|)
  }

  method CountUserData(session: Session, telegramId: int) returns (stats: Option<UserDataStats>)
    ensures match Find(session.users, WithTelegram(telegramId))
            case None => stats == None
            case Some(u) => stats == Some(Summary(Exported(AccountsOf(session), u.id)))
  {
    var user := Find(session.users, WithTelegram(telegramId));
    if user.None? {
      return None;
    }
    var id := user.value.id;
    var requestIds := RequestIds(Filter(session.requests, RequestOf(id)));
    stats := Some(UserDataStats(1, |Filter(session.sessions, SessionOf(id))|,
                                |Filter(session.requests, RequestOf(id))|,
                                |Filter(session.constraints, ConstraintIn(requestIds))|,
                                |Filter(session.recommendations, RecommendationIn(requestIds))|,
                                |Filter(session.watchlists, WatchlistOf(id))|,
                                |Filter(session.notifications, NoteOf(id))|));
  }

  // ---- DELETE statements, with what the database does about references ----

  datatype DbError = ForeignKeyViolation

  function DeleteNotifications(a: Accounts, id: Id): Accounts {
    a.(notifications := Filter(a.notifications, NoteOfOther(id)))
  }

  predicate NotesRefer(notes: seq<Notification>, watchlists: set<Id>, requests: set<Id>) {
    exists n | n in notes :: Refers(n.watchlistId, watchlists) || Refers(n.requestId, requests)
  }

  // Refused while a notification refers to a row to be deleted.
  function DeleteWatchlists(a: Accounts, id: Id): Result<Accounts, DbError> {
    if NotesRefer(a.notifications, WatchlistsOf(a, id), {}) then Err(ForeignKeyViolation)
    else Ok(a.(watchlists := Filter(a.watchlists, WatchlistOfOther(id))))
  }

  function DeleteRecommendations(a: Accounts, requests: set<Id>): Accounts {
    a.(recommendations := Filter(a.recommendations, RecommendationNotIn(requests)))
  }

  function DeleteConstraints(a: Accounts, requests: set<Id>): Accounts {
    a.(constraints := Filter(a.constraints, ConstraintNotIn(requests)))
  }

  function Unlinking(requests: set<Id>): Watchlist -> Watchlist {
    (w: Watchlist) => if Refers(w.sourceRequestId, requests) then w.(sourceRequestId := None) else w
  }

  // Refused while a notification refers to a row to be deleted; recommendations and constraints
  // go along, and watchlists lose their link.
  function DeleteRequests(a: Accounts, id: Id): Result<Accounts, DbError> {
    var requests := RequestsOf(a, id);
    if NotesRefer(a.notifications, {}, requests) then Err(ForeignKeyViolation)
    else Ok(a.(requests := Filter(a.requests, RequestOfOther(id)),
               constraints := Filter(a.constraints, ConstraintNotIn(requests)),
               recommendations := Filter(a.recommendations, RecommendationNotIn(requests)),
               watchlists := MapSeq(a.watchlists, Unlinking(requests))))
  }

  function DeleteSessions(a: Accounts, id: Id): Accounts {
    a.(sessions := Filter(a.sessions, SessionOfOther(id)))
  }

  // What still belongs to the user would go along.
  function DeleteUser(a: Accounts, id: Id): Accounts {
    a.(users := Filter(a.users, OtherUser(id)), sessions := Filter(a.sessions, SessionOfOther(id)),
       requests := Filter(a.requests, RequestOfOther(id)), watchlists := Filter(a.watchlists, WatchlistOfOther(id)),
       notifications := Filter(a.notifications, NoteOfOther(id)))
  }

  // ---- the deletion ----

  // The states the statements of a deletion pass through, as far as the database accepts them.
  function Stages(a: Accounts, id: Id): seq<Accounts> {
    var requests := RequestsOf(a, id);
    var s1 := DeleteNotifications(a, id);
    match DeleteWatchlists(s1, id)
    case Err(_) => [a, s1]
    case Ok(s2) =>
      var s3 := DeleteRecommendations(s2, requests);
      var s4 := DeleteConstraints(s3, requests);
      [a, s1, s2, s3, s4] + LateStages(s4, id)
  }

  function LateStages(s4: Accounts, id: Id): seq<Accounts> {
    match DeleteRequests(s4, id)
    case Err(_) => []
    case Ok(s5) => [s5, DeleteSessions(s5, id), DeleteUser(DeleteSessions(s5, id), id)]
  }

  // The outcome for the user of a Telegram id: a refused statement undoes the transaction.
  function Erased(a: Accounts, telegramId: int): (Accounts, Result<Option<UserDataStats>, DbError>) {
    match Find(a.users, WithTelegram(telegramId))
    case None => (a, Ok(None))
    case Some(u) =>
      var stages := Stages(a, u.id);
      if |stages| == 8 then (stages[7], Ok(Some(Summary(Exported(a, u.id))))) else (a, Err(ForeignKeyViolation))
  }

  method StoreAccounts(session: Session, a: Accounts)
    modifies session`users, session`sessions, session`requests, session`constraints, session`recommendations
    modifies session`watchlists, session`notifications
    ensures AccountsOf(session) == a
  {
    session.users, session.sessions, session.requests := a.users, a.sessions, a.requests;
    session.constraints, session.recommendations := a.constraints, a.recommendations;
    session.watchlists, session.notifications := a.watchlists, a.notifications;
  }

  method DeleteUserData(session: Session, telegramId: int) returns (r: Result<Option<UserDataStats>, DbError>)
    modifies session`users, session`sessions, session`requests, session`constraints, session`recommendations
    modifies session`watchlists, session`notifications
    ensures (AccountsOf(session), r) == Erased(old(AccountsOf(session)), telegramId)
  {
    var user := Find(session.users, WithTelegram(telegramId));
    if user.None? {
      return Ok(None);
    }
    var id := user.value.id;
    var before := AccountsOf(session);
    var requestIds := RequestsOf(before, id);
    var stats := CountUserData(session, telegramId);
    StoreAccounts(session, DeleteNotifications(before, id));
    var watchlistsDeleted := DeleteWatchlists(AccountsOf(session), id);
    if watchlistsDeleted.Err? {
      StoreAccounts(session, before);
      return Err(ForeignKeyViolation);
    }
    StoreAccounts(session, watchlistsDeleted.value);
    if requestIds != {} {
      StoreAccounts(session, DeleteRecommendations(AccountsOf(session), requestIds));
      StoreAccounts(session, DeleteConstraints(AccountsOf(session), requestIds));
    } else {
      FilterAll(session.recommendations, RecommendationNotIn(requestIds));
      FilterAll(session.constraints, ConstraintNotIn(requestIds));
    }
    var requestsDeleted := DeleteRequests(AccountsOf(session), id);
    if requestsDeleted.Err? {
      StoreAccounts(session, before);
      return Err(ForeignKeyViolation);
    }
    StoreAccounts(session, requestsDeleted.value);
    StoreAccounts(session, DeleteSessions(AccountsOf(session), id));
    StoreAccounts(session, DeleteUser(AccountsOf(session), id));
    r := Ok(stats);
  }

  // ---- when it goes through, and what it removes ----

  // Notifications of other users that link to this user's watchlists or requests.
  ghost predicate LinkedByOthers(a: Accounts, id: Id) {
    NotesRefer(Filter(a.notifications, NoteOfOther(id)), WatchlistsOf(a, id), RequestsOf(a, id))
  }

  // Watchlists of other users that came from this user's requests.
  ghost predicate SourcedByOthers(a: Accounts, id: Id) {
    exists w | w in a.watchlists :: w.userId != id && Refers(w.sourceRequestId, RequestsOf(a, id))
  }

  // All rows but the user's, with links to the user's requests dropped.
  function Without(a: Accounts, id: Id): Accounts {
    var requests := RequestsOf(a, id);
    Accounts(Filter(a.users, OtherUser(id)), Filter(a.sessions, SessionOfOther(id)),
             Filter(a.requests, RequestOfOther(id)), Filter(a.constraints, ConstraintNotIn(requests)),
             Filter(a.recommendations, RecommendationNotIn(requests)),
             MapSeq(Filter(a.watchlists, WatchlistOfOther(id)), Unlinking(requests)),
             Filter(a.notifications, NoteOfOther(id)))
  }

  lemma SplitReference(notes: seq<Notification>, watchlists: set<Id>, requests: set<Id>)
    ensures NotesRefer(notes, watchlists, requests) <==>
              NotesRefer(notes, watchlists, {}) || NotesRefer(notes, {}, requests)
  {}

  // A deletion goes through exactly if no other user's notification links to a watchlist or a
  // request of this user; then all rows of the user are gone.
  lemma DeletionSucceedsIff(a: Accounts, id: Id)
    ensures |Stages(a, id)| == 8 <==> !LinkedByOthers(a, id)
    ensures |Stages(a, id)| == 8 ==> Stages(a, id)[7] == Without(a, id)
  {
    var requests, notes := RequestsOf(a, id), Filter(a.notifications, NoteOfOther(id));
    SplitReference(notes, WatchlistsOf(a, id), requests);
    if !LinkedByOthers(a, id) {
      FilterTwice(a.recommendations, RecommendationNotIn(requests));
      FilterTwice(a.constraints, ConstraintNotIn(requests));
      FilterTwice(a.requests, RequestOfOther(id));
      FilterTwice(a.sessions, SessionOfOther(id));
      FilterTwice(a.notifications, NoteOfOther(id));
      UnlinkedStay(Filter(a.watchlists, WatchlistOfOther(id)), id, requests);
    }
  }

  lemma FilterTwice<T(!new)>(s: seq<T>, p: T -> bool)
    ensures Filter(Filter(s, p), p) == Filter(s, p)
  {
    FilterAll(Filter(s, p), p);
  }

  lemma UnlinkedStay(watchlists: seq<Watchlist>, id: Id, requests: set<Id>)
    requires forall w | w in watchlists :: WatchlistOfOther(id)(w)
    ensures Filter(MapSeq(watchlists, Unlinking(requests)), WatchlistOfOther(id)) == MapSeq(watchlists, Unlinking(requests))
  {
    var after := MapSeq(watchlists, Unlinking(requests));
    forall w | w in after ensures WatchlistOfOther(id)(w) {
      var i :| 0 <= i < |after| && after[i] == w;
      assert watchlists[i] in watchlists;
    }
    FilterAll(after, WatchlistOfOther(id));
  }

  // The request is one of the user's.
  ghost predicate Asked(a: Accounts, requestId: Id, id: Id) {
    exists r :: r in a.requests && r.id == requestId && r.userId == id
  }

  // A watchlist as it is left: without its source request, if that was the user's.
  ghost function Kept(a: Accounts, w: Watchlist, id: Id): Watchlist {
    if w.sourceRequestId.Some? && Asked(a, w.sourceRequestId.value, id) then w.(sourceRequestId := None) else w
  }

  // Exactly the rows of other users are left, as they were but for links to the user's requests.
  ghost predicate OnlyOthersLeft(a: Accounts, after: Accounts, id: Id) {
    && (forall u :: u in after.users <==> u in a.users && u.id != id)
    && (forall s :: s in after.sessions <==> s in a.sessions && s.userId != id)
    && (forall r :: r in after.requests <==> r in a.requests && r.userId != id)
    && (forall c :: c in after.constraints <==> c in a.constraints && !Asked(a, c.requestId, id))
    && (forall r :: r in after.recommendations <==> r in a.recommendations && !Asked(a, r.requestId, id))
    && (forall n :: n in after.notifications <==> n in a.notifications && n.userId != id)
    && (forall w | w in a.watchlists && w.userId != id :: Kept(a, w, id) in after.watchlists)
    && (forall x | x in after.watchlists :: exists w :: w in a.watchlists && w.userId != id && x == Kept(a, w, id))
  }

  lemma RequestsAsked(a: Accounts, id: Id)
    ensures forall i :: i in RequestsOf(a, id) <==> Asked(a, i, id)
  {
    forall r | r in a.requests && r.userId == id ensures r in Filter(a.requests, RequestOf(id)) {}
  }

  lemma WithoutLeavesOthers(a: Accounts, id: Id)
    ensures OnlyOthersLeft(a, Without(a, id), id)
  {
    var others, requests := Filter(a.watchlists, WatchlistOfOther(id)), RequestsOf(a, id);
    RequestsAsked(a, id);
    forall w ensures Unlinking(requests)(w) == Kept(a, w, id) {}
    var after := MapSeq(others, Unlinking(requests));
    forall w | w in a.watchlists && w.userId != id ensures Kept(a, w, id) in after {
      var i :| 0 <= i < |others| && others[i] == w;
      assert after[i] == Kept(a, w, id);
    }
    forall x | x in after ensures exists w :: w in a.watchlists && w.userId != id && x == Kept(a, w, id) {
      var i :| 0 <= i < |after| && after[i] == x;
      assert others[i] in others;
    }
  }

  // Another user's notification that links to a watchlist or a request of the user.
  ghost predicate BlockedBy(a: Accounts, n: Notification, id: Id) {
    && n in a.notifications && n.userId != id
    && ((n.requestId.Some? && Asked(a, n.requestId.value, id))
        || (n.watchlistId.Some? && exists w :: w in a.watchlists && w.id == n.watchlistId.value && w.userId == id))
  }

  lemma LinkedIffBlocked(a: Accounts, id: Id)
    ensures LinkedByOthers(a, id) <==> exists n :: BlockedBy(a, n, id)
  {
    var notes := Filter(a.notifications, NoteOfOther(id));
    RequestsAsked(a, id);
    forall w | w in a.watchlists && w.userId == id ensures w in Filter(a.watchlists, WatchlistOf(id)) {}
    if LinkedByOthers(a, id) {
      var n :| n in notes && (Refers(n.watchlistId, WatchlistsOf(a, id)) || Refers(n.requestId, RequestsOf(a, id)));
      assert BlockedBy(a, n, id);
    }
    if n :| BlockedBy(a, n, id) {
      assert n in notes;
      assert Refers(n.watchlistId, WatchlistsOf(a, id)) || Refers(n.requestId, RequestsOf(a, id));
    }
  }

  // ---- no dangling reference at any step ----

  lemma RequestsLeft(a: Accounts, id: Id)
    ensures RequestIds(Filter(a.requests, RequestOfOther(id))) >= RequestIds(a.requests) - RequestsOf(a, id)
  {
    forall i | i in RequestIds(a.requests) - RequestsOf(a, id) ensures i in RequestIds(Filter(a.requests, RequestOfOther(id))) {
      var r :| r in a.requests && r.id == i;
      assert r in Filter(a.requests, RequestOf(id)) || r in Filter(a.requests, RequestOfOther(id));
    }
  }

  lemma WatchlistsLeft(a: Accounts, id: Id)
    ensures WatchlistIds(Filter(a.watchlists, WatchlistOfOther(id))) >= WatchlistIds(a.watchlists) - WatchlistsOf(a, id)
  {
    forall i | i in WatchlistIds(a.watchlists) - WatchlistsOf(a, id)
      ensures i in WatchlistIds(Filter(a.watchlists, WatchlistOfOther(id)))
    {
      var w :| w in a.watchlists && w.id == i;
      assert w in Filter(a.watchlists, WatchlistOf(id)) || w in Filter(a.watchlists, WatchlistOfOther(id));
    }
  }

  lemma UsersLeft(a: Accounts, id: Id)
    ensures UserIds(Filter(a.users, OtherUser(id))) >= UserIds(a.users) - {id}
  {
    forall i | i in UserIds(a.users) - {id} ensures i in UserIds(Filter(a.users, OtherUser(id))) {
      var u :| u in a.users && u.id == i;
      assert u in Filter(a.users, OtherUser(id));
    }
  }

  lemma WatchlistsDeletedSafely(a: Accounts, id: Id)
    requires NoDangling(a) && DeleteWatchlists(a, id).Ok?
    ensures NoDangling(DeleteWatchlists(a, id).value)
  {
    WatchlistsLeft(a, id);
  }

  lemma UnlinkingIds(watchlists: seq<Watchlist>, requests: set<Id>)
    ensures WatchlistIds(MapSeq(watchlists, Unlinking(requests))) == WatchlistIds(watchlists)
    ensures forall w | w in MapSeq(watchlists, Unlinking(requests)) ::
              && !Refers(w.sourceRequestId, requests)
              && exists v :: v in watchlists && v.userId == w.userId && (w.sourceRequestId.Some? ==> v.sourceRequestId == w.sourceRequestId)
  {
    var after := MapSeq(watchlists, Unlinking(requests));
    forall w | w in after
      ensures w.id in WatchlistIds(watchlists) && !Refers(w.sourceRequestId, requests)
      ensures exists v :: v in watchlists && v.userId == w.userId && (w.sourceRequestId.Some? ==> v.sourceRequestId == w.sourceRequestId)
    {
      var i :| 0 <= i < |after| && after[i] == w;
      assert watchlists[i] in watchlists;
    }
    forall i | i in WatchlistIds(watchlists) ensures i in WatchlistIds(after) {
      var v :| v in watchlists && v.id == i;
      var k :| 0 <= k < |watchlists| && watchlists[k] == v;
      assert after[k] in after;
    }
  }

  lemma RequestsDeletedSafely(a: Accounts, id: Id)
    requires NoDangling(a) && DeleteRequests(a, id).Ok?
    ensures NoDangling(DeleteRequests(a, id).value)
  {
    RequestsLeft(a, id);
    UnlinkingIds(a.watchlists, RequestsOf(a, id));
  }

  lemma UserDeletedSafely(a: Accounts, id: Id)
    requires NoDangling(a)
    requires Filter(a.requests, RequestOfOther(id)) == a.requests
    requires Filter(a.watchlists, WatchlistOfOther(id)) == a.watchlists
    ensures NoDangling(DeleteUser(a, id))
  {
    UsersLeft(a, id);
  }

  lemma LeafRowsDeletedSafely(a: Accounts, id: Id, requests: set<Id>)
    requires NoDangling(a)
    ensures NoDangling(DeleteNotifications(a, id)) && NoDangling(DeleteSessions(a, id))
    ensures NoDangling(DeleteRecommendations(a, requests)) && NoDangling(DeleteConstraints(a, requests))
  {}

  ghost predicate AllSound(stages: seq<Accounts>) { forall a | a in stages :: NoDangling(a) }

  lemma UpToRequestsSound(a: Accounts, id: Id, s2: Accounts, requests: set<Id>)
    requires NoDangling(a) && DeleteWatchlists(DeleteNotifications(a, id), id) == Ok(s2)
    ensures var s3 := DeleteRecommendations(s2, requests);
            var s4 := DeleteConstraints(s3, requests);
            AllSound([a, DeleteNotifications(a, id), s2, s3, s4])
  {
    LeafRowsDeletedSafely(a, id, requests);
    WatchlistsDeletedSafely(DeleteNotifications(a, id), id);
    LeafRowsDeletedSafely(s2, id, requests);
    LeafRowsDeletedSafely(DeleteRecommendations(s2, requests), id, requests);
  }

  lemma LateStagesSound(s4: Accounts, id: Id)
    requires NoDangling(s4)
    requires forall w | w in s4.watchlists :: WatchlistOfOther(id)(w)
    ensures AllSound(LateStages(s4, id))
  {
    if DeleteRequests(s4, id).Ok? {
      RequestDeletionsSound(s4, id, DeleteRequests(s4, id).value);
    }
  }

  lemma RequestDeletionsSound(s4: Accounts, id: Id, s5: Accounts)
    requires NoDangling(s4) && DeleteRequests(s4, id) == Ok(s5)
    requires forall w | w in s4.watchlists :: WatchlistOfOther(id)(w)
    ensures NoDangling(s5) && NoDangling(DeleteSessions(s5, id)) && NoDangling(DeleteUser(DeleteSessions(s5, id), id))
  {
    RequestsDeletedSafely(s4, id);
    LeafRowsDeletedSafely(s5, id, {});
    FilterTwice(s4.requests, RequestOfOther(id));
    UnlinkedStay(s4.watchlists, id, RequestsOf(s4, id));
    UserDeletedSafely(DeleteSessions(s5, id), id);
  }

  // Every state a deletion passes through is free of dangling references.
  lemma EveryStageIsSound(a: Accounts, id: Id)
    requires NoDangling(a)
    ensures AllSound(Stages(a, id))
  {
    var requests, s1 := RequestsOf(a, id), DeleteNotifications(a, id);
    LeafRowsDeletedSafely(a, id, requests);
    match DeleteWatchlists(s1, id)
    case Err(_) =>
    case Ok(s2) =>
      UpToRequestsSound(a, id, s2, requests);
      var s3 := DeleteRecommendations(s2, requests);
      var s4 := DeleteConstraints(s3, requests);
      assert s4 in [a, s1, s2, s3, s4];
      LateStagesSound(s4, id);
      JoinSound([a, s1, s2, s3, s4], LateStages(s4, id));
  }

  lemma JoinSound(x: seq<Accounts>, y: seq<Accounts>)
    requires AllSound(x) && AllSound(y)
    ensures AllSound(x + y)
  {}

  // ---- exactly the exported rows ----

  lemma ConsContents<T>(x: T, s: seq<T>)
    ensures multiset([x] + s) == multiset{x} + multiset(s)
  {}

  lemma {:induction false} Partition<T(!new)>(s: seq<T>, p: T -> bool, q: T -> bool)
    requires forall x | x in s :: q(x) == !p(x)
    ensures multiset(Filter(s, p)) + multiset(Filter(s, q)) == multiset(s)
  {
    if s != [] {
      var head, tail := s[0], s[1..];
      assert s == [head] + tail;
      forall x | x in tail ensures q(x) == !p(x) {
        assert x in s;
      }
      Partition(tail, p, q);
      ConsContents(head, tail);
      if p(head) {
        ConsContents(head, Filter(tail, p));
      } else {
        ConsContents(head, Filter(tail, q));
      }
    }
  }

  // A deletion removes exactly the rows an export lists: the two together are the table.
  lemma DeletionRemovesTheExport(a: Accounts, id: Id)
    ensures var rows, after := Exported(a, id), Without(a, id);
            && multiset(rows.sessions) + multiset(after.sessions) == multiset(a.sessions)
            && multiset(rows.requests) + multiset(after.requests) == multiset(a.requests)
            && multiset(rows.constraints) + multiset(after.constraints) == multiset(a.constraints)
            && multiset(rows.recommendations) + multiset(after.recommendations) == multiset(a.recommendations)
            && multiset(rows.notifications) + multiset(after.notifications) == multiset(a.notifications)
            && multiset(rows.watchlists) + multiset(Filter(a.watchlists, WatchlistOfOther(id))) == multiset(a.watchlists)
  {
    var requests := RequestsOf(a, id);
    Partition(a.sessions, SessionOf(id), SessionOfOther(id));
    Partition(a.requests, RequestOf(id), RequestOfOther(id));
    Partition(a.constraints, ConstraintIn(requests), ConstraintNotIn(requests));
    Partition(a.recommendations, RecommendationIn(requests), RecommendationNotIn(requests));
    Partition(a.notifications, NoteOf(id), NoteOfOther(id));
    Partition(a.watchlists, WatchlistOf(id), WatchlistOfOther(id));
  }

  ghost predicate CountsRemoved(a: Accounts, after: Accounts, stats: UserDataStats) {
    && stats.users == |a.users| - |after.users| && stats.sessions == |a.sessions| - |after.sessions|
    && stats.requests == |a.requests| - |after.requests| && stats.constraints == |a.constraints| - |after.constraints|
    && stats.recommendations == |a.recommendations| - |after.recommendations|
    && stats.watchlists == |a.watchlists| - |after.watchlists|
    && stats.notifications == |a.notifications| - |after.notifications|
  }

  // The returned counts are the numbers of rows removed from each table.
  lemma StatsCountTheRemovedRows(a: Accounts, u: User)
    requires u in a.users && Distinct(a.users, UserId())
    ensures CountsRemoved(a, Without(a, u.id), Summary(Exported(a, u.id)))
  {
    var id, requests := u.id, RequestsOf(a, u.id);
    FilterSplit(a.sessions, SessionOf(id), SessionOfOther(id));
    FilterSplit(a.requests, RequestOf(id), RequestOfOther(id));
    FilterSplit(a.constraints, ConstraintIn(requests), ConstraintNotIn(requests));
    FilterSplit(a.recommendations, RecommendationIn(requests), RecommendationNotIn(requests));
    FilterSplit(a.notifications, NoteOf(id), NoteOfOther(id));
    FilterSplit(a.watchlists, WatchlistOf(id), WatchlistOfOther(id));
    OneUserRemoved(a.users, u);
  }

  lemma {:induction false} OneUserRemoved(users: seq<User>, u: User)
    requires u in users && Distinct(users, UserId())
    ensures |Filter(users, OtherUser(u.id))| == |users| - 1
  {
    var head, tail := users[0], users[1..];
    assert users == [head] + tail;
    forall i, j | 0 <= i < j < |tail| ensures UserId()(tail[i]) != UserId()(tail[j]) {
      assert tail[i] == users[i + 1] && tail[j] == users[j + 1];
    }
    if head.id == u.id {
      forall x | x in tail ensures OtherUser(u.id)(x) {
        var i :| 0 <= i < |tail| && tail[i] == x;
        assert UserId()(users[0]) != UserId()(users[i + 1]);
      }
      FilterAll(tail, OtherUser(u.id));
    } else {
      OneUserRemoved(tail, u);
    }
  }

  // Telegram ids are unique.
  ghost predicate OnlyOneHas(users: seq<User>, telegramId: int) {
    forall u, v | u in users && v in users && u.telegramId == Some(telegramId) && v.telegramId == Some(telegramId) :: u == v
  }

  // What a caller sees of a deletion: an unknown Telegram id changes nothing; a notification of
  // another user that links to the user's rows leaves all as it was; otherwise exactly the other
  // users' rows are left, and the counts are those of the rows gone.
  lemma ErasureMeans(a: Accounts, telegramId: int)
    requires Distinct(a.users, UserId())
    ensures var (after, r) := Erased(a, telegramId);
            && (r == Ok(None) <==> forall u | u in a.users :: u.telegramId != Some(telegramId))
            && (r == Ok(None) || r.Err? ==> after == a)
            && (forall u | u in a.users && u.telegramId == Some(telegramId) && OnlyOneHas(a.users, telegramId) ::
                  && (r.Err? <==> exists n :: BlockedBy(a, n, u.id))
                  && (r.Ok? ==> OnlyOthersLeft(a, after, u.id) && r.value.Some? && CountsRemoved(a, after, r.value.value)))
  {
    forall u | u in a.users && u.telegramId == Some(telegramId) ensures Find(a.users, WithTelegram(telegramId)).Some? {
      assert WithTelegram(telegramId)(u);
    }
    if Find(a.users, WithTelegram(telegramId)).Some? {
      var u := Find(a.users, WithTelegram(telegramId)).value;
      DeletionSucceedsIff(a, u.id);
      WithoutLeavesOthers(a, u.id);
      LinkedIffBlocked(a, u.id);
      StatsCountTheRemovedRows(a, u);
    }
  }

  // Other users' watchlists keep every column exactly if none came from this user's requests;
  // all other rows of other users are kept as they are in any case.
  lemma OthersUntouchedIff(a: Accounts, id: Id)
    ensures Without(a, id).watchlists == Filter(a.watchlists, WatchlistOfOther(id)) <==> !SourcedByOthers(a, id)
  {
    var requests, others := RequestsOf(a, id), Filter(a.watchlists, WatchlistOfOther(id));
    var after := MapSeq(others, Unlinking(requests));
    if SourcedByOthers(a, id) {
      var w :| w in a.watchlists && w.userId != id && Refers(w.sourceRequestId, requests);
      assert w in others;
      var i :| 0 <= i < |others| && others[i] == w;
      assert after[i] != others[i];
    } else {
      forall i | 0 <= i < |others| ensures after[i] == others[i] {
        assert others[i] in others;
      }
    }
  }

  // ---- how another user comes to link to a request ----

  // A watchlist may be created from any request, whoever made it, and a notification generated for
  // the watchlist carries the request along.
  lemma SharedRequestLinks(a: Accounts, id: Id, r: ShoppingRequest, w: Watchlist, uuid: N.Printer, t: N.Trigger,
                           noteId: Id, now: int)
    requires NoDangling(a) && r in a.requests && r.userId == id
    requires w.userId in UserIds(a.users) && w.userId != id && w.sourceRequestId == Some(r.id) && t.watchlist == w
    ensures var after := a.(watchlists := a.watchlists + [w],
                            notifications := a.notifications + [N.NoteOf(uuid, noteId, t, now)]);
            && NoDangling(after) && SourcedByOthers(after, id) && LinkedByOthers(after, id)
            && |Stages(after, id)| != 8
  {
    var note := N.NoteOf(uuid, noteId, t, now);
    var after := a.(watchlists := a.watchlists + [w], notifications := a.notifications + [note]);
    assert r in Filter(after.requests, RequestOf(id));
    assert r.id in RequestsOf(after, id);
    assert w in after.watchlists && w.id in WatchlistIds(after.watchlists);
    assert r.id in RequestIds(after.requests);
    assert note in Filter(after.notifications, NoteOfOther(id));
    DeletionSucceedsIff(after, id);
  }

  // The smallest such database: two users, a request of the first, a watchlist of the second made
  // from it, and one notification. The first user's data cannot be deleted.
  lemma SharedRequestBlocksDeletion(uuid: N.Printer, t: N.Trigger, now: int)
    requires t.watchlist.userId == 2 && t.watchlist.sourceRequestId == Some(3)
    ensures var a := Accounts([User(1, Some(10)), User(2, Some(20))], [], [ShoppingRequest(3, 1)], [], [],
                              [t.watchlist], [N.NoteOf(uuid, 4, t, now)]);
            NoDangling(a) && SourcedByOthers(a, 1) && LinkedByOthers(a, 1) && |Stages(a, 1)| != 8
  {
    var users, request := [User(1, Some(10)), User(2, Some(20))], ShoppingRequest(3, 1);
    var a := Accounts(users, [], [request], [], [], [], []);
    assert users[0] in users && users[1] in users;
    SharedRequestLinks(a, 1, request, t.watchlist, uuid, t, 4, now);
    assert [] + [t.watchlist] == [t.watchlist];
    assert [] + [N.NoteOf(uuid, 4, t, now)] == [N.NoteOf(uuid, 4, t, now)];
  }
}

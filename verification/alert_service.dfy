/** The alert queries: the unread alerts of a user, newest first, and marking
    one of the user's alerts as read. The alerts collection is a sequence in
    natural (insertion) order. */
module AlertService {
  import opened Wrappers
  import opened Calendar
  import opened Mongoose
  import opened Sorting
  import opened AlertModel

  const NotFoundOrForbidden: string := "Alert not found or you do not have permission to modify it."

  function CreatedAtKey(a: Alert): int
  {
    Epoch(a.createdAt)
  }

  predicate IsUnreadOf(a: Alert, userId: ObjectId)
  {
    a.user == userId && !a.isRead
  }

  /** `find({ user: userId, isRead: false })`, in natural order. */
  function UnreadOf(store: seq<Alert>, userId: ObjectId): (r: seq<Alert>)
    ensures forall a :: a in r <==> a in store && IsUnreadOf(a, userId)
    ensures |r| <= |store|
  {
    if store == [] then []
    else if IsUnreadOf(store[0], userId) then [store[0]] + UnreadOf(store[1..], userId)
    else UnreadOf(store[1..], userId)
  }

  /** `getUnreadAlerts`: the same alerts, sorted by `createdAt` descending. */
  function GetUnreadAlerts(store: seq<Alert>, userId: ObjectId): (r: seq<Alert>)
    ensures forall a :: a in r <==> a in store && IsUnreadOf(a, userId)
    ensures NewestFirst(r, CreatedAtKey)
    ensures multiset(r) == multiset(UnreadOf(store, userId))
  {
    var found := UnreadOf(store, userId);
    var r := SortNewestFirst(found, CreatedAtKey);
    forall a ensures a in r <==> a in found {
      SortKeepsMembers(found, CreatedAtKey, a);
    }
    r
  }

  /** `findOne({ _id: alertId, user: userId })`: the position of the first
      alert with that id owned by that user. */
  function FindOwned(store: seq<Alert>, userId: ObjectId, alertId: ObjectId): (r: Option<nat>)
    ensures r.Some? ==> r.value < |store| && store[r.value].id == alertId && store[r.value].user == userId
    ensures r.None? <==> forall a :: a in store ==> a.id != alertId || a.user != userId
  {
    if store == [] then None
    else if store[0].id == alertId && store[0].user == userId then Some(0)
    else match FindOwned(store[1..], userId, alertId)
      case None => None
      case Some(i) => Some(i + 1)
  }

  /** `markAlertAsRead` at time `now`: the result and the collection after it.
      Saving a document whose flag was already set modifies nothing, so its
      `updatedAt` is bumped only when the flag actually changes. */
  function MarkAlertAsRead(store: seq<Alert>, userId: ObjectId, alertId: ObjectId, now: DateTime)
    : (r: (Result<Alert, string>, seq<Alert>))
    ensures r.0.Err? <==> forall a :: a in store ==> a.id != alertId || a.user != userId
    ensures r.0.Err? ==> r.0.error == NotFoundOrForbidden && r.1 == store
    ensures r.0.Ok? ==>
      var i := FindOwned(store, userId, alertId).value;
      && |r.1| == |store|
      && r.1[i] == r.0.value
      && r.0.value.isRead
      && r.0.value == store[i].(isRead := true, updatedAt := if store[i].isRead then store[i].updatedAt else now)
      && (forall k :: 0 <= k < |store| && k != i ==> r.1[k] == store[k])
  {
    match FindOwned(store, userId, alertId)
    case None => (Err(NotFoundOrForbidden), store)
    case Some(i) =>
      var a := store[i];
      var marked := if a.isRead then a else a.(isRead := true, updatedAt := now);
      (Ok(marked), store[i := marked])
  }

  /** The message of the CastError `findOne` throws when the route's
      `alertId` is not an ObjectId; the controller answers 404 with it. */
  function CastFailure(alertId: string): string
  {
    "Cast to ObjectId failed for value \"" + alertId + "\" (type string) at path \"_id\" for model \"Alert\""
  }

  /** `markAlertAsRead` called with the `alertId` route parameter as it
      arrives: `castId` is Mongoose's ObjectId cast, absent for a string that
      is not an ObjectId. A failed cast leaves the collection alone and
      reports the cast message rather than the not-found one. */
  function MarkAlertAsReadParam(store: seq<Alert>, userId: ObjectId, alertId: string,
                                castId: string -> Option<ObjectId>, now: DateTime)
    : (r: (Result<Alert, string>, seq<Alert>))
    ensures r.0.Err? ==> r.1 == store
    ensures castId(alertId).None? ==> r.0 == Err(CastFailure(alertId))
    ensures r.0.Err? <==> castId(alertId).None?
                          || forall a :: a in store ==> a.id != castId(alertId).value || a.user != userId
    ensures castId(alertId).Some? && r.0.Err? ==> r.0.error == NotFoundOrForbidden
    ensures r.0.Ok? ==> r.0.value.isRead && r.0.value.id == castId(alertId).value && r.0.value.user == userId
  {
    match castId(alertId)
    case None => (Err(CastFailure(alertId)), store)
    case Some(id) => MarkAlertAsRead(store, userId, id, now)
  }

  /** Marking twice is marking once, even at a later time. */
  lemma MarkIdempotent(store: seq<Alert>, userId: ObjectId, alertId: ObjectId, now: DateTime, later: DateTime)
    ensures var first := MarkAlertAsRead(store, userId, alertId, now);
            MarkAlertAsRead(first.1, userId, alertId, later) == first
  {
    var first := MarkAlertAsRead(store, userId, alertId, now);
    if first.0.Ok? {
      var i := FindOwned(store, userId, alertId).value;
      FindOwnedAfterUpdate(store, userId, alertId, i, first.0.value);
      assert first.1 == store[i := first.0.value];
      assert first.1[i := first.0.value] == first.1;
    } else {
      assert first.1 == store;
    }
  }

  /** Updating the found alert in place, keeping its id and owner, leaves it
      the first match. */
  lemma {:induction false} FindOwnedAfterUpdate(store: seq<Alert>, userId: ObjectId, alertId: ObjectId,
                                                i: nat, a: Alert)
    requires FindOwned(store, userId, alertId) == Some(i)
    requires a.id == alertId && a.user == userId
    ensures FindOwned(store[i := a], userId, alertId) == Some(i)
  {
    if i > 0 {
      assert store[i := a][1..] == store[1..][i - 1 := a];
      FindOwnedAfterUpdate(store[1..], userId, alertId, i - 1, a);
    }
  }

  /** Alert ids are unique (`_id`). */
  predicate IdsUnique(store: seq<Alert>)
  {
    forall i, j :: 0 <= i < j < |store| ==> store[i].id != store[j].id
  }

  /** After a successful mark the alert is no longer among the user's unread
      alerts, and every other unread alert still is. */
  lemma MarkedLeavesUnread(store: seq<Alert>, userId: ObjectId, alertId: ObjectId, now: DateTime)
    requires IdsUnique(store)
    requires MarkAlertAsRead(store, userId, alertId, now).0.Ok?
    ensures var after := MarkAlertAsRead(store, userId, alertId, now).1;
            && (forall a :: a in GetUnreadAlerts(after, userId) ==> a.id != alertId)
            && (forall a :: a in GetUnreadAlerts(store, userId) && a.id != alertId
                  ==> a in GetUnreadAlerts(after, userId))
  {
    var after := MarkAlertAsRead(store, userId, alertId, now).1;
    var i := FindOwned(store, userId, alertId).value;
    forall a | a in after && a.id == alertId
      ensures !IsUnreadOf(a, userId)
    {
      var k :| 0 <= k < |after| && after[k] == a;
    }
    forall a | a in store && a.id != alertId
      ensures a in after
    {
      var k :| 0 <= k < |store| && store[k] == a;
      assert k != i;
      assert after[k] == a;
    }
  }
}

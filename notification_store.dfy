/** The notification store: a list of notifications and a counter of unread
    ones, edited locally after the server confirms a change. */
module NotificationStore {
  import opened Common
  import opened Types

  /** Index of the first notification carrying `id`, or -1 when none does
      (`findIndex` / `find` on the list). */
  function FindIndex(list: seq<Notification>, id: int): (r: int)
    ensures -1 <= r < |list|
    ensures r >= 0 ==> list[r].id == id
    ensures forall k :: 0 <= k < |list| && (r == -1 || k < r) ==> list[k].id != id
  {
    if |list| == 0 then -1
    else if list[0].id == id then 0
    else
      var rest := FindIndex(list[1..], id);
      assert forall k :: 1 <= k < |list| ==> list[k] == list[1..][k - 1];
      if rest == -1 then -1 else rest + 1
  }

  /** Number of unread notifications in a list. */
  function UnreadIn(list: seq<Notification>): nat
  {
    if |list| == 0 then 0 else (if list[0].is_read then 0 else 1) + UnreadIn(list[1..])
  }

  /** The part of the store's state that the local edits touch. */
  datatype Snapshot = Snapshot(unreadCount: int, notifications: seq<Notification>)

  /** The counter agrees with the list it sits beside. */
  predicate Consistent(s: Snapshot)
  {
    s.unreadCount == UnreadIn(s.notifications)
  }

  /** Local effect of `markAsRead(id)` once the server call succeeded. */
  function MarkedAsRead(s: Snapshot, id: int): (r: Snapshot)
    ensures |r.notifications| == |s.notifications|
    ensures forall k :: 0 <= k < |s.notifications| ==>
      r.notifications[k].id == s.notifications[k].id && (s.notifications[k].is_read ==> r.notifications[k].is_read)
    ensures (forall k :: 0 <= k < |s.notifications| ==> s.notifications[k].id != id) ==> r == s
  {
    var i := FindIndex(s.notifications, id);
    if i != -1 && !s.notifications[i].is_read then
      Snapshot(Max(0, s.unreadCount - 1), s.notifications[i := s.notifications[i].(is_read := true)])
    else s
  }

  /** The list with every notification marked read (the `forEach` of
      `markAllAsRead`). */
  function AllRead(list: seq<Notification>): (r: seq<Notification>)
    ensures |r| == |list|
    ensures forall k :: 0 <= k < |list| ==> r[k].is_read && r[k].(is_read := list[k].is_read) == list[k]
  {
    if |list| == 0 then []
    else
      var head, rest := list[0].(is_read := true), AllRead(list[1..]);
      var r := [head] + rest;
      assert r[0] == head;
      assert forall k :: 1 <= k < |list| ==> r[k] == rest[k - 1] && list[k] == list[1..][k - 1];
      r
  }

  /** Local effect of `markAllAsRead` once the server call succeeded. */
  function MarkedAllAsRead(s: Snapshot): (r: Snapshot)
    ensures r.unreadCount == 0 && |r.notifications| == |s.notifications|
    ensures forall k :: 0 <= k < |s.notifications| ==> r.notifications[k].is_read
  {
    Snapshot(0, AllRead(s.notifications))
  }

  /** Local effect of `deleteNotification(id)` once the server call succeeded. */
  function Deleted(s: Snapshot, id: int): (r: Snapshot)
    ensures (exists k :: 0 <= k < |s.notifications| && s.notifications[k].id == id) ==>
      |r.notifications| == |s.notifications| - 1
    ensures (forall k :: 0 <= k < |s.notifications| ==> s.notifications[k].id != id) ==> r == s
  {
    var i := FindIndex(s.notifications, id);
    if i == -1 then s
    else
      var count := if s.notifications[i].is_read then s.unreadCount else Max(0, s.unreadCount - 1);
      Snapshot(count, s.notifications[..i] + s.notifications[i + 1..])
  }

  /** Effect of `clear`. */
  function Cleared(s: Snapshot): (r: Snapshot)
    ensures r.unreadCount == 0 && r.notifications == []
  {
    Snapshot(0, [])
  }

  // ---------------------------------------------------------------------
  // Properties of the local edits

  /** Marking the first match read, when it was unread: that one
      notification becomes read, the others and the order stay, and the
      counter drops by one, floored at zero. */
  lemma MarkAsReadOnUnread(s: Snapshot, id: int)
    requires exists k :: 0 <= k < |s.notifications| && s.notifications[k].id == id
    requires !s.notifications[FindIndex(s.notifications, id)].is_read
    ensures var i, r := FindIndex(s.notifications, id), MarkedAsRead(s, id);
      && |r.notifications| == |s.notifications|
      && r.notifications[i].is_read
      && r.notifications[i].(is_read := false) == s.notifications[i]
      && (forall k :: 0 <= k < |s.notifications| && k != i ==> r.notifications[k] == s.notifications[k])
      && r.unreadCount == Max(0, s.unreadCount - 1)
  {
  }

  /** Marking read is a no-op when no notification has the id or the first
      one that has it is already read, and applying it twice is the same as
      applying it once. */
  lemma MarkAsReadIdempotent(s: Snapshot, id: int)
    ensures (forall k :: 0 <= k < |s.notifications| ==> s.notifications[k].id != id) ==> MarkedAsRead(s, id) == s
    ensures (exists k :: 0 <= k < |s.notifications| && s.notifications[k].id == id && s.notifications[k].is_read
               && forall j :: 0 <= j < k ==> s.notifications[j].id != id) ==> MarkedAsRead(s, id) == s
    ensures MarkedAsRead(MarkedAsRead(s, id), id) == MarkedAsRead(s, id)
  {
    var i := FindIndex(s.notifications, id);
    if i != -1 && !s.notifications[i].is_read {
      var r := MarkedAsRead(s, id);
      assert FindIndex(r.notifications, id) == i by {
        assert forall k :: 0 <= k < |r.notifications| ==> r.notifications[k].id == s.notifications[k].id;
      }
    }
  }

  /** `markAllAsRead` keeps the length, order and ids, reads everything and
      resets the counter. */
  lemma MarkAllAsReadEffect(s: Snapshot)
    ensures var r := MarkedAllAsRead(s);
      && r.unreadCount == 0
      && |r.notifications| == |s.notifications|
      && forall k :: 0 <= k < |s.notifications| ==>
           r.notifications[k].is_read && r.notifications[k].id == s.notifications[k].id
  {
  }

  /** Deleting an id that is present removes exactly the first notification
      with it, keeps the others in order, and decrements the counter (floored
      at zero) only when the removed one was unread. */
  lemma DeleteEffect(s: Snapshot, id: int)
    requires exists k :: 0 <= k < |s.notifications| && s.notifications[k].id == id
    ensures var i, d := FindIndex(s.notifications, id), Deleted(s, id);
      && |d.notifications| == |s.notifications| - 1
      && (forall k :: 0 <= k < i ==> d.notifications[k] == s.notifications[k])
      && (forall k :: i < k < |s.notifications| ==> d.notifications[k - 1] == s.notifications[k])
      && d.unreadCount == (if s.notifications[i].is_read then s.unreadCount else Max(0, s.unreadCount - 1))
  {
  }

  /** Deleting an id that no notification has changes nothing. */
  lemma DeleteMissing(s: Snapshot, id: int)
    requires forall k :: 0 <= k < |s.notifications| ==> s.notifications[k].id != id
    ensures Deleted(s, id) == s
  {
  }

  /** None of the four local edits can leave the counter negative when it
      was not negative before; three of them make it non-negative outright. */
  lemma CounterStaysNonNegative(s: Snapshot, id: int)
    ensures MarkedAllAsRead(s).unreadCount >= 0 && Cleared(s).unreadCount >= 0
    ensures s.unreadCount >= 0 ==> MarkedAsRead(s, id).unreadCount >= 0 && Deleted(s, id).unreadCount >= 0
  {
  }

  /** Reading one unread notification lowers the number of unread ones by one. */
  lemma {:induction false} UnreadAfterMark(list: seq<Notification>, i: nat)
    requires i < |list| && !list[i].is_read
    ensures UnreadIn(list[i := list[i].(is_read := true)]) == UnreadIn(list) - 1
  {
    var l' := list[i := list[i].(is_read := true)];
    if i == 0 {
      assert l'[1..] == list[1..];
    } else {
      UnreadAfterMark(list[1..], i - 1);
      assert l'[1..] == list[1..][i - 1 := list[i].(is_read := true)];
    }
  }

  /** Removing one notification lowers the unread number by one exactly when
      it was unread. */
  lemma {:induction false} UnreadAfterRemove(list: seq<Notification>, i: nat)
    requires i < |list|
    ensures UnreadIn(list[..i] + list[i + 1..]) == UnreadIn(list) - (if list[i].is_read then 0 else 1)
  {
    if i == 0 {
      assert list[..0] + list[1..] == list[1..];
    } else {
      UnreadAfterRemove(list[1..], i - 1);
      assert (list[..i] + list[i + 1..])[1..] == list[1..][..i - 1] + list[1..][i..];
    }
  }

  /** A list with everything read has no unread notification. */
  lemma {:induction false} NoneUnreadAfterAllRead(list: seq<Notification>)
    ensures UnreadIn(AllRead(list)) == 0
  {
    if |list| > 0 {
      NoneUnreadAfterAllRead(list[1..]);
      assert AllRead(list)[1..] == AllRead(list[1..]);
    }
  }

  /** Each local edit keeps the counter in agreement with the list. */
  lemma EditsKeepConsistent(s: Snapshot, id: int)
    requires Consistent(s)
    ensures Consistent(MarkedAsRead(s, id))
    ensures Consistent(MarkedAllAsRead(s))
    ensures Consistent(Deleted(s, id))
    ensures Consistent(Cleared(s))
  {
    MarkKeepsConsistent(s, id);
    DeleteKeepsConsistent(s, id);
    NoneUnreadAfterAllRead(s.notifications);
  }

  lemma MarkKeepsConsistent(s: Snapshot, id: int)
    requires Consistent(s)
    ensures Consistent(MarkedAsRead(s, id))
  {
    var i := FindIndex(s.notifications, id);
    if i != -1 && !s.notifications[i].is_read {
      UnreadAfterMark(s.notifications, i);
    }
  }

  lemma DeleteKeepsConsistent(s: Snapshot, id: int)
    requires Consistent(s)
    ensures Consistent(Deleted(s, id))
  {
    var i := FindIndex(s.notifications, id);
    if i != -1 {
      UnreadAfterRemove(s.notifications, i);
    }
  }

  // ---------------------------------------------------------------------
  // The store

  class Store {
    var unreadCount: int
    var notifications: seq<Notification>
    var loading: bool

    constructor()
      ensures unreadCount == 0 && notifications == [] && !loading
      ensures Consistent(View())
    {
      unreadCount := 0;
      notifications := [];
      loading := false;
    }

    function View(): Snapshot
      reads this
    {
      Snapshot(unreadCount, notifications)
    }

    /** `fetchUnreadCount`: takes the server's count; a failure is logged
        and swallowed. */
    method FetchUnreadCount(api: Outcome<UnreadCountResponse>) returns (r: Outcome<()>)
      modifies this
      ensures r == Success(())
      ensures unreadCount == (if api.Success? then api.value.count else old(unreadCount))
      ensures notifications == old(notifications) && loading == old(loading)
    {
      if api.Success? {
        unreadCount := api.value.count;
      }
      r := Success(());
    }

    /** `fetchNotifications`: replaces the list on success, rethrows on
        failure, and always ends with `loading` false. */
    method FetchNotifications(api: Outcome<NotificationListResponse>) returns (r: Outcome<NotificationListResponse>)
      modifies this
      ensures r == api
      ensures !loading
      ensures notifications == (if api.Success? then api.value.items else old(notifications))
      ensures unreadCount == old(unreadCount)
    {
      loading := true;
      if api.Success? {
        notifications := api.value.items;
      }
      loading := false;
      r := api;
    }

    /** `markAsRead(id)`. */
    method MarkAsRead(id: int, api: Outcome<()>) returns (r: Outcome<()>)
      modifies this
      ensures r == api
      ensures View() == (if api.Success? then MarkedAsRead(old(View()), id) else old(View()))
      ensures loading == old(loading)
    {
      if api.Failure? {
        return api;
      }
      var index := FindIndex(notifications, id);
      if index != -1 && !notifications[index].is_read {
        notifications := notifications[index := notifications[index].(is_read := true)];
        unreadCount := Max(0, unreadCount - 1);
      }
      r := api;
    }

    /** `markAllAsRead`: the `forEach` sets `is_read` on each notification
        in turn. */
    method MarkAllAsRead(api: Outcome<()>) returns (r: Outcome<()>)
      modifies this
      ensures r == api
      ensures View() == (if api.Success? then MarkedAllAsRead(old(View())) else old(View()))
      ensures loading == old(loading)
    {
      if api.Failure? {
        return api;
      }
      var i := 0;
      while i < |notifications|
        invariant 0 <= i <= |notifications| == |old(notifications)|
        invariant forall k :: 0 <= k < i ==> notifications[k] == old(notifications)[k].(is_read := true)
        invariant forall k :: i <= k < |notifications| ==> notifications[k] == old(notifications)[k]
        invariant unreadCount == old(unreadCount) && loading == old(loading)
      {
        notifications := notifications[i := notifications[i].(is_read := true)];
        i := i + 1;
      }
      unreadCount := 0;
      assert notifications == AllRead(old(notifications));
      r := api;
    }

    /** `deleteNotification(id)`: `splice` removes the first match. */
    method DeleteNotification(id: int, api: Outcome<()>) returns (r: Outcome<()>)
      modifies this
      ensures r == api
      ensures View() == (if api.Success? then Deleted(old(View()), id) else old(View()))
      ensures loading == old(loading)
    {
      if api.Failure? {
        return api;
      }
      var index := FindIndex(notifications, id);
      if index != -1 {
        if !notifications[index].is_read {
          unreadCount := Max(0, unreadCount - 1);
        }
        notifications := notifications[..index] + notifications[index + 1..];
      }
      r := api;
    }

    /** `clear`. */
    method Clear()
      modifies this
      ensures View() == Cleared(old(View()))
      ensures loading == old(loading)
    {
      unreadCount := 0;
      notifications := [];
    }
  }
}

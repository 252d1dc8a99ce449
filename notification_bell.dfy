/** The notification bell: an unread counter refreshed by polling, a drop-down list loaded on
    opening, and optimistic "mark read" on a click. */
module NotificationBell {
  import opened Base
  import opened Domain
  import opened Text
  import opened Ordering

  /** `Math.max(0, c - 1)`: one fewer, never below zero. */
  function Decremented(c: int): (r: int)
    ensures r >= 0 && r >= c - 1
    ensures c >= 1 ==> r == c - 1
    ensures c <= 1 ==> r == 0
  {
    if c - 1 > 0 then c - 1 else 0
  }

  /** The list after the notification(s) with that id are marked read; nothing else changes. */
  function MarkedRead(ns: seq<Notification>, id: string): (r: seq<Notification>)
    ensures |r| == |ns|
    ensures forall i :: 0 <= i < |ns| ==>
              r[i] == ns[i].(isRead := ns[i].isRead || ns[i].id == id)
  {
    seq(|ns|, i requires 0 <= i < |ns| => if ns[i].id == id then ns[i].(isRead := true) else ns[i])
  }

  /** The ids of the unread notifications in a list. */
  function UnreadIds(ns: seq<Notification>): set<string> {
    set i | 0 <= i < |ns| && !ns[i].isRead :: ns[i].id
  }

  /** Marking an id read removes exactly that id from the unread ids. */
  lemma MarkedReadUnread(ns: seq<Notification>, id: string)
    ensures UnreadIds(MarkedRead(ns, id)) == UnreadIds(ns) - {id}
  {
    var r := MarkedRead(ns, id);
    forall x | x in UnreadIds(ns) - {id}
      ensures x in UnreadIds(r)
    {
      var i :| 0 <= i < |ns| && !ns[i].isRead && ns[i].id == x;
      assert !r[i].isRead && r[i].id == x;
    }
    forall x | x in UnreadIds(r)
      ensures x in UnreadIds(ns) - {id}
    {
      var i :| 0 <= i < |r| && !r[i].isRead && r[i].id == x;
      assert !ns[i].isRead && ns[i].id == x && x != id;
    }
  }

  /** The red badge over the bell: hidden at zero or below, the count up to 99, then "99+". */
  function BadgeText(count: int): (r: Option<string>)
    ensures r.None? <==> count <= 0
    ensures 1 <= count <= 99 ==> r.Some? && DigitsValue(r.value) == count
    ensures 1 <= count <= 99 ==> (forall i :: 0 <= i < |r.value| ==> '0' <= r.value[i] <= '9')
                                 && (|r.value| > 1 ==> r.value[0] != '0')
    ensures count > 99 ==> r == Some("99+")
  {
    if count > 0 then
      if count > 99 then Some("99+")
      else
        DecimalRoundTrip(count);
        Some(DecimalString(count))
    else None
  }

  /** Where a notification links: its event's page when it names one, otherwise "#". */
  function LinkTarget(n: Notification): (r: string)
    ensures n.eventId.Some? && n.eventId.value != "" ==> StartsWith(r, "/events/") && r[8..] == n.eventId.value
    ensures n.eventId.None? || n.eventId.value == "" ==> r == "#"
  {
    if n.eventId.Some? && n.eventId.value != "" then "/events/" + n.eventId.value else "#"
  }

  /** The part of the bell's state a click on a notification changes. */
  datatype Bell = Bell(notifications: seq<Notification>, unreadCount: int)

  /** A click on the i-th notification: an unread one is marked read and the counter drops. */
  function Clicked(b: Bell, i: nat): Bell
    requires i < |b.notifications|
  {
    var n := b.notifications[i];
    if n.isRead then b else Bell(MarkedRead(b.notifications, n.id), Decremented(b.unreadCount))
  }

  /** Clicking the same notification again changes nothing more. */
  lemma ClickIdempotent(b: Bell, i: nat)
    requires i < |b.notifications|
    ensures i < |Clicked(b, i).notifications| && Clicked(Clicked(b, i), i) == Clicked(b, i)
  {
    var n := b.notifications[i];
    if !n.isRead {
      assert Clicked(b, i).notifications[i].isRead;
    }
  }

  /** Clicks applied one after another. */
  function Clicks(b: Bell, clicks: seq<nat>): Bell
    requires forall k :: 0 <= k < |clicks| ==> clicks[k] < |b.notifications|
    decreases |clicks|
  {
    if clicks == [] then b
    else
      var b' := Clicked(b, clicks[0]);
      assert |b'.notifications| == |b.notifications|;
      Clicks(b', clicks[1..])
  }

  /** However the user clicks, the counter never drops by more than the number of distinct unread
      notifications in the list: each id is decremented for at most once. */
  lemma {:induction false} ClicksBounded(b: Bell, clicks: seq<nat>)
    requires forall k :: 0 <= k < |clicks| ==> clicks[k] < |b.notifications|
    ensures Clicks(b, clicks).unreadCount - |UnreadIds(Clicks(b, clicks).notifications)|
            >= b.unreadCount - |UnreadIds(b.notifications)|
    ensures Clicks(b, clicks).unreadCount >= b.unreadCount - |UnreadIds(b.notifications)|
    decreases |clicks|
  {
    if clicks != [] {
      var i := clicks[0];
      var b' := Clicked(b, i);
      var n := b.notifications[i];
      if !n.isRead {
        MarkedReadUnread(b.notifications, n.id);
        assert n.id in UnreadIds(b.notifications);
        assert |UnreadIds(b'.notifications)| == |UnreadIds(b.notifications)| - 1;
      }
      ClicksBounded(b', clicks[1..]);
    }
  }

  /** The bell component's state. */
  class NotificationBellWidget {
    var notifications: seq<Notification>
    var unreadCount: int
    var loading: LoadingState
    var open: bool
    var error: Option<string>

    /** Closed, idle, nothing loaded and a zero counter. */
    constructor ()
      ensures notifications == [] && unreadCount == 0 && loading == Idle && !open && error.None?
    {
      notifications, unreadCount, loading, open, error := [], 0, Idle, false, None;
    }

    /** One poll of the unread counter: a missing count reads 0, a failed poll is ignored. */
    method RefreshUnread(result: Outcome<Option<int>>)
      modifies this
      ensures result.Ok? ==> unreadCount == result.value.GetOr(0)
      ensures result.Err? ==> unreadCount == old(unreadCount)
      ensures notifications == old(notifications) && loading == old(loading)
      ensures open == old(open) && error == old(error)
    {
      match result
      case Ok(count) => unreadCount := count.GetOr(0);
      case Err(_) =>
    }

    /** `loadList`: the fetched list is stored newest first; a failure keeps the old list. */
    method LoadList(result: Outcome<seq<Notification>>)
      modifies this
      ensures result.Ok? ==> notifications == SortNewestFirst(result.value, NotificationTime)
                             && loading == Idle && error.None?
      ensures result.Err? ==> notifications == old(notifications) && loading == Error
                              && error == Some(result.message)
      ensures unreadCount == old(unreadCount) && open == old(open)
    {
      loading := Loading;
      error := None;
      match result
      case Ok(data) =>
        notifications := SortNewestFirst(data, NotificationTime);
        loading := Idle;
      case Err(m) =>
        error := Some(m);
        loading := Error;
    }

    /** The bell button: it flips the drop-down and loads the list only when opening it. */
    method HandleToggle(result: Outcome<seq<Notification>>)
      modifies this
      ensures open == !old(open)
      ensures !old(open) && result.Ok? ==>
                notifications == SortNewestFirst(result.value, NotificationTime) && loading == Idle && error.None?
      ensures !old(open) && result.Err? ==>
                notifications == old(notifications) && loading == Error && error == Some(result.message)
      ensures old(open) ==> notifications == old(notifications) && loading == old(loading) && error == old(error)
      ensures unreadCount == old(unreadCount)
    {
      var next := !open;
      open := next;
      if next {
        LoadList(result);
      }
    }

    /** `markReadOptimistic`: the entry is shown read and the counter drops at once. */
    method MarkReadOptimistic(id: string)
      modifies this
      ensures notifications == MarkedRead(old(notifications), id)
      ensures unreadCount == Decremented(old(unreadCount))
      ensures loading == old(loading) && open == old(open) && error == old(error)
    {
      notifications := MarkedRead(notifications, id);
      unreadCount := Decremented(unreadCount);
    }

    /** A click on the i-th entry of the open list: it is marked read if unread and the list closes. */
    method ClickNotification(i: nat)
      requires i < |notifications|
      modifies this
      ensures Bell(notifications, unreadCount) == Clicked(Bell(old(notifications), old(unreadCount)), i)
      ensures !open && loading == old(loading) && error == old(error)
    {
      if !notifications[i].isRead {
        MarkReadOptimistic(notifications[i].id);
      }
      open := false;
    }
  }
}

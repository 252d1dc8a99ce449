/** `getHomeTasks` and the view it builds on the client when the backend has no `/home/tasks` route.
    Every remote call is an input: `me` and `inbox` are the settled `/me` and unread-notification
    requests, `fetchEvents` and `fetchEvent` give the outcome of listing one circle's events and of
    fetching one event (`None` when that request fails), and `now` is the clock in milliseconds. */
module HomeTasks {
  import opened Base
  import opened Domain
  import opened Ordering
  import Api

  const OneDayMs: int := 24 * 60 * 60 * 1000

  /** The role the fallback gives the caller: owner only when both ids are present, non-empty and equal. */
  function FallbackRole(c: MeCircle, meId: string): (r: string)
    ensures r == "owner" <==> c.ownerId.Some? && c.ownerId.value != "" && meId != "" && c.ownerId.value == meId
    ensures r == "owner" || r == "neighbor"
  {
    if c.ownerId.Some? && c.ownerId.value != "" && meId != "" && c.ownerId.value == meId then "owner"
    else "neighbor"
  }

  /** The summary of one circle of `/me`; a missing name reads "Unnamed place". */
  function Summarize(c: MeCircle, meId: string): (s: CircleSummary)
    ensures s.id == c.id && s.address == c.address && s.role == FallbackRole(c, meId)
    ensures c.name.None? ==> s.name == "Unnamed place"
    ensures c.name.Some? ==> s.name == c.name.value
  {
    CircleSummary(c.id, c.name.GetOr("Unnamed place"), c.address, FallbackRole(c, meId))
  }

  /** `me.circles.map(...)`: one summary per circle, in order. */
  function MyCircles(me: Me): (r: seq<CircleSummary>)
    ensures |r| == |me.circles|
    ensures forall i :: 0 <= i < |r| ==> r[i] == Summarize(me.circles[i], me.id)
  {
    seq(|me.circles|, i requires 0 <= i < |me.circles| => Summarize(me.circles[i], me.id))
  }

  /** The events of every circle, circle after circle; a circle whose fetch failed adds nothing. */
  function AllEvents(circles: seq<CircleSummary>, fetchEvents: string -> Option<seq<Event>>): seq<Event>
  {
    if circles == [] then [] else fetchEvents(circles[0].id).GetOr([]) + AllEvents(circles[1..], fetchEvents)
  }

  /** Partial-failure tolerance: an event is collected exactly when it came from a circle whose fetch succeeded. */
  lemma {:induction false} AllEventsMember(circles: seq<CircleSummary>, fetchEvents: string -> Option<seq<Event>>, e: Event)
    ensures e in AllEvents(circles, fetchEvents) <==>
            exists i :: 0 <= i < |circles| && fetchEvents(circles[i].id).Some? && e in fetchEvents(circles[i].id).value
  {
    if circles != [] {
      AllEventsMember(circles[1..], fetchEvents, e);
      if exists i :: 0 <= i < |circles| && fetchEvents(circles[i].id).Some? && e in fetchEvents(circles[i].id).value {
        var i :| 0 <= i < |circles| && fetchEvents(circles[i].id).Some? && e in fetchEvents(circles[i].id).value;
        if i > 0 {
          assert circles[1..][i - 1] == circles[i];
        }
      }
      if exists i :: 0 <= i < |circles[1..]| && fetchEvents(circles[1..][i].id).Some? && e in fetchEvents(circles[1..][i].id).value {
        var i :| 0 <= i < |circles[1..]| && fetchEvents(circles[1..][i].id).Some? && e in fetchEvents(circles[1..][i].id).value;
        assert circles[i + 1] == circles[1..][i];
      }
    }
  }

  /** Circle-then-list order: the events of a further circle come after all earlier ones. */
  lemma {:induction false} AllEventsAppend(circles: seq<CircleSummary>, c: CircleSummary, fetchEvents: string -> Option<seq<Event>>)
    ensures AllEvents(circles + [c], fetchEvents) == AllEvents(circles, fetchEvents) + fetchEvents(c.id).GetOr([])
  {
    if circles == [] {
      assert circles + [c] == [c];
    } else {
      assert (circles + [c])[1..] == circles[1..] + [c];
      AllEventsAppend(circles[1..], c, fetchEvents);
    }
  }

  predicate IsOpen(e: Event) {
    e.status == Open
  }

  /** The open events created less than a day before `now`. */
  function IsRecentAt(now: int): Event -> bool {
    (e: Event) => now - e.createdAt < OneDayMs
  }

  /** An unread `event_created` notification carrying a (truthy) event id. */
  predicate IsEventCreated(n: Notification) {
    n.kind == "event_created" && n.eventId.Some? && n.eventId.value != ""
  }

  /** The event ids of the `event_created` notifications, in inbox order (duplicates kept). */
  function CreatedEventIds(inbox: seq<Notification>): (r: seq<string>)
    ensures |r| <= |inbox|
    ensures forall id :: id in r <==> exists n :: n in inbox && IsEventCreated(n) && n.eventId.value == id
  {
    if inbox == [] then []
    else (if IsEventCreated(inbox[0]) then [inbox[0].eventId.value] else []) + CreatedEventIds(inbox[1..])
  }

  /** The ids of two inbox segments are those of the first followed by those of the second. */
  lemma {:induction false} CreatedEventIdsAppend(a: seq<Notification>, b: seq<Notification>)
    ensures CreatedEventIds(a + b) == CreatedEventIds(a) + CreatedEventIds(b)
  {
    if a != [] {
      assert (a + b)[0] == a[0];
      assert (a + b)[1..] == a[1..] + b;
      CreatedEventIdsAppend(a[1..], b);
    } else {
      assert a + b == b;
    }
  }

  /** The first-seen de-duplication the `Set`/`push` loop performs, one id at a time. */
  function Dedup(ids: seq<string>): (r: seq<string>)
    ensures forall x :: x in r <==> x in ids
    ensures forall i, j :: 0 <= i < j < |r| ==> r[i] != r[j]
  {
    if ids == [] then []
    else
      var d := Dedup(ids[..|ids| - 1]);
      var last := ids[|ids| - 1];
      assert ids == ids[..|ids| - 1] + [last];
      if last in d then d else d + [last]
  }

  /** The index of the first occurrence of `x` in `s`. */
  function FirstIndex(s: seq<string>, x: string): (k: nat)
    requires x in s
    ensures k < |s| && s[k] == x && x !in s[..k]
  {
    if s[0] == x then 0 else 1 + FirstIndex(s[1..], x)
  }

  lemma FirstIndexAppend(s: seq<string>, y: string, x: string)
    requires x in s
    ensures FirstIndex(s + [y], x) == FirstIndex(s, x)
  {
    var k := FirstIndex(s, x);
    var k' := FirstIndex(s + [y], x);
    assert (s + [y])[..k] == s[..k];
    assert (s + [y])[k] == x;
    assert forall i :: 0 <= i < k' ==> (s + [y])[i] != x by {
      assert forall i :: 0 <= i < k' ==> (s + [y])[..k'][i] == (s + [y])[i];
    }
    assert forall i :: 0 <= i < k ==> s[i] != x by {
      assert forall i :: 0 <= i < k ==> s[..k][i] == s[i];
    }
  }

  /** First-seen order: the de-duplicated ids appear in the order of their first occurrence. */
  lemma {:induction false} DedupFirstSeen(ids: seq<string>)
    ensures forall i, j :: 0 <= i < j < |Dedup(ids)| ==>
              FirstIndex(ids, Dedup(ids)[i]) < FirstIndex(ids, Dedup(ids)[j])
  {
    if ids != [] {
      var p := ids[..|ids| - 1];
      var last := ids[|ids| - 1];
      assert ids == p + [last];
      DedupFirstSeen(p);
      var d := Dedup(p);
      forall x | x in d ensures FirstIndex(ids, x) == FirstIndex(p, x) {
        FirstIndexAppend(p, last, x);
      }
      if last !in d {
        assert FirstIndex(ids, last) == |p| by {
          assert forall i :: 0 <= i < |p| ==> ids[i] == p[i];
        }
        forall i, j | 0 <= i < j < |d| + 1
          ensures FirstIndex(ids, (d + [last])[i]) < FirstIndex(ids, (d + [last])[j])
        {
          assert (d + [last])[i] == d[i];
          if j == |d| {
            assert FirstIndex(p, d[i]) < |p|;
          } else {
            assert (d + [last])[j] == d[j];
          }
        }
      }
    }
  }

  /** `Promise.all(ids.map(getEvent-or-null)).filter(Boolean)`: the fetched events, in id order,
      failed fetches dropped. */
  function FetchAll(ids: seq<string>, fetchEvent: string -> Option<Event>): (r: seq<Event>)
    ensures |r| <= |ids|
    ensures forall e :: e in r <==> exists i :: 0 <= i < |ids| && fetchEvent(ids[i]) == Some(e)
  {
    if ids == [] then []
    else
      var rest := FetchAll(ids[1..], fetchEvent);
      assert forall e :: (exists i :: 0 <= i < |ids[1..]| && fetchEvent(ids[1..][i]) == Some(e)) <==>
                         (exists i :: 1 <= i < |ids| && fetchEvent(ids[i]) == Some(e)) by {
        forall e | exists i :: 1 <= i < |ids| && fetchEvent(ids[i]) == Some(e)
          ensures exists i :: 0 <= i < |ids[1..]| && fetchEvent(ids[1..][i]) == Some(e)
        {
          var i :| 1 <= i < |ids| && fetchEvent(ids[i]) == Some(e);
          assert ids[1..][i - 1] == ids[i];
        }
      }
      (match fetchEvent(ids[0]) case Some(e) => [e] case None => []) + rest
  }

  /** Fetching a concatenation fetches each part in turn: results keep the order of the ids. */
  lemma {:induction false} FetchAllAppend(a: seq<string>, b: seq<string>, fetchEvent: string -> Option<Event>)
    ensures FetchAll(a + b, fetchEvent) == FetchAll(a, fetchEvent) + FetchAll(b, fetchEvent)
  {
    if a != [] {
      assert (a + b)[0] == a[0];
      assert (a + b)[1..] == a[1..] + b;
      FetchAllAppend(a[1..], b, fetchEvent);
    } else {
      assert a + b == b;
    }
  }

  /** Two ids that both fetch an event yield those events in the order of the ids. */
  lemma FetchAllOrder(ids: seq<string>, fetchEvent: string -> Option<Event>, i: nat, j: nat)
    requires i < j < |ids| && fetchEvent(ids[i]).Some? && fetchEvent(ids[j]).Some?
    ensures var r := FetchAll(ids, fetchEvent);
            exists p, q :: 0 <= p < q < |r| && r[p] == fetchEvent(ids[i]).value && r[q] == fetchEvent(ids[j]).value
  {
    var a, b := ids[..j], ids[j..];
    assert ids == a + b;
    FetchAllAppend(a, b, fetchEvent);
    var fa, fb := FetchAll(a, fetchEvent), FetchAll(b, fetchEvent);
    assert b[0] == ids[j];
    assert fb[0] == fetchEvent(ids[j]).value;
    assert a[i] == ids[i];
    var p :| 0 <= p < |fa| && fa[p] == fetchEvent(ids[i]).value;
    var r := FetchAll(ids, fetchEvent);
    assert r[p] == fa[p] && r[|fa|] == fb[0];
  }

  /** `inboxNewEvents`: the events the notifications point at when there are any, otherwise the open
      events of the trailing day. */
  function NewEvents(ids: seq<string>, fetchEvent: string -> Option<Event>, open: seq<Event>, now: int): seq<Event>
  {
    if |ids| > 0 then FetchAll(ids, fetchEvent) else Filter(open, IsRecentAt(now))
  }

  /** The view the fallback builds; it fails only when `/me` or the notification list fails. */
  function Fallback(me: Outcome<Me>, fetchEvents: string -> Option<seq<Event>>, inbox: Outcome<seq<Notification>>,
                    fetchEvent: string -> Option<Event>, now: int): Outcome<HomeTasks>
  {
    match me
    case Err(m) => Err(m)
    case Ok(who) =>
      var circles := MyCircles(who);
      var open := Filter(AllEvents(circles, fetchEvents), IsOpen);
      match inbox
      case Err(m) => Err(m)
      case Ok(notes) =>
        var ids := Dedup(CreatedEventIds(notes));
        Ok(HomeTasks(NewEvents(ids, fetchEvent, open, now), notes, Filter(open, IsOpen), circles))
  }

  /** `buildHomeTasksFallback()`. */
  method BuildHomeTasksFallback(me: Outcome<Me>, fetchEvents: string -> Option<seq<Event>>,
                                inbox: Outcome<seq<Notification>>, fetchEvent: string -> Option<Event>, now: int)
    returns (r: Outcome<HomeTasks>)
    ensures r == Fallback(me, fetchEvents, inbox, fetchEvent, now)
  {
    if me.Err? {
      return Err(me.message);
    }
    var myCircles := MyCircles(me.value);
    var openEvents := Filter(AllEvents(myCircles, fetchEvents), IsOpen);
    var pendingEvents := Filter(openEvents, IsOpen);
    if inbox.Err? {
      return Err(inbox.message);
    }
    var candidates := CreatedEventIds(inbox.value);
    var seen: set<string> := {};
    var eventIds: seq<string> := [];
    for k := 0 to |candidates|
      invariant eventIds == Dedup(candidates[..k])
      invariant forall x :: x in seen <==> x in eventIds
    {
      var id := candidates[k];
      assert candidates[..k + 1][..k] == candidates[..k];
      if id !in seen {
        seen := seen + {id};
        eventIds := eventIds + [id];
      }
    }
    assert candidates[..|candidates|] == candidates;
    var inboxNewEvents: seq<Event> := [];
    if |eventIds| > 0 {
      inboxNewEvents := FetchAll(eventIds, fetchEvent);
    } else {
      inboxNewEvents := Filter(openEvents, IsRecentAt(now));
    }
    return Ok(HomeTasks(inboxNewEvents, inbox.value, pendingEvents, myCircles));
  }

  /** `getHomeTasks()`: the aggregate endpoint's answer, or the client-built view when its error
      mentions the missing route or a 404; any other error is passed on unchanged. */
  method GetHomeTasks(primary: Outcome<HomeTasks>, me: Outcome<Me>, fetchEvents: string -> Option<seq<Event>>,
                      inbox: Outcome<seq<Notification>>, fetchEvent: string -> Option<Event>, now: int)
    returns (r: Outcome<HomeTasks>)
    ensures primary.Ok? ==> r == primary
    ensures primary.Err? && Api.IsFallbackTrigger(primary.message) ==> r == Fallback(me, fetchEvents, inbox, fetchEvent, now)
    ensures primary.Err? && !Api.IsFallbackTrigger(primary.message) ==> r == primary
  {
    if primary.Err? && Api.IsFallbackTrigger(primary.message) {
      r := BuildHomeTasksFallback(me, fetchEvents, inbox, fetchEvent, now);
    } else {
      r := primary;
    }
  }

  /** The fallback fails exactly when `/me` or the unread-notification list fails, with that error;
      failed per-circle and per-event fetches never make it fail. */
  lemma FallbackErrors(me: Outcome<Me>, fetchEvents: string -> Option<seq<Event>>, inbox: Outcome<seq<Notification>>,
                       fetchEvent: string -> Option<Event>, now: int)
    ensures Fallback(me, fetchEvents, inbox, fetchEvent, now).Err? <==> me.Err? || inbox.Err?
    ensures me.Err? ==> Fallback(me, fetchEvents, inbox, fetchEvent, now) == Err(me.message)
    ensures me.Ok? && inbox.Err? ==> Fallback(me, fetchEvents, inbox, fetchEvent, now) == Err(inbox.message)
  {
  }

  /** `pendingEvents` is exactly the open events, in circle-then-list order, and every one of them
      came from a circle whose fetch succeeded. */
  lemma FallbackPending(who: Me, fetchEvents: string -> Option<seq<Event>>, notes: seq<Notification>,
                        fetchEvent: string -> Option<Event>, now: int, e: Event)
    ensures var r := Fallback(Ok(who), fetchEvents, Ok(notes), fetchEvent, now);
            r.Ok? && r.value.pendingEvents == Filter(AllEvents(MyCircles(who), fetchEvents), IsOpen)
    ensures var r := Fallback(Ok(who), fetchEvents, Ok(notes), fetchEvent, now);
            e in r.value.pendingEvents <==>
              IsOpen(e) && exists i :: 0 <= i < |who.circles| && fetchEvents(who.circles[i].id).Some?
                                       && e in fetchEvents(who.circles[i].id).value
  {
    var circles := MyCircles(who);
    var all := AllEvents(circles, fetchEvents);
    FilterIdempotent(all, IsOpen);
    AllEventsMember(circles, fetchEvents, e);
    var open := Filter(all, IsOpen);
    if e in open {
      var k :| 0 <= k < |open| && open[k] == e;
    }
    if IsOpen(e) && e in all {
      var k :| 0 <= k < |all| && all[k] == e;
    }
  }

  /** `inboxNewEvents` with `event_created` notifications present: the events fetched for their
      distinct ids, failures dropped; without any: the open events less than a day old. */
  lemma FallbackNewEvents(who: Me, fetchEvents: string -> Option<seq<Event>>, notes: seq<Notification>,
                          fetchEvent: string -> Option<Event>, now: int, e: Event)
    ensures var r := Fallback(Ok(who), fetchEvents, Ok(notes), fetchEvent, now);
            var ids := Dedup(CreatedEventIds(notes));
            r.Ok?
            && (|ids| > 0 ==> (e in r.value.inboxNewEvents <==> exists i :: 0 <= i < |ids| && fetchEvent(ids[i]) == Some(e)))
            && (|ids| > 0 ==> |r.value.inboxNewEvents| <= |ids|)
            && (|ids| == 0 ==> (e in r.value.inboxNewEvents <==> e in r.value.pendingEvents && now - e.createdAt < OneDayMs))
    ensures var r := Fallback(Ok(who), fetchEvents, Ok(notes), fetchEvent, now);
            var ids := Dedup(CreatedEventIds(notes));
            r.Ok?
            && (|ids| > 0 ==> r.value.inboxNewEvents == FetchAll(ids, fetchEvent))
            && (|ids| == 0 ==> r.value.inboxNewEvents == Filter(r.value.pendingEvents, IsRecentAt(now)))
  {
    var circles := MyCircles(who);
    var all := AllEvents(circles, fetchEvents);
    var open := Filter(all, IsOpen);
    FilterIdempotent(all, IsOpen);
    var recent := Filter(open, IsRecentAt(now));
    if e in recent {
      var k :| 0 <= k < |recent| && recent[k] == e;
    }
    if e in open && now - e.createdAt < OneDayMs {
      var k :| 0 <= k < |open| && open[k] == e;
      assert IsRecentAt(now)(open[k]);
    }
  }

  /** Two notifications about the same event yield it once: the ids fetched are distinct, and every
      notified id is among them, in first-seen order. */
  lemma FallbackIdsDistinct(notes: seq<Notification>, n: Notification)
    requires n in notes && IsEventCreated(n)
    ensures n.eventId.value in Dedup(CreatedEventIds(notes))
    ensures var ids := Dedup(CreatedEventIds(notes));
            forall i, j :: 0 <= i < j < |ids| ==> ids[i] != ids[j]
  {
  }
}

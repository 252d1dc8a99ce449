/** The event list of one circle with its four client-side filters, newest first. */
module CircleEvents {
  import opened Base
  import opened Domain
  import opened Ordering

  datatype EventFilter = Unresolved | All | Mine | Neighbors

  /** The predicate each filter applies to an event. */
  predicate Keeps(filter: EventFilter, currentUserId: Option<string>, ev: Event) {
    match filter
    case Unresolved => ev.status == Open
    case Mine => ev.isMine || (currentUserId.Some? && currentUserId.value != "" && ev.createdById == currentUserId)
    case Neighbors => ev.createdByRole == Some("neighbor")
    case All => true
  }

  function KeepsFn(filter: EventFilter, currentUserId: Option<string>): Event -> bool {
    (ev: Event) => Keeps(filter, currentUserId, ev)
  }

  /** `filteredEvents`: a filtered copy of the list, sorted newest first. */
  function FilteredEvents(events: seq<Event>, filter: EventFilter, currentUserId: Option<string>): seq<Event>
  {
    SortNewestFirst(Filter(events, KeepsFn(filter, currentUserId)), EventTime)
  }

  /** `FilteredMember` for every event at once. */
  lemma FilteredMembers(events: seq<Event>, filter: EventFilter, currentUserId: Option<string>)
    ensures forall ev :: ev in FilteredEvents(events, filter, currentUserId) <==> ev in events && Keeps(filter, currentUserId, ev)
  {
    forall ev {
      FilteredMember(events, filter, currentUserId, ev);
    }
  }

  /** An event is shown exactly when it is in the list and the filter keeps it. */
  lemma FilteredMember(events: seq<Event>, filter: EventFilter, currentUserId: Option<string>, ev: Event)
    ensures ev in FilteredEvents(events, filter, currentUserId) <==> ev in events && Keeps(filter, currentUserId, ev)
  {
    var p := KeepsFn(filter, currentUserId);
    var kept := Filter(events, p);
    SortNewestFirstCorrect(kept, EventTime);
    var r := SortNewestFirst(kept, EventTime);
    assert ev in r <==> ev in multiset(r);
    assert ev in kept <==> ev in multiset(kept);
    if ev in kept {
      var k :| 0 <= k < |kept| && kept[k] == ev;
      assert p(kept[k]);
    }
    if ev in events && Keeps(filter, currentUserId, ev) {
      var k :| 0 <= k < |events| && events[k] == ev;
      assert p(events[k]);
    }
  }

  /** Every filter yields events drawn from the list, newest first; "all" is a permutation of it. */
  lemma FilteredOrder(events: seq<Event>, filter: EventFilter, currentUserId: Option<string>)
    ensures NewestFirst(FilteredEvents(events, filter, currentUserId), EventTime)
    ensures multiset(FilteredEvents(events, filter, currentUserId)) <= multiset(events)
    ensures filter == All ==> multiset(FilteredEvents(events, filter, currentUserId)) == multiset(events)
    ensures forall ev :: multiset(FilteredEvents(events, filter, currentUserId))[ev]
                         == if Keeps(filter, currentUserId, ev) then multiset(events)[ev] else 0
  {
    var p := KeepsFn(filter, currentUserId);
    var kept := Filter(events, p);
    SortNewestFirstCorrect(kept, EventTime);
    FilterSubMultiset(events, p);
    forall ev {
      FilterCount(events, p, ev);
    }
    if filter == All {
      FilterKeepsAll(events, p);
    }
  }

  /** What each filter shows: "unresolved" exactly the open events, "mine" those marked mine or
      created by the (non-empty) current user, "neighbors" those created by a neighbour. */
  lemma FilteredEventsSpec(events: seq<Event>, filter: EventFilter, currentUserId: Option<string>, ev: Event)
    ensures filter == Unresolved ==> (ev in FilteredEvents(events, filter, currentUserId) <==> ev in events && ev.status == Open)
    ensures filter == Mine ==>
              (ev in FilteredEvents(events, filter, currentUserId) <==>
                 ev in events && (ev.isMine || (currentUserId.Some? && currentUserId.value != ""
                                                && ev.createdById == currentUserId)))
    ensures filter == Neighbors ==>
              (ev in FilteredEvents(events, filter, currentUserId) <==> ev in events && ev.createdByRole == Some("neighbor"))
  {
    FilteredMember(events, filter, currentUserId, ev);
  }

  /** The state of the circle events page. */
  class CircleEventsPage {
    var circleName: string
    var circleAddress: string
    var currentUserId: Option<string>
    var events: seq<Event>
    var eventsLoading: LoadingState
    var eventsError: Option<string>
    var filter: EventFilter

    /** The page as first rendered: loading, no events, the "unresolved" filter. */
    constructor ()
      ensures circleName == "Loading…" && circleAddress == "" && currentUserId.None?
      ensures events == [] && eventsLoading == Loading && eventsError.None? && filter == Unresolved
    {
      circleName, circleAddress, currentUserId := "Loading…", "", None;
      events, eventsLoading, eventsError := [], Loading, None;
      filter := Unresolved;
    }

    /** The events shown for the current filter. */
    function Visible(): (r: seq<Event>)
      reads this
      ensures NewestFirst(r, EventTime) && multiset(r) <= multiset(events)
      ensures forall ev :: ev in r <==> ev in events && Keeps(filter, currentUserId, ev)
      ensures forall ev :: multiset(r)[ev] == if Keeps(filter, currentUserId, ev) then multiset(events)[ev] else 0
    {
      FilteredOrder(events, filter, currentUserId);
      FilteredMembers(events, filter, currentUserId);
      FilteredEvents(events, filter, currentUserId)
    }

    /** The `/me` load: the current user's id and the circle's name and address; an unknown circle
        or a failed load reads "Unknown place" (a failure keeps the address). */
    method LoadMeta(circleId: Option<string>, me: Outcome<Me>)
      modifies this
      ensures circleId.None? || circleId.value == "" ==>
                circleName == old(circleName) && circleAddress == old(circleAddress) && currentUserId == old(currentUserId)
      ensures circleId.Some? && circleId.value != "" && me.Ok? ==>
                var c := FindCircle(me.value.circles, circleId.value);
                currentUserId == Some(me.value.id)
                && circleName == (if c.Some? then c.value.name.GetOr("Unnamed place") else "Unknown place")
                && circleAddress == (if c.Some? then c.value.address.GetOr("") else "")
      ensures circleId.Some? && circleId.value != "" && me.Err? ==>
                circleName == "Unknown place" && circleAddress == old(circleAddress) && currentUserId == old(currentUserId)
      ensures events == old(events) && eventsLoading == old(eventsLoading) && eventsError == old(eventsError)
      ensures filter == old(filter)
    {
      if circleId.None? || circleId.value == "" {
        return;
      }
      match me
      case Ok(who) =>
        currentUserId := Some(who.id);
        var c := FindCircle(who.circles, circleId.value);
        if c.Some? {
          circleName := c.value.name.GetOr("Unnamed place");
          circleAddress := c.value.address.GetOr("");
        } else {
          circleName := "Unknown place";
          circleAddress := "";
        }
      case Err(_) =>
        circleName := "Unknown place";
    }

    /** `reloadEvents`: the stored list is replaced as fetched (never reordered); a failure keeps it. */
    method ReloadEvents(circleId: Option<string>, result: Outcome<seq<Event>>)
      modifies this
      ensures circleId.None? || circleId.value == "" ==>
                events == old(events) && eventsLoading == old(eventsLoading) && eventsError == old(eventsError)
      ensures circleId.Some? && circleId.value != "" && result.Ok? ==>
                events == result.value && eventsLoading == Idle && eventsError.None?
      ensures circleId.Some? && circleId.value != "" && result.Err? ==>
                events == old(events) && eventsLoading == Error && eventsError == Some(result.message)
      ensures filter == old(filter) && currentUserId == old(currentUserId)
      ensures circleName == old(circleName) && circleAddress == old(circleAddress)
    {
      if circleId.None? || circleId.value == "" {
        return;
      }
      eventsLoading := Loading;
      eventsError := None;
      match result
      case Ok(list) =>
        events := list;
        eventsLoading := Idle;
      case Err(m) =>
        eventsError := Some(m);
        eventsLoading := Error;
    }

    /** Choosing a filter changes nothing but the filter. */
    method SetFilter(f: EventFilter)
      modifies this
      ensures filter == f && events == old(events) && currentUserId == old(currentUserId)
      ensures eventsLoading == old(eventsLoading) && eventsError == old(eventsError)
      ensures circleName == old(circleName) && circleAddress == old(circleAddress)
    {
      filter := f;
    }
  }
}

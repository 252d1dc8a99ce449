/** The circle dashboard: the circle's details, its members (with owner-only add and remove) and
    its five newest events. */
module CircleDashboard {
  import opened Base
  import opened Domain
  import opened Text
  import opened Ordering

  /** What the overview card shows about the circle, and whether the viewer owns it. */
  datatype CircleMeta = CircleMeta(name: string, address: string, houseType: string,
                                   cameraZones: seq<string>, isOwner: bool)

  const LoadingMeta := CircleMeta("Loading…", "", "", [], false)
  const UnknownMeta := CircleMeta("Unknown place", "", "", [], false)

  /** The overview for a circle id from the `/me` response: an unknown id gets the "Unknown place"
      placeholder; a known circle's missing fields take their defaults. */
  function MetaFor(me: Me, circleId: string): (m: CircleMeta)
    ensures FindCircle(me.circles, circleId).None? ==> m == UnknownMeta
    ensures FindCircle(me.circles, circleId).Some? ==>
              var c := FindCircle(me.circles, circleId).value;
              m.name == c.name.GetOr("Unnamed place") && m.address == c.address.GetOr("")
              && m.houseType == c.houseType.GetOr("") && m.cameraZones == c.cameraZones.GetOr([])
  {
    match FindCircle(me.circles, circleId)
    case None => UnknownMeta
    case Some(c) =>
      CircleMeta(c.name.GetOr("Unnamed place"), c.address.GetOr(""), c.houseType.GetOr(""),
                 c.cameraZones.GetOr([]), c.ownerId == Some(me.id))
  }

  /** The viewer counts as owner exactly when the circle with that id (the first, should ids repeat)
      names the viewer as its owner; an owner can only come from a circle the viewer belongs to. */
  lemma OwnerIffListedOwner(me: Me, circleId: string)
    ensures MetaFor(me, circleId).isOwner <==>
              exists i :: 0 <= i < |me.circles| && me.circles[i].id == circleId
                          && me.circles[i].ownerId == Some(me.id)
                          && forall j :: 0 <= j < i ==> me.circles[j].id != circleId
  {
    var r := FindCircle(me.circles, circleId);
    if r.Some? {
      var i :| 0 <= i < |me.circles| && me.circles[i] == r.value
               && forall j :: 0 <= j < i ==> me.circles[j].id != circleId;
      forall k | 0 <= k < |me.circles| && me.circles[k].id == circleId
                 && forall j :: 0 <= j < k ==> me.circles[j].id != circleId
        ensures k == i
      {
        assert me.circles[k].id == circleId && me.circles[i].id == circleId;
      }
    }
  }

  /** The Remove button appears for every member but an owner, and only to the owner. */
  predicate ShowsRemove(isOwner: bool, m: Member) {
    isOwner && m.role != Owner
  }

  /** On the dashboard of a circle, a member gets a Remove button exactly when that member is not
      the owner and the viewer is listed as the circle's owner. */
  lemma RemoveButtonGate(me: Me, circleId: string, m: Member)
    ensures ShowsRemove(MetaFor(me, circleId).isOwner, m) <==>
              m.role != Owner
              && exists i :: 0 <= i < |me.circles| && me.circles[i].id == circleId
                             && me.circles[i].ownerId == Some(me.id)
                             && forall j :: 0 <= j < i ==> me.circles[j].id != circleId
  {
    OwnerIffListedOwner(me, circleId);
  }

  /** The events listed: the first five of the (already sorted) list. */
  function ShownEvents(events: seq<Event>): (r: seq<Event>)
    ensures |r| == (if |events| < 5 then |events| else 5)
    ensures r == events[..|r|]
  {
    if |events| < 5 then events else events[..5]
  }

  /** Sorted newest first and cut at five, the list shows the newest events: at most five, newest
      first, and none left out is newer than any shown. */
  lemma ShownAreNewest(list: seq<Event>, e: Event)
    requires e in list && e !in ShownEvents(SortNewestFirst(list, EventTime))
    ensures forall j :: 0 <= j < |ShownEvents(SortNewestFirst(list, EventTime))| ==>
              EventTime(e) <= EventTime(ShownEvents(SortNewestFirst(list, EventTime))[j])
  {
    var s := SortNewestFirst(list, EventTime);
    SortNewestFirstCorrect(list, EventTime);
    var r := ShownEvents(s);
    assert e in multiset(list);
    assert e in s;
    var i :| 0 <= i < |s| && s[i] == e;
    assert forall k :: 0 <= k < |r| ==> r[k] == s[k];
  }

  /** The ordering half of the list: five or fewer events, newest first. */
  lemma ShownOrdered(list: seq<Event>)
    ensures |ShownEvents(SortNewestFirst(list, EventTime))| <= 5
    ensures NewestFirst(ShownEvents(SortNewestFirst(list, EventTime)), EventTime)
  {
    SortNewestFirstCorrect(list, EventTime);
  }

  /** `POST /circles/:id/members`. */
  datatype AddMemberRequest = AddMemberRequest(circleId: string, email: string, name: Option<string>, role: MemberRole)

  /** The request an add-member submission sends, or the alert that stops it: the email is trimmed
      and required; a name that trims to nothing is left out. */
  function AddMemberStep(circleId: string, email: string, name: string, role: MemberRole): (r: Outcome<AddMemberRequest>)
    ensures r.Err? <==> forall i :: 0 <= i < |email| ==> IsSpace(email[i])
    ensures r.Err? ==> r.message == "Please enter member email."
    ensures r.Ok? ==> r.value.circleId == circleId && r.value.role == role && r.value.email == Trim(email)
                      && r.value.email != []
    ensures r.Ok? ==> (r.value.name.None? <==> forall i :: 0 <= i < |name| ==> IsSpace(name[i]))
    ensures r.Ok? && r.value.name.Some? ==> r.value.name.value == Trim(name)
  {
    BlankIffAllSpace(email);
    BlankIffAllSpace(name);
    if IsBlank(email) then Err("Please enter member email.")
    else Ok(AddMemberRequest(circleId, Trim(email), if IsBlank(name) then None else Some(Trim(name)), role))
  }

  /** The state of the circle dashboard page. */
  class CircleDashboardPage {
    var meta: CircleMeta
    var members: seq<Member>
    var events: seq<Event>
    var metaLoading: LoadingState
    var metaError: Option<string>
    var membersLoading: LoadingState
    var membersError: Option<string>
    var eventsLoading: LoadingState
    var eventsError: Option<string>
    var newMemberEmail: string
    var newMemberName: string
    var newMemberRole: MemberRole
    var addingMember: bool

    /** As first rendered: every load pending, an empty form defaulting to the neighbour role. */
    constructor ()
      ensures meta == LoadingMeta && members == [] && events == []
      ensures metaLoading == Loading && membersLoading == Loading && eventsLoading == Loading
      ensures metaError.None? && membersError.None? && eventsError.None?
      ensures newMemberEmail == "" && newMemberName == "" && newMemberRole == Neighbor && !addingMember
    {
      meta, members, events := LoadingMeta, [], [];
      metaLoading, membersLoading, eventsLoading := Loading, Loading, Loading;
      metaError, membersError, eventsError := None, None, None;
      newMemberEmail, newMemberName, newMemberRole, addingMember := "", "", Neighbor, false;
    }

    /** The members, events and form are untouched. */
    twostate predicate OnlyMetaChanged()
      reads this
    {
      members == old(members) && events == old(events)
      && membersLoading == old(membersLoading) && membersError == old(membersError)
      && eventsLoading == old(eventsLoading) && eventsError == old(eventsError)
      && newMemberEmail == old(newMemberEmail) && newMemberName == old(newMemberName)
      && newMemberRole == old(newMemberRole) && addingMember == old(addingMember)
    }

    /** The overview and its load state are untouched. */
    twostate predicate MetaKept()
      reads this
    {
      meta == old(meta) && metaLoading == old(metaLoading) && metaError == old(metaError)
    }

    /** The member list and its load state are untouched. */
    twostate predicate MembersKept()
      reads this
    {
      members == old(members) && membersLoading == old(membersLoading) && membersError == old(membersError)
    }

    /** The event list and its load state are untouched. */
    twostate predicate EventsKept()
      reads this
    {
      events == old(events) && eventsLoading == old(eventsLoading) && eventsError == old(eventsError)
    }

    /** The add-member form and its busy flag are untouched. */
    twostate predicate FormKept()
      reads this
    {
      newMemberEmail == old(newMemberEmail) && newMemberName == old(newMemberName)
      && newMemberRole == old(newMemberRole) && addingMember == old(addingMember)
    }

    /** The member list after `reloadMembers` answered `reload`. */
    twostate predicate MembersReloaded(reload: Outcome<seq<Member>>)
      reads this
    {
      && (reload.Ok? ==> members == reload.value && membersLoading == Idle && membersError.None?)
      && (reload.Err? ==> members == old(members) && membersLoading == Error && membersError == Some(reload.message))
    }

    /** The `/me` load fills the overview; a failure keeps the placeholder and records the error. */
    method LoadMeta(circleId: Option<string>, me: Outcome<Me>)
      modifies this
      ensures circleId.None? || circleId.value == "" ==>
                meta == old(meta) && metaLoading == old(metaLoading) && metaError == old(metaError)
      ensures circleId.Some? && circleId.value != "" && me.Ok? ==>
                meta == MetaFor(me.value, circleId.value) && metaLoading == Idle && metaError.None?
      ensures circleId.Some? && circleId.value != "" && me.Err? ==>
                meta == old(meta) && metaLoading == Error && metaError == Some(me.message)
      ensures OnlyMetaChanged()
    {
      if circleId.None? || circleId.value == "" {
        return;
      }
      metaLoading, metaError := Loading, None;
      match me
      case Ok(who) =>
        meta, metaLoading := MetaFor(who, circleId.value), Idle;
      case Err(m) =>
        metaError, metaLoading := Some(m), Error;
    }

    /** `reloadMembers`: the list as fetched; a failure keeps the old list. */
    method ReloadMembers(circleId: Option<string>, result: Outcome<seq<Member>>)
      modifies this
      ensures circleId.None? || circleId.value == "" ==>
                members == old(members) && membersLoading == old(membersLoading) && membersError == old(membersError)
      ensures circleId.Some? && circleId.value != "" && result.Ok? ==>
                members == result.value && membersLoading == Idle && membersError.None?
      ensures circleId.Some? && circleId.value != "" && result.Err? ==>
                members == old(members) && membersLoading == Error && membersError == Some(result.message)
      ensures circleId.Some? && circleId.value != "" ==> MembersReloaded(result)
      ensures MetaKept() && EventsKept() && FormKept()
    {
      if circleId.None? || circleId.value == "" {
        return;
      }
      membersLoading, membersError := Loading, None;
      match result
      case Ok(list) =>
        members, membersLoading := list, Idle;
      case Err(m) =>
        membersError, membersLoading := Some(m), Error;
    }

    /** The events load stores the circle's events newest first. */
    method LoadEvents(circleId: Option<string>, result: Outcome<seq<Event>>)
      modifies this
      ensures circleId.None? || circleId.value == "" ==>
                events == old(events) && eventsLoading == old(eventsLoading) && eventsError == old(eventsError)
      ensures circleId.Some? && circleId.value != "" && result.Ok? ==>
                events == SortNewestFirst(result.value, EventTime) && eventsLoading == Idle && eventsError.None?
      ensures circleId.Some? && circleId.value != "" && result.Err? ==>
                events == old(events) && eventsLoading == Error && eventsError == Some(result.message)
      ensures meta == old(meta) && metaLoading == old(metaLoading) && metaError == old(metaError)
      ensures members == old(members) && membersLoading == old(membersLoading) && membersError == old(membersError)
      ensures newMemberEmail == old(newMemberEmail) && newMemberName == old(newMemberName)
      ensures newMemberRole == old(newMemberRole) && addingMember == old(addingMember)
    {
      if circleId.None? || circleId.value == "" {
        return;
      }
      eventsLoading, eventsError := Loading, None;
      match result
      case Ok(list) =>
        events, eventsLoading := SortNewestFirst(list, EventTime), Idle;
      case Err(m) =>
        eventsError, eventsLoading := Some(m), Error;
    }

    /** `handleAddMember`: a blank email alerts and sends nothing; otherwise the request goes out and,
        once it succeeds, the form is reset and the members reloaded; a failure alerts and keeps the
        form. */
    method HandleAddMember(circleId: Option<string>, added: Outcome<Member>, reload: Outcome<seq<Member>>)
      returns (alert: Option<string>, request: Option<AddMemberRequest>)
      modifies this
      ensures circleId.None? || circleId.value == "" ==>
                alert.None? && request.None? && MembersKept() && FormKept()
      ensures circleId.Some? && circleId.value != "" ==>
                var step := AddMemberStep(circleId.value, old(newMemberEmail), old(newMemberName), old(newMemberRole));
                (step.Err? ==> alert == Some(step.message) && request.None? && MembersKept() && FormKept())
                && (step.Ok? ==> request == Some(step.value) && !addingMember)
                && (step.Ok? && added.Ok? ==>
                      alert.None? && newMemberEmail == "" && newMemberName == "" && newMemberRole == Neighbor
                      && MembersReloaded(reload))
                && (step.Ok? && added.Err? ==>
                      alert == Some(added.message) && MembersKept()
                      && newMemberEmail == old(newMemberEmail) && newMemberName == old(newMemberName)
                      && newMemberRole == old(newMemberRole))
      ensures MetaKept() && EventsKept()
    {
      alert, request := None, None;
      if circleId.None? || circleId.value == "" {
        return;
      }
      var step := AddMemberStep(circleId.value, newMemberEmail, newMemberName, newMemberRole);
      if step.Err? {
        alert := Some(step.message);
        return;
      }
      alert, request := SendAddMember(circleId.value, step.value, added, reload);
    }

    /** The accepted add: the request goes out; a success resets the form and reloads the members,
        a failure alerts and keeps the form. */
    method SendAddMember(circleId: string, req: AddMemberRequest, added: Outcome<Member>, reload: Outcome<seq<Member>>)
      returns (alert: Option<string>, request: Option<AddMemberRequest>)
      requires circleId != ""
      modifies this
      ensures request == Some(req) && !addingMember
      ensures added.Ok? ==> alert.None? && newMemberEmail == "" && newMemberName == "" && newMemberRole == Neighbor
                            && MembersReloaded(reload)
      ensures added.Err? ==> alert == Some(added.message) && MembersKept()
                             && newMemberEmail == old(newMemberEmail) && newMemberName == old(newMemberName)
                             && newMemberRole == old(newMemberRole)
      ensures MetaKept() && EventsKept()
    {
      addingMember := true;
      request := Some(req);
      alert := None;
      if added.Ok? {
        newMemberEmail, newMemberName, newMemberRole := "", "", Neighbor;
        ReloadMembers(Some(circleId), reload);
      } else {
        alert := Some(added.message);
      }
      addingMember := false;
    }

    /** `handleRemoveMember`: nothing is sent unless the user confirms; a removal that succeeds
        reloads the members, one that fails alerts. */
    method HandleRemoveMember(circleId: Option<string>, memberId: string, confirmed: bool,
                              removed: Outcome<bool>, reload: Outcome<seq<Member>>)
      returns (alert: Option<string>, request: Option<(string, string)>)
      modifies this
      ensures circleId.None? || circleId.value == "" || !confirmed ==>
                alert.None? && request.None? && MembersKept()
      ensures circleId.Some? && circleId.value != "" && confirmed ==>
                request == Some((circleId.value, memberId))
                && (removed.Ok? ==> alert.None? && MembersReloaded(reload))
                && (removed.Err? ==> alert == Some(removed.message) && MembersKept())
      ensures MetaKept() && EventsKept() && FormKept()
    {
      alert, request := None, None;
      if circleId.None? || circleId.value == "" || !confirmed {
        return;
      }
      request := Some((circleId.value, memberId));
      if removed.Ok? {
        ReloadMembers(circleId, reload);
      } else {
        alert := Some(removed.message);
      }
    }
  }
}

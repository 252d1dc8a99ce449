/** The home page: the tasks view, the unread inbox, the create-event form and the dev-user switch.
    Every awaited request is an input holding its settled outcome. */
module GuardHome {
  import opened Base
  import opened Domain
  import opened Text
  import opened Ordering
  import opened EventCreation
  import DevIdentity

  datatype DevUser = DevUser(id: string, name: string, email: string)

  /** The seeded development users. */
  const DevUsers: seq<DevUser> := [
    DevUser("f2bf0b90-14a3-4ae9-8bd9-1c6599c0c001", "吴军保", "wu.junbao@example.com"),
    DevUser("f2bf0b90-14a3-4ae9-8bd9-1c6599c0c002", "张豪", "zhang.hao@example.com"),
    DevUser("f2bf0b90-14a3-4ae9-8bd9-1c6599c0c003", "吴革会", "wu.gehui@example.com"),
    DevUser("f2bf0b90-14a3-4ae9-8bd9-1c6599c0c004", "王桂芳", "wang.guifang@example.com"),
    DevUser("f2bf0b90-14a3-4ae9-8bd9-1c6599c0c005", "崔雪薇", "cui.xuewei@example.com")
  ]

  /** The user selected when the page opens: `dev.currentUserId`, else `x-user-id`, else the first dev user. */
  function InitialUserId(items: map<string, string>): (r: string)
    ensures r != ""
    ensures r == DevIdentity.FirstSet(items, DevIdentity.DevUserKeys[..2]).GetOr(DevUsers[0].id)
  {
    var keys := DevIdentity.DevUserKeys[..2];
    assert keys[1..] == [DevIdentity.LegacyUserKey];
    if !DevIdentity.Unset(items, DevIdentity.CurrentUserKey) then items[DevIdentity.CurrentUserKey]
    else if !DevIdentity.Unset(items, DevIdentity.LegacyUserKey) then items[DevIdentity.LegacyUserKey]
    else DevUsers[0].id
  }

  /** The user shown as current: the dev user with that id, or the first one for an unknown id. */
  function CurrentDevUser(userId: string): (u: DevUser)
    ensures u in DevUsers
    ensures (exists i :: 0 <= i < |DevUsers| && DevUsers[i].id == userId) ==> u.id == userId
    ensures (forall i :: 0 <= i < |DevUsers| ==> DevUsers[i].id != userId) ==> u == DevUsers[0]
  {
    if DevUsers[0].id == userId then DevUsers[0]
    else if DevUsers[1].id == userId then DevUsers[1]
    else if DevUsers[2].id == userId then DevUsers[2]
    else if DevUsers[3].id == userId then DevUsers[3]
    else if DevUsers[4].id == userId then DevUsers[4]
    else DevUsers[0]
  }

  /** A user chosen and stored with `setUserId` is the one selected the next time the page opens. */
  lemma InitialUserAfterSet(items: map<string, string>, userId: string)
    requires userId != ""
    ensures InitialUserId(DevIdentity.Stored(items, Some(userId))) == userId
  {
  }

  /** `circles.find(pred)`, as an index. */
  function FindFirst(circles: seq<CircleSummary>, pred: CircleSummary -> bool): (r: Option<nat>)
    ensures r.Some? ==> r.value < |circles| && pred(circles[r.value])
                        && forall j :: 0 <= j < r.value ==> !pred(circles[j])
    ensures r.None? ==> forall j :: 0 <= j < |circles| ==> !pred(circles[j])
  {
    if circles == [] then None
    else if pred(circles[0]) then Some(0)
    else
      match FindFirst(circles[1..], pred)
      case None => None
      case Some(k) => Some(k + 1)
  }

  predicate IsOwnerCircle(c: CircleSummary) {
    c.role == "owner"
  }

  predicate IsResidentCircle(c: CircleSummary) {
    c.role == "resident" || c.role == "co_resident"
  }

  /** `pickDefaultCircleId`: empty only for no circles, otherwise the id of one of them. */
  function PickDefaultCircleId(circles: seq<CircleSummary>): (r: string)
    ensures |circles| == 0 ==> r == ""
    ensures |circles| > 0 ==> exists i :: 0 <= i < |circles| && circles[i].id == r
    ensures (forall i :: 0 <= i < |circles| ==> circles[i].id != "") ==> (r == "" <==> |circles| == 0)
  {
    if |circles| == 0 then ""
    else
      match FindFirst(circles, IsOwnerCircle)
      case Some(i) => circles[i].id
      case None =>
        match FindFirst(circles, IsResidentCircle)
        case Some(i) => circles[i].id
        case None => circles[0].id
  }

  /** The priority `pickDefaultCircleId` follows: the first owned circle, else the first resident or
      co-resident one, else the first circle. */
  lemma PickDefaultPriority(circles: seq<CircleSummary>, i: nat)
    requires i < |circles|
    ensures IsOwnerCircle(circles[i]) && (forall j :: 0 <= j < i ==> !IsOwnerCircle(circles[j]))
            ==> PickDefaultCircleId(circles) == circles[i].id
    ensures (forall j :: 0 <= j < |circles| ==> !IsOwnerCircle(circles[j]))
            && IsResidentCircle(circles[i]) && (forall j :: 0 <= j < i ==> !IsResidentCircle(circles[j]))
            ==> PickDefaultCircleId(circles) == circles[i].id
    ensures (forall j :: 0 <= j < |circles| ==> !IsOwnerCircle(circles[j]) && !IsResidentCircle(circles[j]))
            ==> PickDefaultCircleId(circles) == circles[0].id
  {
    var o := FindFirst(circles, IsOwnerCircle);
    var s := FindFirst(circles, IsResidentCircle);
    if o.Some? && IsOwnerCircle(circles[i]) && (forall j :: 0 <= j < i ==> !IsOwnerCircle(circles[j])) {
      assert !(o.value < i) && !(i < o.value);
    }
    if s.Some? && IsResidentCircle(circles[i]) && (forall j :: 0 <= j < i ==> !IsResidentCircle(circles[j])) {
      assert !(s.value < i) && !(i < s.value);
    }
  }

  /** The alert `handleCreateEvent` raises instead of submitting, checked in this order. */
  function CreateRejection(circleId: string, requestText: string, videoFile: Option<VideoFile>): (r: Option<string>)
    ensures r.None? <==> circleId != "" && !IsBlank(requestText)
                         && (videoFile.None? || videoFile.value.size <= MaxVideoBytes)
    ensures circleId == "" ==> r == Some("Please choose a place.")
    ensures circleId != "" && IsBlank(requestText) ==> r == Some("Please describe what happened / your request.")
    ensures circleId != "" && !IsBlank(requestText) && videoFile.Some? && videoFile.value.size > MaxVideoBytes
            ==> r == Some("Video is too large (max 50MB).")
  {
    if circleId == "" then Some("Please choose a place.")
    else if IsBlank(requestText) then Some("Please describe what happened / your request.")
    else if videoFile.Some? && videoFile.value.size > MaxVideoBytes then Some("Video is too large (max 50MB).")
    else None
  }

  /** The payload `handleCreateEvent` posts: the trimmed request text, no title or description. */
  function HomePayload(circleId: string, eventType: string, cameraZone: string, requestText: string,
                       severity: Severity, occurredAt: string): (p: CreateEventPayload)
    ensures p.requestText == Trim(requestText) && p.circleId == circleId && p.severity == Some(severity)
    ensures !IsBlank(requestText) ==> p.requestText != [] && !IsSpace(p.requestText[0])
                                      && !IsSpace(p.requestText[|p.requestText| - 1])
    ensures p.title.None? && p.description.None? && p.videoAssetId.None?
  {
    CreateEventPayload(circleId, eventType, cameraZone, Trim(requestText), None, None,
                       Some(severity), Some(occurredAt), None)
  }

  /** Entries whose id differs from `id`. */
  function WithoutId(id: string): Notification -> bool {
    (n: Notification) => n.id != id
  }

  /** Removing a notification from the unread list keeps exactly the others, in their order. */
  lemma RemoveByIdExact(unread: seq<Notification>, id: string, n: Notification)
    ensures n in Filter(unread, WithoutId(id)) <==> n in unread && n.id != id
    ensures forall m :: m in Filter(unread, WithoutId(id)) ==> m.id != id
  {
    var r := Filter(unread, WithoutId(id));
    if n in r {
      var k :| 0 <= k < |r| && r[k] == n;
    }
    if n in unread && n.id != id {
      var k :| 0 <= k < |unread| && unread[k] == n;
      assert WithoutId(id)(unread[k]);
    }
    forall m | m in r ensures m.id != id {
      var k :| 0 <= k < |r| && r[k] == m;
      assert WithoutId(id)(r[k]);
    }
  }

  /** The state of the home page. */
  class GuardHomePage {
    var tasks: Option<HomeTasks>
    var loading: LoadingState
    var error: Option<string>
    var currentUserId: string
    var unreadNotifications: seq<Notification>
    var notifLoading: LoadingState
    var notifError: Option<string>
    var circleId: string
    var cameraZone: string
    var eventType: string
    var severity: Severity
    var requestText: string
    var videoFile: Option<VideoFile>
    var creating: bool

    /** The page as first rendered, with the initial user read from `storage`. */
    constructor (storage: map<string, string>)
      ensures currentUserId == InitialUserId(storage)
      ensures tasks.None? && loading == Idle && error.None?
      ensures unreadNotifications == [] && notifLoading == Idle && notifError.None?
      ensures circleId == "" && cameraZone == "front-door" && eventType == "suspicious_person" && severity == Medium
      ensures requestText == "" && videoFile.None? && !creating
    {
      tasks, loading, error := None, Idle, None;
      currentUserId := InitialUserId(storage);
      unreadNotifications, notifLoading, notifError := [], Idle, None;
      circleId, cameraZone, eventType, severity := "", "front-door", "suspicious_person", Medium;
      requestText, videoFile, creating := "", None, false;
    }

    /** The effect on a change of user: write the id to storage (`dev.currentUserId`, then `setUserId`). */
    method SelectUser(store: DevIdentity.DevStorage, userId: string)
      modifies this, store
      ensures currentUserId == userId
      ensures store.items == DevIdentity.Stored(old(store.items), Some(userId))
      ensures tasks == old(tasks) && unreadNotifications == old(unreadNotifications) && circleId == old(circleId)
      ensures loading == old(loading) && error == old(error) && notifLoading == old(notifLoading)
      ensures notifError == old(notifError) && requestText == old(requestText) && videoFile == old(videoFile)
      ensures creating == old(creating) && cameraZone == old(cameraZone) && eventType == old(eventType)
      ensures severity == old(severity)
    {
      currentUserId := userId;
      store.items := store.items[DevIdentity.CurrentUserKey := userId];
      store.SetUserId(Some(userId));
      DevIdentity.PageSyncIsSetUserId(old(store.items), userId);
    }

    /** The selected user and the form's zone, type and severity are untouched. */
    twostate predicate SelectionsKept()
      reads this
    {
      currentUserId == old(currentUserId) && cameraZone == old(cameraZone)
      && eventType == old(eventType) && severity == old(severity)
    }

    /** The tasks and their load state are untouched. */
    twostate predicate TasksKept()
      reads this
    {
      tasks == old(tasks) && loading == old(loading) && error == old(error)
    }

    /** The unread list and its load state are untouched. */
    twostate predicate InboxKept()
      reads this
    {
      unreadNotifications == old(unreadNotifications) && notifLoading == old(notifLoading)
      && notifError == old(notifError)
    }

    /** The request text, the video and the busy flag are untouched. */
    twostate predicate DraftKept()
      reads this
    {
      requestText == old(requestText) && videoFile == old(videoFile) && creating == old(creating)
    }

    /** The tasks after `reloadTasks` answered `reload`: an earlier error is not cleared on success. */
    twostate predicate TasksReloaded(reload: Outcome<HomeTasks>)
      reads this
    {
      && (reload.Ok? ==> tasks == Some(reload.value) && loading == Idle && error == old(error))
      && (reload.Err? ==> tasks == old(tasks) && loading == Error && error == Some(reload.message))
    }

    /** The unread list after `loadUnreadNotifications` answered `inbox`. */
    twostate predicate InboxLoaded(inbox: Outcome<seq<Notification>>)
      reads this
    {
      && (inbox.Ok? ==> unreadNotifications == SortNewestFirst(inbox.value, NotificationTime)
                        && notifLoading == Idle && notifError.None?)
      && (inbox.Err? ==> unreadNotifications == old(unreadNotifications)
                         && notifLoading == Error && notifError == Some(inbox.message))
    }

    /** The tasks load run for each user: on success the home circle is picked afresh. */
    method LoadTasks(result: Outcome<HomeTasks>)
      modifies this
      ensures result.Ok? ==> tasks == Some(result.value) && loading == Idle && error.None?
                             && circleId == PickDefaultCircleId(result.value.myCircles)
      ensures result.Err? ==> tasks == old(tasks) && loading == Error && error == Some(result.message)
                              && circleId == old(circleId)
      ensures SelectionsKept() && InboxKept() && DraftKept()
    {
      error := None;
      match result
      case Ok(data) =>
        tasks := Some(data);
        loading := Idle;
        circleId := PickDefaultCircleId(data.myCircles);
      case Err(m) =>
        error := Some(m);
        loading := Error;
    }

    /** `reloadTasks`: the chosen circle is kept, and (as written) an earlier error is not cleared. */
    method ReloadTasks(result: Outcome<HomeTasks>)
      modifies this
      ensures result.Ok? ==> tasks == Some(result.value) && loading == Idle && error == old(error)
      ensures result.Err? ==> tasks == old(tasks) && loading == Error && error == Some(result.message)
      ensures TasksReloaded(result)
      ensures circleId == old(circleId) && SelectionsKept() && InboxKept() && DraftKept()
    {
      match result
      case Ok(data) =>
        tasks := Some(data);
        loading := Idle;
      case Err(m) =>
        error := Some(m);
        loading := Error;
    }

    /** `loadUnreadNotifications`: the unread list, newest first; a failure keeps the old list. */
    method LoadUnreadNotifications(result: Outcome<seq<Notification>>)
      modifies this
      ensures result.Ok? ==> unreadNotifications == SortNewestFirst(result.value, NotificationTime)
                             && notifLoading == Idle && notifError.None?
      ensures result.Err? ==> unreadNotifications == old(unreadNotifications)
                              && notifLoading == Error && notifError == Some(result.message)
      ensures InboxLoaded(result)
      ensures circleId == old(circleId) && SelectionsKept() && TasksKept() && DraftKept()
    {
      notifError := None;
      match result
      case Ok(data) =>
        unreadNotifications := SortNewestFirst(data, NotificationTime);
        notifLoading := Idle;
      case Err(m) =>
        notifError := Some(m);
        notifLoading := Error;
    }

    /** `markNotificationReadOptimistic(id)`: drop the entries with that id; the server call's
        outcome is ignored. */
    method MarkNotificationReadOptimistic(id: string)
      modifies this
      ensures unreadNotifications == Filter(old(unreadNotifications), WithoutId(id))
      ensures notifLoading == old(notifLoading) && notifError == old(notifError)
      ensures circleId == old(circleId) && SelectionsKept() && TasksKept() && DraftKept()
    {
      unreadNotifications := Filter(unreadNotifications, WithoutId(id));
    }

    /** "Mark all read": the unread list is emptied whatever the server answers. */
    method MarkAllRead(server: Outcome<bool>)
      modifies this
      ensures unreadNotifications == []
      ensures notifLoading == old(notifLoading) && notifError == old(notifError)
      ensures circleId == old(circleId) && SelectionsKept() && TasksKept() && DraftKept()
    {
      unreadNotifications := [];
    }

    /** `handleCreateEvent`: validates, then submits. Returns the alert shown, if any, and the
        requests made; a rejected form makes no request and changes nothing. */
    method HandleCreateEvent(occurredAt: string, answers: Answers, reload: Outcome<HomeTasks>,
                             inbox: Outcome<seq<Notification>>)
      returns (alert: Option<string>, requests: seq<Request>)
      modifies this
      ensures var rejection := CreateRejection(old(circleId), old(requestText), old(videoFile));
              rejection.Some? ==> alert == rejection && requests == [] && TasksKept() && InboxKept() && DraftKept()
      ensures var rejection := CreateRejection(old(circleId), old(requestText), old(videoFile));
              var c := CreateEvent(HomePayload(old(circleId), old(eventType), old(cameraZone), old(requestText), old(severity), occurredAt), old(videoFile), answers);
              rejection.None? ==> requests == c.requests && (alert.None? <==> c.result.Ok?) && !creating
      ensures var rejection := CreateRejection(old(circleId), old(requestText), old(videoFile));
              var c := CreateEvent(HomePayload(old(circleId), old(eventType), old(cameraZone), old(requestText), old(severity), occurredAt), old(videoFile), answers);
              rejection.None? && c.result.Ok? ==>
                requestText == "" && videoFile.None? && TasksReloaded(reload) && InboxLoaded(inbox)
      ensures var rejection := CreateRejection(old(circleId), old(requestText), old(videoFile));
              var c := CreateEvent(HomePayload(old(circleId), old(eventType), old(cameraZone), old(requestText), old(severity), occurredAt), old(videoFile), answers);
              rejection.None? && c.result.Err? ==>
                alert == Some(c.result.message) && requestText == old(requestText) && videoFile == old(videoFile)
                && TasksKept() && InboxKept()
      ensures circleId == old(circleId) && SelectionsKept()
    {
      alert := CreateRejection(circleId, requestText, videoFile);
      requests := [];
      if alert.None? {
        alert, requests := Submit(HomePayload(circleId, eventType, cameraZone, requestText, severity, occurredAt), answers, reload, inbox);
      }
    }

    /** The `try` block of `handleCreateEvent`: `createEvent`, then on success clear the form and
        reload the tasks and the inbox; on failure alert with the error. `creating` is reset either way. */
    method Submit(p: CreateEventPayload, answers: Answers, reload: Outcome<HomeTasks>,
                  inbox: Outcome<seq<Notification>>)
      returns (alert: Option<string>, requests: seq<Request>)
      modifies this
      ensures var c := CreateEvent(p, old(videoFile), answers);
              requests == c.requests && (alert.None? <==> c.result.Ok?)
      ensures var c := CreateEvent(p, old(videoFile), answers);
              c.result.Ok? ==> requestText == "" && videoFile.None? && TasksReloaded(reload) && InboxLoaded(inbox)
      ensures var c := CreateEvent(p, old(videoFile), answers);
              c.result.Err? ==>
                alert == Some(c.result.message) && requestText == old(requestText) && videoFile == old(videoFile)
                && TasksKept() && InboxKept()
      ensures circleId == old(circleId) && SelectionsKept() && !creating
    {
      var c := CreateEvent(p, videoFile, answers);
      requests := c.requests;
      creating := true;
      if c.result.Ok? {
        requestText := "";
        videoFile := None;
        ReloadTasks(reload);
        LoadUnreadNotifications(inbox);
        alert := None;
      } else {
        alert := Some(c.result.message);
      }
      creating := false;
    }
  }
}

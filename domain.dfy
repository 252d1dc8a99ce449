/** The data-transfer objects the backend returns and accepts, with the fields the client reads.
    Timestamps (`createdAt`) are milliseconds since the epoch, already parsed. */
module Domain {
  import opened Base

  datatype Status = Open | Resolved

  datatype Severity = Low | Medium | High {
    /** The wire name of the severity. */
    function Name(): string {
      match this
      case Low => "low"
      case Medium => "medium"
      case High => "high"
    }
  }

  /** An event as returned by `/events` and `/events/:id`; the permission flag is computed by the server. */
  datatype Event = Event(
    id: string,
    circleId: string,
    status: Status,
    createdAt: int,
    createdById: Option<string>,
    createdByRole: Option<string>,
    isMine: bool,
    canChangeResolution: bool,
    resolutionNote: Option<string>,
    resolution: Option<string>)

  function EventTime(e: Event): int { e.createdAt }

  /** A notification; `eventId` is the `payload.eventId` the backend may attach. */
  datatype Notification = Notification(id: string, kind: string, eventId: Option<string>, isRead: bool, createdAt: int)

  function NotificationTime(n: Notification): int { n.createdAt }

  /** A circle as listed in `/me`: optional fields are the ones the client defaults. */
  datatype MeCircle = MeCircle(
    id: string,
    name: Option<string>,
    address: Option<string>,
    ownerId: Option<string>,
    houseType: Option<string>,
    cameraZones: Option<seq<string>>)

  /** The `/me` response. */
  datatype Me = Me(id: string, circles: seq<MeCircle>)

  /** A circle on the home page, with the caller's role in it. */
  datatype CircleSummary = CircleSummary(id: string, name: string, address: Option<string>, role: string)

  /** The `/home/tasks` response. */
  datatype HomeTasks = HomeTasks(
    inboxNewEvents: seq<Event>,
    inboxNotifications: seq<Notification>,
    pendingEvents: seq<Event>,
    myCircles: seq<CircleSummary>)

  datatype MemberRole = Owner | Resident | Neighbor | Observer

  datatype Member = Member(id: string, userEmail: string, role: MemberRole)

  /** An event note (formerly a comment). */
  datatype Note = Note(id: string, body: string, kind: string)

  /** A selected video; the client only ever looks at its size in bytes. */
  datatype VideoFile = VideoFile(size: nat)

  /** The body of `POST /events`; `None` stands for a field left `undefined`. */
  datatype CreateEventPayload = CreateEventPayload(
    circleId: string,
    eventType: string,
    cameraZone: string,
    requestText: string,
    title: Option<string>,
    description: Option<string>,
    severity: Option<Severity>,
    occurredAt: Option<string>,
    videoAssetId: Option<string>)

  /** `me.circles.find((c) => c.id === circleId)`: the first circle with that id. */
  function FindCircle(circles: seq<MeCircle>, circleId: string): (r: Option<MeCircle>)
    ensures r.Some? ==> r.value in circles && r.value.id == circleId
    ensures r.None? <==> forall i :: 0 <= i < |circles| ==> circles[i].id != circleId
    ensures r.Some? ==> exists i :: 0 <= i < |circles| && circles[i] == r.value
                                    && forall j :: 0 <= j < i ==> circles[j].id != circleId
  {
    if circles == [] then None
    else if circles[0].id == circleId then Some(circles[0])
    else
      var r := FindCircle(circles[1..], circleId);
      assert r.Some? ==> exists i :: 0 <= i < |circles| && circles[i] == r.value
                                     && forall j :: 0 <= j < i ==> circles[j].id != circleId by {
        if r.Some? {
          var i :| 0 <= i < |circles[1..]| && circles[1..][i] == r.value
                   && forall j :: 0 <= j < i ==> circles[1..][j].id != circleId;
          assert circles[i + 1] == r.value && forall j :: 0 <= j < i + 1 ==> circles[j].id != circleId;
        }
      }
      r
  }

  /** The largest video either create form accepts: 50 MiB. */
  const MaxVideoBytes: nat := 50 * 1024 * 1024
}

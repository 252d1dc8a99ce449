/** `createEvent`: plain JSON without a video; with one, a multipart post first and, only if that
    fails, an upload followed by a JSON post that references the uploaded asset. The answers the
    backend would give to each kind of request are inputs. */
module EventCreation {
  import opened Base
  import opened Domain

  /** One part of a multipart form body. */
  datatype FormPart = Field(name: string, value: string) | FilePart(name: string, file: VideoFile)

  /** A request `createEvent` issues. */
  datatype Request = PostJson(payload: CreateEventPayload) | PostMultipart(form: seq<FormPart>) | UploadVideo(file: VideoFile)

  /** How the backend answers each kind of request, if it is made. */
  datatype Answers = Answers(multipart: Outcome<Event>, upload: Outcome<string>, json: Outcome<Event>)

  /** The requests issued, in order, and what `createEvent` resolves or rejects with. */
  datatype Creation = Creation(requests: seq<Request>, result: Outcome<Event>)

  /** `Object.entries(payload)`, with `String(v)` of each value; `None` is a key left `undefined`. */
  function Entries(p: CreateEventPayload): seq<(string, Option<string>)>
  {
    [("circleId", Some(p.circleId)), ("eventType", Some(p.eventType)), ("cameraZone", Some(p.cameraZone)),
     ("title", p.title), ("description", p.description), ("requestText", Some(p.requestText)),
     ("severity", if p.severity.Some? then Some(p.severity.value.Name()) else None),
     ("occurredAt", p.occurredAt), ("videoAssetId", p.videoAssetId)]
  }

  /** A value the multipart body carries: neither `undefined`/`null` nor the empty string. */
  predicate Carried(v: Option<string>) {
    v.Some? && v.value != ""
  }

  /** The text fields appended by the `forEach` over the entries. */
  function FormFields(entries: seq<(string, Option<string>)>): seq<FormPart>
  {
    if entries == [] then []
    else
      var last := entries[|entries| - 1];
      FormFields(entries[..|entries| - 1]) + (if Carried(last.1) then [Field(last.0, last.1.value)] else [])
  }

  /** The multipart body holds a text field exactly for each entry whose value is carried, and no file. */
  lemma {:induction false} FormFieldsExact(entries: seq<(string, Option<string>)>, k: string, v: string)
    ensures Field(k, v) in FormFields(entries) <==> v != "" && (k, Some(v)) in entries
    ensures forall part :: part in FormFields(entries) ==> part.Field?
  {
    if entries != [] {
      var init := entries[..|entries| - 1];
      FormFieldsExact(init, k, v);
      assert entries == init + [entries[|entries| - 1]];
    }
  }

  /** `createEventMultipart`'s form: the carried fields, then the file if there is one. */
  method BuildMultipartForm(p: CreateEventPayload, file: Option<VideoFile>) returns (form: seq<FormPart>)
    ensures form == FormFields(Entries(p)) + (if file.Some? then [FilePart("file", file.value)] else [])
  {
    var entries := Entries(p);
    form := [];
    for i := 0 to |entries|
      invariant form == FormFields(entries[..i])
    {
      var (k, v) := entries[i];
      assert entries[..i + 1][..i] == entries[..i];
      if v.Some? && v.value != "" {
        form := form + [Field(k, v.value)];
      }
    }
    assert entries[..|entries|] == entries;
    if file.Some? {
      form := form + [FilePart("file", file.value)];
    }
  }

  /** `createEvent(payload, file)`. */
  function CreateEvent(p: CreateEventPayload, file: Option<VideoFile>, answers: Answers): (c: Creation)
    ensures file.None? <==> c.requests == [PostJson(p)]
    ensures file.None? ==> c.result == answers.json
    ensures file.Some? ==> |c.requests| >= 1 && c.requests[0] == PostMultipart(FormFields(Entries(p)) + [FilePart("file", file.value)])
    ensures UploadVideo(file.GetOr(VideoFile(0))) in c.requests <==> file.Some? && answers.multipart.Err?
    ensures forall q :: file.Some? && PostJson(q) in c.requests ==>
              answers.multipart.Err? && answers.upload.Ok? && q == p.(videoAssetId := Some(answers.upload.value))
    ensures file.Some? && answers.multipart.Ok? ==> c.result == answers.multipart
    ensures file.Some? && answers.multipart.Err? && answers.upload.Err? ==> c.result == Err(answers.upload.message)
    ensures file.Some? && answers.multipart.Err? && answers.upload.Ok? ==> c.result == answers.json
    ensures file.Some? && answers.multipart.Ok? ==>
              c.requests == [PostMultipart(FormFields(Entries(p)) + [FilePart("file", file.value)])]
    ensures file.Some? && answers.multipart.Err? && answers.upload.Err? ==>
              c.requests == [PostMultipart(FormFields(Entries(p)) + [FilePart("file", file.value)]), UploadVideo(file.value)]
    ensures file.Some? && answers.multipart.Err? && answers.upload.Ok? ==>
              c.requests == [PostMultipart(FormFields(Entries(p)) + [FilePart("file", file.value)]), UploadVideo(file.value),
                             PostJson(p.(videoAssetId := Some(answers.upload.value)))]
  {
    match file
    case None => Creation([PostJson(p)], answers.json)
    case Some(f) =>
      var form := PostMultipart(FormFields(Entries(p)) + [FilePart("file", f)]);
      match answers.multipart
      case Ok(_) => Creation([form], answers.multipart)
      case Err(_) =>
        match answers.upload
        case Err(m) => Creation([form, UploadVideo(f)], Err(m))
        case Ok(assetId) => Creation([form, UploadVideo(f), PostJson(p.(videoAssetId := Some(assetId)))], answers.json)
  }
}

/** The reusable create-event form: size check, submission through `createEvent`, and reset. */
module CreateEventForm {
  import opened Base
  import opened Domain
  import opened Text
  import opened EventCreation

  /** The form's size cap, the same 50 MiB the home page uses. */
  const MaxBytes: nat := MaxVideoBytes

  /** The size error, with the cap written in whole megabytes. */
  function TooLargeMessage(): string {
    "Video is too large. Max is " + DecimalString(MaxBytes / (1024 * 1024)) + "MB."
  }

  /** The size error reads "50MB" for the 50 MiB cap. */
  lemma TooLargeMessageText()
    ensures TooLargeMessage() == "Video is too large. Max is 50MB."
  {
    assert MaxBytes / (1024 * 1024) == 50;
    assert DecimalString(50) == DecimalString(5) + ['0'];
  }

  /** Whether a chosen file is over the cap (no file is never too large). */
  predicate TooLarge(file: Option<VideoFile>) {
    file.Some? && file.value.size > MaxBytes
  }

  /** The payload the form submits: the request text as typed (untrimmed), the chosen severity, no
      title, description or video id. */
  function FormPayload(circleId: string, eventType: string, cameraZone: string, requestText: string,
                       severity: Severity, occurredAt: string): (p: CreateEventPayload)
    ensures p.requestText == requestText && p.circleId == circleId && p.severity == Some(severity)
    ensures p.title.None? && p.description.None? && p.videoAssetId.None?
  {
    CreateEventPayload(circleId, eventType, cameraZone, requestText, None, None, Some(severity), Some(occurredAt), None)
  }

  /** The form's state. */
  class CreateEventFormState {
    const circleId: string
    var eventType: string
    var cameraZone: string
    var requestText: string
    var severity: Severity
    var file: Option<VideoFile>
    var busy: bool
    var err: Option<string>

    /** A fresh form: a doorbell event at the front zone, medium severity, nothing typed. */
    constructor (circleId: string)
      ensures this.circleId == circleId && eventType == "doorbell" && cameraZone == "front"
      ensures requestText == "" && severity == Medium && file.None? && !busy && err.None?
    {
      this.circleId := circleId;
      eventType, cameraZone, requestText, severity := "doorbell", "front", "", Medium;
      file, busy, err := None, false, None;
    }

    /** `onSubmit`: an empty request text never submits (the textarea is `required`); an over-size file is refused with the size error before anything is sent;
        otherwise the event is created, the created event is handed to `onCreated` and the text and
        file are cleared, or the failure's message is shown and the inputs are kept. */
    method OnSubmit(occurredAt: string, answers: Answers) returns (requests: seq<Request>, created: Option<Event>)
      modifies this
      ensures old(requestText) == "" ==>
                requests == [] && created.None? && err == old(err)
                && requestText == old(requestText) && file == old(file) && busy == old(busy)
      ensures old(requestText) != "" && TooLarge(old(file)) ==>
                requests == [] && created.None? && err == Some(TooLargeMessage())
                && requestText == old(requestText) && file == old(file) && busy == old(busy)
      ensures old(requestText) != "" && !TooLarge(old(file)) ==>
                var c := CreateEvent(FormPayload(circleId, old(eventType), old(cameraZone), old(requestText),
                                                 old(severity), occurredAt), old(file), answers);
                requests == c.requests && !busy
                && (c.result.Ok? ==> created == Some(c.result.value) && err.None?
                                     && requestText == "" && file.None?)
                && (c.result.Err? ==> created.None? && err == Some(c.result.message)
                                      && requestText == old(requestText) && file == old(file))
      ensures eventType == old(eventType) && cameraZone == old(cameraZone) && severity == old(severity)
    {
      requests, created := [], None;
      if requestText == "" {
        return;
      }
      err := None;
      if TooLarge(file) {
        err := Some(TooLargeMessage());
        return;
      }
      var payload := FormPayload(circleId, eventType, cameraZone, requestText, severity, occurredAt);
      busy := true;
      var c := CreateEvent(payload, file, answers);
      requests := c.requests;
      if c.result.Ok? {
        created := Some(c.result.value);
        requestText, file := "", None;
      } else {
        err := Some(c.result.message);
      }
      busy := false;
    }
  }
}

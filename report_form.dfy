/** The report form component: the state it keeps, how it validates its fields,
    the request it sends and what it shows for each reply. Rendering is not modelled;
    each event handler is one sequential step. */
module ReportForm {
  import opened Wrappers
  import opened Text
  import Triage

  type Photo = Triage.Photo

  const ReportRequiredMessage: string := "Please describe the issue in the report field."
  const PhotoTooLargeMessage: string := "Photo is too large. Max size: 5 MB."
  const MaxPhotoBytes: nat := 5 * 1024 * 1024
  const ServerRespondedPrefix: string := "Server responded "
  const TriageFailedMessage: string := "Triage failed on the server."
  const DispatchedMessage: string := "Ticket dispatched successfully."
  const UnexpectedErrorMessage: string := "An unexpected error occurred."

  /** The message `validate` shows, if any: the report is checked first, then the photo. */
  function ValidationError(reportText: string, photo: Option<Photo>): (r: Option<string>)
    ensures r == Some(ReportRequiredMessage) <==> Blank(reportText)
    ensures r == Some(PhotoTooLargeMessage) <==>
      !Blank(reportText) && photo.Some? && photo.value.size > MaxPhotoBytes
    ensures r.None? <==> !Blank(reportText) && (photo.None? || photo.value.size <= MaxPhotoBytes)
  {
    if Trim(reportText) == "" then Some(ReportRequiredMessage)
    else if photo.Some? && photo.value.size > MaxPhotoBytes then Some(PhotoTooLargeMessage)
    else None
  }

  /** The multipart fields the form sends. */
  datatype Payload = Payload(report: string, machineId: Option<string>, photo: Option<Photo>)

  /** The payload built from the fields: the trimmed report, the trimmed machine
      only when it is not blank, the photo when one is selected. */
  function BuildPayload(reportText: string, machineId: string, photo: Option<Photo>): (p: Payload)
    ensures p.report == Trim(reportText)
    ensures p.machineId.Some? <==> !Blank(machineId)
    ensures p.machineId.Some? ==> p.machineId.value == Trim(machineId) && p.machineId.value != ""
    ensures p.photo == photo
  {
    var m := Trim(machineId);
    Payload(Trim(reportText), if m != "" then Some(m) else None, photo)
  }

  /** The fields the triage handler reads from this payload. */
  function FormOf(p: Payload): (f: Triage.Form) {
    Triage.Form(Some(p.report), p.photo, p.machineId)
  }

  /** A payload the form sends always passes the handler's report check, and the
      card description carries the machine exactly when the user typed a non-blank one. */
  lemma ValidPayloadIsAdmitted(reportText: string, machineId: string, photo: Option<Photo>)
    requires ValidationError(reportText, photo).None?
    ensures Triage.Admitted(Ok(FormOf(BuildPayload(reportText, machineId, photo))))
    ensures var p := BuildPayload(reportText, machineId, photo);
      Triage.CardDescription(p.report, p.machineId) ==
        if Blank(machineId) then Trim(reportText)
        else Trim(reportText) + "\n\nMachine: " + Trim(machineId)
  {
  }

  /** The JSON body of a successful HTTP reply. */
  datatype ApiBody = ApiBody(success: bool, message: Option<string>, trelloUrl: Option<string>)

  /** What the request produced: `fetch` (or reading the body) threw with an optional
      message; or an HTTP reply came back with its status, its body as text, and its
      body read as JSON (or the error reading it raised). */
  datatype ServerReply =
    | NetworkFailure(message: Option<string>)
    | HttpReply(ok: bool, status: nat, text: string, json: Result<ApiBody>)

  /** What the form shows once the request is over. */
  datatype Outcome = Failed(error: string) | Succeeded(message: string, trelloUrl: Option<string>)

  predicate Truthy(s: Option<string>) {
    s.Some? && s.value != ""
  }

  /** The body of `onSubmit`'s `try`/`catch` after the request: an error message, or
      a success message and the card link. */
  function SubmitOutcome(reply: ServerReply): (r: Outcome)
    ensures r.Succeeded? <==> reply.HttpReply? && reply.ok && reply.json.Ok? && reply.json.value.success
    // A refused HTTP request always shows a non-empty error: the body, or the status.
    ensures reply.HttpReply? && !reply.ok ==> r.Failed? && r.error != ""
    ensures reply.HttpReply? && !reply.ok && reply.text != "" ==> r.error == reply.text
    ensures reply.HttpReply? && !reply.ok && reply.text == "" ==>
      r.error == ServerRespondedPrefix + NatToDecimal(reply.status)
    // A body with `success: false` shows its message, or a fixed one when it has none.
    ensures reply.HttpReply? && reply.ok && reply.json.Ok? && !reply.json.value.success ==>
      r.Failed? && r.error != "" &&
      r.error == (if Truthy(reply.json.value.message) then reply.json.value.message.value else TriageFailedMessage)
    ensures reply.NetworkFailure? ==> r == Failed(reply.message.GetOr(UnexpectedErrorMessage))
    // An ok reply whose body is not JSON shows the parse error's own message.
    ensures reply.HttpReply? && reply.ok && reply.json.Err? ==> r == Failed(reply.json.message)
    // On success the message falls back only when absent; the link is kept only when truthy.
    ensures r.Succeeded? ==> r.message == reply.json.value.message.GetOr(DispatchedMessage)
    ensures r.Succeeded? ==> (r.trelloUrl.Some? <==> Truthy(reply.json.value.trelloUrl))
    ensures r.Succeeded? && r.trelloUrl.Some? ==> r.trelloUrl == reply.json.value.trelloUrl
  {
    match reply
    case NetworkFailure(m) => Failed(m.GetOr(UnexpectedErrorMessage))
    case HttpReply(ok, status, text, json) =>
      if !ok then Failed(if text != "" then text else ServerRespondedPrefix + NatToDecimal(status))
      else match json
        case Err(m) => Failed(m)
        case Ok(body) =>
          if !body.success then Failed(if Truthy(body.message) then body.message.value else TriageFailedMessage)
          else Succeeded(body.message.GetOr(DispatchedMessage),
                         if Truthy(body.trelloUrl) then body.trelloUrl else None)
  }

  /** A refusal with an empty body names the status, and the status can be read back
      from the message. */
  lemma StatusReadBack(status: nat)
    ensures var e := SubmitOutcome(HttpReply(false, status, "", Err(""))).error;
      |e| > |ServerRespondedPrefix| && e[..|ServerRespondedPrefix|] == ServerRespondedPrefix &&
      IsDigits(e[|ServerRespondedPrefix|..]) && DecimalValue(e[|ServerRespondedPrefix|..]) == status
  {
    var e := SubmitOutcome(HttpReply(false, status, "", Err(""))).error;
    assert e[|ServerRespondedPrefix|..] == NatToDecimal(status);
    DecimalRoundTrip(status);
  }

  /** The component's state (its `useState` fields). */
  class ReportForm {
    var reportText: string
    var machineId: string
    var photo: Option<Photo>
    var isLoading: bool
    var error: Option<string>
    var successMsg: Option<string>
    var trelloUrl: Option<string>

    /** An error and a success message never show together, the card link shows only
        with a success message, and nothing shows while a request is in flight. */
    ghost predicate Valid()
      reads this
    {
      && !(error.Some? && successMsg.Some?)
      && (trelloUrl.Some? ==> successMsg.Some?)
      && (isLoading ==> error.None? && successMsg.None? && trelloUrl.None?)
    }

    constructor ()
      ensures Valid()
      ensures reportText == "" && machineId == "" && photo.None? && !isLoading
      ensures error.None? && successMsg.None? && trelloUrl.None?
    {
      reportText, machineId, photo, isLoading := "", "", None, false;
      error, successMsg, trelloUrl := None, None, None;
    }

    /** The report field's `onChange`. */
    method SetReportText(text: string)
      requires Valid()
      modifies this`reportText
      ensures Valid() && reportText == text
    {
      reportText := text;
    }

    /** The machine field's `onChange`. */
    method SetMachineId(text: string)
      requires Valid()
      modifies this`machineId
      ensures Valid() && machineId == text
    {
      machineId := text;
    }

    /** The file input's `onChange`: the first selected file, or none. */
    method SetPhoto(file: Option<Photo>)
      requires Valid()
      modifies this`photo
      ensures Valid() && photo == file
    {
      photo := file;
    }

    /** `validate`: reports whether the fields are acceptable and shows the message
        otherwise. It runs only inside `onSubmit`, idle and after the success message
        was cleared, and then keeps the invariant. */
    method Validate() returns (ok: bool)
      requires Valid() && !isLoading && successMsg.None?
      modifies this`error
      ensures Valid()
      ensures ok <==> ValidationError(reportText, photo).None?
      ensures error == if ok then old(error) else ValidationError(reportText, photo)
    {
      if Trim(reportText) == "" {
        error := Some(ReportRequiredMessage);
        return false;
      }
      if photo.Some? && photo.value.size > MaxPhotoBytes {
        error := Some(PhotoTooLargeMessage);
        return false;
      }
      return true;
    }

    /** `onSubmit` up to the request: clear the messages, validate, and when the
        fields are acceptable set the loading flag and build the payload to send.
        The submit button is disabled while loading, so this starts idle. */
    method BeginSubmit() returns (payload: Option<Payload>)
      requires Valid() && !isLoading
      modifies this
      ensures Valid()
      ensures reportText == old(reportText) && machineId == old(machineId) && photo == old(photo)
      ensures error == ValidationError(reportText, photo)
      ensures successMsg.None? && trelloUrl.None?
      ensures payload.Some? <==> error.None?
      ensures payload.Some? ==> payload.value == BuildPayload(reportText, machineId, photo)
      ensures isLoading <==> payload.Some?
    {
      error, successMsg, trelloUrl := None, None, None;
      var ok := Validate();
      if !ok {
        return None;
      }
      isLoading := true;
      payload := Some(BuildPayload(reportText, machineId, photo));
    }

    /** `onSubmit` after the request: show the outcome, clear the fields on success,
        and in every case clear the loading flag. */
    method FinishSubmit(reply: ServerReply)
      requires Valid() && isLoading
      modifies this
      ensures Valid() && !isLoading
      ensures SubmitOutcome(reply).Failed? ==>
        && error == Some(SubmitOutcome(reply).error)
        && successMsg.None? && trelloUrl.None?
        && reportText == old(reportText) && machineId == old(machineId) && photo == old(photo)
      ensures SubmitOutcome(reply).Succeeded? ==>
        && error.None?
        && successMsg == Some(SubmitOutcome(reply).message)
        && trelloUrl == SubmitOutcome(reply).trelloUrl
        && reportText == "" && machineId == "" && photo.None?
    {
      match SubmitOutcome(reply) {
        case Failed(m) =>
          error := Some(m);
        case Succeeded(m, url) =>
          successMsg := Some(m);
          if url.Some? {
            trelloUrl := url;
          }
          reportText, machineId, photo := "", "", None;
      }
      isLoading := false;
    }

    /** The whole `onSubmit` handler, `reply` being what the request would produce.
        Returns the payload sent, or `None` when validation stopped it. */
    method OnSubmit(reply: ServerReply) returns (payload: Option<Payload>)
      requires Valid() && !isLoading
      modifies this
      ensures Valid() && !isLoading
      ensures payload.None? <==> ValidationError(old(reportText), old(photo)).Some?
      ensures payload.None? ==>
        && error == ValidationError(old(reportText), old(photo))
        && successMsg.None? && trelloUrl.None?
        && reportText == old(reportText) && machineId == old(machineId) && photo == old(photo)
      ensures payload.Some? ==> payload.value == BuildPayload(old(reportText), old(machineId), old(photo))
      ensures payload.Some? && SubmitOutcome(reply).Failed? ==>
        && error == Some(SubmitOutcome(reply).error)
        && successMsg.None? && trelloUrl.None?
        && reportText == old(reportText) && machineId == old(machineId) && photo == old(photo)
      ensures payload.Some? && SubmitOutcome(reply).Succeeded? ==>
        && error.None?
        && successMsg == Some(SubmitOutcome(reply).message)
        && trelloUrl == SubmitOutcome(reply).trelloUrl
        && reportText == "" && machineId == "" && photo.None?
    {
      payload := BeginSubmit();
      if payload.Some? {
        FinishSubmit(reply);
      }
    }

    /** The Reset button: clears the fields and the messages, not the loading flag. */
    method Reset()
      requires Valid()
      modifies this
      ensures Valid() && isLoading == old(isLoading)
      ensures reportText == "" && machineId == "" && photo.None?
      ensures error.None? && successMsg.None? && trelloUrl.None?
    {
      reportText, machineId, photo := "", "", None;
      error, successMsg, trelloUrl := None, None, None;
    }
  }
}

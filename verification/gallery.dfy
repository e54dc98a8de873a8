/** The gallery upload page (app/gallery/page.tsx): form validation, the
    comment length guard, and what a submission sends and saves. */
module Gallery {
  import opened Wrappers
  import opened Model
  import Validation
  import LocalStorage
  import Seqs

  const ImageRequired: string := "Please select an image"
  const LocationRequired: string := "Location data is required. Please enable location services."

  /** The page state `validateForm` and `handleSubmit` read. `selectedImage` is
      the preview data URL; `position` is the device fix, if any. */
  datatype Form = Form(
    selectedImage: Option<string>,
    selectedFile: Option<Validation.FileInfo>,
    comment: string,
    position: Option<Coords>)

  /** `!selectedImage || !selectedFile` is false: both present, the URL non-empty. */
  predicate HasImage(form: Form) {
    form.selectedImage.Some? && form.selectedImage.value != "" && form.selectedFile.Some?
  }

  datatype FormCheck = FormCheck(ok: bool, errors: seq<string>)

  /** The arguments `validateForm` passes to `validateObservationData`. */
  function ObservationCheck(form: Form): Validation.ValidationResult {
    Validation.ValidateObservationData(
      Some(form.comment),
      if form.position.Some? then Some(form.position.value.latitude) else None,
      if form.position.Some? then Some(form.position.value.longitude) else None)
  }

  /** The page's own two messages are never among those of the observation check. */
  lemma OwnChecksApart(errors: seq<string>)
    requires Seqs.IsSubsequence(errors, Validation.ObservationErrorOrder)
    ensures ImageRequired !in errors && LocationRequired !in errors
  {
    Seqs.SubsequenceMembers(errors, Validation.ObservationErrorOrder);
    assert ImageRequired !in Validation.ObservationErrorOrder;
    assert LocationRequired !in Validation.ObservationErrorOrder;
  }

  /** The messages `validateForm` pushes itself, image first. */
  function OwnErrors(form: Form): (own: seq<string>)
    ensures |own| == (if HasImage(form) then 0 else 1) + (if form.position.Some? then 0 else 1)
    ensures ImageRequired in own <==> !HasImage(form)
    ensures LocationRequired in own <==> form.position.None?
    ensures !HasImage(form) ==> own[0] == ImageRequired
    ensures form.position.None? ==> own[|own| - 1] == LocationRequired
    ensures Validation.LatitudeError !in own && Validation.LongitudeError !in own
  {
    (if !HasImage(form) then [ImageRequired] else []) + (if form.position.None? then [LocationRequired] else [])
  }

  /** `validateForm`. */
  function ValidateForm(form: Form): (r: FormCheck)
    ensures r.ok <==> |r.errors| == 0
    ensures ImageRequired in r.errors <==> !HasImage(form)
    ensures LocationRequired in r.errors <==> form.position.None?
    ensures !HasImage(form) ==> r.errors[0] == ImageRequired
    ensures form.position.None? ==> r.errors[if HasImage(form) then 0 else 1] == LocationRequired
    ensures form.position.None? ==>
              Validation.LatitudeError !in r.errors && Validation.LongitudeError !in r.errors
    ensures var own := (if HasImage(form) then 0 else 1) + (if form.position.Some? then 0 else 1);
            |r.errors| == own + |ObservationCheck(form).errors|
            && r.errors[own..] == ObservationCheck(form).errors
  {
    var own := OwnErrors(form);
    var observation := ObservationCheck(form);
    OwnChecksApart(observation.errors);
    var errors := own + (if !observation.isValid then observation.errors else []);
    assert errors == own + observation.errors;
    Seqs.ConcatParts(own, observation.errors);
    assert !HasImage(form) ==> errors[0] == own[0];
    assert form.position.None? ==> errors[|own| - 1] == own[|own| - 1];
    FormCheck(|errors| == 0, errors)
  }

  /** The form passes exactly when an image is chosen, a position is known, its
      coordinates are in range and the comment has at most 1000 characters. */
  lemma FormAcceptedIff(form: Form)
    ensures ValidateForm(form).ok <==>
              HasImage(form) && form.position.Some?
              && !Validation.LatitudeOutOfRange(form.position.value.latitude)
              && !Validation.LongitudeOutOfRange(form.position.value.longitude)
              && Validation.Utf16Length(form.comment) <= Validation.MaxCommentLength
  {
    var r := ValidateForm(form);
    if !r.ok && HasImage(form) && form.position.Some? {
      var v := ObservationCheck(form);
      assert |v.errors| > 0;
      assert v.errors[0] in v.errors;
    }
  }

  // ---------------------------------------------------------------------------
  // handleCommentChange

  /** `handleCommentChange`: an edit longer than 1000 UTF-16 code units is ignored. */
  function HandleCommentChange(current: string, value: string): (r: string)
    ensures Validation.Utf16Length(value) <= Validation.MaxCommentLength ==> r == value
    ensures Validation.Utf16Length(value) > Validation.MaxCommentLength ==> r == current
  {
    if Validation.Utf16Length(value) <= Validation.MaxCommentLength then value else current
  }

  /** The comment after a series of edits, starting from the empty comment. */
  function ApplyEdits(current: string, edits: seq<string>): string
    decreases |edits|
  {
    if |edits| == 0 then current else ApplyEdits(HandleCommentChange(current, edits[0]), edits[1..])
  }

  /** Typing can never produce a comment the length check rejects. */
  lemma {:induction false} EditsNeverExceedLimit(current: string, edits: seq<string>)
    requires Validation.Utf16Length(current) <= Validation.MaxCommentLength
    ensures Validation.Utf16Length(ApplyEdits(current, edits)) <= Validation.MaxCommentLength
    decreases |edits|
  {
    if |edits| > 0 {
      EditsNeverExceedLimit(HandleCommentChange(current, edits[0]), edits[1..]);
    }
  }

  // ---------------------------------------------------------------------------
  // handleSubmit

  /** The upload form `handleSubmit` sends: the sanitised comment, the
      submission time and the position. */
  datatype SentForm = SentForm(comment: string, timestamp: int, coords: Coords)

  /** The JSON the upload route answered; absent strings are empty. */
  datatype UploadReply = UploadReply(
    ok: bool,
    code: string,
    details: Option<seq<string>>,
    error: string,
    id: string,
    imageUrl: string)

  predicate IsValidationCode(code: string) {
    code == "INVALID_IMAGE" || code == "INVALID_DATA"
  }

  /** What a press of "Submit" leads to: the form sent, the errors listed on
      the page, the device store, and the message of a failure toast. */
  datatype SubmitOutcome = SubmitOutcome(
    sent: Option<SentForm>,
    validationErrors: seq<string>,
    env: LocalStorage.Env,
    failure: Option<string>)

  const UploadFailed: string := "Upload failed"

  /** The observation `handleSubmit` keeps on the device after a successful upload. */
  function SavedObservation(form: Form, now: int, answer: UploadReply): (o: Observation)
    requires form.selectedImage.Some? && form.position.Some?
    ensures o.id == answer.id && o.timestamp == now && o.status == Pending
    ensures o.comment == Validation.SanitizeInput(form.comment)
    ensures o.imageUrl == if answer.imageUrl != "" then answer.imageUrl else form.selectedImage.value
    ensures o.geolocation.latitude == Some(form.position.value.latitude)
    ensures o.geolocation.longitude == Some(form.position.value.longitude)
    ensures o.geolocation.accuracy == form.position.value.accuracy
  {
    var coords := form.position.value;
    Observation(
      answer.id,
      if answer.imageUrl != "" then answer.imageUrl else form.selectedImage.value,
      Validation.SanitizeInput(form.comment),
      now,
      Geolocation(Some(coords.latitude), Some(coords.longitude), coords.accuracy),
      Pending)
  }

  /** `handleSubmit`. The clock (`now`) and the server's reply are parameters;
      the reply is `Failure` when `fetch` rejects or the body is not JSON, with
      the message thrown. */
  function HandleSubmit(form: Form, env: LocalStorage.Env, now: int, reply: Result<UploadReply>): (r: SubmitOutcome)
    ensures r.sent.Some? <==> ValidateForm(form).ok
    ensures !ValidateForm(form).ok ==>
              r.env == env && r.validationErrors == ValidateForm(form).errors && r.failure.None?
    ensures r.sent.Some? ==>
              r.sent.value.comment == Validation.SanitizeInput(form.comment)
              && r.sent.value.timestamp == now && Some(r.sent.value.coords) == form.position
    ensures reply.Failure? || !reply.value.ok ==> r.env == env
    ensures r.sent.Some? && reply.Failure? ==> r.failure == Some(reply.error) && r.validationErrors == []
    ensures r.sent.Some? && reply.Success? && !reply.value.ok && IsValidationCode(reply.value.code) ==>
              r.validationErrors == reply.value.details.GetOr([reply.value.error]) && r.failure.None?
    ensures r.sent.Some? && reply.Success? && !reply.value.ok && !IsValidationCode(reply.value.code) ==>
              r.failure == Some(if reply.value.error != "" then reply.value.error else UploadFailed)
              && r.validationErrors == []
    ensures r.sent.Some? && reply.Success? && reply.value.ok && env.Server? ==>
              r.failure.Some? && r.env == env
    ensures r.sent.Some? && reply.Success? && reply.value.ok && env.Browser? ==>
              var saved := LocalStorage.GetLocalObservations(r.env);
              && r.failure.None? && r.validationErrors == []
              && |saved| > 0
              && saved[0] == SavedObservation(form, now, reply.value)
              && saved[1..] == LocalStorage.GetLocalObservations(env)
              && r.env.Browser? && LocalStorage.OtherKeysUnchanged(env.store, r.env.store)
  {
    var check := ValidateForm(form);
    if !check.ok then SubmitOutcome(None, check.errors, env, None)
    else
      var sent := SentForm(Validation.SanitizeInput(form.comment), now, form.position.value);
      match reply
      case Failure(e) => SubmitOutcome(Some(sent), [], env, Some(e))
      case Success(answer) =>
        if !answer.ok then
          if IsValidationCode(answer.code) then SubmitOutcome(Some(sent), answer.details.GetOr([answer.error]), env, None)
          else SubmitOutcome(Some(sent), [], env, Some(if answer.error != "" then answer.error else UploadFailed))
        else
          match LocalStorage.SaveLocalObservation(env, SavedObservation(form, now, answer))
          case Failure(e) => SubmitOutcome(Some(sent), [], env, Some(e))
          case Success(saved) => SubmitOutcome(Some(sent), [], saved, None)
  }
}

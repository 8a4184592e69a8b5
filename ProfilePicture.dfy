/** The profile-picture page: choosing an image, submitting it, and the
    two-phase resolution of a submission that the server found similar to
    existing pictures (a tentative upload held under `tempPath` until the
    user proceeds or cancels). */
module ProfilePicture {
  import opened Api

  /** A file picked in the browser; only its MIME type and size matter here. */
  datatype File = File(name: string, mime: string, size: nat)

  /** The data URL the FileReader produced; opaque to the model. */
  datatype Preview = Preview(dataUrl: string)

  /** One existing picture the server judged similar to the submitted one. */
  datatype Conflict = Conflict(picture: string, similarity: int)

  /** `response.data.profilePicture`; its `url` may be missing. */
  datatype PictureRef = PictureRef(url: Option<string>)

  /** `response.data` of `POST /verify/profile-picture`. An absent `success`
      is falsy, so it reads as `false`; an array, even an empty one, is truthy,
      so any `conflicts` array is `Some`. */
  datatype UploadReply = UploadReply(
    success: bool,
    conflicts: Option<seq<Conflict>>,
    tempPath: Option<string>,
    profilePicture: Option<PictureRef>)

  /** `response.data` of `POST /verify/profile-picture/resolve-conflict`. */
  datatype ResolveReply = ResolveReply(profilePicture: Option<PictureRef>)

  datatype Resolution = Proceed | Cancel

  /** A request the page sends to the back end. */
  datatype Request =
    | SubmitPicture(file: File)
    | ResolveConflict(tempPath: Option<string>, action: Resolution)

  const MaxBytes: nat := 5 * 1024 * 1024
  const ValidTypes: seq<string> := ["image/jpeg", "image/png", "image/webp"]

  const InvalidTypeText := "Please select a valid image file (JPG, PNG, or WEBP)"
  const TooLargeText := "Image size should be less than 5MB"
  const NoFileText := "Please select an image to upload"
  const UploadedText := "Profile picture uploaded successfully"
  const UploadErrorText := "Error uploading profile picture"
  const ConfirmedText := "Profile picture confirmed and uploaded successfully"
  const ConfirmErrorText := "Error confirming profile picture"

  predicate IsValidImageFile(f: File) {
    f.mime in ValidTypes
  }

  /** How `handleFileChange` judges a selected file. */
  datatype Selection = BadType | TooLarge | Accepted

  /** The type is checked before the size, and a file of exactly 5 MiB passes. */
  function CheckSelection(f: File): (r: Selection)
    ensures r == Accepted <==>
      (f.mime == "image/jpeg" || f.mime == "image/png" || f.mime == "image/webp") && f.size <= 5242880
    ensures !IsValidImageFile(f) ==> r == BadType
    ensures r == TooLarge <==> IsValidImageFile(f) && f.size > MaxBytes
  {
    if !IsValidImageFile(f) then BadType
    else if f.size > MaxBytes then TooLarge
    else Accepted
  }

  /** What a submission or a confirmation amounts to once its reply is in. */
  datatype Outcome =
    | Conflicted(conflicts: seq<Conflict>, tempPath: Option<string>)
    | Committed(url: Option<string>)
    | Failed(text: string)

  /** The branches of `handleUpload` after the request. A reply that is not
      a conflict and has no `profilePicture` makes the handler read `.url`
      of `undefined`; that `TypeError` has no `response`, so the catch shows
      the fallback text. */
  function ClassifyUpload(reply: Response<UploadReply>): (r: Outcome)
    ensures r.Conflicted? <==> reply.Ok? && !reply.data.success && reply.data.conflicts.Some?
    ensures r.Conflicted? ==> r.conflicts == reply.data.conflicts.value && r.tempPath == reply.data.tempPath
    ensures r.Committed? <==>
      reply.Ok? && (reply.data.success || reply.data.conflicts.None?) && reply.data.profilePicture.Some?
    ensures r.Committed? ==> r.url == reply.data.profilePicture.value.url
    ensures r.Failed? && reply.Ok? ==> r.text == UploadErrorText
    ensures r.Failed? ==> r.text == UploadErrorText || (reply.Thrown? && reply.errorField == Some(r.text))
    ensures reply.Thrown? ==> r == Failed(ErrorText(reply, UploadErrorText))
  {
    match reply
    case Thrown(_, _) => Failed(ErrorText(reply, UploadErrorText))
    case Ok(d) =>
      if !d.success && d.conflicts.Some? then Conflicted(d.conflicts.value, d.tempPath)
      else if d.profilePicture.Some? then Committed(d.profilePicture.value.url)
      else Failed(UploadErrorText)
  }

  /** The branches of `handleConfirmUpload`: any 2xx reply carrying a
      `profilePicture` commits; anything else is a failure. */
  function ClassifyConfirm(reply: Response<ResolveReply>): (r: Outcome)
    ensures !r.Conflicted?
    ensures r.Committed? <==> reply.Ok? && reply.data.profilePicture.Some?
    ensures r.Committed? ==> r.url == reply.data.profilePicture.value.url
    ensures r.Failed? ==> r.text == ConfirmErrorText || (reply.Thrown? && reply.errorField == Some(r.text))
    ensures reply.Thrown? ==> r == Failed(ErrorText(reply, ConfirmErrorText))
  {
    match reply
    case Thrown(_, _) => Failed(ErrorText(reply, ConfirmErrorText))
    case Ok(d) =>
      if d.profilePicture.Some? then Committed(d.profilePicture.value.url)
      else Failed(ConfirmErrorText)
  }

  /** The component's state, one field per `useState` hook. */
  class Uploader {
    var file: Option<File>
    var preview: Option<Preview>
    var conflicts: seq<Conflict>
    var tempPath: Option<string>
    var similarityDialog: bool
    var currentPicture: Option<string>
    var loading: bool
    var message: Option<Message>
    /** The requests sent to the back end so far, oldest first. */
    ghost var requests: seq<Request>

    /** A tentative server-side upload is held only while the conflict
        dialog is open, and no request is in flight between two handlers. */
    ghost predicate Valid()
      reads this
    {
      (tempPath.Some? ==> similarityDialog) && !loading
    }

    constructor ()
      ensures Valid()
      ensures file.None? && preview.None? && conflicts == [] && tempPath.None?
      ensures !similarityDialog && currentPicture.None? && message.None? && requests == []
    {
      file, preview, conflicts, tempPath := None, None, [], None;
      similarityDialog, currentPicture, loading, message := false, None, false, None;
      requests := [];
    }

    /** The effect that copies the signed-in user's picture URL, when it is truthy. */
    method SyncUserPicture(url: Option<string>)
      requires Valid()
      modifies this`currentPicture
      ensures Valid()
      ensures currentPicture == if Truthy(url) then url else old(currentPicture)
    {
      if Truthy(url) {
        currentPicture := url;
      }
    }

    /** `handleFileChange`; `selected` is `event.target.files[0]`. No request is
        sent: `requests` is outside the frame. */
    method HandleFileChange(selected: Option<File>)
      requires Valid()
      modifies this`file, this`message
      ensures Valid()
      ensures selected.None? ==> file == old(file) && message == old(message)
      ensures selected.Some? && CheckSelection(selected.value) == Accepted ==>
        file == selected && message.None?
      ensures selected.Some? && CheckSelection(selected.value) == BadType ==>
        file == old(file) && message == Some(Message(Error, InvalidTypeText))
      ensures selected.Some? && CheckSelection(selected.value) == TooLarge ==>
        file == old(file) && message == Some(Message(Error, TooLargeText))
    {
      if selected.Some? {
        var f := selected.value;
        if !IsValidImageFile(f) {
          message := Some(Message(Error, InvalidTypeText));
          return;
        }
        if f.size > MaxBytes {
          message := Some(Message(Error, TooLargeText));
          return;
        }
        file := selected;
        message := None;
      }
    }

    /** The FileReader's `onloadend` callback for an accepted file. */
    method OnPreviewLoaded(p: Preview)
      requires Valid()
      modifies this`preview
      ensures Valid()
      ensures preview == Some(p)
    {
      preview := Some(p);
    }

    /** `handleUpload`, with `reply` the outcome of the awaited submission. */
    method HandleUpload(reply: Response<UploadReply>)
      requires Valid()
      modifies this`loading, this`message, this`conflicts, this`tempPath, this`similarityDialog
      modifies this`currentPicture, this`file, this`preview, this`requests
      ensures Valid()
      ensures old(file).None? ==>
        && message == Some(Message(Error, NoFileText))
        && requests == old(requests)
        && file == old(file) && preview == old(preview) && currentPicture == old(currentPicture)
        && conflicts == old(conflicts) && tempPath == old(tempPath) && similarityDialog == old(similarityDialog)
      ensures old(file).Some? ==> requests == old(requests) + [SubmitPicture(old(file).value)]
      ensures old(file).Some? && ClassifyUpload(reply).Conflicted? ==>
        && conflicts == ClassifyUpload(reply).conflicts
        && tempPath == ClassifyUpload(reply).tempPath
        && similarityDialog
        && message == old(message)
        && currentPicture == old(currentPicture) && file == old(file) && preview == old(preview)
      ensures old(file).Some? && ClassifyUpload(reply).Committed? ==>
        && currentPicture == ClassifyUpload(reply).url
        && file.None? && preview.None?
        && message == Some(Message(Success, UploadedText))
        && conflicts == old(conflicts) && tempPath == old(tempPath) && similarityDialog == old(similarityDialog)
      ensures old(file).Some? && ClassifyUpload(reply).Failed? ==>
        && message == Some(Message(Error, ClassifyUpload(reply).text))
        && currentPicture == old(currentPicture) && file == old(file) && preview == old(preview)
        && conflicts == old(conflicts) && tempPath == old(tempPath) && similarityDialog == old(similarityDialog)
    {
      if file.None? {
        message := Some(Message(Error, NoFileText));
        return;
      }
      loading := true;
      requests := requests + [SubmitPicture(file.value)];
      match ClassifyUpload(reply) {
        case Conflicted(cs, tp) =>
          conflicts := cs;
          tempPath := tp;
          similarityDialog := true;
        case Committed(url) =>
          message := Some(Message(Success, UploadedText));
          currentPicture := url;
          file := None;
          preview := None;
        case Failed(text) =>
          message := Some(Message(Error, text));
      }
      loading := false;
    }

    /** `handleConfirmUpload`: ask the server to keep the tentative upload. */
    method HandleConfirmUpload(reply: Response<ResolveReply>)
      requires Valid()
      modifies this`loading, this`message, this`currentPicture, this`similarityDialog
      modifies this`file, this`preview, this`tempPath, this`requests
      ensures Valid()
      ensures requests == old(requests) + [ResolveConflict(old(tempPath), Proceed)]
      ensures ClassifyConfirm(reply).Committed? ==>
        && currentPicture == ClassifyConfirm(reply).url
        && !similarityDialog && file.None? && preview.None? && tempPath.None?
        && message == Some(Message(Success, ConfirmedText))
      ensures ClassifyConfirm(reply).Failed? ==>
        && message == Some(Message(Error, ClassifyConfirm(reply).text))
        && similarityDialog == old(similarityDialog) && tempPath == old(tempPath)
        && currentPicture == old(currentPicture) && file == old(file) && preview == old(preview)
    {
      loading := true;
      requests := requests + [ResolveConflict(tempPath, Proceed)];
      var outcome := ClassifyConfirm(reply);
      if outcome.Committed? {
        message := Some(Message(Success, ConfirmedText));
        currentPicture := outcome.url;
        similarityDialog := false;
        file := None;
        preview := None;
        tempPath := None;
      } else {
        message := Some(Message(Error, outcome.text));
      }
      loading := false;
    }

    /** `handleCancelUpload`, also the dialog's `onClose`. The cancel request
        goes out only for a truthy `tempPath`; its `reply` is only logged, so
        the local pending state is cleared whatever it is. */
    method HandleCancelUpload(reply: Response<ResolveReply>)
      requires Valid()
      modifies this`similarityDialog, this`file, this`preview, this`tempPath, this`requests
      ensures Valid()
      ensures requests ==
        if Truthy(old(tempPath)) then old(requests) + [ResolveConflict(old(tempPath), Cancel)]
        else old(requests)
      ensures !similarityDialog && file.None? && preview.None? && tempPath.None?
    {
      if Truthy(tempPath) {
        requests := requests + [ResolveConflict(tempPath, Cancel)];
      }
      similarityDialog := false;
      file := None;
      preview := None;
      tempPath := None;
    }
  }
}

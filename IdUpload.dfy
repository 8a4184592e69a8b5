/** The national-ID page: choose a document, submit it, and move on to the
    profile page once the server has accepted it. */
module IdUpload {
  import opened Api

  /** A file picked in the browser; only its size is checked. */
  datatype File = File(name: string, size: nat)

  /** `data` of `POST /verify/national-id`; an absent `success` is falsy. */
  datatype UploadReply = UploadReply(success: bool, message: Option<string>)

  datatype Request = SubmitNationalId(file: File)

  const MaxBytes: nat := 5 * 1024 * 1024
  const ProfilePath := "/profile"

  const TooLargeText := "File size must be less than 5MB"
  const NoFileText := "Please select a file to upload"
  const VerifiedText := "ID verified successfully!"
  const UploadErrorText := "Error uploading ID"

  /** The alert the code builds from a 2xx reply: the fallback text is the
      success text whatever `success` says. */
  function ReplyMessageAsWritten(d: UploadReply): (r: Message)
    ensures r.kind == Success <==> d.success
    ensures Truthy(d.message) ==> r.text == d.message.value
    ensures !Truthy(d.message) ==> r.text == VerifiedText
  {
    Message(if d.success then Success else Error, OrElse(d.message, VerifiedText))
  }

  /** A rejection that carries no message is reported as an error whose text
      says the ID was verified. */
  lemma RejectionReadsAsVerified()
    ensures ReplyMessageAsWritten(UploadReply(false, None)) == Message(Error, "ID verified successfully!")
  {
  }

  /** The alert as evidently intended: each outcome falls back to its own text. */
  function ReplyMessage(d: UploadReply): (r: Message)
    ensures r.kind == Success <==> d.success
    ensures d.message.Some? && d.message.value != "" ==> r.text == d.message.value
    ensures r.text == VerifiedText ==> d.success || d.message == Some(VerifiedText)
    ensures r.text == UploadErrorText ==> !d.success || d.message == Some(UploadErrorText)
    ensures !Truthy(d.message) ==> r.text == (if d.success then VerifiedText else UploadErrorText)
  {
    Message(if d.success then Success else Error,
            OrElse(d.message, if d.success then VerifiedText else UploadErrorText))
  }

  /** The correction changes only replies that reject without a message. */
  lemma ReplyMessageCorrectsOnlyBareRejections(d: UploadReply)
    ensures ReplyMessage(d) != ReplyMessageAsWritten(d) <==>
      !d.success && (d.message.None? || d.message.value == "")
  {
  }

  /** The component's state, with the file input's current selection. */
  class IdUploader {
    var file: Option<File>
    var loading: bool
    var message: Option<Message>
    /** What the `<input type="file">` element currently holds. */
    var input: Option<File>
    /** The requests sent to the back end so far, oldest first. */
    ghost var requests: seq<Request>

    /** The effect on `message`: a success message schedules the move to the
        profile page; any other message cancels it. */
    function PendingNavigation(): Option<string>
      reads this
    {
      if message.Some? && message.value.kind == Success then Some(ProfilePath) else None
    }

    ghost predicate Valid()
      reads this
    {
      !loading
    }

    constructor ()
      ensures Valid()
      ensures file.None? && message.None? && input.None? && requests == []
    {
      file, loading, message, input := None, false, None, None;
      requests := [];
    }

    /** `handleFileChange`; the browser has already put `selected` in the
        input. Only the size is checked, and no request is sent. */
    method HandleFileChange(selected: Option<File>)
      requires Valid()
      modifies this`file, this`message, this`input
      ensures Valid()
      ensures selected.None? ==> file == old(file) && message == old(message) && input.None?
      ensures selected.Some? && selected.value.size > MaxBytes ==>
        file == old(file) && message == Some(Message(Error, TooLargeText)) && input.None?
      ensures selected.Some? && selected.value.size <= MaxBytes ==>
        file == selected && message.None? && input == selected
      ensures PendingNavigation().None? || (selected.None? && old(PendingNavigation()).Some?)
    {
      input := selected;
      if selected.Some? {
        if selected.value.size > MaxBytes {
          message := Some(Message(Error, TooLargeText));
          input := None;
          return;
        }
        file := selected;
        message := None;
      }
    }

    /** `handleUpload`, with `reply` the outcome of the awaited submission. */
    method HandleUpload(reply: Response<UploadReply>)
      requires Valid()
      modifies this`file, this`loading, this`message, this`input, this`requests
      ensures Valid()
      ensures old(file).None? ==>
        && message == Some(Message(Error, NoFileText))
        && requests == old(requests) && file == old(file) && input == old(input)
      ensures old(file).Some? ==> requests == old(requests) + [SubmitNationalId(old(file).value)]
      ensures old(file).Some? && reply.Ok? ==> message == Some(ReplyMessageAsWritten(reply.data))
      ensures old(file).Some? && reply.Ok? && reply.data.success ==> file.None? && input.None?
      ensures old(file).Some? && reply.Ok? && !reply.data.success ==> file == old(file) && input == old(input)
      ensures old(file).Some? && reply.Thrown? ==>
        && message == Some(Message(Error, ErrorText(reply, UploadErrorText)))
        && file == old(file) && input == old(input)
      ensures PendingNavigation() == Some(ProfilePath) <==> old(file).Some? && reply.Ok? && reply.data.success
    {
      if file.None? {
        message := Some(Message(Error, NoFileText));
        return;
      }
      loading := true;
      requests := requests + [SubmitNationalId(file.value)];
      if reply.Ok? {
        message := Some(ReplyMessageAsWritten(reply.data));
        if reply.data.success {
          file := None;
          input := None;
        }
      } else {
        message := Some(Message(Error, ErrorText(reply, UploadErrorText)));
      }
      loading := false;
    }
  }
}

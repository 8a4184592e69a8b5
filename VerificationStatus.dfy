/** The verification-status page: three flags reported by the server are
    folded into one position on a four-stage linear progress indicator. */
module VerificationStatus {
  import opened Api

  /** The labels of the stepper, in order. */
  const Steps: seq<string> := [
    "LinkedIn Authentication",
    "National ID Verification",
    "Profile Picture Verification",
    "Verification Complete"
  ]

  const FetchErrorText := "Error fetching verification status"

  /** `verificationDetails`; shown as is, so opaque here. */
  datatype Details = Details(name: string, email: string)

  /** `response.data` of `GET /verification/status`; absent flags are falsy. */
  datatype StatusReply = StatusReply(
    linkedInVerified: bool,
    idVerified: bool,
    pictureVerified: bool,
    details: Option<Details>)

  /** The active step, chosen by the if-chain of `fetchVerificationStatus`. */
  function ActiveStep(linkedIn: bool, id: bool, picture: bool): (r: nat)
    ensures r < |Steps|
  {
    if linkedIn && id && picture then 3
    else if linkedIn && id then 2
    else if linkedIn then 1
    else 0
  }

  /** Reference definition: how many stages, taken in order, are complete
      before the first incomplete one. */
  function VerifiedPrefix(flags: seq<bool>): (r: nat)
    ensures r <= |flags|
  {
    if flags == [] || !flags[0] then 0 else 1 + VerifiedPrefix(flags[1..])
  }

  /** The step is the length of the verified prefix of (LinkedIn, ID, picture):
      a later flag counts only when every earlier one is set. */
  lemma ActiveStepIsVerifiedPrefix(linkedIn: bool, id: bool, picture: bool)
    ensures ActiveStep(linkedIn, id, picture) == VerifiedPrefix([linkedIn, id, picture])
  {
    var flags := [linkedIn, id, picture];
    assert flags[1..] == [id, picture];
    assert flags[1..][1..] == [picture];
    assert flags[1..][1..][1..] == [];
    assert VerifiedPrefix([picture]) == if picture then 1 else 0;
    assert VerifiedPrefix([id, picture]) == if id then 1 + VerifiedPrefix([picture]) else 0;
  }

  /** Setting more flags never shortens the verified prefix. */
  lemma {:induction false} VerifiedPrefixMonotone(a: seq<bool>, b: seq<bool>)
    requires |a| == |b|
    requires forall k :: 0 <= k < |a| && a[k] ==> b[k]
    ensures VerifiedPrefix(a) <= VerifiedPrefix(b)
  {
    if a != [] && a[0] {
      VerifiedPrefixMonotone(a[1..], b[1..]);
    }
  }

  /** Turning any flag from false to true never lowers the step. */
  lemma ActiveStepMonotone(l: bool, i: bool, p: bool, l': bool, i': bool, p': bool)
    requires l ==> l'
    requires i ==> i'
    requires p ==> p'
    ensures ActiveStep(l, i, p) <= ActiveStep(l', i', p')
  {
    ActiveStepIsVerifiedPrefix(l, i, p);
    ActiveStepIsVerifiedPrefix(l', i', p');
    VerifiedPrefixMonotone([l, i, p], [l', i', p']);
  }

  /** The component's state, one field per `useState` hook. */
  class StatusView {
    var activeStep: nat
    var loading: bool
    var error: Option<string>
    var details: Option<Details>

    /** The active step always indexes the stepper's labels. */
    ghost predicate Valid()
      reads this
    {
      activeStep < |Steps|
    }

    constructor ()
      ensures Valid()
      ensures activeStep == 0 && loading && error.None? && details.None?
    {
      activeStep, loading, error, details := 0, true, None, None;
    }

    /** `fetchVerificationStatus`; the message of a failure is the server's
        `message` field or the fallback. */
    method FetchVerificationStatus(reply: Response<StatusReply>)
      requires Valid()
      modifies this`activeStep, this`loading, this`error, this`details
      ensures Valid()
      ensures !loading
      ensures reply.Ok? ==>
        && activeStep == ActiveStep(reply.data.linkedInVerified, reply.data.idVerified, reply.data.pictureVerified)
        && details == reply.data.details
        && error == old(error)
      ensures reply.Thrown? ==>
        && activeStep == old(activeStep)
        && details == old(details)
        && error == Some(OrElse(reply.messageField, FetchErrorText))
    {
      if reply.Ok? {
        var d := reply.data;
        details := d.details;
        activeStep := ActiveStep(d.linkedInVerified, d.idVerified, d.pictureVerified);
      } else {
        error := Some(OrElse(reply.messageField, FetchErrorText));
      }
      loading := false;
    }
  }
}

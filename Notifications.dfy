/** The notification centre: a list of notifications and an unread counter,
    both fetched from the server, with a bulk mark-read action and per-item
    approve/reject decisions on picture-similarity requests. */
module Notifications {
  import opened Api

  /** One notification as the server sends it; an absent `resolved` is falsy. */
  datatype Notification = Notification(id: string, kind: string, message: string, status: string, resolved: bool)

  /** `response.data` of `GET /notifications`. */
  datatype ListReply = ListReply(notifications: Option<seq<Notification>>)

  /** `response.data` of `GET /notifications/unread-count`. */
  datatype CountReply = CountReply(count: Option<int>)

  /** The body of `PUT /notifications/mark-all-read` is never read. */
  datatype Ack = Ack

  /** `response.data` of `POST /notifications/profile-picture-decision`. */
  datatype DecisionReply = DecisionReply(success: bool, message: Option<string>)

  datatype Decision = Approve | Reject

  datatype Request =
    | GetList
    | GetUnreadCount
    | PutMarkAllRead
    | PostDecision(id: string, action: Decision)

  const SimilarityKind := "PROFILE_PICTURE_SIMILARITY"
  const ApprovedKind := "PROFILE_PICTURE_APPROVED"
  const RejectedKind := "PROFILE_PICTURE_REJECTED"

  const FetchFailedText := "Failed to fetch notifications"
  const MarkedReadText := "All notifications marked as read"
  const MarkReadFailedText := "Failed to mark notifications as read"

  /** The `action` string sent to the server and spliced into the toasts. */
  function ActionName(a: Decision): string {
    match a
    case Approve => "approve"
    case Reject => "reject"
  }

  /** The success toast as the code builds it: `${action}ed`. */
  function SuccessTextAsWritten(a: Decision): string {
    "Profile picture successfully " + ActionName(a) + "ed"
  }

  /** For "approve" the template doubles the final e. */
  lemma SuccessTextAsWrittenMisspellsApprove()
    ensures SuccessTextAsWritten(Approve) == "Profile picture successfully approveed"
    ensures SuccessTextAsWritten(Approve) != "Profile picture successfully approved"
  {
  }

  /** The past participle of a regular English verb: a final e takes only a d. */
  function PastParticiple(verb: string): (r: string)
    ensures |verb| > 0 && verb[|verb| - 1] == 'e' ==> r == verb + "d"
    ensures !(|verb| > 0 && verb[|verb| - 1] == 'e') ==> r == verb + "ed"
  {
    if |verb| > 0 && verb[|verb| - 1] == 'e' then verb + "d" else verb + "ed"
  }

  /** The success toast as evidently intended. */
  function SuccessText(a: Decision): string {
    "Profile picture successfully " + PastParticiple(ActionName(a))
  }

  /** The intended toast names the decision in the past tense, and it differs
      from the code's only for "approve". */
  lemma SuccessTextIsPastTense(a: Decision)
    ensures SuccessText(a) == if a == Approve then "Profile picture successfully approved"
                              else "Profile picture successfully rejected"
    ensures SuccessText(a) == SuccessTextAsWritten(a) <==> a == Reject
  {
  }

  /** The toast of a decision that did not go through. */
  function FailureText(a: Decision, reply: Response<DecisionReply>): (r: string)
    ensures reply.Thrown? ==> r == "Failed to " + ActionName(a) + " profile picture"
    ensures reply.Ok? ==> r == OrElse(reply.data.message, "Failed to " + ActionName(a) + " profile picture")
  {
    var fallback := "Failed to " + ActionName(a) + " profile picture";
    match reply
    case Ok(d) => OrElse(d.message, fallback)
    case Thrown(_, _) => fallback
  }

  /** `Math.max(0, prev - 1)`: one fewer unread notification, never below zero. */
  function FloorDecrement(c: int): (r: int)
    ensures r >= 0
    ensures c >= 1 ==> r == c - 1
    ensures c <= 1 ==> r == 0
    ensures r <= c || c < 0
  {
    if c - 1 > 0 then c - 1 else 0
  }

  /** `prev.filter(n => n._id !== notificationId)`. */
  function RemoveById(xs: seq<Notification>, id: string): (r: seq<Notification>)
    ensures |r| <= |xs|
    ensures forall i :: 0 <= i < |r| ==> r[i].id != id
  {
    if xs == [] then []
    else if xs[0].id == id then RemoveById(xs[1..], id)
    else [xs[0]] + RemoveById(xs[1..], id)
  }

  /** How many notifications carry the given id. */
  function CountId(xs: seq<Notification>, id: string): nat {
    if xs == [] then 0 else (if xs[0].id == id then 1 else 0) + CountId(xs[1..], id)
  }

  /** Exactly the notifications with another id survive. */
  lemma {:induction false} RemoveByIdMembers(xs: seq<Notification>, id: string, n: Notification)
    ensures n in RemoveById(xs, id) <==> n in xs && n.id != id
  {
    if xs != [] {
      RemoveByIdMembers(xs[1..], id, n);
      assert xs == [xs[0]] + xs[1..];
    }
  }

  /** Filtering commutes with concatenation, so survivors keep their order. */
  lemma {:induction false} RemoveByIdAppend(xs: seq<Notification>, ys: seq<Notification>, id: string)
    ensures RemoveById(xs + ys, id) == RemoveById(xs, id) + RemoveById(ys, id)
  {
    if xs == [] {
      assert xs + ys == ys;
    } else {
      assert (xs + ys)[1..] == xs[1..] + ys;
      RemoveByIdAppend(xs[1..], ys, id);
    }
  }

  /** One element is dropped for each occurrence of the id, and no other. */
  lemma {:induction false} RemoveByIdLength(xs: seq<Notification>, id: string)
    ensures |RemoveById(xs, id)| == |xs| - CountId(xs, id)
  {
    if xs != [] {
      RemoveByIdLength(xs[1..], id);
    }
  }

  /** Removing an id that no notification carries changes nothing. */
  lemma {:induction false} RemoveByIdAbsent(xs: seq<Notification>, id: string)
    requires forall i :: 0 <= i < |xs| ==> xs[i].id != id
    ensures RemoveById(xs, id) == xs
  {
    if xs != [] {
      RemoveByIdAbsent(xs[1..], id);
    }
  }

  /** Repeating an action's removal removes nothing more. */
  lemma RemoveByIdIdempotent(xs: seq<Notification>, id: string)
    ensures RemoveById(RemoveById(xs, id), id) == RemoveById(xs, id)
  {
    RemoveByIdAbsent(RemoveById(xs, id), id);
  }

  /** The subtitle shown for a notification type. */
  function Title(kind: string): (r: string)
    ensures r == "Notification" <==> kind != SimilarityKind && kind != ApprovedKind && kind != RejectedKind
    ensures kind == SimilarityKind ==> r == "Profile Picture Request"
    ensures kind == ApprovedKind ==> r == "Profile Picture Approved"
    ensures kind == RejectedKind ==> r == "Profile Picture Rejected"
  {
    if kind == SimilarityKind then "Profile Picture Request"
    else if kind == ApprovedKind then "Profile Picture Approved"
    else if kind == RejectedKind then "Profile Picture Rejected"
    else "Notification"
  }

  /** What the list shows for one notification. */
  datatype RowView = RowView(title: string, actionsShown: bool, actionsDisabled: bool)

  function View(n: Notification, actionLoading: Option<string>): (r: RowView)
    ensures r.actionsShown <==> n.kind == SimilarityKind && !n.resolved
    ensures r.actionsShown ==> r.title == "Profile Picture Request"
    ensures r.actionsDisabled <==> actionLoading == Some(n.id)
    ensures r.title == Title(n.kind)
  {
    RowView(Title(n.kind), n.kind == SimilarityKind && !n.resolved, actionLoading == Some(n.id))
  }

  /** `response.data.notifications || []`: an absent list reads as empty. */
  function ListOrEmpty(l: Option<seq<Notification>>): (r: seq<Notification>)
    ensures l.Some? ==> r == l.value
    ensures l.None? ==> r == []
  {
    if l.Some? then l.value else []
  }

  /** `response.data.count || 0`. */
  function CountOrZero(c: Option<int>): (r: int)
    ensures c.Some? ==> r == c.value
    ensures c.None? ==> r == 0
  {
    if c.Some? then c.value else 0
  }

  /** A decision went through only on a 2xx reply with a truthy `success`. */
  predicate Succeeded(reply: Response<DecisionReply>) {
    reply.Ok? && reply.data.success
  }

  /** The component's state, one field per `useState` hook that the logic uses. */
  class NotificationCentre {
    var notifications: seq<Notification>
    var unreadCount: int
    var loading: bool
    var actionLoading: Option<string>
    var snackbar: Option<Message>
    /** The requests sent to the back end so far, oldest first. */
    ghost var requests: seq<Request>

    constructor ()
      ensures notifications == [] && unreadCount == 0 && !loading && actionLoading.None?
      ensures snackbar.None? && requests == []
    {
      notifications, unreadCount, loading, actionLoading := [], 0, false, None;
      snackbar, requests := None, [];
    }

    /** The row for a notification, as rendered from the current state. */
    function RowOf(n: Notification): RowView
      reads this
    {
      View(n, actionLoading)
    }

    /** `fetchNotifications`. */
    method FetchNotifications(reply: Response<ListReply>)
      modifies this`notifications, this`loading, this`snackbar, this`requests
      ensures requests == old(requests) + [GetList]
      ensures !loading
      ensures reply.Ok? ==> notifications == ListOrEmpty(reply.data.notifications) && snackbar == old(snackbar)
      ensures reply.Thrown? ==>
        notifications == old(notifications) && snackbar == Some(Message(Error, FetchFailedText))
    {
      loading := true;
      requests := requests + [GetList];
      if reply.Ok? {
        notifications := ListOrEmpty(reply.data.notifications);
      } else {
        snackbar := Some(Message(Error, FetchFailedText));
      }
      loading := false;
    }

    /** `fetchUnreadCount`; a failure is only logged. */
    method FetchUnreadCount(reply: Response<CountReply>)
      modifies this`unreadCount, this`requests
      ensures requests == old(requests) + [GetUnreadCount]
      ensures unreadCount == if reply.Ok? then CountOrZero(reply.data.count) else old(unreadCount)
    {
      requests := requests + [GetUnreadCount];
      if reply.Ok? {
        unreadCount := CountOrZero(reply.data.count);
      }
    }

    /** The mount effect: the list, then the count. */
    method Mount(listReply: Response<ListReply>, countReply: Response<CountReply>)
      modifies this`notifications, this`loading, this`snackbar, this`unreadCount, this`requests
      ensures requests == old(requests) + [GetList, GetUnreadCount]
      ensures notifications == if listReply.Ok? then ListOrEmpty(listReply.data.notifications) else old(notifications)
      ensures unreadCount == if countReply.Ok? then CountOrZero(countReply.data.count) else old(unreadCount)
      ensures snackbar == if listReply.Ok? then old(snackbar) else Some(Message(Error, FetchFailedText))
      ensures !loading
    {
      FetchNotifications(listReply);
      FetchUnreadCount(countReply);
    }

    /** `handleMarkAllRead`: the count is zeroed only once the request has
        succeeded, and only then is the list fetched again (`refetch` is that
        fetch's outcome; its failure toast arrives after the success toast). */
    method HandleMarkAllRead(reply: Response<Ack>, refetch: Response<ListReply>)
      modifies this`notifications, this`loading, this`snackbar, this`unreadCount, this`requests
      ensures reply.Ok? ==>
        && unreadCount == 0
        && requests == old(requests) + [PutMarkAllRead, GetList]
        && notifications == (if refetch.Ok? then ListOrEmpty(refetch.data.notifications) else old(notifications))
        && snackbar == Some(if refetch.Ok? then Message(Success, MarkedReadText) else Message(Error, FetchFailedText))
        && !loading
      ensures reply.Thrown? ==>
        && unreadCount == old(unreadCount)
        && requests == old(requests) + [PutMarkAllRead]
        && notifications == old(notifications)
        && snackbar == Some(Message(Error, MarkReadFailedText))
        && loading == old(loading)
    {
      requests := requests + [PutMarkAllRead];
      if reply.Ok? {
        unreadCount := 0;
        snackbar := Some(Message(Success, MarkedReadText));
        FetchNotifications(refetch);
      } else {
        snackbar := Some(Message(Error, MarkReadFailedText));
      }
    }

    /** The first half of `handleNotificationAction`, up to the awaited
        request: the state rendered while the decision is in flight. */
    method StartAction(id: string, action: Decision)
      modifies this`actionLoading, this`requests
      ensures actionLoading == Some(id)
      ensures requests == old(requests) + [PostDecision(id, action)]
      ensures forall n :: RowOf(n).actionsDisabled <==> n.id == id
    {
      actionLoading := Some(id);
      requests := requests + [PostDecision(id, action)];
    }

    /** The second half of `handleNotificationAction`, once `reply` is in. */
    method FinishAction(id: string, action: Decision, reply: Response<DecisionReply>)
      modifies this`notifications, this`unreadCount, this`actionLoading, this`snackbar
      ensures actionLoading.None?
      ensures forall n :: !RowOf(n).actionsDisabled
      ensures Succeeded(reply) ==>
        && notifications == RemoveById(old(notifications), id)
        && unreadCount == FloorDecrement(old(unreadCount))
        && snackbar == Some(Message(Success, SuccessTextAsWritten(action)))
      ensures !Succeeded(reply) ==>
        && notifications == old(notifications)
        && unreadCount == old(unreadCount)
        && snackbar == Some(Message(Error, FailureText(action, reply)))
    {
      if Succeeded(reply) {
        snackbar := Some(Message(Success, SuccessTextAsWritten(action)));
        notifications := RemoveById(notifications, id);
        unreadCount := FloorDecrement(unreadCount);
      } else {
        snackbar := Some(Message(Error, FailureText(action, reply)));
      }
      actionLoading := None;
    }

    /** `handleNotificationAction` from click to `finally`. */
    method HandleNotificationAction(id: string, action: Decision, reply: Response<DecisionReply>)
      modifies this`notifications, this`unreadCount, this`actionLoading, this`snackbar, this`requests
      ensures requests == old(requests) + [PostDecision(id, action)]
      ensures actionLoading.None?
      ensures Succeeded(reply) ==>
        && notifications == RemoveById(old(notifications), id)
        && unreadCount == FloorDecrement(old(unreadCount))
      ensures !Succeeded(reply) ==>
        notifications == old(notifications) && unreadCount == old(unreadCount)
      ensures snackbar == Some(if Succeeded(reply) then Message(Success, SuccessTextAsWritten(action))
                               else Message(Error, FailureText(action, reply)))
    {
      StartAction(id, action);
      FinishAction(id, action, reply);
    }
  }
}

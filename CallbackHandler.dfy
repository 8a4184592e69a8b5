/** The OAuth callback page: the provider redirects here with a one-time
    `code`, which is exchanged for a session at most once per mount. */
module Callback {
  import opened Api

  datatype User = User(id: string)

  /** `response.data` of `POST /auth/exchange-code`; either part may be missing. */
  datatype ExchangeReply = ExchangeReply(token: Option<string>, user: Option<User>)

  /** What the handler does to the outside world, in order. */
  datatype Effect =
    | ExchangeCode(code: string)
    | Login(token: string, user: User)
    | Navigate(path: string)

  const LoginPath := "/login"
  const FailedPath := "/login?error=auth_failed"
  const ProfilePath := "/profile"

  /** A reply that can start a session: a truthy token and a user object. */
  predicate IsSession(d: ExchangeReply) {
    Truthy(d.token) && d.user.Some?
  }

  /** How many code exchanges a run of effects contains. */
  function Exchanges(effects: seq<Effect>): nat {
    if effects == [] then 0
    else (if effects[0].ExchangeCode? then 1 else 0) + Exchanges(effects[1..])
  }

  /** The exchanges of a concatenation add up. */
  lemma {:induction false} ExchangesAppend(a: seq<Effect>, b: seq<Effect>)
    ensures Exchanges(a + b) == Exchanges(a) + Exchanges(b)
  {
    if a == [] {
      assert a + b == b;
    } else {
      assert (a + b)[1..] == a[1..] + b;
      ExchangesAppend(a[1..], b);
    }
  }

  /** A run with no exchange in it counts none. */
  lemma {:induction false} NoExchanges(s: seq<Effect>)
    requires forall i :: 0 <= i < |s| ==> !s[i].ExchangeCode?
    ensures Exchanges(s) == 0
  {
    if s != [] {
      NoExchanges(s[1..]);
    }
  }

  /** The effects of the one run of `handleCallback` that gets past the latch.
      `code` is `params.get('code')`, `reply` the outcome of the exchange, and
      `loginThrows` whether the session store's `login` rejected. */
  function FirstRun(code: Option<string>, reply: Response<ExchangeReply>, loginThrows: bool): (r: seq<Effect>)
    ensures Exchanges(r) == (if Truthy(code) then 1 else 0)
    ensures !Truthy(code) ==> r == [Navigate(LoginPath)]
    ensures Truthy(code) ==> |r| >= 2 && r[0] == ExchangeCode(code.value)
    ensures |r| > 0 && r[|r| - 1].Navigate?
    ensures r[|r| - 1] == Navigate(ProfilePath) <==>
      Truthy(code) && reply.Ok? && IsSession(reply.data) && !loginThrows
    ensures r[|r| - 1] == Navigate(ProfilePath) ==>
      r[|r| - 2] == Login(reply.data.token.value, reply.data.user.value)
    ensures Truthy(code) && !(reply.Ok? && IsSession(reply.data)) ==>
      r == [ExchangeCode(code.value), Navigate(FailedPath)]
    ensures Truthy(code) && reply.Ok? && IsSession(reply.data) ==>
      r == [ExchangeCode(code.value), Login(reply.data.token.value, reply.data.user.value),
            Navigate(if loginThrows then FailedPath else ProfilePath)]
  {
    if !Truthy(code) then [Navigate(LoginPath)]
    else
      var tail :=
        if reply.Ok? && IsSession(reply.data) then
          [Login(reply.data.token.value, reply.data.user.value),
           Navigate(if loginThrows then FailedPath else ProfilePath)]
        else [Navigate(FailedPath)];
      NoExchanges(tail);
      ExchangesAppend([ExchangeCode(code.value)], tail);
      [ExchangeCode(code.value)] + tail
  }

  /** The component's `exchangeAttempted` ref and what it has done so far. */
  class CallbackHandler {
    var exchangeAttempted: bool
    ghost var effects: seq<Effect>

    /** Nothing happens before the latch is set, and at most one exchange ever. */
    ghost predicate Valid()
      reads this
    {
      (!exchangeAttempted ==> effects == []) && Exchanges(effects) <= 1
    }

    constructor ()
      ensures Valid()
      ensures !exchangeAttempted && effects == []
    {
      exchangeAttempted := false;
      effects := [];
    }

    /** One firing of the effect. The latch is set before anything is awaited,
        so every later firing returns at once, whatever its `code`. */
    method HandleCallback(code: Option<string>, reply: Response<ExchangeReply>, loginThrows: bool)
      requires Valid()
      modifies this`exchangeAttempted, this`effects
      ensures Valid()
      ensures exchangeAttempted
      ensures effects == if old(exchangeAttempted) then old(effects) else FirstRun(code, reply, loginThrows)
    {
      if exchangeAttempted {
        return;
      }
      exchangeAttempted := true;
      ghost var run := FirstRun(code, reply, loginThrows);
      if !Truthy(code) {
        effects := effects + [Navigate(LoginPath)];
        assert effects == run;
        return;
      }
      effects := effects + [ExchangeCode(code.value)];
      if reply.Thrown? || !IsSession(reply.data) {
        effects := effects + [Navigate(FailedPath)];
        assert effects == run;
        return;
      }
      effects := effects + [Login(reply.data.token.value, reply.data.user.value)];
      if loginThrows {
        effects := effects + [Navigate(FailedPath)];
      } else {
        effects := effects + [Navigate(ProfilePath)];
      }
      assert effects == run;
    }
  }

  /** The effect firing twice on one mount (a re-render, or development-mode
      double invocation): only the first firing does anything. */
  method FireTwice(code1: Option<string>, reply1: Response<ExchangeReply>, loginThrows1: bool,
                   code2: Option<string>, reply2: Response<ExchangeReply>, loginThrows2: bool)
    returns (h: CallbackHandler)
    ensures h.effects == FirstRun(code1, reply1, loginThrows1)
    ensures Exchanges(h.effects) <= 1
  {
    h := new CallbackHandler();
    h.HandleCallback(code1, reply1, loginThrows1);
    h.HandleCallback(code2, reply2, loginThrows2);
  }
}

/** The forgotten-password page: the user enters an e-mail address and asks for a reset link;
    in development the server also returns the reset token, which the page links to. */
module ForgotPassword {
  import opened Common

  datatype State = State(email: string, loading: bool, error: string, success: bool, resetToken: Option<string>)

  datatype Action =
    | SetEmail(payload: string)
    | Submit
    | Success(token: Option<string>)     // `response.data.resetToken`, absent in production
    | Error(payload: string)
    | Unrecognized(kind: string)

  const Initial := State("", false, "", false, Some(""))
  const RequestFallback := "Error al solicitar recuperación"

  function Reduce(s: State, a: Action): State {
    match a
    case SetEmail(v) => s.(email := v)
    case Submit => s.(loading := true, error := "")
    case Success(token) => s.(loading := false, success := true, resetToken := token)
    case Error(message) => s.(loading := false, error := message)
    case Unrecognized(_) => s
  }

  function Run(s: State, actions: seq<Action>): State
    decreases |actions|
  {
    if |actions| == 0 then s else Run(Reduce(s, actions[0]), actions[1..])
  }

  /** Each action's effect: `SET_EMAIL` changes only the address; `SUBMIT` starts loading and
      clears the error; `SUCCESS` stops loading, sets success and stores the token, keeping
      the address and the error; `ERROR` stops loading and stores the message, keeping the
      address, success and the token; anything else changes nothing. */
  lemma ReducerEffects(s: State, v: string, token: Option<string>, message: string, kind: string)
    ensures Reduce(s, SetEmail(v)).email == v && Reduce(s, SetEmail(v)).(email := s.email) == s
    ensures var s' := Reduce(s, Submit); s'.loading && s'.error == "" && s'.(loading := s.loading, error := s.error) == s
    ensures var s' := Reduce(s, Success(token));
            && !s'.loading && s'.success && s'.resetToken == token
            && s'.(loading := s.loading, success := s.success, resetToken := s.resetToken) == s
    ensures var s' := Reduce(s, Error(message));
            !s'.loading && s'.error == message && s'.(loading := s.loading, error := s.error) == s
    ensures Reduce(s, Unrecognized(kind)) == s
  {
  }

  /** How the request ends: the token the server returned, or its error message if any. */
  datatype RequestOutcome = Sent(token: Option<string>) | Rejected(message: Option<string>)

  /** The actions `handleSubmit` dispatches: `SUBMIT`, then one of `SUCCESS` or `ERROR`. */
  function HandleSubmit(outcome: RequestOutcome): (acts: seq<Action>)
    ensures |acts| == 2 && acts[0] == Submit
    ensures acts[1].Success? <==> outcome.Sent?
    ensures acts[1].Error? <==> outcome.Rejected?
  {
    match outcome
    case Sent(token) => [Submit, Success(token)]
    case Rejected(message) =>
      [Submit, Error(ErrorText(message, RequestFallback))]
  }

  /** The development link to the reset page: only on the success screen, and only for a
      non-empty token. */
  predicate ShowsResetLink(s: State) {
    s.success && Truthy(s.resetToken)
  }

  /** After a submit the page is not loading; a sent request shows the success screen with the
      token, which is linked iff it is non-empty; a rejected one keeps success and the token
      as they were and shows the server's message, or the page's fallback when there is none. */
  lemma SubmitOutcome(s: State, outcome: RequestOutcome)
    ensures var s' := Run(s, HandleSubmit(outcome));
            && !s'.loading
            && s'.email == s.email
            && (outcome.Sent? ==> s'.success && s'.error == "" && s'.resetToken == outcome.token
                                  && (ShowsResetLink(s') <==> Truthy(outcome.token)))
            && (outcome.Rejected? ==> s'.error != "" && s'.success == s.success && s'.resetToken == s.resetToken)
            && (outcome.Rejected? && Truthy(outcome.message) ==> s'.error == outcome.message.value)
            && (outcome.Rejected? && !Truthy(outcome.message) ==> s'.error == RequestFallback)
  {
    var acts := HandleSubmit(outcome);
    assert acts[1..] == [acts[1]];
    assert [acts[1]][1..] == [];
    assert Run(s, acts) == Run(Reduce(s, Submit), [acts[1]]);
    assert Run(Reduce(s, Submit), [acts[1]]) == Run(Reduce(Reduce(s, Submit), acts[1]), []);
  }
}

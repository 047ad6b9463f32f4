/** The reducer behind the two password pages. The reset page and the first-login page declare
    the same reducer over the same seven fields (the reset page calls the password field
    `newPassword`); it is defined once here. */
module PasswordForm {
  import opened Common

  datatype Field = Password | ConfirmPassword

  datatype State = State(
    password: string,
    confirmPassword: string,
    showPassword: bool,
    showConfirmPassword: bool,
    loading: bool,
    error: string,
    success: bool)

  datatype Action =
    | TogglePassword                       // TOGGLE_SHOW_PASSWORD
    | ToggleConfirm                        // TOGGLE_SHOW_CONFIRM
    | SetField(field: Field, payload: string)
    | Submit
    | Success
    | Error(payload: string)
    | Unrecognized(kind: string)           // any other action type: the `default` branch

  const Initial := State("", "", false, false, false, "", false)

  const MinLength := 6
  const MismatchMessage := "Las contraseñas no coinciden"
  const TooShortMessage := "La contraseña debe tener al menos 6 caracteres"

  function Reduce(s: State, a: Action): State {
    match a
    case TogglePassword => s.(showPassword := !s.showPassword)
    case ToggleConfirm => s.(showConfirmPassword := !s.showConfirmPassword)
    case SetField(Password, v) => s.(password := v)
    case SetField(ConfirmPassword, v) => s.(confirmPassword := v)
    case Submit => s.(loading := true, error := "")
    case Success => s.(loading := false, success := true)
    case Error(message) => s.(loading := false, error := message)
    case Unrecognized(_) => s
  }

  /** `dispatch` applied to each action in turn. */
  function Run(s: State, actions: seq<Action>): State
    decreases |actions|
  {
    if |actions| == 0 then s else Run(Reduce(s, actions[0]), actions[1..])
  }

  /** Dispatching two batches in a row is dispatching their concatenation. */
  lemma {:induction false} RunAppend(s: State, a: seq<Action>, b: seq<Action>)
    ensures Run(s, a + b) == Run(Run(s, a), b)
    decreases |a|
  {
    if |a| == 0 {
      assert a + b == b;
    } else {
      assert (a + b)[1..] == a[1..] + b;
      RunAppend(Reduce(s, a[0]), a[1..], b);
    }
  }

  lemma RunPair(s: State, a: Action, b: Action)
    ensures Run(s, [a, b]) == Reduce(Reduce(s, a), b)
  {
    assert [a, b][1..] == [b];
    assert [b][1..] == [];
    assert Run(Reduce(s, a), [b]) == Run(Reduce(Reduce(s, a), b), []);
  }

  function Get(s: State, f: Field): string {
    match f
    case Password => s.password
    case ConfirmPassword => s.confirmPassword
  }

  /** The state apart from the two visibility flags. */
  function WithoutFlags(s: State): State {
    s.(showPassword := false, showConfirmPassword := false)
  }

  /** Each toggle flips its own flag, leaves everything else, and undoes itself. */
  lemma TogglesAreLocalInvolutions(s: State)
    ensures Reduce(s, TogglePassword).showPassword != s.showPassword
    ensures Reduce(s, TogglePassword).showConfirmPassword == s.showConfirmPassword
    ensures Reduce(s, ToggleConfirm).showConfirmPassword != s.showConfirmPassword
    ensures Reduce(s, ToggleConfirm).showPassword == s.showPassword
    ensures WithoutFlags(Reduce(s, TogglePassword)) == WithoutFlags(s)
    ensures WithoutFlags(Reduce(s, ToggleConfirm)) == WithoutFlags(s)
    ensures Run(s, [TogglePassword, TogglePassword]) == s
    ensures Run(s, [ToggleConfirm, ToggleConfirm]) == s
  {
    RunPair(s, TogglePassword, TogglePassword);
    RunPair(s, ToggleConfirm, ToggleConfirm);
  }

  /** `SET_FIELD` stores the payload under the named field and changes nothing else: reading
      it back gives the payload, and the other field and every other part are as before. */
  lemma SetFieldIsLocal(s: State, f: Field, g: Field, v: string)
    ensures Get(Reduce(s, SetField(f, v)), f) == v
    ensures g != f ==> Get(Reduce(s, SetField(f, v)), g) == Get(s, g)
    ensures var s' := Reduce(s, SetField(f, v));
            s'.(password := s.password, confirmPassword := s.confirmPassword) == s
  {
  }

  /** The request lifecycle: `SUBMIT` starts loading and clears the error; `SUCCESS` stops
      loading and sets success; `ERROR` stops loading, stores the message and leaves success
      alone; an unrecognized action changes nothing. None of them touches the typed text. */
  lemma RequestLifecycle(s: State, message: string, kind: string)
    ensures var s' := Reduce(s, Submit); s'.loading && s'.error == "" && s'.success == s.success
    ensures var s' := Reduce(s, Success); !s'.loading && s'.success && s'.error == s.error
    ensures var s' := Reduce(s, Error(message)); !s'.loading && s'.error == message && s'.success == s.success
    ensures Reduce(s, Unrecognized(kind)) == s
    ensures forall a :: Get(Reduce(s, a), Password) == s.password || a.SetField?
  {
  }

  /** The failure outcome of a back-end call: the server's message, if it sent one. */
  datatype ApiOutcome = ApiOk | ApiFailed(message: Option<string>)

  /** The tail of a submit once validation passed: `SUBMIT`, then `SUCCESS` or `ERROR`. */
  function RequestActions(api: ApiOutcome, fallback: string): seq<Action>
    requires fallback != ""
  {
    [Submit] + (if api.ApiOk? then [Success] else [Error(ErrorText(api.message, fallback))])
  }

  /** What the request leaves behind: not loading; on success the error is cleared and success
      set; on failure a non-empty error and success as it was. */
  lemma RequestOutcome(s: State, api: ApiOutcome, fallback: string)
    requires fallback != ""
    ensures var s' := Run(s, RequestActions(api, fallback));
            && !s'.loading
            && (api.ApiOk? ==> s'.success && s'.error == "")
            && (api.ApiFailed? ==> s'.error != "" && s'.success == s.success)
            && s'.password == s.password && s'.confirmPassword == s.confirmPassword
  {
    var second := if api.ApiOk? then Success else Error(ErrorText(api.message, fallback));
    assert RequestActions(api, fallback) == [Submit, second];
    RunPair(s, Submit, second);
  }
}

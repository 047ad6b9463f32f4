/** The first-login page where an invited user chooses a password. */
module SetPassword {
  import opened Common
  import opened PasswordForm
  import ResetPassword

  const RequestFallback := "Error al configurar la contraseña"

  /** The message `validatePassword` dispatches: the length in UTF-16 code units first, then
      the mismatch. */
  function ValidationError(password: string, confirmPassword: string): (err: Option<string>)
    ensures err.None? <==> Utf16Length(password) >= MinLength && password == confirmPassword
    ensures Utf16Length(password) < MinLength ==> err == Some(TooShortMessage)
    ensures Utf16Length(password) >= MinLength && password != confirmPassword ==> err == Some(MismatchMessage)
  {
    if Utf16Length(password) < MinLength then Some(TooShortMessage)
    else if password != confirmPassword then Some(MismatchMessage)
    else None
  }

  /** `validatePassword`: true iff the password has at least six UTF-16 code units and equals
      its confirmation. */
  function ValidatePassword(s: State): (ok: bool)
    ensures ok <==> Utf16Length(s.password) >= MinLength && s.password == s.confirmPassword
  {
    ValidationError(s.password, s.confirmPassword).None?
  }

  /** The actions `handleSubmit` dispatches. */
  function HandleSubmit(s: State, api: ApiOutcome): seq<Action> {
    match ValidationError(s.password, s.confirmPassword)
    case Some(message) => [Error(message)]
    case None => RequestActions(api, RequestFallback)
  }

  /** The request is sent exactly when validation passes; a failed validation leaves the form
      not loading, with a non-empty error and success as it was. */
  lemma SubmitGate(s: State, api: ApiOutcome)
    ensures Submit in HandleSubmit(s, api) <==> ValidatePassword(s)
    ensures !ValidatePassword(s) ==>
              var s' := Run(s, HandleSubmit(s, api));
              !s'.loading && s'.error != "" && s'.success == s.success
    ensures ValidatePassword(s) ==>
              var s' := Run(s, HandleSubmit(s, api));
              !s'.loading && (s'.success <==> s.success || api.ApiOk?)
  {
    match ValidationError(s.password, s.confirmPassword)
    case Some(message) =>
      assert HandleSubmit(s, api) == [Error(message)];
      assert [Error(message)][1..] == [];
      assert Run(s, [Error(message)]) == Run(Reduce(s, Error(message)), []);
    case None =>
      RequestOutcome(s, api, RequestFallback);
  }

  /** The two pages accept exactly the same pairs, and report different errors exactly when a
      pair is both too short and mismatched: this page reports the length, the reset page the
      mismatch. */
  lemma OppositeCheckOrder(password: string, confirmPassword: string)
    ensures ValidationError(password, confirmPassword).None?
            <==> ResetPassword.Validate(password, confirmPassword).None?
    ensures ValidationError(password, confirmPassword) != ResetPassword.Validate(password, confirmPassword)
            <==> Utf16Length(password) < MinLength && password != confirmPassword
    ensures Utf16Length(password) < MinLength && password != confirmPassword ==>
              ValidationError(password, confirmPassword) == Some(TooShortMessage) &&
              ResetPassword.Validate(password, confirmPassword) == Some(MismatchMessage)
  {
  }
}

/** The reset-password page: the user types the new password twice and submits it with the
    token from the e-mailed link. */
module ResetPassword {
  import opened Common
  import opened PasswordForm

  const RequestFallback := "Error al restablecer la contraseña"

  /** The checks at the top of `handleSubmit`: the mismatch first, then the length, which
      `.length` measures in UTF-16 code units. */
  function Validate(newPassword: string, confirmPassword: string): (err: Option<string>)
    ensures err.None? <==> newPassword == confirmPassword && Utf16Length(newPassword) >= MinLength
    ensures newPassword != confirmPassword ==> err == Some(MismatchMessage)
    ensures newPassword == confirmPassword && Utf16Length(newPassword) < MinLength ==> err == Some(TooShortMessage)
  {
    if newPassword != confirmPassword then Some(MismatchMessage)
    else if Utf16Length(newPassword) < MinLength then Some(TooShortMessage)
    else None
  }

  /** The actions `handleSubmit` dispatches, given the state it was called in and how the
      reset request ends. */
  function HandleSubmit(s: State, api: ApiOutcome): seq<Action> {
    match Validate(s.password, s.confirmPassword)
    case Some(message) => [Error(message)]
    case None => RequestActions(api, RequestFallback)
  }

  /** `SUBMIT` is dispatched, and so the request sent, exactly when the two passwords are equal
      and at least six UTF-16 code units long; after the submit the form is not loading, success
      holds exactly when it held before or the request went through, and otherwise the error
      is non-empty. */
  lemma SubmitGate(s: State, api: ApiOutcome)
    ensures Submit in HandleSubmit(s, api) <==> s.password == s.confirmPassword && Utf16Length(s.password) >= MinLength
    ensures var s' := Run(s, HandleSubmit(s, api));
            && !s'.loading
            && (s'.success <==> s.success || (Validate(s.password, s.confirmPassword).None? && api.ApiOk?))
            && (Validate(s.password, s.confirmPassword).Some? || api.ApiFailed? ==> s'.error != "")
  {
    match Validate(s.password, s.confirmPassword)
    case Some(message) =>
      assert HandleSubmit(s, api) == [Error(message)];
      assert [Error(message)][1..] == [];
      assert Run(s, [Error(message)]) == Run(Reduce(s, Error(message)), []);
    case None =>
      RequestOutcome(s, api, RequestFallback);
  }

  /** The worked example: "abc" against "abd" is both too short and mismatched, and the
      mismatch is what the page reports. */
  lemma MismatchReportedFirst()
    ensures Validate("abc", "abd") == Some(MismatchMessage)
  {
  }

  /** The length check in characters: six characters always pass it, and a password that
      passes has at least three, since a character is at most two code units. */
  lemma LengthCheckInCharacters(password: string)
    ensures |password| >= MinLength ==> Validate(password, password).None?
    ensures Validate(password, password).None? ==> 2 * |password| >= MinLength
  {
  }

  /** Three emoji are six code units, so the page accepts them as a password although they are
      three characters. */
  lemma AstralCharactersCountTwice()
    ensures Validate("\U{1F600}\U{1F600}\U{1F600}", "\U{1F600}\U{1F600}\U{1F600}").None?
    ensures Validate("\U{1F600}\U{1F600}", "\U{1F600}\U{1F600}") == Some(TooShortMessage)
  {
  }
}

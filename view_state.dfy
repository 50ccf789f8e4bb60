/** The form's state: the two value records of the sign-up screen and their defaults. */
module ViewState {

  /** One input of the form: its text, whether it is flagged, and a message. */
  datatype SignUpField = SignUpField(value: string, isError: bool, errorMessage: string)

  /** A snapshot of the whole form. */
  datatype SignUpViewState = SignUpViewState(
    isLoading: bool,
    fullName: SignUpField,
    email: SignUpField,
    password: SignUpField,
    confirmPassword: SignUpField)

  /** `SignUpField()` with every constructor argument at its default. */
  function DefaultField(): SignUpField
  {
    SignUpField("", false, "")
  }

  /** `SignUpViewState()` with every constructor argument at its default. */
  function DefaultViewState(): SignUpViewState
  {
    SignUpViewState(false, DefaultField(), DefaultField(), DefaultField(), DefaultField())
  }
}

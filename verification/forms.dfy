/** The WTForms input rules of forms.py. Each form is the record of its
    submitted fields (a missing field arrives as the empty string), and a
    predicate says when the form's `validate()` passes. */
module Forms {

  /** `InputRequired()`: the raw submitted value is a non-empty string.
      Whitespace is not stripped, so " " passes. */
  predicate InputRequired(s: string) {
    |s| > 0
  }

  /** `Length(max = n)`: at most `n` characters. */
  predicate MaxLength(s: string, n: nat) {
    |s| <= n
  }

  const UsernameMax: nat := 20
  const EmailMax: nat := 50
  const NameMax: nat := 30
  const TitleMax: nat := 100

  datatype AddUserForm = AddUserForm(
    username: string,
    password: string,
    email: string,
    firstName: string,
    lastName: string)

  datatype LoginUserForm = LoginUserForm(username: string, password: string)

  /** The fields of both `AddFeedbackForm` and `EditFeedbackForm`. */
  datatype FeedbackForm = FeedbackForm(title: string, content: string)

  /** `AddUserForm`. The `Email()` validator belongs to a library and is kept
      abstract as `emailFormat`; the field has no `InputRequired`. */
  predicate AddUserValid(f: AddUserForm, emailFormat: string -> bool) {
    && InputRequired(f.username) && MaxLength(f.username, UsernameMax)
    && InputRequired(f.password)
    && emailFormat(f.email) && MaxLength(f.email, EmailMax)
    && InputRequired(f.firstName) && MaxLength(f.firstName, NameMax)
    && InputRequired(f.lastName) && MaxLength(f.lastName, NameMax)
  }

  /** `LoginUserForm`. */
  predicate LoginUserValid(f: LoginUserForm) {
    && InputRequired(f.username) && MaxLength(f.username, UsernameMax)
    && InputRequired(f.password)
  }

  /** `AddFeedbackForm`: the content has no upper bound. */
  predicate AddFeedbackValid(f: FeedbackForm) {
    InputRequired(f.title) && MaxLength(f.title, TitleMax) && InputRequired(f.content)
  }

  /** `EditFeedbackForm`, declared separately in the source. */
  predicate EditFeedbackValid(f: FeedbackForm) {
    MaxLength(f.title, TitleMax) && InputRequired(f.title) && InputRequired(f.content)
  }

  /** The add and edit feedback forms accept exactly the same submissions,
      and neither bounds the length of the content. */
  lemma FeedbackFormsAgree(f: FeedbackForm)
    ensures AddFeedbackValid(f) <==> EditFeedbackValid(f)
    ensures AddFeedbackValid(f) <==> 0 < |f.title| <= TitleMax && f.content != []
  {
  }

  /** Any username and password the register form accepts can be typed into
      the login form: the two forms impose the same rules on them. */
  lemma RegisteredCredentialsFitLogin(f: AddUserForm, emailFormat: string -> bool)
    ensures AddUserValid(f, emailFormat) ==> LoginUserValid(LoginUserForm(f.username, f.password))
  {
  }
}

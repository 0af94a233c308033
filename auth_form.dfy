/** The client sign-in / sign-up form: its two schemas, the form data each
    submission builds, and when a sign-in counts as logged in. The server
    actions it calls are parameters here. */
module AuthForm {

  import opened Wrappers
  import opened Schema
  import opened Forms

  const PhoneField := "phone"
  const UsernameField := "username"
  const RoleField := "role"
  const PharmacyNameField := "pharmacyName"

  /** `SignInSchema`: a phone of at least 8 characters. */
  predicate SignInSchema(phone: Option<string>) {
    phone.Some? && |phone.value| >= 8
  }

  /** `SignUpSchema`: a username of at least 2 characters, a phone of at
      least 8, one of the two roles, and for a pharmacist a pharmacy name of
      more than 2 characters. */
  predicate SignUpSchema(username: Option<string>, phone: Option<string>, role: Option<string>,
                         pharmacyName: Option<string>) {
    && username.Some? && |username.value| >= 2
    && phone.Some? && |phone.value| >= 8
    && role.Some? && (role.value == "Client" || role.value == "Pharmacien")
    && (role.value == "Pharmacien" ==> Truthy(pharmacyName) && |pharmacyName.value| > 2)
  }

  /** `handleSignIn`'s form data. */
  function SignInFormData(phone: string): (fd: FormData)
    ensures Get(fd, PhoneField) == Some(Text(phone)) && |fd| == 1
  {
    [(PhoneField, Text(phone))]
  }

  /** `handleSignUp`: append username, phone and role, then the pharmacy name
      for a pharmacist who gave one. */
  method BuildSignUpFormData(username: string, phone: string, role: string, pharmacyName: Option<string>)
    returns (fd: FormData)
    ensures fd == SignUpFormData(username, phone, role, pharmacyName)
  {
    fd := [];
    fd := fd + [(UsernameField, Text(username))];
    fd := fd + [(PhoneField, Text(phone))];
    fd := fd + [(RoleField, Text(role))];
    if role == "Pharmacien" && Truthy(pharmacyName) {
      fd := fd + [(PharmacyNameField, Text(pharmacyName.value))];
    }
  }

  /** The entries `handleSignUp` sends, in order. */
  function SignUpFormData(username: string, phone: string, role: string, pharmacyName: Option<string>): (fd: FormData)
    ensures |fd| == if role == "Pharmacien" && Truthy(pharmacyName) then 4 else 3
    ensures fd[..3] == [(UsernameField, Text(username)), (PhoneField, Text(phone)), (RoleField, Text(role))]
  {
    [(UsernameField, Text(username)), (PhoneField, Text(phone)), (RoleField, Text(role))]
    + (if role == "Pharmacien" && Truthy(pharmacyName) then [(PharmacyNameField, Text(pharmacyName.value))] else [])
  }

  /** A valid pharmacist sign-up always sends its pharmacy name; a client
      sign-up never does, even when the field was filled in. */
  lemma SignUpSendsNameIffPharmacien(username: string, phone: string, role: string, pharmacyName: Option<string>)
    requires SignUpSchema(Some(username), Some(phone), Some(role), pharmacyName)
    ensures var fd := SignUpFormData(username, phone, role, pharmacyName);
            && (role == "Pharmacien" ==> Get(fd, PharmacyNameField) == Some(Text(pharmacyName.value)))
            && (role == "Client" ==> Get(fd, PharmacyNameField).None?)
            && Get(fd, UsernameField) == Some(Text(username))
            && Get(fd, PhoneField) == Some(Text(phone))
            && Get(fd, RoleField) == Some(Text(role))
  {
    var fd := SignUpFormData(username, phone, role, pharmacyName);
    assert fd[0].0 == UsernameField && fd[1].0 == PhoneField && fd[2].0 == RoleField;
    assert fd[1..][1..][1..] == fd[3..];
    assert |UsernameField| != |PharmacyNameField| && |PhoneField| != |PharmacyNameField|;
    assert |RoleField| != |PharmacyNameField| && |RoleField| != |PhoneField| && |RoleField| != |UsernameField|;
    if role == "Pharmacien" {
      var last := [(PharmacyNameField, Text(pharmacyName.value))];
      assert fd[3..] == last;
      assert Get(last, PharmacyNameField) == Some(Text(pharmacyName.value));
      assert Get(fd, PharmacyNameField) == Get(fd[1..][1..][1..], PharmacyNameField);
    }
  }

  /** What a sign-in action answers. */
  datatype SignInResult = SignInResult(success: bool, user: Option<Profile>, error: Option<string>)

  datatype SignInOutcome = LoggedIn(user: Profile) | SignInError(description: Option<string>)

  /** `onLoginSuccess` runs only for a success that carries a user. */
  function AfterSignIn(result: SignInResult): (r: SignInOutcome)
    ensures r.LoggedIn? <==> result.success && result.user.Some?
    ensures r.LoggedIn? ==> r.user == result.user.value
    ensures r.SignInError? ==> r.description == result.error
  {
    if result.success && result.user.Some? then LoggedIn(result.user.value) else SignInError(result.error)
  }
}

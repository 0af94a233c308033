/** The admin page's client: a login screen that compares the typed password
    with the public `NEXT_PUBLIC_ADMIN_PASSWORD`, and a panel whose file input
    checks the shape of an uploaded JSON file before sending it, with the
    password typed at login, to the bulk schedule replace. */
module AdminClient {

  import opened Wrappers
  import opened Schema
  import AdminActions
  import SearchForm

  const PasswordRequired := "Le mot de passe est requis."
  const ReadFailed := "Erreur de lecture du fichier."
  const BadShape := "Le fichier JSON n'a pas la structure attendue."
  const CannotRead := "Impossible de lire le fichier."

  const LoginOk := SearchForm.Toast("Connexion réussie", Some("Bienvenue dans le panneau d'administration."), false)
  const LoginRefused := SearchForm.Toast("Erreur d'authentification", Some("Mot de passe incorrect."), true)

  /** A value `JSON.parse` can return; an object is its members in order. */
  datatype Json =
    | JNull
    | JBool(b: bool)
    | JNumber(n: int)
    | JString(s: string)
    | JArray(items: seq<Json>)
    | JObject(members: seq<(string, Json)>)

  /** `key in v` on an object: it has a member of that name. Arrays carry
      only index and `length` keys. */
  predicate HasKey(members: seq<(string, Json)>, key: string) {
    exists i :: 0 <= i < |members| && members[i].0 == key
  }

  /** The `every` callback is true of `v`. */
  predicate Schedulelike(v: Json) {
    v.JObject? && HasKey(v.members, "semaine") && HasKey(v.members, "pharmacies")
  }

  /** The `in` operator throws a TypeError on anything that is not an object. */
  predicate Primitive(v: Json) {
    !v.JObject? && !v.JArray?
  }

  /** How the structure test ends. */
  datatype Check = Accepted | BadStructure | Throws(culprit: Json)

  /** `items.every(item => 'semaine' in item && 'pharmacies' in item)` from
      index `k` on: it stops at the first item for which the callback is
      false or throws. */
  function EveryFrom(items: seq<Json>, k: nat): (r: Check)
    requires k <= |items|
    decreases |items| - k
    ensures r == Accepted <==> forall i :: k <= i < |items| ==> Schedulelike(items[i])
    ensures r != Accepted ==>
              exists j :: k <= j < |items| && FirstMiss(items, k, j)
                          && (r == BadStructure <==> !Primitive(items[j]))
                          && (r.Throws? ==> r.culprit == items[j])
  {
    if k == |items| then Accepted
    else if Primitive(items[k]) then Throws(items[k])
    else if !Schedulelike(items[k]) then BadStructure
    else EveryFrom(items, k + 1)
  }

  /** `items[j]` is the first item from `k` on that the callback rejects. */
  predicate FirstMiss(items: seq<Json>, k: nat, j: nat)
    requires k <= j < |items|
  {
    !Schedulelike(items[j]) && forall i :: k <= i < j ==> Schedulelike(items[i])
  }

  /** The `if` of `handleFileChange`: `Array.isArray`, then `every`. */
  function CheckStructure(v: Json): (r: Check)
    ensures r == Accepted <==> v.JArray? && forall i :: 0 <= i < |v.items| ==> Schedulelike(v.items[i])
    ensures !v.JArray? ==> r == BadStructure
  {
    if !v.JArray? then BadStructure else EveryFrom(v.items, 0)
  }

  /** Where the `FileReader` ends: its `onerror`, or its `onload` with a
      result that is a string or not. */
  datatype Reading = ReadError | Loaded(text: Option<string>)

  /** What choosing a file leads to. */
  datatype FileOutcome =
    | NoFile
    | Notify(toast: SearchForm.Toast)
    | Send(password: string, upload: Json)

  /** The `catch` block's toast for a thrown error. */
  function FileErrorToast(message: string): SearchForm.Toast {
    SearchForm.Toast("Erreur de Fichier", Some(message), true)
  }

  /** The file was read as a string that parses to a value passing the
      structure test. */
  predicate Uploads(file: Option<Reading>, parse: string -> Result<Json, string>) {
    && file.Some? && file.value.Loaded? && file.value.text.Some?
    && parse(file.value.text.value).Success?
    && CheckStructure(parse(file.value.text.value).value) == Accepted
  }

  /** `handleFileChange` with `reader.onload` and `reader.onerror`. The
      parser and the engine's TypeError text are parameters: `parse` returns
      the value or the SyntaxError's message. */
  function HandleFileChange(password: string, file: Option<Reading>,
                            parse: string -> Result<Json, string>, typeError: Json -> string): (r: FileOutcome)
    ensures file.None? <==> r == NoFile
    ensures r.Send? <==> Uploads(file, parse)
    ensures r.Send? ==> r.password == password && r.upload == parse(file.value.text.value).value
    ensures file == Some(ReadError) ==> r == Notify(SearchForm.Toast("Erreur", Some(CannotRead), true))
    ensures file == Some(Loaded(None)) ==> r == Notify(FileErrorToast(ReadFailed))
    ensures file.Some? && file.value.Loaded? && file.value.text.Some? && parse(file.value.text.value).Failure? ==>
              r == Notify(FileErrorToast(parse(file.value.text.value).error))
    ensures file.Some? && file.value.Loaded? && file.value.text.Some? && parse(file.value.text.value).Success? ==>
              var check := CheckStructure(parse(file.value.text.value).value);
              && (check == BadStructure ==> r == Notify(FileErrorToast(BadShape)))
              && (check.Throws? ==> r == Notify(FileErrorToast(typeError(check.culprit))))
  {
    match file
    case None => NoFile
    case Some(ReadError) => Notify(SearchForm.Toast("Erreur", Some(CannotRead), true))
    case Some(Loaded(text)) =>
      if text.None? then Notify(FileErrorToast(ReadFailed))
      else
        match parse(text.value)
        case Failure(syntax) => Notify(FileErrorToast(syntax))
        case Success(v) =>
          match CheckStructure(v)
          case Accepted => Send(password, v)
          case BadStructure => Notify(FileErrorToast(BadShape))
          case Throws(culprit) => Notify(FileErrorToast(typeError(culprit)))
  }

  /** The empty array passes, and the upload then replaces the schedule by
      nothing. */
  lemma EmptyArrayAccepted(w0: int, p0: int, weekError: nat -> Option<string>, pharmacyError: nat -> Option<string>)
    ensures CheckStructure(JArray([])) == Accepted
    ensures AdminActions.Loop([], w0, p0, weekError, pharmacyError) == AdminActions.Run([], [], w0, p0, None)
  {
  }

  /** Only the two keys are tested, not what they hold: a week given as a
      number and a null pharmacy list are sent on. */
  lemma MemberValuesUnchecked()
    ensures CheckStructure(JArray([JObject([("semaine", JNumber(5)), ("pharmacies", JNull)])])) == Accepted
  {
    var members := [("semaine", JNumber(5)), ("pharmacies", JNull)];
    assert members[0].0 == "semaine" && members[1].0 == "pharmacies";
  }

  /** `every` stops at the first rejected item: a primitive after an object
      missing the keys raises no TypeError, while one before it does. */
  lemma EveryStopsAtFirstMiss()
    ensures CheckStructure(JArray([JObject([]), JNumber(1)])) == BadStructure
    ensures CheckStructure(JArray([JNumber(1), JObject([])])) == Throws(JNumber(1))
  {
  }

  /** The `toast` for the server action's reply. */
  function ReplyToast(reply: AdminActions.Reply): (t: SearchForm.Toast)
    ensures t.description == Some(reply.message) && (t.destructive <==> !reply.success)
  {
    if reply.success then SearchForm.Toast("Succès", Some(reply.message), false)
    else SearchForm.Toast("Erreur", Some(reply.message), true)
  }

  /** `LoginSchema`: the password must not be empty. */
  function LoginFieldError(input: string): (r: Option<string>)
    ensures r.None? <==> |input| >= 1
    ensures r.Some? ==> r.value == PasswordRequired
  {
    if |input| >= 1 then None else Some(PasswordRequired)
  }

  /** `onSubmit` logs in: the schema passes and the input equals the public
      password (an unset variable equals no string). */
  predicate LoginAccepted(input: string, env: Option<string>) {
    LoginFieldError(input).None? && env == Some(input)
  }

  /** Only a set, non-empty public password lets anyone in, and then only
      that password. */
  lemma LoginNeedsPublicPassword(input: string, env: Option<string>)
    requires LoginAccepted(input, env)
    ensures Truthy(env) && input == env.value
  {
  }

  /** The panel's password is the public one, while the server action checks
      its own fixed one: when the two differ, every upload from a logged-in
      admin is answered with the wrong-password message. */
  lemma PublicPasswordMismatch(input: string, env: Option<string>)
    requires LoginAccepted(input, env) && env != Some(AdminActions.AdminPassword)
    ensures AdminActions.Gate(true, input) == Some(AdminActions.Reply(false, AdminActions.WrongPassword))
    ensures ReplyToast(AdminActions.Gate(true, input).value)
            == SearchForm.Toast("Erreur", Some(AdminActions.WrongPassword), true)
  {
  }

  /** What `AdminPageClient` renders. */
  datatype Screen = ConfigError | Panel(password: string) | LoginForm

  /** The page state of `AdminPageClient`: the two `useState` hooks. */
  class AdminPageState {
    var isLoggedIn: bool
    var password: string

    /** Logged in exactly with the public password; logged out with the
        password cleared. */
    ghost predicate Valid(env: Option<string>)
      reads this
    {
      && (isLoggedIn ==> LoginAccepted(password, env))
      && (!isLoggedIn ==> password == "")
    }

    constructor ()
      ensures !isLoggedIn && password == ""
    {
      isLoggedIn, password := false, "";
    }

    method HandleLogin(pass: string)
      modifies this
      ensures isLoggedIn && password == pass
    {
      password := pass;
      isLoggedIn := true;
    }

    method HandleLogout()
      modifies this
      ensures !isLoggedIn && password == ""
    {
      password := "";
      isLoggedIn := false;
    }

    /** The login form's submit: the schema's field error, or `onSubmit`
        with its toast. */
    method SubmitLogin(input: string, env: Option<string>) returns (fieldError: Option<string>, toast: Option<SearchForm.Toast>)
      requires Valid(env)
      modifies this
      ensures Valid(env)
      ensures fieldError == LoginFieldError(input)
      ensures fieldError.Some? ==> toast.None?
      ensures LoginAccepted(input, env) ==> isLoggedIn && password == input && toast == Some(LoginOk)
      ensures !LoginAccepted(input, env) ==> isLoggedIn == old(isLoggedIn) && password == old(password)
      ensures fieldError.None? && !LoginAccepted(input, env) ==> toast == Some(LoginRefused)
    {
      fieldError := LoginFieldError(input);
      if fieldError.Some? {
        return fieldError, None;
      }
      if env == Some(input) {
        HandleLogin(input);
        toast := Some(LoginOk);
      } else {
        toast := Some(LoginRefused);
      }
    }

    /** The rendered screen: the configuration error while the public
        password is unset or empty, otherwise the panel or the login form. */
    function View(env: Option<string>): (s: Screen)
      reads this
      ensures !Truthy(env) <==> s == ConfigError
      ensures s.Panel? <==> Truthy(env) && isLoggedIn
      ensures s.Panel? ==> s.password == password
      ensures s.Panel? && Valid(env) ==> s.password == env.value
    {
      if !Truthy(env) then ConfigError
      else if isLoggedIn then Panel(password)
      else LoginForm
    }
  }
}

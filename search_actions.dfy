/** Server actions of the product-search page: creating a product request
    from posted form data (validate, upload the photos one by one, normalise
    the name, insert the row) and listing one client's requests. */
module SearchActions {

  import opened Wrappers
  import opened Schema
  import opened Seqs
  import opened Forms
  import opened Queries
  import Db

  /** The form field the server reads the phone number from. */
  const ContactPhoneField := "contactPhone"
  const ProductNameField := "productName"
  const ImagesField := "images"

  const ServerConfigMissing := "La configuration du serveur est manquante."
  const InvalidPhone := "Le numéro de contact est invalide."
  const InvalidData := "Données de recherche invalides."
  const UploadErrorPrefix := "Erreur de téléversement d'image : "
  const InsertErrorPrefix := "Erreur lors de l'enregistrement de la recherche : "
  const MissingUserId := "Identifiant utilisateur manquant."
  const UnknownError := "Une erreur inconnue est survenue."

  /** The `{ success, error }` reply of `createSearchAction`. */
  datatype Reply = Reply(success: bool, error: Option<string>)

  /** The `{ success, error, data }` reply of `getSearchesByClientAction`. */
  datatype ListReply = ListReply(success: bool, error: Option<string>, data: Option<seq<SearchWithResponses>>)

  /** Something a `catch` block receives: a message, and whether it is an
      `Error` instance (a store error object need not be one). */
  datatype Thrown = Thrown(message: string, isError: bool)

  /** `error instanceof Error ? error.message : 'Une erreur inconnue est survenue.'` */
  function CaughtMessage(t: Thrown): string {
    if t.isError then t.message else UnknownError
  }

  /** zod's default message for a value of the wrong type. */
  function InvalidType(received: string): string {
    "Expected string, received " + received
  }

  /** The data `CreateSearchSchema` lets through. */
  datatype Validated = Validated(productName: Option<string>, images: seq<File>, contactPhone: string)

  /** `formData.getAll('images').filter(f => f instanceof File && f.size > 0)`. */
  function NonEmptyFiles(vs: seq<FormValue>): (r: seq<File>)
    ensures |r| <= |vs|
    ensures forall f :: f in r <==> Blob(f) in vs && f.size > 0
  {
    if vs == [] then []
    else
      var rest := NonEmptyFiles(vs[1..]);
      assert forall v :: v in vs <==> v == vs[0] || v in vs[1..] by { assert vs == [vs[0]] + vs[1..]; }
      if vs[0].Blob? && vs[0].file.size > 0 then [vs[0].file] + rest else rest
  }

  /** The field error zod reports for `contactPhone`, if any. */
  function PhoneError(v: Option<FormValue>): (r: Option<string>)
    ensures r.None? <==> v.Some? && v.value.Text? && |v.value.text| >= 8
    ensures v.None? ==> r == Some(InvalidType("null"))
    ensures v.Some? && v.value.Blob? ==> r == Some(InvalidType("object"))
    ensures v.Some? && v.value.Text? && |v.value.text| < 8 ==> r == Some(InvalidPhone)
  {
    match v
    case None => Some(InvalidType("null"))
    case Some(Blob(_)) => Some(InvalidType("object"))
    case Some(Text(s)) => if |s| < 8 then Some(InvalidPhone) else None
  }

  /** `formData.get('productName') || undefined`: an empty string is dropped. */
  function RawProductName(v: Option<FormValue>): (r: Option<FormValue>)
    ensures r.None? <==> v.None? || v == Some(Text(""))
    ensures r.Some? ==> r == v
  {
    match v
    case Some(Text("")) => None
    case _ => v
  }

  /** `CreateSearchSchema.safeParse(rawData)` and the error message the action
      reports: the first phone error, or the generic message. */
  function Validate(fd: FormData): (r: Result<Validated, string>)
    ensures r.Success? <==>
              PhoneError(Get(fd, ContactPhoneField)).None?
              && (Get(fd, ProductNameField).None? || Get(fd, ProductNameField).value.Text?)
    ensures r.Success? ==>
              && Get(fd, ContactPhoneField) == Some(Text(r.value.contactPhone))
              && |r.value.contactPhone| >= 8
              && r.value.images == NonEmptyFiles(GetAll(fd, ImagesField))
              && (r.value.productName.Some? <==>
                    (Get(fd, ProductNameField).Some? && Get(fd, ProductNameField).value != Text("")))
              && (r.value.productName.Some? ==> Get(fd, ProductNameField) == Some(Text(r.value.productName.value)))
    ensures r.Failure? ==> r.error == PhoneError(Get(fd, ContactPhoneField)).GetOr(InvalidData)
  {
    var phone := Get(fd, ContactPhoneField);
    var name := RawProductName(Get(fd, ProductNameField));
    var images := NonEmptyFiles(GetAll(fd, ImagesField));
    var phoneError := PhoneError(phone);
    var nameOk := name.None? || name.value.Text?;
    if phoneError.None? && nameOk then
      Success(Validated(if name.Some? then Some(name.value.text) else None, images, phone.value.text))
    else
      Failure(phoneError.GetOr(InvalidData))
  }

  /** The upload loop: one public URL per image in order, or the message of
      the first upload that fails. */
  function UploadAll(images: seq<File>, upload: (nat, File) -> Result<string, string>): (r: Result<seq<string>, string>)
    ensures r.Success? <==> forall k :: 0 <= k < |images| ==> upload(k, images[k]).Success?
    ensures r.Success? ==> |r.value| == |images|
                           && forall k :: 0 <= k < |images| ==> r.value[k] == upload(k, images[k]).value
    ensures r.Failure? ==> exists k :: 0 <= k < |images| && upload(k, images[k]).Failure?
                                       && r.error == UploadErrorPrefix + upload(k, images[k]).error
                                       && forall j :: 0 <= j < k ==> upload(j, images[j]).Success?
  {
    if images == [] then Success([])
    else
      var n := |images| - 1;
      var init := images[..n];
      assert forall k :: 0 <= k < n ==> images[k] == init[k];
      match UploadAll(init, upload)
      case Failure(e) => Failure(e)
      case Success(urls) =>
        match upload(n, images[n])
        case Failure(e) => Failure(UploadErrorPrefix + e)
        case Success(u) => Success(urls + [u])
  }

  /** The row the action inserts, from the validated data, the uploaded URLs
      and the normalised name. */
  function NewRow(id: int, v: Validated, urls: seq<string>, name: string, now: int): (row: SearchRow)
    ensures row.id == id && row.clientId.None? && row.createdAt == now
    ensures row.clientPhone == v.contactPhone && row.originalProductName == v.productName && row.productName == name
    ensures row.photoUrls.None? <==> urls == []
    ensures row.photoUrls.Some? ==> row.photoUrls.value == urls
  {
    SearchRow(id, None, v.contactPhone, v.productName, name, if |urls| > 0 then Some(urls) else None, now)
  }

  /** The whole decision of `createSearchAction`: its reply and, when it
      inserts, the row. `id` and `now` are what the database assigns. */
  function CreateSearch(adminConfigured: bool, fd: FormData,
                        upload: (nat, File) -> Result<string, string>,
                        normalise: (string, seq<string>) -> Result<string, string>,
                        insertError: Option<string>, id: int, now: int): (r: (Reply, Option<SearchRow>))
    ensures r.1.Some? <==> r.0.success
    ensures r.0.success <==> r.0.error.None?
    ensures !adminConfigured ==> r == (Reply(false, Some(ServerConfigMissing)), None)
    ensures adminConfigured && Validate(fd).Failure? ==> r == (Reply(false, Some(Validate(fd).error)), None)
    ensures adminConfigured && Validate(fd).Success? ==>
              var v := Validate(fd).value;
              var up := UploadAll(v.images, upload);
              && (up.Failure? ==> r == (Reply(false, Some(up.error)), None))
              && (up.Success? && normalise(v.productName.GetOr(""), up.value).Failure? ==>
                    r == (Reply(false, Some(normalise(v.productName.GetOr(""), up.value).error)), None))
              && (up.Success? && normalise(v.productName.GetOr(""), up.value).Success? && insertError.Some? ==>
                    r == (Reply(false, Some(InsertErrorPrefix + insertError.value)), None))
              && (r.1.Some? <==>
                    && insertError.None? && up.Success?
                    && normalise(v.productName.GetOr(""), up.value).Success?)
              && (r.1.Some? ==>
                    && insertError.None? && up.Success?
                    && normalise(v.productName.GetOr(""), up.value).Success?
                    && r.1.value == NewRow(id, v, up.value, normalise(v.productName.GetOr(""), up.value).value, now))
  {
    if !adminConfigured then (Reply(false, Some(ServerConfigMissing)), None)
    else match Validate(fd)
    case Failure(e) => (Reply(false, Some(e)), None)
    case Success(v) =>
      match UploadAll(v.images, upload)
      case Failure(e) => (Reply(false, Some(e)), None)
      case Success(urls) =>
        match normalise(v.productName.GetOr(""), urls)
        case Failure(e) => (Reply(false, Some(e)), None)
        case Success(name) =>
          if insertError.Some? then (Reply(false, Some(InsertErrorPrefix + insertError.value)), None)
          else (Reply(true, None), Some(NewRow(id, v, urls, name, now)))
  }

  /** `createSearchAction`. Each upload is `upload(position, file)`, the
      normaliser is `normalise(description, urls)`, `insertError` is the
      insert's error if it fails, `now` the insertion time stamp. */
  method CreateSearchAction(db: Db.Store, adminConfigured: bool, fd: FormData,
                            upload: (nat, File) -> Result<string, string>,
                            normalise: (string, seq<string>) -> Result<string, string>,
                            insertError: Option<string>, now: int)
    returns (reply: Reply)
    requires db.Valid()
    modifies db`searches, db`nextSearchId
    ensures db.Valid()
    ensures var r := CreateSearch(adminConfigured, fd, upload, normalise, insertError, old(db.nextSearchId), now);
            && reply == r.0
            && db.searches == old(db.searches) + (if r.1.Some? then [r.1.value] else [])
    ensures db.weeks == old(db.weeks) && db.pharmacies == old(db.pharmacies)
    ensures db.profiles == old(db.profiles) && db.responses == old(db.responses)
  {
    if !adminConfigured {
      return Reply(false, Some(ServerConfigMissing));
    }
    var validated := Validate(fd);
    if validated.Failure? {
      return Reply(false, Some(validated.error));
    }
    var v := validated.value;
    var uploaded := UploadImages(v.images, upload);
    if uploaded.Failure? {
      return Reply(false, Some(uploaded.error));
    }
    var imageUrls := uploaded.value;
    var processed := normalise(v.productName.GetOr(""), imageUrls);
    if processed.Failure? {
      return Reply(false, Some(processed.error));
    }
    if insertError.Some? {
      return Reply(false, Some(InsertErrorPrefix + insertError.value));
    }
    var row := db.InsertSearch(None, v.contactPhone, v.productName, processed.value,
                               if |imageUrls| > 0 then Some(imageUrls) else None, now);
    reply := Reply(true, None);
  }

  /** The `for` loop over the images: upload each in turn, stop at the
      first failure. */
  method UploadImages(images: seq<File>, upload: (nat, File) -> Result<string, string>)
    returns (r: Result<seq<string>, string>)
    ensures r == UploadAll(images, upload)
  {
    var imageUrls: seq<string> := [];
    var k := 0;
    while k < |images|
      invariant 0 <= k <= |images|
      invariant UploadAll(images[..k], upload) == Success(imageUrls)
    {
      assert images[..k + 1][..k] == images[..k];
      var uploaded := upload(k, images[k]);
      if uploaded.Failure? {
        assert UploadAll(images[..k + 1], upload).Failure?;
        UploadFailureSticks(images, k + 1, upload);
        return Failure(UploadErrorPrefix + uploaded.error);
      }
      imageUrls := imageUrls + [uploaded.value];
      k := k + 1;
    }
    assert images[..k] == images;
    r := Success(imageUrls);
  }

  /** Once a prefix of the uploads fails, the whole loop fails the same way. */
  lemma {:induction false} UploadFailureSticks(images: seq<File>, k: nat,
                                               upload: (nat, File) -> Result<string, string>)
    requires k <= |images| && UploadAll(images[..k], upload).Failure?
    ensures UploadAll(images, upload) == UploadAll(images[..k], upload)
    decreases |images| - k
  {
    if k < |images| {
      assert images[..k + 1][..k] == images[..k];
      UploadFailureSticks(images, k + 1, upload);
    } else {
      assert images[..k] == images;
    }
  }

  /** `getSearchesByClientAction(userId)`: the client's requests with their
      responses, newest first. `queryError` is what the query throws, if anything. */
  function GetSearchesByClient(adminConfigured: bool, userId: string, searches: seq<SearchRow>,
                               responses: seq<ResponseRow>, queryError: Option<Thrown>): (r: ListReply)
    ensures r.success <==> r.data.Some?
    ensures r.success <==> adminConfigured && userId != "" && queryError.None?
    ensures adminConfigured && userId == "" ==> r == ListReply(false, Some(MissingUserId), None)
    ensures adminConfigured && userId != "" && queryError.Some? ==>
              r == ListReply(false, Some(CaughtMessage(queryError.value)), None)
    ensures r.data.Some? ==>
              && NewestFirst(SearchesOf(r.data.value))
              && (forall s :: multiset(SearchesOf(r.data.value))[s] ==
                                if s.clientId == Some(userId) then multiset(searches)[s] else 0)
              && (forall i :: 0 <= i < |r.data.value| ==>
                    r.data.value[i].responses == ResponsesOf(r.data.value[i].search.id, responses))
  {
    if !adminConfigured then ListReply(false, Some(ServerConfigMissing), None)
    else if userId == "" then ListReply(false, Some(MissingUserId), None)
    else if queryError.Some? then ListReply(false, Some(CaughtMessage(queryError.value)), None)
    else ListReply(true, None, Some(SelectNewestFirst(searches, (s: SearchRow) => s.clientId == Some(userId), responses)))
  }

  /** `createSearchAction` stores `client_id` as null, so a request it creates
      is never in any client's listing. */
  lemma CreatedSearchNotInClientListing(
    fd: FormData, upload: (nat, File) -> Result<string, string>,
    normalise: (string, seq<string>) -> Result<string, string>, insertError: Option<string>,
    id: int, now: int, userId: string, searches: seq<SearchRow>, responses: seq<ResponseRow>)
    requires CreateSearch(true, fd, upload, normalise, insertError, id, now).1.Some?
    ensures var row := CreateSearch(true, fd, upload, normalise, insertError, id, now).1.value;
            var listed := GetSearchesByClient(true, userId, searches + [row], responses, None);
            listed.data.Some? ==> row !in SearchesOf(listed.data.value)
  {
    var row := CreateSearch(true, fd, upload, normalise, insertError, id, now).1.value;
    assert row.clientId.None?;
    var listed := GetSearchesByClient(true, userId, searches + [row], responses, None);
    if listed.data.Some? {
      var got := SearchesOf(listed.data.value);
      assert multiset(got)[row] == 0;
    }
  }

  /** A text-only request (no image entries) is stored with no photos and the
      normaliser's name for its text. */
  lemma TextOnlyRequestHasNoPhotos(
    fd: FormData, upload: (nat, File) -> Result<string, string>,
    normalise: (string, seq<string>) -> Result<string, string>, id: int, now: int)
    requires GetAll(fd, ImagesField) == []
    requires CreateSearch(true, fd, upload, normalise, None, id, now).1.Some?
    ensures var row := CreateSearch(true, fd, upload, normalise, None, id, now).1.value;
            && row.photoUrls.None?
            && Validate(fd).Success?
            && row.productName == normalise(Validate(fd).value.productName.GetOr(""), []).value
  {
  }
}

/** The client's product-request form: its validation schema, the bounded
    image list kept in step with its previews, and the form data it posts. */
module SearchForm {

  import opened Wrappers
  import opened Schema
  import opened Seqs
  import opened Forms
  import SearchActions

  const MaxImages := 3
  const MaxFileSize := 5 * 1024 * 1024

  /** The form field the form posts the phone number under. */
  const ClientPhoneField := "clientPhone"

  datatype Toast = Toast(title: string, description: Option<string>, destructive: bool)

  const LimitToast := Toast("Limite d'images atteinte",
                            Some("Vous ne pouvez télécharger que 3 images au maximum."), true)
  const SentToast := Toast("Demande envoyée !",
                           Some("Les pharmacies à proximité seront notifiées. Vous serez contacté par téléphone."), false)

  function OversizeToast(f: File): Toast {
    Toast("Fichier trop volumineux",
          Some("L'image \"" + f.name + "\" dépasse la taille maximale de 5MB."), true)
  }

  /** `SearchSchema`: a phone of at least 8 characters, and a product name
      or at least one image. */
  predicate SearchSchema(clientPhone: Option<string>, productName: Option<string>, images: Option<seq<File>>) {
    && clientPhone.Some? && |clientPhone.value| >= 8
    && (Truthy(productName) || (images.Some? && |images.value| > 0))
  }

  function FilesOf(images: Option<seq<File>>): seq<File> {
    if images.Some? then images.value else []
  }

  /** The files of a batch small enough to keep, in order. */
  function Kept(batch: seq<File>): (r: seq<File>)
    ensures |r| <= |batch|
  {
    if batch == [] then []
    else
      var n := |batch| - 1;
      Kept(batch[..n]) + (if batch[n].size <= MaxFileSize then [batch[n]] else [])
  }

  /** The kept files are exactly the batch's files of at most 5MB. */
  lemma {:induction false} KeptExactly(batch: seq<File>)
    ensures forall f :: f in Kept(batch) <==> f in batch && f.size <= MaxFileSize
    decreases |batch|
  {
    if batch != [] {
      var n := |batch| - 1;
      KeptExactly(batch[..n]);
      assert batch == batch[..n] + [batch[n]];
    }
  }

  /** One preview URL per file, in order. */
  function Previews(fs: seq<File>, blobUrl: File -> string): (r: seq<string>)
    ensures |r| == |fs| && forall i :: 0 <= i < |fs| ==> r[i] == blobUrl(fs[i])
  {
    if fs == [] then [] else Previews(fs[..|fs| - 1], blobUrl) + [blobUrl(fs[|fs| - 1])]
  }

  /** One warning per oversized file of the batch, in order. */
  function OversizeToasts(batch: seq<File>): (r: seq<Toast>)
    ensures |r| == |batch| - |Kept(batch)|
  {
    if batch == [] then []
    else
      var n := |batch| - 1;
      assert batch[..n] + [batch[n]] == batch;
      OversizeToasts(batch[..n]) + (if batch[n].size > MaxFileSize then [OversizeToast(batch[n])] else [])
  }

  /** One more file of the batch extends the kept files, their previews
      and the warnings by that file alone. */
  lemma BatchStep(batch: seq<File>, j: nat, blobUrl: File -> string)
    requires j < |batch|
    ensures var small := batch[j].size <= MaxFileSize;
            && Kept(batch[..j + 1]) == Kept(batch[..j]) + (if small then [batch[j]] else [])
            && Previews(Kept(batch[..j + 1]), blobUrl)
               == Previews(Kept(batch[..j]), blobUrl) + (if small then [blobUrl(batch[j])] else [])
            && OversizeToasts(batch[..j + 1])
               == OversizeToasts(batch[..j]) + (if small then [] else [OversizeToast(batch[j])])
  {
    assert batch[..j + 1][..j] == batch[..j];
    var k := Kept(batch[..j]);
    if batch[j].size <= MaxFileSize {
      assert (k + [batch[j]])[..|k|] == k;
    }
  }

  /** The copy loop of `handleImageChange` over the files already attached. */
  method CopyFiles(existing: seq<File>) returns (copy: seq<File>)
    ensures copy == existing
  {
    copy := [];
    var i := 0;
    while i < |existing|
      invariant 0 <= i <= |existing|
      invariant copy == existing[..i]
    {
      assert existing[..i + 1] == existing[..i] + [existing[i]];
      copy := copy + [existing[i]];
      i := i + 1;
    }
    assert existing[..i] == existing;
  }

  /** The batch loop of `handleImageChange`: warn about each oversized file,
      keep the others with one preview each. */
  method SplitBatch(batch: seq<File>, blobUrl: File -> string)
    returns (kept: seq<File>, urls: seq<string>, toasts: seq<Toast>)
    ensures kept == Kept(batch)
    ensures urls == Previews(Kept(batch), blobUrl)
    ensures toasts == OversizeToasts(batch)
  {
    kept, urls, toasts := [], [], [];
    var j := 0;
    while j < |batch|
      invariant 0 <= j <= |batch|
      invariant kept == Kept(batch[..j])
      invariant urls == Previews(Kept(batch[..j]), blobUrl)
      invariant toasts == OversizeToasts(batch[..j])
    {
      var file := batch[j];
      BatchStep(batch, j, blobUrl);
      if file.size > MaxFileSize {
        toasts := toasts + [OversizeToast(file)];
      } else {
        urls := urls + [blobUrl(file)];
        kept := kept + [file];
      }
      j := j + 1;
    }
    assert batch[..j] == batch;
  }

  /** The list without its `index`-th entry; unchanged when there is none. */
  function RemoveAt<T>(s: seq<T>, index: nat): (r: seq<T>)
    ensures |r| == if index < |s| then |s| - 1 else |s|
  {
    if s == [] then []
    else RemoveAt(s[..|s| - 1], index) + (if |s| - 1 == index then [] else [s[|s| - 1]])
  }

  /** Dropping position `index` keeps everything before and after it, in order. */
  lemma {:induction false} RemoveAtSplices<T>(s: seq<T>, index: nat)
    ensures RemoveAt(s, index) == if index < |s| then s[..index] + s[index + 1..] else s
    decreases |s|
  {
    if s != [] {
      var n := |s| - 1;
      RemoveAtSplices(s[..n], index);
      assert s == s[..n] + [s[n]];
      if index < n {
        assert s[..n][..index] == s[..index];
        assert s[..n][index + 1..] + [s[n]] == s[index + 1..];
      } else if index == n {
        assert s[..n][..index] == s[..index];
      }
    }
  }

  /** The form data `onSubmit` builds, with the phone under `phoneField`. */
  function Submitted(phoneField: string, clientPhone: string, productName: Option<string>,
                     images: Option<seq<File>>): (fd: FormData)
    ensures |fd| == 1 + (if Truthy(productName) then 1 else 0) + |FilesOf(images)|
    ensures fd[0] == (phoneField, Text(clientPhone))
  {
    [(phoneField, Text(clientPhone))]
    + (if Truthy(productName) then [(SearchActions.ProductNameField, Text(productName.value))] else [])
    + Entries(SearchActions.ImagesField, FilesOf(images))
  }

  /** The `onSubmit` loop: append the phone, the product name when given, and
      every image under `images` in order. */
  method BuildFormData(phoneField: string, clientPhone: string, productName: Option<string>,
                       images: Option<seq<File>>) returns (fd: FormData)
    ensures fd == Submitted(phoneField, clientPhone, productName, images)
    ensures fd[0] == (phoneField, Text(clientPhone))
    ensures |fd| == 1 + (if Truthy(productName) then 1 else 0) + |FilesOf(images)|
  {
    fd := [(phoneField, Text(clientPhone))];
    if Truthy(productName) {
      fd := fd + [(SearchActions.ProductNameField, Text(productName.value))];
    }
    var head := fd;
    if images.Some? {
      var fs := images.value;
      var i := 0;
      while i < |fs|
        invariant 0 <= i <= |fs|
        invariant fd == head + Entries(SearchActions.ImagesField, fs[..i])
      {
        EntriesAppend(fs[..i], fs[i]);
        assert fs[..i + 1] == fs[..i] + [fs[i]];
        fd := fd + [(SearchActions.ImagesField, Blob(fs[i]))];
        i := i + 1;
      }
      assert fs[..i] == fs;
    }
  }

  lemma EntriesAppend(fs: seq<File>, f: File)
    ensures Entries(SearchActions.ImagesField, fs + [f])
            == Entries(SearchActions.ImagesField, fs) + [(SearchActions.ImagesField, Blob(f))]
  {
  }

  /** The page state of the form: its fields and the image previews. */
  class FormState {
    var clientPhone: Option<string>
    var productName: Option<string>
    var images: Option<seq<File>>
    var previews: seq<string>

    constructor ()
      ensures clientPhone.None? && productName.None? && images.None? && previews == []
    {
      clientPhone, productName, images, previews := None, None, None, [];
    }

    /** One preview per attached file. */
    predicate InStep()
      reads this
    {
      |previews| == |FilesOf(images)|
    }

    /** `handleImageChange`: refuse a batch that would exceed the limit;
        otherwise skip oversized files and append the rest after the
        existing ones, one preview each. */
    method HandleImageChange(files: Option<seq<File>>, blobUrl: File -> string) returns (toasts: seq<Toast>)
      modifies this`images, this`previews
      ensures files.None? ==> images == old(images) && previews == old(previews) && toasts == []
      ensures files.Some? && |old(previews)| + |files.value| > MaxImages ==>
                images == old(images) && previews == old(previews) && toasts == [LimitToast]
      ensures files.Some? && |old(previews)| + |files.value| <= MaxImages ==>
                && images == Some(FilesOf(old(images)) + Kept(files.value))
                && previews == old(previews) + Previews(Kept(files.value), blobUrl)
                && toasts == OversizeToasts(files.value)
                && |previews| <= MaxImages
      ensures old(InStep()) ==> InStep()
      ensures old(InStep()) && images != old(images) ==> |FilesOf(images)| <= MaxImages
    {
      if files.None? {
        return [];
      }
      var batch := files.value;
      if |previews| + |batch| > MaxImages {
        return [LimitToast];
      }
      var fileList := CopyFiles(FilesOf(images));
      var kept, newPreviews;
      kept, newPreviews, toasts := SplitBatch(batch, blobUrl);
      previews := previews + newPreviews;
      images := Some(fileList + kept);
    }

    /** `removeImage(index)`: drop the `index`-th preview and the
        `index`-th file, keeping the rest in order. */
    method RemoveImage(index: nat)
      modifies this`images, this`previews
      ensures previews == RemoveAt(old(previews), index)
      ensures images == if old(images).None? then None else Some(RemoveAt(old(images).value, index))
      ensures old(InStep()) ==> InStep()
    {
      RemoveAtSplices(previews, index);
      previews := RemoveAt(previews, index);
      if images.Some? {
        var existing := images.value;
        var fileList: seq<File> := [];
        var i := 0;
        while i < |existing|
          invariant 0 <= i <= |existing|
          invariant fileList == RemoveAt(existing[..i], index)
        {
          assert existing[..i + 1][..i] == existing[..i];
          if i != index {
            fileList := fileList + [existing[i]];
          }
          i := i + 1;
        }
        assert existing[..i] == existing;
        RemoveAtSplices(existing, index);
        images := Some(fileList);
      }
    }

    /** `form.handleSubmit(onSubmit)`: nothing is posted unless the schema
        holds; then the form data is built with the phone under `clientPhone`. */
    method PrepareSubmit() returns (fd: Option<FormData>)
      ensures fd.Some? <==> SearchSchema(clientPhone, productName, images)
      ensures fd.Some? ==> fd.value == Submitted(ClientPhoneField, clientPhone.value, productName, images)
    {
      if !SearchSchema(clientPhone, productName, images) {
        return None;
      }
      var data := BuildFormData(ClientPhoneField, clientPhone.value, productName, images);
      fd := Some(data);
    }

    /** The reply handling of `onSubmit`: on success the fields reset to
        empty, previews are cleared and images become undefined. */
    method ApplyReply(reply: SearchActions.Reply) returns (toast: Toast)
      modifies this
      ensures reply.success ==>
                && clientPhone == Some("") && productName == Some("") && previews == [] && images.None?
                && toast == SentToast
      ensures !reply.success ==>
                && clientPhone == old(clientPhone) && productName == old(productName)
                && previews == old(previews) && images == old(images)
                && toast == Toast("Erreur", reply.error, true)
      ensures InStep()  || !reply.success
    {
      if reply.success {
        toast := SentToast;
        productName, clientPhone := Some(""), Some("");
        previews := [];
        images := None;
      } else {
        toast := Toast("Erreur", reply.error, true);
      }
    }
  }

  // -----------------------------------------------------------------------
  // the phone field name

  /** As written, the form posts the phone under `clientPhone` while the
      server reads `contactPhone`, so every submission the form makes fails
      server validation with zod's null-type message. */
  lemma AsWrittenFormIsRejected(clientPhone: string, productName: Option<string>, images: Option<seq<File>>)
    ensures var v := SearchActions.Validate(Submitted(ClientPhoneField, clientPhone, productName, images));
            v.Failure? && v.error == SearchActions.InvalidType("null")
  {
    var fd := Submitted(ClientPhoneField, clientPhone, productName, images);
    forall i | 0 <= i < |fd| ensures fd[i].0 != SearchActions.ContactPhoneField {
      assert fd[i].0 in {ClientPhoneField, SearchActions.ProductNameField, SearchActions.ImagesField};
    }
  }

  /** What the server reads back from a submission whose phone goes under
      `contactPhone`. */
  lemma SubmittedFields(clientPhone: string, productName: Option<string>, images: Option<seq<File>>)
    ensures var fd := Submitted(SearchActions.ContactPhoneField, clientPhone, productName, images);
            && Get(fd, SearchActions.ContactPhoneField) == Some(Text(clientPhone))
            && Get(fd, SearchActions.ProductNameField)
               == (if Truthy(productName) then Some(Text(productName.value)) else None)
            && GetAll(fd, SearchActions.ImagesField) == Blobs(FilesOf(images))
  {
    var fd := Submitted(SearchActions.ContactPhoneField, clientPhone, productName, images);
    SubmittedImages(clientPhone, productName, images);
    if !Truthy(productName) {
      forall i | 0 <= i < |fd| ensures fd[i].0 != SearchActions.ProductNameField {
        assert fd[i].0 in {SearchActions.ContactPhoneField, SearchActions.ImagesField};
      }
    }
  }

  lemma SubmittedImages(clientPhone: string, productName: Option<string>, images: Option<seq<File>>)
    ensures GetAll(Submitted(SearchActions.ContactPhoneField, clientPhone, productName, images), SearchActions.ImagesField)
            == Blobs(FilesOf(images))
  {
    var head := [(SearchActions.ContactPhoneField, Text(clientPhone))]
      + (if Truthy(productName) then [(SearchActions.ProductNameField, Text(productName.value))] else []);
    var es := Entries(SearchActions.ImagesField, FilesOf(images));
    assert Submitted(SearchActions.ContactPhoneField, clientPhone, productName, images) == head + es;
    GetAllAppend(head, es, SearchActions.ImagesField);
    GetAllOtherName(head, SearchActions.ImagesField);
    GetAllOfOneName(FilesOf(images), SearchActions.ImagesField);
  }

  /** With the phone under `contactPhone`, every submission that passes the
      form's schema passes server validation, carrying the phone, the
      product name when non-empty, and the non-empty images in order. */
  lemma CorrectedFormIsAccepted(clientPhone: string, productName: Option<string>, images: Option<seq<File>>)
    requires SearchSchema(Some(clientPhone), productName, images)
    ensures var v := SearchActions.Validate(Submitted(SearchActions.ContactPhoneField, clientPhone, productName, images));
            && v.Success?
            && v.value.contactPhone == clientPhone
            && v.value.productName == (if Truthy(productName) then productName else None)
            && v.value.images == SearchActions.NonEmptyFiles(Blobs(FilesOf(images)))
  {
    SubmittedFields(clientPhone, productName, images);
  }
}

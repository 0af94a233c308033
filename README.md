# Pharma-Guard core, modelled in Dafny

Pharma-Guard is a Next.js front end for on-duty pharmacies, backed by a hosted
database. It has three parts:

- **Product requests.** A client posts a request from a form. The request holds a
  phone number, an optional product name and up to three photos.
- **Pharmacist dashboard.** Pharmacists sign in by magic link, complete their
  profile with a pharmacy name, and see every request on a dashboard.
- **Admin upload.** An administrator replaces the weekly on-duty schedule by
  uploading a JSON file.

This project models the decision and data logic the application writes out
itself. It proves what that logic guarantees and where it goes wrong.

The database is simulated in memory: the class `Db.Store` holds one sequence of
rows per table, and one id counter per bigserial table. The server actions
that change it are methods on the store. Each method is proved against a pure
function of the old state (`AdminActions.Loop`, `PharmacistAuth.ProfileStep`,
`SearchActions.CreateSearch`). The lemmas then state what the functions mean:

- no rollback;
- one week per schedule;
- the profile found afterwards is the one returned;
- a second call changes nothing;
- and more.

Client state with fields updated in place is also a class:

- the image list of the request form (`SearchForm.FormState`);
- the dashboard page (`DashboardPage.Page`);
- the admin login (`AdminClient.AdminPageState`).

Outside services are parameters, and each may fail: the identity provider, blob
storage, the AI name normaliser, the store's error replies, `JSON.parse`,
`encodeURIComponent` and zod's email check.

JavaScript semantics are modelled where the code relies on them:

- truthiness of strings (`Schema.Truthy`);
- `String.prototype.trim` over the ECMAScript white-space set (`Text.Trim`);
- `includes` (`Text.Contains`);
- `[...new Set(xs)]` as first-occurrence deduplication (`Seqs.Distinct`);
- `Array.prototype.sort`'s default order (`Text.SortStrings`);
- `every`'s short-circuit, and the TypeError that `in` throws on a primitive
  (`AdminClient.EveryFrom`).

Points where the code itself is inconsistent, which the model keeps as written:

- The admin upload is guarded twice, by two different passwords. The client
  compares with `NEXT_PUBLIC_ADMIN_PASSWORD`. The server compares with a fixed
  string. When the two differ and the admin client is configured, a logged-in
  admin's every upload is refused (`AdminClient.PublicPasswordMismatch`).
- `AdminPage` passes a `pharmacies` prop that `AdminPageClient` does not take.
  The directory it computes is therefore never shown. It is modelled as the
  function it is (`AdminPage.GetPharmaciesWithProfiles`).
- `AuthForm.tsx` imports `signInWithPhoneAction` and `signUpWithPhoneAction`.
  `src/app/product-search/actions.ts` does not define them. Their replies are
  parameters here.
- `getAllPharmacyNamesAction` selects `nom` without an order, then sorts.
  `getPharmaciesWithProfiles` orders in the database, then deduplicates. When
  the database's collation for `.order('nom')` is the code-point order that
  `sort()` uses, both give a strictly ascending list of the same names
  (`ProfileActions.NamesListEachOnce`, `AdminPage.DirectoryListsEachNameOnce`).
  Under a locale collation the two can order names differently (for example
  "a" and "B"); the model does not cover that case.
- `getPharmacistProfile` and `getAllSearchesAction` keep only the `data` of
  the profile read and drop its error, so a failed read is taken for a missing
  profile. An existing pharmacist whose read fails is then offered a profile
  insert that collides with their own row, and gets "Erreur lors de la
  création du profil." (`PharmacistAuth.FailedReadRefusesExistingPharmacist`).
  The dashboard listing answers the same pharmacist "Accès réservé aux
  pharmaciens.".

## Model

| member | source | states |
|---|---|---|
| `Text.Contains` | src/app/admin/actions.ts:56 | `includes`: true exactly when the substring occurs at some position |
| `Text.ContainsFrom` | src/app/admin/actions.ts:56 | the search from position `i` finds exactly the occurrences at or after `i` |
| `Text.SpaceRunEnd` | src/app/pharmacist-profile/page.tsx:26 | the white-space run from `i` ends at the first non-space character, or at the end |
| `Text.SpaceRunStart` | src/app/pharmacist-profile/page.tsx:26 | the white-space run ending at `j` starts just after a non-space character, or at the lower bound |
| `Text.TrimBounds` | src/app/pharmacist-profile/page.tsx:26 | `trim` keeps a slice such that everything before it and after it is white space; a non-empty kept part starts and ends on a non-space character |
| `Text.Trim` | src/app/pharmacist-profile/page.tsx:26 | the trimmed name is no longer than the input; it is empty exactly when the input is all white space |
| `Text.BelowReflexive` | src/app/pharmacist-profile/actions.ts:25 | the default sort order is reflexive |
| `Text.BelowTotal` | src/app/pharmacist-profile/actions.ts:25 | any two strings are comparable |
| `Text.BelowAntisymmetric` | src/app/pharmacist-profile/actions.ts:25 | strings below each other are equal |
| `Text.BelowTransitive` | src/app/pharmacist-profile/actions.ts:25 | the order is transitive |
| `Text.InsertAscending` | src/app/pharmacist-profile/actions.ts:25 | inserting into an ascending list gives an ascending list with one more copy of the element and nothing else new |
| `Text.InsertAfterFirst` | src/app/pharmacist-profile/actions.ts:25 | keeping the head in front of a sorted insertion into the tail gives an ascending list with the same contents |
| `Text.SortStrings` | src/app/pharmacist-profile/actions.ts:25 | `sort()` returns an ascending permutation of its input |
| `Text.DistinctOfAscending` | src/app/admin/page.tsx:13-22 | deduplicating a list already ordered by name gives a strictly ascending list |
| `Text.SortKeepsNoDuplicates` | src/app/pharmacist-profile/actions.ts:23-25 | sorting a duplicate-free list gives a strictly ascending list |
| `Seqs.Filter` | src/app/product-search/actions.ts:43 | `filter` keeps each element satisfying the predicate as often as it occurs, and nothing else |
| `Seqs.FilterAppend` | src/app/product-search/actions.ts:43 | filtering keeps order: it distributes over concatenation |
| `Seqs.Distinct` | src/app/pharmacist-profile/actions.ts:23 | `[...new Set(xs)]` has no duplicates and exactly the members of `xs` |
| `Seqs.DistinctKeepsFirstOccurrenceOrder` | src/app/admin/page.tsx:22 | the deduplicated entries come in the order of their first occurrences |
| `Forms.Get` | src/app/product-search/actions.ts:42-44 | `get` is null exactly when no entry has the name; otherwise it is the value of the first entry with the name |
| `Forms.GetAll` | src/app/product-search/actions.ts:43 | `getAll` returns only values that some entry with the name carries, never more values than entries |
| `Forms.GetAllAppend` | src/app/product-search/actions.ts:43 | `getAll` of a concatenation is the concatenation of the `getAll`s |
| `Forms.GetAllOfOneName` | src/app/product-search/actions.ts:43 | `getAll` returns every file appended under the name, in order |
| `Forms.GetAllOtherName` | src/app/product-search/actions.ts:43 | entries under other names contribute nothing to `getAll` |
| `Forms.Entries` | src/app/product-search/SearchForm.tsx:102-106 | one entry under the name per file, in file order |
| `Db.ProfileById` | src/app/pharmacist-auth/actions.ts:53-57 | `.eq('id', id).single()` finds a row with that id, and finds none exactly when no row has that id |
| `Db.ProfileByIdUnique` | src/app/pharmacist-auth/actions.ts:53-57 | with unique ids, the row found is the one holding the id |
| `Db.UpdateWhereId` | src/app/pharmacist-auth/actions.ts:80-85 | `.update(f).eq('id', id)` applies `f` to exactly the rows with that id and keeps the others in place |
| `Db.PharmacyRows` | src/app/admin/actions.ts:38-46 | one `pharmacies` row per uploaded pharmacy, with consecutive ids, the given week, and `nom`, `localisation`, `contact1` and `contact2` copied |
| `Db.DeleteAbove` | src/app/admin/actions.ts:20 | `.delete().gt('id', bound)` keeps exactly the rows with id at most `bound` |
| `Db.DeleteAboveEmpties` | src/app/admin/actions.ts:20-24 | on positive ids, deleting above a bound below 1 (the code uses -1) empties the table |
| `Db.Store.DeletePharmaciesAbove` | src/app/admin/actions.ts:20 | the `pharmacies` delete, which empties the table for a bound below 1; the store stays valid |
| `Db.Store.DeleteWeeksAbove` | src/app/admin/actions.ts:23 | the `weeks` delete, likewise |
| `Db.Store.InsertWeek` | src/app/admin/actions.ts:27-31 | appends one week under the next id and returns that id |
| `Db.Store.InsertPharmacies` | src/app/admin/actions.ts:46 | appends the rows of `PharmacyRows` from the next id on |
| `Db.Store.InsertSearch` | src/app/product-search/actions.ts:84-93 | appends the request row under the next id, stamped `now` |
| `Db.Store.InsertProfile` | src/app/pharmacist-auth/actions.ts:61-69 | inserts exactly when the id is free, keeping ids a key |
| `Db.Store.UpdateProfile` | src/app/pharmacist-profile/actions.ts:44-47 | the table after `UpdateWhereId`, for an update that keeps ids |
| `Queries.InsertNewestFirst` | src/app/pharmacist-dashboard/actions.ts:40 | inserting a row into a newest-first list keeps it newest first, with one more copy of the row |
| `Queries.SortNewestFirst` | src/app/pharmacist-dashboard/actions.ts:40 | `.order('created_at', { ascending: false })` is a newest-first permutation of the rows |
| `Queries.ResponsesOf` | src/app/pharmacist-dashboard/actions.ts:36-39 | the embedded responses are exactly those whose `search_id` is the search's id, each as often as stored |
| `Queries.Embed` | src/app/pharmacist-dashboard/actions.ts:36-39 | each search is paired with its own responses, in the given order |
| `Queries.SelectNewestFirst` | src/app/product-search/actions.ts:120-124 | the listing has exactly the rows the filter admits, newest first, each with its responses |
| `SearchForm.SearchSchema` | src/app/product-search/SearchForm.tsx:23-30 | (its definition) the form passes exactly when the phone has at least 8 characters and there is a non-empty product name or at least one image |
| `SearchForm.Kept` | src/app/product-search/SearchForm.tsx:67-74 | a batch never yields more kept files than it holds; which files are kept is `SearchForm.KeptExactly` |
| `SearchForm.KeptExactly` | src/app/product-search/SearchForm.tsx:67-74 | the files kept from a batch are exactly those of at most 5 MB |
| `SearchForm.Previews` | src/app/product-search/SearchForm.tsx:72 | one preview URL per kept file, in order |
| `SearchForm.OversizeToasts` | src/app/product-search/SearchForm.tsx:68-71 | one warning per skipped file |
| `SearchForm.BatchStep` | src/app/product-search/SearchForm.tsx:67-74 | one more file extends the kept files, their previews and the warnings by that file alone |
| `SearchForm.CopyFiles` | src/app/product-search/SearchForm.tsx:59-65 | the copy loop reproduces the attached files in order |
| `SearchForm.SplitBatch` | src/app/product-search/SearchForm.tsx:67-74 | the batch loop yields the kept files, one preview each, and one warning per oversized file |
| `SearchForm.RemoveAt` | src/app/product-search/SearchForm.tsx:81-93 | removing a position that exists shortens the list by one; removing one past the end leaves its length |
| `SearchForm.RemoveAtSplices` | src/app/product-search/SearchForm.tsx:81-93 | removing position `i` keeps everything before and after it, in order, and removes nothing when there is no such position |
| `SearchForm.BuildFormData` | src/app/product-search/SearchForm.tsx:99-106 | the posted data starts with the phone, carries the product name only when it is non-empty, then every image under `images` in order |
| `SearchForm.FormState.HandleImageChange` | src/app/product-search/SearchForm.tsx:42-79 | a batch that would exceed 3 images is refused with everything unchanged; otherwise oversized files are skipped and the others appended after the existing ones, one preview each; at most 3 images; previews stay in step with files |
| `SearchForm.FormState.RemoveImage` | src/app/product-search/SearchForm.tsx:81-95 | drops exactly the `i`-th preview and the `i`-th file; previews stay in step with files |
| `SearchForm.FormState.PrepareSubmit` | src/app/product-search/SearchForm.tsx:23-30 | data is posted exactly when the phone has at least 8 characters and there is a product name or an image |
| `SearchForm.FormState.ApplyReply` | src/app/product-search/SearchForm.tsx:108-117 | on success the fields reset to empty, the previews are cleared and the images become undefined; on failure nothing changes and the error is shown |
| `SearchForm.AsWrittenFormIsRejected` | src/app/product-search/SearchForm.tsx:100 | every submission the form makes fails server validation with zod's null-type message |
| `SearchForm.Submitted` | src/app/product-search/SearchForm.tsx:99-106 | the phone is the first entry; one more entry for a non-empty product name and one per image |
| `SearchForm.SubmittedFields` | src/app/product-search/SearchForm.tsx:99-106 | the server reads back the phone, the product name exactly when it is non-empty, and the images in order |
| `SearchForm.SubmittedImages` | src/app/product-search/SearchForm.tsx:102-106 | `getAll('images')` returns every attached image in order |
| `SearchForm.CorrectedFormIsAccepted` | src/app/product-search/SearchForm.tsx:99-106 | with the phone under `contactPhone`, every submission the form's schema admits passes server validation with its fields intact |
| `SearchActions.NonEmptyFiles` | src/app/product-search/actions.ts:43 | only entries that are files with a size above 0 are kept as images |
| `SearchActions.PhoneError` | src/app/product-search/actions.ts:44-51 | the phone passes exactly when it is a string of at least 8 characters; a missing one gets the null-type message, a file the object-type message, a shorter string 'Le numéro de contact est invalide.' |
| `SearchActions.RawProductName` | src/app/product-search/actions.ts:42 | `productName` is undefined exactly when the field is missing or the empty string; otherwise it is the field's value unchanged |
| `SearchActions.Validate` | src/app/product-search/actions.ts:29-52 | validation needs only a phone of at least 8 characters; description and images are optional; an empty product name is dropped; on a failure the reported error is the phone's own message (a missing phone, a file sent as the phone, a phone shorter than 8) and otherwise the generic message |
| `SearchActions.UploadAll` | src/app/product-search/actions.ts:59-77 | one URL per image in order when every upload succeeds; otherwise the prefixed message of the first failing upload |
| `SearchActions.NewRow` | src/app/product-search/actions.ts:84-93 | the inserted row has no client, the validated phone and raw name, the normalised name, and photo URLs exactly when at least one image was uploaded, those URLs in order |
| `SearchActions.CreateSearch` | src/app/product-search/actions.ts:35-106 | the checks fail in the order configuration, validation, uploads, normaliser, insert; a row is stored exactly on success, with null `client_id`, the phone, the original name, the normalised name, and photos null when there are none |
| `SearchActions.CreateSearchAction` | src/app/product-search/actions.ts:35-106 | the action replies as `CreateSearch` and appends its row, leaving every other table alone |
| `SearchActions.UploadImages` | src/app/product-search/actions.ts:59-77 | the upload loop computes `UploadAll` |
| `SearchActions.UploadFailureSticks` | src/app/product-search/actions.ts:60-69 | once an upload fails, the loop's result is that failure |
| `SearchActions.GetSearchesByClient` | src/app/product-search/actions.ts:109-137 | an empty user id fails with no data; otherwise exactly the client's rows, newest first, each with its responses |
| `SearchActions.CreatedSearchNotInClientListing` | src/app/product-search/actions.ts:84-93 | a stored request has a null `client_id`, so it is in no client's listing |
| `SearchActions.TextOnlyRequestHasNoPhotos` | src/app/product-search/actions.ts:79-92 | a request without images is stored with null photos and the normalised name of its text |
| `SearchCard.Subtitle` | src/app/product-search/SearchCard.tsx:30-32 | a subtitle appears exactly when the original name is non-empty and differs from the stored name |
| `SearchCard.Thumbs` | src/app/product-search/SearchCard.tsx:41-45 | one thumbnail per URL, numbered from 1, in order |
| `SearchCard.Thumbnails` | src/app/product-search/SearchCard.tsx:39-46 | thumbnails exist exactly when the photo list is non-null and non-empty, one per photo |
| `SearchCard.View` | src/app/product-search/SearchCard.tsx:21-53 | the title is the stored product name and the badge is always pending |
| `SearchCard.CardOfCreatedSearch` | src/app/product-search/SearchCard.tsx:28-46 | a newly stored request shows the normalised name, a subtitle only when the normaliser changed a non-empty name, and one thumbnail per uploaded image |
| `AdminActions.Step` | src/app/admin/actions.ts:27-48 | one schedule only appends: the weeks and the pharmacy rows before it stay a prefix, with at most one week added, and an earlier error stays the error |
| `AdminActions.Loop` | src/app/admin/actions.ts:26-49 | the loop adds at most one week per schedule |
| `AdminActions.Rewrite` | src/app/admin/actions.ts:55-58 | a message containing 'does not exist' is replaced by advice that quotes it; any other is kept |
| `AdminActions.StepSucceeds` | src/app/admin/actions.ts:26-46 | a successful iteration adds the week under the next id and its pharmacies under that week |
| `AdminActions.LoopWeeks` | src/app/admin/actions.ts:26-35 | on full success there is one week per schedule, in order, with consecutive ids and its `semaine` |
| `AdminActions.FromStep` | src/app/admin/actions.ts:35-46 | after a successful iteration every pharmacy row still comes from its own week's schedule |
| `AdminActions.LoopRowsFromSchedules` | src/app/admin/actions.ts:35-46 | on full success every pharmacy row copies a pharmacy of the schedule whose week it carries |
| `AdminActions.CoverStep` | src/app/admin/actions.ts:37-46 | a successful iteration extends the coverage of the earlier schedules to one more schedule |
| `AdminActions.LoopNextWeekId` | src/app/admin/actions.ts:27-35 | on full success each schedule has used one week id |
| `AdminActions.LoopRowsCoverSchedules` | src/app/admin/actions.ts:37-46 | on full success every pharmacy of every schedule has a row under that schedule's week; a schedule without pharmacies gets none |
| `AdminActions.FailureSticks` | src/app/admin/actions.ts:26-33 | after the first error the loop adds nothing more |
| `AdminActions.NoRollback` | src/app/admin/actions.ts:26-59 | when schedule `k` fails first, the weeks and pharmacies of the earlier schedules stay, as does `k`'s week when only its pharmacies failed |
| `AdminActions.FailingStep` | src/app/admin/actions.ts:33-47 | a failing iteration adds the week alone when only the pharmacies failed, and nothing when the week failed |
| `AdminActions.StepInserts` | src/app/admin/actions.ts:27-46 | the successful iteration in closed form, with no pharmacy rows for an empty list |
| `AdminActions.Gate` | src/app/admin/actions.ts:8-17 | a missing admin client is refused before the password is looked at; any password other than the fixed one gets 'Mot de passe incorrect.' |
| `AdminActions.UpdatePharmacies` | src/app/admin/actions.ts:7-61 | a refused gate or a failed first delete leaves both tables untouched; a failed second delete leaves the pharmacies emptied; on all three the id counters stay; otherwise the tables are the insert loop's result; success exactly when nothing failed |
| `AdminActions.ReplaceSchedules` | src/app/admin/actions.ts:19-60 | the two deletes and the insert loop, with the reply and the tables for each failure point; a failed delete leaves the id counters as they were |
| `AdminActions.InsertSchedules` | src/app/admin/actions.ts:26-49 | the `for` loop, from emptied tables, computes the loop function `Loop` |
| `AdminActions.InsertSchedule` | src/app/admin/actions.ts:27-48 | one iteration against the store computes one step `Step` |
| `AdminActions.InsertWeekAndPharmacies` | src/app/admin/actions.ts:27-47 | the week is inserted, then its pharmacies under the new id unless that insert fails |
| `AdminClient.EveryFrom` | src/app/admin/AdminPageClient.tsx:41 | `every` accepts exactly when each item is an object with both keys; otherwise it stops at the first item that is not, and throws exactly when that item is a primitive |
| `AdminClient.CheckStructure` | src/app/admin/AdminPageClient.tsx:41-43 | a parsed file passes exactly when it is an array whose every element has a `semaine` key and a `pharmacies` key |
| `AdminClient.HandleFileChange` | src/app/admin/AdminPageClient.tsx:29-60 | the upload is sent, with the login password unchanged, exactly when the file reads as text, parses and passes the structure test; each failure gives its own error toast and sends nothing |
| `AdminClient.EmptyArrayAccepted` | src/app/admin/AdminPageClient.tsx:41-43 | the empty array passes, and the upload then leaves both tables empty |
| `AdminClient.MemberValuesUnchecked` | src/app/admin/AdminPageClient.tsx:41 | only the keys are tested: a number for `semaine` and a null `pharmacies` pass |
| `AdminClient.EveryStopsAtFirstMiss` | src/app/admin/AdminPageClient.tsx:41 | a primitive after a rejected item raises no TypeError, while one before it does |
| `AdminClient.ReplyToast` | src/app/admin/AdminPageClient.tsx:47-51 | the action's message is shown, as an error exactly when the action failed |
| `AdminClient.LoginFieldError` | src/app/admin/AdminPageClient.tsx:19-21 | the login schema refuses exactly the empty password |
| `AdminClient.LoginAccepted` | src/app/admin/AdminPageClient.tsx:107-113 | (its definition) the login goes through exactly when the schema passes and the input equals the public password, an unset one matching nothing |
| `AdminClient.LoginNeedsPublicPassword` | src/app/admin/AdminPageClient.tsx:107-113 | a login succeeds only with the configured, non-empty public password |
| `AdminClient.PublicPasswordMismatch` | src/app/admin/AdminPageClient.tsx:108 | when the public password is not the server's fixed one and the admin client is configured, every upload from a logged-in admin gets 'Mot de passe incorrect.' (without the admin client the reply is the configuration error) |
| `AdminClient.AdminPageState.constructor` | src/app/admin/AdminPageClient.tsx:137-138 | the page starts logged out with an empty password |
| `AdminClient.AdminPageState.HandleLogin` | src/app/admin/AdminPageClient.tsx:140-143 | `handleLogin` stores the password and sets logged-in |
| `AdminClient.AdminPageState.HandleLogout` | src/app/admin/AdminPageClient.tsx:144-147 | `handleLogout` resets the password to `''` and logged-in to false |
| `AdminClient.AdminPageState.SubmitLogin` | src/app/admin/AdminPageClient.tsx:107-114 | the login logs in exactly when the schema passes and the input equals the public password, otherwise changes nothing; logged in always means logged in with the public password |
| `AdminClient.AdminPageState.View` | src/app/admin/AdminPageClient.tsx:149-171 | an unset or empty public password shows the configuration error whatever the state; otherwise the panel with the stored password when logged in, else the login form |
| `AdminPage.Noms` | src/app/admin/page.tsx:22 | the `nom` column, row by row |
| `AdminPage.OrderedNoms` | src/app/admin/page.tsx:13-16 | `.order('nom')` is an ascending permutation of the names |
| `AdminPage.Flag` | src/app/admin/page.tsx:31-40 | every name keeps its place, and is flagged exactly when the profile select succeeded and some profile claims it |
| `AdminPage.GetPharmaciesWithProfiles` | src/app/admin/page.tsx:8-41 | no client or a failed pharmacy select gives `[]`; otherwise the names of the ordered rows, deduplicated in first-occurrence order; `has_profile` exactly when the profile select succeeded and some `pharmacy_name` equals the name |
| `AdminPage.DirectoryListsEachNameOnce` | src/app/admin/page.tsx:13-22 | the directory lists every pharmacy name once and no other name, in strictly ascending order |
| `AdminPage.ProfilesErrorFlagsNone` | src/app/admin/page.tsx:29-32 | after a failed profile select no entry is flagged |
| `ProfileActions.UniqueSorted` | src/app/pharmacist-profile/actions.ts:23-25 | the names are strictly ascending and are exactly the names given |
| `ProfileActions.GetAllPharmacyNames` | src/app/pharmacist-profile/actions.ts:7-31 | a missing admin client or a failed select gives failure with no data; otherwise the unique, sorted names |
| `ProfileActions.NamesListEachOnce` | src/app/pharmacist-profile/actions.ts:16-25 | the list is ascending, has no duplicates and holds exactly the fetched names |
| `ProfileActions.StrictlyAscendingUnique` | src/app/pharmacist-profile/actions.ts:23-25 | two strictly ascending lists with the same members are equal |
| `ProfileActions.UniqueSortedIgnoresOrder` | src/app/pharmacist-profile/actions.ts:16-25 | the list depends only on which names the table holds, not on row order or repetition |
| `ProfileActions.SetPharmacyName` | src/app/pharmacist-profile/actions.ts:44-47 | only `pharmacy_name`, and only on the rows with the user's id, is changed |
| `ProfileActions.UpdatePharmacistProfile` | src/app/pharmacist-profile/actions.ts:33-55 | no user or a store error fails with its fixed message and changes nothing; otherwise the table is `SetPharmacyName` applied to it |
| `ProfileActions.SetPharmacyNameOnRow` | src/app/pharmacist-profile/actions.ts:44-47 | ids stay a key, and the user's row then carries exactly the new name, its other fields as before |
| `ProfilePage.ProfileSchema` | src/app/pharmacist-profile/page.tsx:22-33 | (its definition) a pharmacy must be selected, and with 'other' the new name needs at least two characters besides surrounding white space |
| `ProfilePage.OtherRefusesBlankName` | src/app/pharmacist-profile/page.tsx:26 | 'other' with a new name of only white space is refused, however long the name |
| `ProfilePage.OtherAcceptsPaddedName` | src/app/pharmacist-profile/page.tsx:26 | 'other' with a padded name whose trimmed form has at least 2 characters is accepted |
| `ProfilePage.FinalName` | src/app/pharmacist-profile/page.tsx:73 | the untrimmed new name for 'other', otherwise the selection; never empty |
| `ProfilePage.Decide` | src/app/pharmacist-profile/page.tsx:52-66 | no user or no profile goes to sign-in; a set pharmacy name goes to the dashboard; otherwise the form |
| `ProfilePage.OfferedNames` | src/app/pharmacist-profile/page.tsx:62-65 | the directory when the call succeeded with data, otherwise the initial empty list |
| `ProfilePage.NoRedirectLoop` | src/app/pharmacist-profile/page.tsx:57-59 | a visitor the dashboard sends here sees the form; a pharmacist this page sends to the dashboard gets the listing |
| `ProfilePage.AfterSubmit` | src/app/pharmacist-profile/page.tsx:76-81 | success goes to the dashboard; failure shows `result.error` or the fallback message |
| `AuthForm.SignInSchema` | src/app/product-search/AuthForm.tsx:22-24 | (its definition) sign-in passes exactly when the phone has at least 8 characters |
| `AuthForm.SignUpSchema` | src/app/product-search/AuthForm.tsx:27-40 | (its definition) sign-up needs a username of at least 2 characters, a phone of at least 8, the role Client or Pharmacien, and for a pharmacist a pharmacy name longer than 2 characters |
| `AuthForm.SignInFormData` | src/app/product-search/AuthForm.tsx:54-55 | the sign-in posts just the phone |
| `AuthForm.SignUpFormData` | src/app/product-search/AuthForm.tsx:69-75 | username, phone and role come first, in that order; a fourth entry exactly for a pharmacist who gave a name |
| `AuthForm.BuildSignUpFormData` | src/app/product-search/AuthForm.tsx:69-75 | username, phone and role are appended, then the pharmacy name only for a pharmacist who gave one |
| `AuthForm.SignUpSendsNameIffPharmacien` | src/app/product-search/AuthForm.tsx:69-75 | for a sign-up the schema admits, the server reads username, phone and role, and reads a pharmacy name exactly for a pharmacist |
| `AuthForm.AfterSignIn` | src/app/product-search/AuthForm.tsx:58-63 | `onLoginSuccess` gets the user exactly when the reply is a success carrying one; otherwise the error is shown |
| `PharmacistAuth.SignInWithEmail` | src/app/pharmacist-auth/actions.ts:11-38 | an invalid email fails before anything else; a missing app URL fails before the sign-in call; the magic link targets `origin + '/auth/callback?next=/pharmacist-dashboard'` |
| `PharmacistAuth.LinkNext` | src/app/pharmacist-auth/actions.ts:24-31 | a link to the callback on the origin is that prefix followed by the `next` value read off it |
| `PharmacistAuth.MagicLinkLandsOnDashboard` | src/app/pharmacist-auth/actions.ts:24-31 | the link the action sends carries `next=/pharmacist-dashboard`; the callback, given the `next` read off that link and a successful exchange, redirects to the dashboard of the configured origin |
| `PharmacistAuth.ProfileStep` | src/app/pharmacist-auth/actions.ts:41-94 | no user gives null user, null profile and 'Utilisateur non trouvé.'; a failed or empty read followed by a refused insert (a store error, or the id already taken) gives a null profile and 'Erreur lors de la création du profil.'; a refused role update gives the profile as read and 'Erreur de mise à jour du rôle.'; every error reply leaves the table as it was; when the id is free and the insert succeeds, the new Pharmacien profile is returned and appended; when the read finds a non-Pharmacien row and the update succeeds, the row is promoted and returned; an existing Pharmacien row is returned as is with the table unchanged; a reply without error carries the user's profile with role Pharmacien; the table changes only by inserting the new profile or by promoting the user's row |
| `PharmacistAuth.GetPharmacistProfile` | src/app/pharmacist-auth/actions.ts:41-94 | the action against the store computes `ProfileStep`, the insert refusing a taken id |
| `PharmacistAuth.ProfileStepStores` | src/app/pharmacist-auth/actions.ts:60-93 | ids stay a key, and after a reply without error the table holds exactly the returned profile under the user's id |
| `PharmacistAuth.InsertedProfileFound` | src/app/pharmacist-auth/actions.ts:60-75 | the profile a first sign-in inserts is the one found afterwards |
| `PharmacistAuth.PromotedProfileFound` | src/app/pharmacist-auth/actions.ts:79-90 | the promoted row, with only the role changed, is the one found afterwards |
| `PharmacistAuth.ProfileStepIdempotent` | src/app/pharmacist-auth/actions.ts:60-93 | a second call after a successful one, with a read that succeeds, changes nothing and returns the same profile |
| `PharmacistAuth.FailedReadRefusesExistingPharmacist` | src/app/pharmacist-auth/actions.ts:53-75 | when the read of an existing profile fails, the insert collides with it: null profile, the creation error, table unchanged |
| `DashboardActions.IsPharmacien` | src/app/pharmacist-dashboard/actions.ts:22-30 | (its definition) the user's profile row exists and its role is Pharmacien |
| `DashboardActions.GetAllSearches` | src/app/pharmacist-dashboard/actions.ts:10-52 | no user gives 'Accès non autorisé.'; a non-pharmacist, or a failed role read, gives 'Accès réservé aux pharmaciens.'; a query error gives its message; otherwise every search, newest first, each with its responses |
| `DashboardActions.ClientListingWithinDashboard` | src/app/pharmacist-dashboard/actions.ts:33-46 | whatever a client's listing shows, the pharmacists' listing shows too |
| `DashboardActions.CreatedSearchOnDashboard` | src/app/pharmacist-dashboard/actions.ts:33-46 | a request just stored is on the pharmacists' listing |
| `DashboardPage.Decide` | src/app/pharmacist-dashboard/page.tsx:34-43 | no user, no profile or a non-pharmacist goes to sign-in; a pharmacist without a pharmacy name goes to the profile page |
| `DashboardPage.FirstSignInGoesToProfile` | src/app/pharmacist-dashboard/page.tsx:40-43 | a first sign-in whose profile insert succeeds is sent to fill in the pharmacy name (a refused insert goes to sign-in) |
| `DashboardPage.NamedPharmacistLoads` | src/app/pharmacist-dashboard/page.tsx:34-48 | a pharmacist whose row has a pharmacy name gets the listing, when the profile call replies without error |
| `DashboardPage.FailedReadSendsPharmacistToSignIn` | src/app/pharmacist-dashboard/page.tsx:34-38 | a pharmacist on file whose profile read fails is sent to the sign-in page |
| `DashboardPage.Page.constructor` | src/app/pharmacist-dashboard/page.tsx:22-26 | the page starts loading, with no user, no profile, no searches and no error |
| `DashboardPage.Page.CheckUser` | src/app/pharmacist-dashboard/page.tsx:30-55 | the redirects fetch nothing and leave loading on; otherwise the user and profile are set, then the searches or the error (`result.error` or the default), and loading ends |
| `PharmacyCard.WhatsAppNumber` | src/components/pharmacy/pharmacy-card.tsx:14 | a leading '+' is stripped, otherwise the number is unchanged; at most one character goes |
| `PharmacyCard.WhatsAppNumberRestores` | src/components/pharmacy/pharmacy-card.tsx:14 | putting the stripped '+' back gives `contact2` again |
| `PharmacyCard.WhatsAppNumberStripsOnce` | src/components/pharmacy/pharmacy-card.tsx:14 | only one '+' is stripped |
| `PharmacyCard.CardLinks` | src/components/pharmacy/pharmacy-card.tsx:14-47 | title and address share the map URL; the call link is `tel:` plus `contact1`; the WhatsApp link is `https://wa.me/` plus the number |
| `PharmacyCard.CardLinksDetermineInputs` | src/components/pharmacy/pharmacy-card.tsx:15-47 | each link gives back its input: `contact1`, the number, and (for an injective encoding) the name |
| `AuthCallback.NextOrRoot` | src/app/auth/callback/route.ts:9 | `next` defaults to '/' |
| `AuthCallback.Callback` | src/app/auth/callback/route.ts:5-30 | the code is exchanged exactly when it is non-empty; a successful exchange redirects to `origin + next`; anything else goes to the sign-in page with `invalid_link` |
| `AuthCallback.AuthorityFrom` | src/app/auth/callback/route.ts:16 | the authority read from a position holds no delimiter |
| `AuthCallback.AfterLastAt` | src/app/auth/callback/route.ts:16 | the host starts just after the last '@' before the bound, or at 0 when there is none |
| `AuthCallback.Host` | src/app/auth/callback/route.ts:16 | the host is the longest '@'-free suffix of the authority: everything up to the last '@' is user-info |
| `AuthCallback.HostWithoutUserInfo` | src/app/auth/callback/route.ts:16 | an authority without '@' is all host |
| `AuthCallback.HostAfterUserInfo` | src/app/auth/callback/route.ts:16 | whatever precedes the last '@' is not part of the host |
| `AuthCallback.LeakedAuthority` | src/app/auth/callback/route.ts:16 | the redirect `https://pharma.example@evil.example` has authority `pharma.example@evil.example` |
| `AuthCallback.LeakedHost` | src/app/auth/callback/route.ts:16 | that authority's host is `evil.example` |
| `AuthCallback.AuthorityAcross` | src/app/auth/callback/route.ts:16 | the authority of `origin + next` runs from the origin's host into `next` up to the first delimiter |
| `AuthCallback.CallbackRedirectLeavesOrigin` | src/app/auth/callback/route.ts:9-16 | with `next=@evil.example` the success redirect's authority is `pharma.example@evil.example`, and its host is `evil.example` |
| `AuthCallback.SafeNext` | src/app/auth/callback/route.ts:9 | the corrected `next` is always a path |
| `AuthCallback.CallbackSafe` | src/app/auth/callback/route.ts:5-30 | the corrected route, with `next` limited to paths |
| `AuthCallback.CallbackSafeStaysOnHost` | src/app/auth/callback/route.ts:11-16 | for an origin host without delimiters or '@', every redirect of the corrected route has the origin's authority and host, or is the error page on the origin |
| `AuthCallback.CallbackSafeAgreesOnPaths` | src/app/auth/callback/route.ts:9-16 | the corrected route behaves as written whenever `next` is a path, so the links the application sends are unaffected |

## Left out

- The AI flows (`src/ai/flows`, the health library, medication info) are prompt calls to an outside model. The request name normaliser `processDemand` is a fallible parameter `normalise`.
- Construction of the hosted-service clients, cookies, middleware and sessions are not modelled. A missing admin client is the flag `adminConfigured` or `configured`. The identity provider's current user is an `Option<AuthUser>` parameter.
- Each store error is a parameter: a message, a flag, or a function from the loop position to an error. The profile reads of `getPharmacistProfile` and `getAllSearchesAction` have a failure flag `selectFails`, taken as a missing profile as the code does. The delete statements in `updatePharmaciesAction` always use bound -1.
- Postgres sequences also advance on a failed insert. The model's id counters advance only on success.
- `JSON.parse` is the parameter `parse`. JSON numbers are modelled as integers, since only the shape of the value is ever tested.
- After the check, the server receives the upload with a cast that converts nothing (`jsonData as WeekSchedule[]`). The server side of the model takes well-typed `WeekSchedule` values. Items whose `semaine` or `pharmacies` hold other JSON types, and pharmacy entries with missing fields, are not modelled on the server.
- `encodeURIComponent` is the parameter `encode`.
- The URL class is not modelled beyond the authority of an `https` URL, as the WHATWG URL Standard reads it for special schemes. The encoding of query parameters for `new URL(...).searchParams.set` is left as pairs.
- zod's email regex is the parameter `isEmail`. The upload keys (`crypto.randomUUID`, `Date.now`) and the storage's public URLs are folded into the parameter `upload(position, file)`.
- The database's collation for `.order('nom')` is modelled by code-point order.
- Characters:
  - `Array.prototype.sort` compares UTF-16 code units. zod's `.min()` and `.length` also count UTF-16 code units.
  - The model's strings are sequences of code points. The two differ only outside the Basic Multilingual Plane.
- `created_at` is an integer time stamp `now`. `formatDistanceToNow` is not modelled. Neither are the rendered markup or icons, or the health-post tab's placeholder text.
- Concurrency is not modelled: `startTransition` and `isPending`, `useEffect`, and `revalidatePath`. Each action runs as one sequential call.
- The `FileReader` events are modelled as one `Reading` value. Resetting the file input (`event.target.value = ''`) is not modelled.
- `signInWithPhoneAction` and `signUpWithPhoneAction`, which `AuthForm.tsx` imports, are not defined in the repository. Their replies are parameters.
- `getUserProfileAction` (src/app/product-search/actions.ts:10-27) and `signOutAction` are not modelled: they forward to the identity provider with no decision of their own.
- `AdminActions.InsertSchedules` requires both tables to be empty. It is only called after both deletes have emptied them, so the loop from a non-empty table is not modelled.
- `SearchForm.FormState.PrepareSubmit` does not model zod's field messages. It says only whether data is posted.

## Findings

| source | as written | input that shows it | evidently intended | confidence | as-written member | corrected member |
|---|---|---|---|---|---|---|
| src/app/product-search/SearchForm.tsx:100 | the form posts the phone number as `clientPhone`, while `createSearchAction` reads `contactPhone` (src/app/product-search/actions.ts:44) | any submission the form admits (phone `12345678`, product `doliprane`); `formData.get('contactPhone')` is null, and validation fails with zod's "Expected string, received null" | the phone is posted under `contactPhone`, so every submission the form admits passes server validation | not executed | `SearchForm.AsWrittenFormIsRejected` | `SearchForm.CorrectedFormIsAccepted` |
| src/app/auth/callback/route.ts:16 | the success redirect is `${origin}${next}`, with `next` taken unchecked from the query | origin `https://pharma.example`, a valid code, `next=@evil.example`; the redirect `https://pharma.example@evil.example` has host `evil.example` (an open redirect) | `next` is used only when it is a path, so the redirect stays on the origin | not executed | `AuthCallback.CallbackRedirectLeavesOrigin` | `AuthCallback.CallbackSafeStaysOnHost` |

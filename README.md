# chronotree vaults, modelled in Dafny

chronotree stores personal "vaults": collections of photos, audio clips, a
video and notes, each locked behind a six-digit password. This project models
the parts of the web application that create, store, list and guard those vaults:

- **the request gate** (`middleware.js`). It runs before every page. Visitors
  who are not logged in are redirected to `/login` unless the page is one of
  six public paths. Logged-in users are redirected from those six paths to
  `/dashboard`.
- **the vault schema** (`app/_models/vaultModel.js`). It defines:
  - the document's fields and their defaults;
  - the validators (required fields, trimming, the theme and vault-type
    enumerations, the collection limits 10/5/1/100, required sub-item fields);
  - the derived item counts;
  - the pre-save hook, which hashes the password only when it was modified;
  - `getVaultIfPasswordMatches`.
- **the `/api/vaults` endpoint** (`app/api/vaults/route.js`).
  - POST rejects a request without an author and enforces the quota of two
    vaults per author. It then creates the vault through the schema and
    answers 201, 400 or 500.
  - GET turns the fetched vaults into summaries that carry no password and
    no item contents.
- **the vault-creation form** (`app/_components/vault/CreateVault.jsx`). It
  covers:
  - the tag list (at most five tags, trimmed and distinct);
  - the password field, which keeps digits only and is at most six long;
  - the three ordered checks before the request is sent;
  - how the form handles the reply.

Layout:

- `wrappers.dfy`: `Option` and `Result`.
- `strings.dfy`: JavaScript's `trim` (ECMAScript white space) and the
  `/\D/g` filter.
- `middleware.dfy`: the gate.
- `vault_model.dfy`: the schema.
  - `Validate` is the pure check.
  - The class `VaultDocument` stands for a document in memory. Its methods
    update its fields: `SetPassword`, `PreSave` (the hook) and `Save`.
  - `FindById`, `CountDocuments` and `GetVaultIfPasswordMatches` are queries
    over the stored documents.
- `vaults_route.dfy`: the endpoint.
  - The class `VaultStore` holds the collection as a sequence field.
  - `Post` reassigns that field.
  - `ListVaults` builds the GET reply.
- `create_vault.dfy`: the form.
  - The class `CreateVaultForm` holds the component's state variables as fields.
  - Its handlers update those fields.

The bcrypt hash and compare functions are parameters of the model. So are the
vaults the GET query returns. The database's fresh id is modelled by `NextId`:
one more than the largest stored id, so no stored vault has it.

## Model

| member | source | states |
|---|---|---|
| Middleware.IsPublic | middleware.js:16-25 | `publicRoutes.includes(pathname)`; every public path starts with `/` |
| Middleware.Decide | middleware.js:25-33 | redirects to `/login` exactly when logged out on a non-public path; to `/dashboard` exactly when logged in on a public path; lets the request through exactly when login state and publicness differ |
| Middleware.IsPublicExact | middleware.js:16-25 | a path is public exactly when it equals one of the six listed paths (no prefix or case matching) |
| Middleware.RedirectTargets | middleware.js:16-31 | the login target is public and the dashboard target is not |
| Middleware.NoRedirectLoop | middleware.js:25-33 | a redirected request, sent again to its target with the same login state, passes through |
| Strings.SkipSpace | app/_models/vaultModel.js:7-11 | the first position at or after the start that is not white space: everything skipped is white space |
| Strings.SkipSpaceBack | app/_models/vaultModel.js:7-11 | the end of the text once trailing white space is cut: everything cut is white space, and the last character kept is not |
| Strings.Trim | app/_models/vaultModel.js:7-11 | the result is the slice of the input left once white space is cut off at both ends (everything before and after the slice is white space); it has no white space at either end, and it is empty exactly when the input is all white space |
| Strings.TrimmedIsFixed | app/_models/vaultModel.js:7-11 | a string without white space at either end is left unchanged by trimming |
| Strings.TrimIdempotent | app/_components/vault/CreateVault.jsx:86-87 | trimming twice gives the same as trimming once |
| Strings.KeepDigits | app/_components/vault/CreateVault.jsx:130 | the result is all digits, no longer than the input, keeps every digit of the input as often as it occurs, and leaves an all-digit input unchanged |
| Strings.KeepDigitsAppend | app/_components/vault/CreateVault.jsx:130 | filtering a concatenation is concatenating the filtered parts (order is kept) |
| Strings.KeepDigitsChar | app/_components/vault/CreateVault.jsx:130 | a single character is kept exactly when it is an ASCII digit |
| Strings.KeepDigitsIdempotent | app/_components/vault/CreateVault.jsx:130 | filtering twice gives the same as filtering once |
| VaultModel.FieldViolations | app/_models/vaultModel.js:7-107 | no field validator fails exactly when title, password and author are non-empty and theme and vault type are in their enumerations; only those five validators can fail |
| VaultModel.LimitViolations | app/_models/vaultModel.js:18-59 | each collection's "too many" error is reported exactly when that collection exceeds its limit (10 photos, 5 audios, 1 video, 100 notes) |
| VaultModel.ItemViolations | app/_models/vaultModel.js:18-57 | no sub-item validator fails exactly when every photo, audio, video and note has a title and every note has content |
| VaultModel.ViolationsEmptyIff | app/_models/vaultModel.js:5-130 | the set of failed validators is empty exactly when the document satisfies the whole schema |
| VaultModel.ViolationsOfLimits | app/_models/vaultModel.js:25-58 | each limit error is in the reported set exactly when its collection is over the limit, and the note-content error exactly when a note lacks content |
| VaultModel.Validate | app/_models/vaultModel.js:5-130 | succeeds with the document unchanged exactly when it satisfies the schema; otherwise it reports a non-empty set, containing each limit error exactly when that limit is exceeded |
| VaultModel.NumberOfPhotos | app/_models/vaultModel.js:133-135 | `photos?.length \|\| 0`: the array's length, 0 when the document has no array |
| VaultModel.NumberOfAudios | app/_models/vaultModel.js:136-138 | the same for audios |
| VaultModel.NumberOfVideos | app/_models/vaultModel.js:139-141 | the same for videos |
| VaultModel.NumberOfNotes | app/_models/vaultModel.js:142-144 | the same for notes |
| VaultModel.NewVault | app/_models/vaultModel.js:7-120 | a created document gets the trimmed title, the trimmed description when one is given (none otherwise), the password as given, the given or default theme and category, vault type `personal`, no tags, locked, zero failed attempts and accesses, not deleted, empty collections |
| VaultModel.NewVaultValidIff | app/_models/vaultModel.js:7-107 | a new document is valid exactly when the trimmed title, the password and the author are non-empty and any theme given is one of the five |
| VaultModel.Hashed | app/_models/vaultModel.js:156-162 | the password becomes its hash and nothing else changes |
| VaultModel.VaultDocument.New | app/_models/vaultModel.js:156-157 | a new document holds the given values, is new, and counts its password as modified exactly when one was given |
| VaultModel.VaultDocument.Loaded | app/_models/vaultModel.js:156-157 | a document read back from the database holds the stored values and nothing counts as modified |
| VaultModel.VaultDocument.SetPassword | app/_models/vaultModel.js:157 | assigning the password changes only the password; it counts as modified when it already did, when the document is new, or when the value differs from the one held |
| VaultModel.VaultDocument.PreSave | app/_models/vaultModel.js:156-162 | hashes the password when it was modified and leaves the document untouched otherwise |
| VaultModel.VaultDocument.Save | app/_models/vaultModel.js:156-162 | runs the hook; afterwards the document is stored (no longer new) and the password no longer counts as modified |
| VaultModel.SaveTwice | app/_models/vaultModel.js:156-162 | saving a new document twice hashes its password exactly once |
| VaultModel.ResaveLoaded | app/_models/vaultModel.js:156-162 | saving a document read back from the database, untouched, stores it unchanged: the stored hash is not hashed again |
| VaultModel.ChangePassword | app/_models/vaultModel.js:156-162 | assigning a password to a stored document and saving stores the hash of the new password and changes nothing else, unless the value assigned is the one already stored |
| VaultModel.PasswordsStoredAppend | app/_models/vaultModel.js:62-66 | appending a document with a password keeps every stored document holding one |
| VaultModel.IndexOf | app/_models/vaultModel.js:174 | finds the first document with the id, or reports that none has it |
| VaultModel.FindById | app/_models/vaultModel.js:62-66 | none exactly when no document has the id; a found document is the first stored document with the id, whole when the password is selected, and otherwise with only its password left out |
| VaultModel.FindAppended | app/api/vaults/route.js:95-102 | a document stored under a fresh id is the one found by that id |
| VaultModel.CountDocuments | app/api/vaults/route.js:84 | the number of documents of the author: at most the number stored, 0 exactly when none is the author's, and all of them exactly when every one is |
| VaultModel.CountAppend | app/api/vaults/route.js:84 | storing a document raises its author's count by one and no other author's count |
| VaultModel.NextId | app/api/vaults/route.js:95 | the id of a new document differs from (exceeds) every stored id |
| VaultModel.CheckPassword | app/_models/vaultModel.js:165-167 | the result of comparing the entered password against the stored hash, in that argument order |
| VaultModel.GetVaultIfPasswordMatches | app/_models/vaultModel.js:170-181 | "Vault not found" exactly when no document has the id; "Incorrect password" exactly when it exists and the comparison fails; on success the document `findById` returns (the first stored document with that id, password included), whose password matched |
| VaultsRoute.ReplyOf | app/api/vaults/route.js:74-122 | 201 exactly for a created vault, 400 exactly for a missing author or a reached limit, 500 exactly for a failed create; the status is `success` exactly for a created vault; each outcome carries its own message ("Author ID is required", "Vault limit reached. Only 2 vaults allowed per user.", "Failed to create vault", "Vault created successfully") |
| VaultsRoute.QuotaPreservedByInsert | app/api/vaults/route.js:84-102 | storing a vault whose author is under the quota keeps every author within two vaults |
| VaultsRoute.CreatedVault | app/api/vaults/route.js:95-102 | the stored vault holds the hash of the password sent, the author sent, an id no stored vault has, no tags, and starts locked with zero failed attempts |
| VaultsRoute.VaultStore.Post | app/api/vaults/route.js:68-123 | the missing-author 400 happens exactly when the author is missing; the limit 400 exactly when an author is given and already has two vaults; otherwise the vault is created exactly when the new document is valid; every failure leaves the store unchanged; success appends exactly the hashed new document; the two-per-author quota and the stored-password invariant are preserved |
| VaultsRoute.CreatedVaultUnlocks | app/api/vaults/route.js:95-102 | a vault just created opens with the password it was created with, given that compare accepts a password against its own hash |
| VaultsRoute.Summarize | app/api/vaults/route.js:32-44 | a summary copies id, title, description, theme, vault type, category and author, and each count is the collection's length, or 0 when the collection is absent |
| VaultsRoute.ListVaults | app/api/vaults/route.js:30-54 | 200 with status `success`; `results` is the number of vaults; the i-th entry summarises the i-th fetched vault |
| VaultsRoute.ListingRedacts | app/api/vaults/route.js:32-44 | vaults that agree on the summarised fields give the same listing, whatever their passwords, lockout state, tags or item contents |
| CreateVault.AddTag | app/_components/vault/CreateVault.jsx:85-91 | the trimmed input is appended, and the input cleared, exactly when it is non-empty, not already present and fewer than five tags exist; otherwise nothing changes |
| CreateVault.AddTagPreservesWellFormed | app/_components/vault/CreateVault.jsx:85-91 | adding keeps the list at most five long, trimmed, non-empty and without duplicates |
| CreateVault.RemoveTag | app/_components/vault/CreateVault.jsx:93-95 | keeps exactly the tags other than the one removed; an absent tag leaves the list unchanged |
| CreateVault.RemoveTagAt | app/_components/vault/CreateVault.jsx:93-95 | on a list without duplicates, removing a tag deletes exactly its position and keeps the order of the rest |
| CreateVault.DeleteAtPreservesWellFormed | app/_components/vault/CreateVault.jsx:93-95 | deleting one position keeps the list well formed |
| CreateVault.RemoveTagPreservesWellFormed | app/_components/vault/CreateVault.jsx:93-95 | removing keeps the list well formed |
| CreateVault.AsWrittenReportsCreationAsError | app/_components/vault/CreateVault.jsx:67-77 | the success test as written never holds for a reply of the route; a created vault's 201 reply resolves and is shown as the error "Vault created successfully" |
| CreateVault.CorrectedRecognisesCreation | app/_components/vault/CreateVault.jsx:67 | with the test on `status`, the form accepts a reply of the route exactly when the vault was created |
| CreateVault.CreateVaultForm.constructor | app/_components/vault/CreateVault.jsx:25-33 | the form starts empty, theme green, not loading, no messages |
| CreateVault.CreateVaultForm.OnPasswordInput | app/_components/vault/CreateVault.jsx:123-131 | the password field holds the digits of the input and stays at most six digits |
| CreateVault.CreateVaultForm.HandleAddTag | app/_components/vault/CreateVault.jsx:85-91 | the form's tags and tag input become those of `AddTag`; the tag list stays well formed |
| CreateVault.CreateVaultForm.HandleRemoveTag | app/_components/vault/CreateVault.jsx:93-95 | the form's tags become those of `RemoveTag`; the tag list stays well formed |
| CreateVault.CreateVaultForm.HandleSubmit | app/_components/vault/CreateVault.jsx:35-65 | the blank-name, password-length and login checks run in that order, the first failure setting its message and sending nothing; otherwise loading is set and the body holds name, description, theme, the six-digit password, the user id and the tags |
| CreateVault.CreateVaultForm.ReceiveReply | app/_components/vault/CreateVault.jsx:57-82 | an accepted reply sets the success message and resets the fields; any other outcome shows the route's message, or "Failed to create vault" / "Server error", and keeps the fields; loading ends either way |

## Left out

- The other vault routes (unlock and lockout, adding and deleting photos, audio clips and notes) are not part of this model.
- The bcrypt salt and cost factor are left out: hashing and comparison are function parameters, and `CreatedVaultUnlocks` assumes that comparison accepts a password against its own hash.
- The database connection, the `populate` hooks, the timestamps and the virtuals in JSON output are left out, and so is the query builder of GET (filter, sort, field limiting, pagination): the fetched vaults are a parameter of `ListVaults`.
- The 500 reply of GET is left out; it is reached only through a database failure.
- The 500 reply of POST is modelled only for a failed validation; a database failure or an author that is not a valid ObjectId also leads there, and these are left out.
- VaultsRoute.ReplyOf: does not carry the `data` field (the created document) or the `error` field (the validation message) of the replies; only `status` and `message` are modelled.
- Concurrency is left out: two POSTs by the same author can both pass the count before either inserts, which `Post` cannot show because it runs one request at a time.
- JSON `null` in a request body is treated like a missing field.
- A POST body that is not valid JSON makes `request.json()` throw, which also leads to the 500 reply; the model starts from a parsed body.
- VaultModel.GetVaultIfPasswordMatches: ids are modelled as natural numbers, so the cast error `findById` raises for a malformed id (a third failure, before any lookup) is not modelled.
- VaultModel.CountDocuments: compares authors as exact strings. The database first casts the author to an ObjectId, so two spellings of one id that differ only in the case of their hex digits count as the same author. The model counts them as different authors, so the quota can be bypassed through such a spelling.
- Reading the session token, the console logging and the route matcher of the gate are left out: `Decide` receives whether a token is present.
- The trim setters of sub-item titles are left out: photos, audios, videos and notes are modelled as already cast, and a new vault starts with empty collections.
- Rendering, the theme selector's option list and the disabled state of the Add button are left out.
- The browser's own form checks are left out: the `required` and `pattern` attributes of the name and password inputs, and the disabled state of the submit button while loading. In a browser they keep some submissions from reaching `HandleSubmit`, which the model calls directly.
- CreateVault.CreateVaultForm.ReceiveReply: does not model the navigation after success. The route sends the vault itself as `data`, so `res.data.data.newVault._id` would throw inside the success branch, and the catch would then show "Server error" after the reset. This path is only reachable once the success test is corrected.
- CreateVault.CreateVaultForm.OnPasswordInput: requires at most six characters. That is the input's `maxLength`, which the browser enforces, not the handler.
- The tags the form sends are not stored: the route passes only title, description, theme, password, category and author to `Vault.create`, and `AttrsOf` does the same.

## Findings

| source | as written | input that shows it | evidently intended | confidence | as-written member | corrected member |
|---|---|---|---|---|---|---|
| app/_components/vault/CreateVault.jsx:67 | the form treats a reply as a success only when `res.data.statusText === "success"`, but the route's replies (app/api/vaults/route.js:104-110) carry `status`, never `statusText` | a valid submission: the route answers 201 `{status: "success", message: "Vault created successfully"}`, the form shows "Vault created successfully" as an error and keeps its fields | test `res.data.status === "success"` | high, not executed | CreateVault.AsWrittenReportsCreationAsError | CreateVault.CorrectedRecognisesCreation |

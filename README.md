# Student records service: record store and image cache

`app.py` is a small REST service for student records (name, age, photo).
Each record lives in the `students` collection; its photo is written to a
local cache directory (`CACHE_FOLDER`) under the name `<id><ext>`, pushed
best-effort to a GitHub repository, and served back as `/cache/<filename>`,
resolved per request to an absolute URL. At start-up, a reconciliation pass
downloads into the cache the image of every record that carries a remote
`image_url` but has no cached file yet.

This project models what is left once Flask, MongoDB, the filesystem and the
GitHub API are abstracted: a state machine over two tables,

- `records: map<string, Student>`, the collection keyed by ObjectId string, and
- `cache: map<string, Bytes>`, the cache directory keyed by filename,

together with the pure string derivations the handlers share.

Modules:

- `Wrappers` (`wrappers.dfy`): `Option`.
- `Paths` (`paths.dfy`): `os.path.splitext` (`Ext`), the cache filename
  `<id><ext>`, the served URL `/cache/<f>` and its inverse
  `.replace("/cache/", "")`, `full_url` (`rstrip("/")` of the root URL plus
  the path), and ObjectId strings (`ValidObjectId`, `Canonical`, `IsStoredId`).
- `PyInt` (`pyint.dfy`): Python's `int()` on the `age` form field.
- `Students` (`students.dfy`): the stored document, the `$set` patch,
  `add_local_url`, the file `remove_student` deletes, the responses, and
  `upload_to_github`'s outcome.
- `Reconciliation` (`reconciliation.dfy`): `cache_images_from_github` as a
  function of the two tables, the cursor's order and the origin's answers,
  with its effect stated record by record and its idempotence.
- `Service` (`service.dfy`): class `StudentService` holding the two tables,
  with one method per handler and the reconciliation loop.
- `Scenarios` (`scenarios.dfy`): request sequences proved from the handlers'
  contracts alone (create then get, create then delete, age-only update,
  reconciliation twice).

Inputs the code takes from its environment are parameters: the form fields
(`Option<string>`, an uploaded file as `FileField`), the request's root URL
(`host`), the id the database assigns on insert (`newId`, fresh), the
GitHub PUT's reply (`PutReply`), the answers of the GET requests of the
reconciliation pass (`fetches`), the order of a cursor (`order`) and
`secure_filename` (a function given to the constructor).

Behaviour reproduced as the code has it:

- Reconciliation reads the stored `image_url` field, which no handler
  writes; it is an input field of `Student`.
- Lookups parse the URL id with `ObjectId(id)`, so an upper-case hex id finds
  the lower-case key; `update_student` nevertheless names the cache file after
  the id as the URL spells it.
- An exception from `upload_to_github` (the PUT raising, or a failure reply
  whose body is not JSON) is not caught: the request ends with a server error
  after the cache write and, in `add_student`, after the insert, so the new
  record has no `local_image_url`. Only a reply on which `upload_to_github`
  returns `False` leaves the request unaffected.
- `update_student` writes the cache file and uploads before it looks the id
  up: an unknown id answers 404 with the file written, and an older file with
  another extension is never removed.
- Ages are Python integers of any size, but the BSON encoder refuses one
  outside the signed 64-bit range with `OverflowError`: `add_student` then
  fails with a server error at `insert_one` (app.py:105), before anything is
  written; `update_student` fails at `update_one` (app.py:172), after the image
  is cached and uploaded and before the id is matched, so an unknown id also
  answers 500 there. `int()` itself refuses a literal of more than 4300 digits
  (the interpreter's default conversion limit), before any write.
- A werkzeug upload is falsy when its filename is empty, so `if not image`
  rejects an upload without a filename.

## Model

| member | source | states |
|---|---|---|
| `Paths.LastIndexOf` | app.py:55 | the index of the last occurrence of a character, or -1, with no occurrence after it |
| `Paths.Ext` | app.py:108 | `splitext(p)[1]`: a suffix of p that is empty or a dot followed by no '/' or '.', non-empty only after a non-dot of the last component, and empty exactly when every dot of the last component has only dots before it |
| `Paths.CacheFilenameInjective` | app.py:109 | `<id><ext>` names from ids of equal length determine the id and the extension |
| `Paths.ReplaceAllAbsent` | app.py:189 | replacing a substring that does not occur leaves the string unchanged |
| `Paths.NoSlashNoCacheRoute` | app.py:189 | a name without '/' never holds "/cache/" |
| `Paths.StripCacheOfLocalUrl` | app.py:189 | stripping "/cache/" from `/cache/<f>` gives back f when f holds no "/cache/" |
| `Paths.CacheFilenameHasNoSlash` | app.py:161 | `<id><ext>` holds no '/' when the id holds none |
| `Paths.StripCacheOfCacheFilename` | app.py:189 | the file delete derives from the stored URL is the `<id><ext>` file create/update wrote |
| `Paths.StripTrailingSlashes` | app.py:76 | `rstrip("/")`: a prefix of the input without trailing '/', only '/' removed |
| `Paths.FullUrl` | app.py:75-77 | the result is the host with all trailing '/' removed followed by the path |
| `Paths.Canonical` | app.py:140 | `str(ObjectId(id))`: the same 24 hex digits, upper-case ones lowered |
| `Paths.CanonicalOfStoredId` | app.py:106 | an id as the store returns it parses back to itself |
| `Paths.StoredIdHasNoSlash` | app.py:109 | ObjectId strings hold no '/' |
| `PyInt.ParseInt` | app.py:102 | `int()` accepts a literal only when, stripped of space, tab, LF, VT, FF and CR, it holds at least one digit and at most 4300 |
| `PyInt.ParseIntOfSeparatorPadded` | app.py:102 | `int()` raises on a literal led by one of the separators 0x1C-0x1F, which it does not strip |
| `PyInt.DigitsValueOfNatDigits` | app.py:102 | the digits of n read back as n |
| `PyInt.ParseIntOfDecimal` | app.py:102 | `int(str(n)) == n` for every integer n that `str()` writes within the 4300-digit limit |
| `PyInt.ParseIntOfDigitRun` | app.py:102 | `int()` of a run of digits and single underscores, at most 4300 digits, is its decimal value |
| `PyInt.ParseIntOfLongRun` | app.py:102 | `int()` raises on such a run of more than 4300 digits |
| `PyInt.ParseIntOfNegative` | app.py:102 | `int()` of '-' followed by such a run within the limit is its negated value |
| `PyInt.ParseIntOfBlank` | app.py:158 | `int()` raises on an empty or blank string |
| `PyInt.ParsedIsNotEmpty` | app.py:157 | a string `int()` accepts is not empty, so it passes `if age:` |
| `PyInt.StripLeftOfBlank` | app.py:158 | stripping leading whitespace from a blank string leaves nothing |
| `PyInt.StripOfSpaceFree` | app.py:102 | stripping leaves a string without whitespace unchanged |
| `Students.ApplyPatch` | app.py:172 | `$set`: each field in the patch is overwritten, every other field kept; an empty patch changes nothing |
| `Students.AddLocalUrl` | app.py:80-83 | `image_url` becomes `full_url(local_image_url)` exactly when `local_image_url` is present; no other field changes |
| `Students.ServedImageUrl` | app.py:118 | a document cached as f is served with image URL `<host without trailing '/'>/cache/<f>` |
| `Students.CachedFileOfLocalUrl` | app.py:188-192 | a document whose URL is `/cache/<f>` has exactly the file f deleted with it |
| `Students.UploadToGitHub` | app.py:42-48 | returns True exactly on 200/201, False on another status with a JSON body, raises otherwise |
| `Reconciliation.Run` | app.py:52 | the pass keeps the set of record ids |
| `Reconciliation.RemoteFilenameInjective` | app.py:55-56 | two records with ObjectId keys never share a reconciliation filename |
| `Reconciliation.RunEffect` | app.py:51-72 | whatever the cursor order: a record changes only by gaining `/cache/<f>` when its file was missing and the GET answered 200; no existing file changes; exactly the pulled images are written; exactly the records with a truthy `image_url` and no file are requested |
| `Reconciliation.StepEffect` | app.py:53-69 | one more record extends that effect |
| `Reconciliation.StepShape` | app.py:59-69 | the step for a record not yet visited sees its cache filename as the pass found it |
| `Reconciliation.StepRecords` | app.py:66-69 | one step preserves the record part of the effect |
| `Reconciliation.StepCache` | app.py:63-64 | one step preserves the cache part of the effect |
| `Reconciliation.WrittenSnoc` | app.py:63-64 | the files written over one more record are those before plus its file when pulled |
| `Reconciliation.StepFetched` | app.py:61 | one step preserves the request part of the effect |
| `Reconciliation.SecondRunRefetchesOnlyFailures` | app.py:52-69 | a second run with no change in between, its cursor listing the same documents in any order, requests exactly the images whose first request failed, never a file the first run wrote |
| `Reconciliation.SecondRunIsNoOp` | app.py:52-69 | when every first-run request succeeded, a second run in any cursor order requests nothing and changes neither table |
| `Reconciliation.NothingToFetch` | app.py:59 | a pass that requests nothing changes neither table |
| `Service.FormPatch` | app.py:150-165 | the update document is empty exactly when none of name, age, image is supplied |
| `Service.StudentService.constructor` | app.py:11-21 | the service starts from the given collection and cache directory |
| `Service.StudentService.Create` | app.py:91-125 | 400 with nothing written when name, age or image is missing; 500 with nothing written when `int(age)` raises or the insert refuses an age outside 64 bits; otherwise the fresh id is inserted, the image cached as `<id><ext>`, and (unless the upload raises) `local_image_url = /cache/<id><ext>` stored and returned with 201, whatever the upload's answer |
| `Service.StudentService.Get` | app.py:138-145 | 404 for an unknown id, else the document with its image URL resolved |
| `Service.StudentService.List` | app.py:128-135 | every listed document, in cursor order, each resolved by `add_local_url` |
| `Service.StudentService.Update` | app.py:148-179 | 500 with no change when `int(age)` raises; 400 with no change when nothing is supplied; an image is cached as `<url id><ext>` before the lookup, so 404 leaves it written; 500 with the record unchanged when the age is outside 64 bits, for known and unknown ids alike; otherwise only the supplied fields are set |
| `Service.StudentService.Delete` | app.py:182-195 | 404 with no change for an unknown id; otherwise the record is removed along with the cache file its local URL names, if any |
| `Service.StudentService.Reconcile` | app.py:51-72 | the loop's new tables and requests are those of `Reconciliation.Run`, hence its effect |
| `Service.StudentService.CacheOne` | app.py:53-72 | one iteration: a record with a truthy `image_url` and no file under `<id><ext>` is requested; on 200 its file is written and its local URL set, otherwise nothing changes |
| `Scenarios.CreateThenGet` | app.py:105-145 | after a create, get answers 200 with image URL `<host>/cache/<id><ext>` |
| `Scenarios.CreateThenDelete` | app.py:109-194 | after a create, delete answers 200, removes exactly the file written, and a get answers 404 |
| `Scenarios.AgeOnlyUpdate` | app.py:155-172 | an age-only update changes the age and nothing else, cache included |
| `Scenarios.ReconcileTwice` | app.py:51-72 | two reconciliation runs through the class, each with its own cursor order: the second requests only the first run's failures |

## Left out

- `serve_cached_image` (app.py:86-88): `send_from_directory` is Flask plumbing; a served file is a lookup in `cache`.
- Routing, `request.form` / `request.files`, `jsonify` and HTTP response objects: inputs are parameters and a response is a status and a `Body`.
- The MongoDB driver: ObjectId generation is the `newId` parameter (required fresh); a malformed id, on which `ObjectId(id)` raises, is excluded by the precondition `ValidObjectId`.
- The order in which a cursor returns documents is the `order` parameter, listing each matching document once.
- The GitHub transfer (base64 encoding, headers, the contents URL, app.py:24-41 and line 61): the PUT is a `PutReply` and the GETs are the `fetches` answers, one per record and run.
- `secure_filename`: its definition is not part of this model; it is a function given to the constructor whose output feeds `Ext`.
- `PyInt.ParseInt`: non-ASCII digits and non-ASCII whitespace, which Python's `int()` also accepts (it maps them to ASCII before parsing), are not modelled; among ASCII characters only space, tab, LF, VT, FF and CR are skipped, as in the interpreter.
- Console output (`print`), `os.makedirs` and the module-level start-up sequence (app.py:198-203).
- `Service.StudentService.Update`: a malformed id is excluded by its precondition, although the code raises on it only at the lookup, after the image is cached and uploaded.
- Concurrency: requests racing on one id or one filename; the code takes no locks.
- `PyInt.ParseInt`: the digit limit is the interpreter's default of 4300; a limit set through `PYTHONINTMAXSTRDIGITS` or `-X int_max_str_digits`, or an interpreter without the limit, is not modelled.
- MongoDB's 16 MiB limit on a document's size (a name that large makes the insert or update raise) is not modelled.
- Database and filesystem errors other than the ones above (a failed write, a cache entry that is a directory); `os.path.join` with a name that is empty, absolute or holds '/', which no handler writes.
- Documents whose fields are missing or of another type than `Student` gives them (for example a null `local_image_url`).
- `Students.AddLocalUrl`: modelled on values; the dict it mutates is a per-request copy of the stored document, so no other party observes the in-place update.

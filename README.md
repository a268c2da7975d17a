# Vehicle maintenance app — verified model of its core

This project models the parts of the vehicle-maintenance app that hold decisions rather than UI or plumbing, and proves properties of that model in Dafny.

- **Data-access layer** (`lib/db.ts`). This is a class `Db.Database` over four tables, the `maintenance` storage bucket and a log of state-changing requests.
  - The tables are `todos`, `vehicles`, `maintenance` and `maintenance_files`.
  - Every remote call may fail. Whether it fails is an explicit argument.
  - The focus is the cascade of `deleteMaintenance` and the unlink of `deleteMaintenanceFile`. Storage removal is best effort and runs before the row deletes. Every query except `deleteVehicle` is scoped to the owner.
  - The URL-to-path extraction uses JavaScript's `split`, which `Text` models exactly.
- **Upload widget** (`components/ui/file-upload.tsx`). This covers:
  - the storage path of an upload: `maintenance/{userId}[/{vehicleId}][/{maintenanceId}]/{token}.{ext}`;
  - the `isImage` test, as a regular-expression search with ASCII case folding;
  - the order of the widget's effects on upload and removal, together with its `isUploading` flag.
- **Sign-up password rules** (`app/sign-up.tsx`). A validator returns the set of broken rules. It reports every rule independently, as the schema does.
- **Vehicle lookup endpoint** (`app/api/search-vehicle.ts`). This covers:
  - the status decisions (400, 500, 404, 500, 200);
  - the request sent to the register, which carries the plate with its whitespace removed;
  - the flattening of the register's nested, optional answer into the app's vehicle record.

Modules: `Wrappers` (Option and Result), `Text`, `Tables` (rows, filters, UPDATE, ORDER BY), `Db`, `FileUpload`, `SignUp`, `SearchVehicle`.

Behaviour of the code worth noting:
- **Vehicle segment.** The upload path's vehicle segment is present only when a vehicle id is given and non-empty, like the record segment.
- **Deleting a missing record.** `deleteMaintenance` answers `true` whenever its final delete request succeeds, including when no record matched.
- **Return value of `deleteMaintenanceFile`.** It returns `true` once the row delete succeeds. A fetch that finds no row or several rows fails with the PostgREST "not exactly one row" error, and nothing is removed.
- **URL to path.** Public URLs are made by a storage library call that is not part of this model, so only the path extraction is modelled.

## Model

| member | source | states |
|---|---|---|
| Text.IndexOf | lib/db.ts:299 | the result is the first index where the separator occurs, and is absent exactly when it does not occur |
| Text.Split | lib/db.ts:299 | `split` yields at least one piece |
| Text.SplitJoin | lib/db.ts:299 | joining the pieces of a split with the separator gives back the text |
| Text.SplitPiecesFree | lib/db.ts:299 | no piece of a split contains the separator |
| Text.SecondPiece | lib/db.ts:299 | piece `[1]` is the text between the first separator and the next separator or the end |
| Text.SecondPieceOf | lib/db.ts:299 | conversely, text between the first separator and the next one (or the end) is piece `[1]` |
| Text.LastPieceIsSuffix | components/ui/file-upload.tsx:139 | `split(...).pop()` is a separator-free suffix: the whole text without a separator, otherwise preceded by one |
| Text.SplitOfJoin | components/ui/file-upload.tsx:143-159 | with a one-character separator absent from every piece, splitting the joined text returns the pieces |
| Tables.Filter | lib/db.ts:7-9 | an `.eq` filter keeps only matching rows, never more rows than the table, each at most as often as in the table |
| Tables.FilterComplete | lib/db.ts:7-9 | every matching row of the table is kept by the filter |
| Tables.UpdateWhere | lib/db.ts:68-79 | an UPDATE rewrites exactly the matching rows' columns and keeps ids, owners and order |
| Tables.UpdatedRowReturned | lib/db.ts:68-79 | each row an owner-scoped `update(...).select()` returns is a matched row of the old table with its columns rewritten |
| Tables.FilterKeepsUntouched | lib/db.ts:332-336 | deleting rows outside `keep` leaves every row inside any narrower view unchanged |
| Tables.FilterOfAppend | lib/db.ts:351-361 | filtering a table after an insert filters the old rows and then the inserted one |
| Tables.SortOn | lib/db.ts:202 | `order(...)` returns a permutation of the rows sorted on the key in the given direction |
| Db.Single | lib/db.ts:31 | `.single()` succeeds exactly when one row matched and then returns it |
| Db.TodoFrom | lib/db.ts:49-60 | a new task has the caller's vehicle, task, priority and due date as given. Its notes default to `""`. Its type is the given one when non-empty and `general` otherwise, so never empty. It starts incomplete |
| Db.PatchTodo | lib/db.ts:92-113 | for each of task, priority, due date, notes and type: a present payload column replaces the task's and an absent one keeps it; an empty payload changes nothing; vehicle and completion are never touched |
| Db.VehicleUpdated | lib/db.ts:156-177 | nickname, type and background colour are always written; for each of make, model, year, colour, licence plate and image URL a present value replaces the vehicle's and an absent one keeps it; `vehicle_type` is never touched |
| Db.MaintenanceFrom | lib/db.ts:221-244 | a new record has the given vehicle and each of the argument's ten columns as given |
| Db.PatchMaintenance | lib/db.ts:254-272 | for each of the ten columns: a present payload column replaces the record's and an absent one keeps it; an empty payload changes nothing; the vehicle is never touched |
| Db.StoragePath | lib/db.ts:299-300 | an extracted path is non-empty and free of the marker, and a URL without the marker yields none |
| Db.PathOf | lib/db.ts:298-300 | a row without a URL yields no path; a path comes only from a URL holding the marker, and is non-empty and marker-free |
| Db.RemovalRequests | lib/db.ts:296-313 | the loop's requests: at most one per row, each a removal of a non-empty path |
| Db.RemovalPaths | lib/db.ts:296-313 | the paths the loop asks to remove, each non-empty and marker-free |
| Db.StoragePathShape | lib/db.ts:299-300 | an extracted path is non-empty, marker-free, and lies between the first marker and the next marker or the end |
| Db.StoragePathOf | lib/db.ts:299-300 | non-empty text between the first marker and the next one (or the end) is the extracted path |
| Db.RemovalPathsExact | lib/db.ts:296-313 | a path is among the loop's paths exactly when some listed row's URL yields it |
| Db.RemovalPathsRequested | lib/db.ts:296-313 | every one of those paths gets a removal request in the log, so a refused removal is still logged |
| Db.RemovalRequestsArePaths | lib/db.ts:296-313 | every request of the loop is a storage removal of such a path, at most one per row |
| Db.NoPathNoRequests | lib/db.ts:296-313 | rows without a URL, or whose URL yields no path, get no removal request |
| Db.NoFileRows | lib/db.ts:285-293 | an empty listing means the table holds no file row of that record and owner |
| Db.OtherOwnersKeepRows | lib/db.ts:332-336 | an owner-scoped delete leaves every other owner's rows exactly as they were |
| Db.DeleteVehicleIgnoresOwner | lib/db.ts:186-191 | in any table, a vehicle survives `deleteVehicle` exactly when its id differs, whoever owns it |
| Db.AddedFileListed | lib/db.ts:345-392 | after adding a file row, the listing for its record and owner contains it, holds only rows of that record and owner, and is sorted by upload time |
| Db.Database.constructor | lib/db.ts:1 | the backend starts with empty tables, bucket and request log |
| Db.Database.RemoveObjectAt | lib/db.ts:303-305 | a storage removal is logged; unless refused, it removes that path from the bucket |
| Db.Database.GetTodos | lib/db.ts:3-14 | returns exactly the caller's open tasks for the vehicle, or the error |
| Db.Database.GetTodoById | lib/db.ts:25-35 | returns the caller's one task with that id; another owner's task reads as no row |
| Db.Database.CreateTodo | lib/db.ts:37-66 | appends one task owned by the caller with the defaults, unless the call fails or the id is taken |
| Db.Database.UpdateTodoRows | lib/db.ts:68-113 | an owner-scoped update rewrites only the caller's matching task and returns it through `.single()` |
| Db.Database.CompleteTodo | lib/db.ts:68-79 | marks the caller's matching task complete and answers `.single()` on the result: Ok exactly when one task matched, and then that old task, now complete; other rows are unchanged |
| Db.Database.UpdateTodo | lib/db.ts:92-113 | patches only the given columns of the caller's task and answers `.single()` on the result: Ok exactly when one task matched, and then that old task with the patch applied; other rows are unchanged |
| Db.Database.DeleteTodo | lib/db.ts:81-90 | removes exactly the caller's task with that id |
| Db.Database.GetVehicles | lib/db.ts:16-23 | returns exactly the caller's vehicles |
| Db.Database.GetVehicleById | lib/db.ts:145-154 | returns the caller's one vehicle with that id |
| Db.Database.CreateVehicle | lib/db.ts:115-143 | appends one vehicle owned by the caller, unless the call fails or the id is taken |
| Db.Database.UpdateVehicle | lib/db.ts:156-184 | rewrites the caller's vehicle and keeps absent optional columns; the returned row carries the new nickname; other rows are unchanged |
| Db.Database.DeleteVehicle | lib/db.ts:186-194 | removes every vehicle with that id, whoever owns it |
| Db.Database.GetMaintenance | lib/db.ts:196-207 | returns the caller's records for the vehicle, as a permutation of them, with the most recently performed first |
| Db.Database.GetMaintenanceById | lib/db.ts:209-219 | returns the caller's one record with that id |
| Db.Database.CreateMaintenance | lib/db.ts:221-252 | appends one record for the caller and vehicle, unless the call fails or the id is taken |
| Db.Database.UpdateMaintenance | lib/db.ts:254-281 | patches only the given columns of the caller's record; other rows are unchanged |
| Db.Database.RemoveFileObjects | lib/db.ts:296-314 | the loop issues the removal requests in row order and removes every non-refused path from the bucket; a refused removal does not stop it |
| Db.Database.DeleteFileRows | lib/db.ts:284-328 | lists the record's file rows. Only when there are some does it request their storage removals and then one bulk delete of the rows. A failed bulk delete leaves the rows in place. Otherwise none of the record's file rows remain |
| Db.Database.DeleteMaintenance | lib/db.ts:283-342 | describes the full cascade. Removals run only when the listing has rows, and come before the bulk delete. The record is deleted whatever happened to its files. Only the final delete's error is returned, and success returns true. Afterwards no record with that id and owner remains, and no file rows remain when the bulk delete succeeded |
| Db.Database.AddMaintenanceFile | lib/db.ts:345-371 | appends exactly one file row with the given record, owner and URL |
| Db.Database.GetMaintenanceFiles | lib/db.ts:373-392 | returns the record's file rows of this owner, oldest upload first, as a permutation |
| Db.Database.DeleteMaintenanceFile | lib/db.ts:395-442 | a failed or non-unique fetch changes nothing. Otherwise the storage removal is requested before the row delete, and a refused removal does not stop the delete |
| FileUpload.Extension | components/ui/file-upload.tsx:139 | the extension is the dot-free text after the last `.`, or the whole name when it has none |
| FileUpload.BuildFilePath | components/ui/file-upload.tsx:143-159 | appending one segment at a time yields the `/`-joined segment list |
| FileUpload.FilePathStartsWithOwner | components/ui/file-upload.tsx:143 | every path starts with `maintenance/{userId}/` |
| FileUpload.FilePathEndsWithFileName | components/ui/file-upload.tsx:140-159 | every path ends with `/` followed by the token, `.` and the extension |
| FileUpload.FileName | components/ui/file-upload.tsx:139-140 | the stored name is the token, a `.`, and a dot-free suffix of the picked file's name |
| FileUpload.PathSegments | components/ui/file-upload.tsx:143-159 | the segments are the folder and the owner, then the vehicle iff present and non-empty, then the record iff present and non-empty, then the file name |
| FileUpload.FilePath | components/ui/file-upload.tsx:143-159 | the path is the `/`-join of those segments; the lemmas below state its prefix, its suffix and that it splits back |
| FileUpload.FilePathSegments | components/ui/file-upload.tsx:143-159 | when neither the ids, the token nor the name's extension contains `/` (the rest of the name never reaches the path), the path splits back into exactly its segments |
| FileUpload.IsImage | components/ui/file-upload.tsx:205 | the match is not null: a search for the pattern from index 0; IsImageSuffix characterises it |
| FileUpload.SearchFinds | components/ui/file-upload.tsx:205 | the pattern search succeeds exactly when the pattern matches at some index |
| FileUpload.IsImageSuffix | components/ui/file-upload.tsx:205 | `isImage` holds iff the URL ends with `.` and one of jpg, jpeg, png, gif, heic, webp in any ASCII case |
| FileUpload.UpperCaseExtensionIsImage | components/ui/file-upload.tsx:205 | a name ending in `.JPG` is an image: the pattern's `i` flag also accepts upper-case extensions |
| FileUpload.FileUploader.constructor | components/ui/file-upload.tsx:22-33 | a new widget is idle and has done nothing |
| FileUpload.FileUploader.UploadFile | components/ui/file-upload.tsx:135-167 | marks the widget busy and builds the path. A failed fetch reports the error and clears the busy flag. Otherwise it returns with the upload pending on the reader, carrying that path, and has done nothing else yet |
| FileUpload.FileUploader.OnLoadEnd | components/ui/file-upload.tsx:167-181 | a failed reader does nothing and leaves the flag as it was; a rejected upload was requested and leaves the flag as it was; a stored upload hands `onUploadComplete` the very path uploaded and clears the flag, even with other uploads in flight |
| FileUpload.FileUploader.HandleRemove | components/ui/file-upload.tsx:192-203 | `onRemove` first, then `onRemoveFromDb` only when supplied |
| SignUp.Utf16Length | app/sign-up.tsx:18-19 | the length is counted in UTF-16 code units, between the character count and twice it, and equal to it on BMP text |
| SignUp.Lookahead | app/sign-up.tsx:20-32 | the look-ahead succeeds iff a class character occurs before the first line terminator |
| SignUp.InFirstLine | app/sign-up.tsx:20-32 | `^(?=.*[class])` holds iff a class character occurs before the first line terminator |
| SignUp.Fails | app/sign-up.tsx:13-38 | the check behind each rule, one case per message; Issues states each case |
| SignUp.Issues | app/sign-up.tsx:13-38 | each rule is reported iff its condition fails: length 8..64, each class in the first line, confirmation length at least 8, equality |
| SignUp.NoIssuesIffAcceptable | app/sign-up.tsx:13-38 | no issue is reported iff the password meets every rule and equals the confirmation |
| SignUp.ConfirmRuleImplied | app/sign-up.tsx:33-38 | the confirmation length rule never decides the outcome on its own |
| SignUp.SingleLineClass | app/sign-up.tsx:20-32 | on single-line text a class rule asks for the class anywhere |
| SignUp.SecondLineIgnored | app/sign-up.tsx:20-32 | a class character after the first line break does not satisfy the rule |
| SignUp.AstralCharactersCountTwice | app/sign-up.tsx:18 | four characters outside the BMP meet the minimum length of 8, because the length counts UTF-16 code units |
| SearchVehicle.StripWhitespace | app/api/search-vehicle.ts:28 | the result has no whitespace and is no longer than the input |
| SearchVehicle.StripConcat | app/api/search-vehicle.ts:28 | whitespace removal distributes over concatenation |
| SearchVehicle.StripNothingToStrip | app/api/search-vehicle.ts:28 | text without whitespace is unchanged |
| SearchVehicle.StripIdempotent | app/api/search-vehicle.ts:28 | removing whitespace twice is removing it once |
| SearchVehicle.StripJoinsAroundSpace | app/api/search-vehicle.ts:28 | a whitespace character between two parts only joins them |
| SearchVehicle.Get | app/api/search-vehicle.ts:7-108 | status 200 iff a vehicle is returned; the register is called iff a plate and a key are present, with that key; the only statuses are 200, 400, 404 and 500 |
| SearchVehicle.MissingPlateIsBadRequest | app/api/search-vehicle.ts:10-17 | a missing or empty plate gives 400 before the key is checked, and nothing is sent |
| SearchVehicle.MissingKeyIsServerError | app/api/search-vehicle.ts:19-24 | a plate without a key gives 500, and nothing is sent |
| SearchVehicle.CallCarriesStrippedPlate | app/api/search-vehicle.ts:28-40 | the register URL carries the plate with all whitespace removed |
| SearchVehicle.RegisterErrorIsServerError | app/api/search-vehicle.ts:93-100 | an error from the call gives 500 with its message |
| SearchVehicle.EntriesDecideFound | app/api/search-vehicle.ts:44-51 | 404 iff there is no body, no list or an empty list; otherwise the first entry is transformed |
| SearchVehicle.OnlyFirstEntryCounts | app/api/search-vehicle.ts:51 | entries after the first never change the reply |
| SearchVehicle.YearOf | app/api/search-vehicle.ts:62-63 | the `year` field; YearFallback states it |
| SearchVehicle.YearFallback | app/api/search-vehicle.ts:62-63 | the year is the first four characters of the Norwegian registration date if non-empty, else of the first registration date, else empty |
| SearchVehicle.RegistrationNumberOf | app/api/search-vehicle.ts:75 | the `registrationNumber` field; RegistrationNumberFallback states it |
| SearchVehicle.RegistrationNumberFallback | app/api/search-vehicle.ts:75 | the registration number is the register's plate without whitespace when that leaves any text, and otherwise the requested plate as given; it is never empty for a request that reaches the register |
| SearchVehicle.Transform | app/api/search-vehicle.ts:54-85 | the flat record built from the first entry; the four lemmas below state every field |
| SearchVehicle.GeneralFieldsDefault | app/api/search-vehicle.ts:56-69 | make, model and type are the register's values (first list element for the lists) when present, and `""` when the group or field is missing |
| SearchVehicle.TechnicalFieldsDefault | app/api/search-vehicle.ts:66-84 | colour, seats and both weights are the register's values when present, and `""` or 0 when the group or field is missing |
| SearchVehicle.IdFieldsDefault | app/api/search-vehicle.ts:72-75 | the chassis number is the register's when present, else `""`; without the id group the requested plate is the registration number |
| SearchVehicle.MissingFieldsDefault | app/api/search-vehicle.ts:54-85 | a `null` entry, or one with nothing filled in, gives the all-default record with the requested plate |

## Left out

- **Backend behaviour.** The Supabase client's wire protocol, authentication and row-level security are not modelled. Tables are in-memory sequences and the bucket is a set of paths. Each call's failure is an explicit argument. The request log records state-changing requests only.
- **Insert values.** Ids and timestamps that the backend generates are parameters. An insert whose id is already taken fails with `DuplicateKey`.
- **`Tables.SortOn`.** It fixes one order for rows with equal keys. The backend leaves that order unspecified, so the properties stated about listings are only sortedness and permutation.
- **Storage paths.** Public URLs are not constructed. The storage library's URL format is not part of this model, so no URL-to-path round trip is claimed. The refused paths are a set: every removal request for a path gets the same outcome, so a path listed by two file rows cannot be refused once and removed the second time, as the storage service could do.
- **`Db.Database.DeleteMaintenance`.** The listing is taken in table order. The listing query selects only `id, file_url`, and the model reads whole rows.
- **Column types.** `date_performed` is a day number and `uploaded_at` an integer timestamp, both ordered as integers. `cost` is a real number. Values are not validated.
- **Callers of `uploadFile`.** The picker handlers and their default file names (`file_…`, `gallery_…`, `camera_…`) are not modelled. They rely on pickers, permissions and the clock. The three handlers the source modal actually uses (components/ui/file-upload.tsx:261-343) call `uploadFile` without awaiting it, the gallery one once per selected image. The `handlePickFile`, `handlePickGallery` and `handlePickCamera` functions (46-133) do await it but are never used. In any case `uploadFile` returns as soon as the file reader has started, so awaiting it would not wait for the upload either. Several uploads can therefore be pending at once, and their completion callbacks can run in any order. The model splits each upload into `UploadFile` and `OnLoadEnd` so that such interleavings can be written down, but the callers' actual order is not modelled.
- **`FileUpload.FileUploader.UploadFile`.** The fetch of the file and its conversion to a blob are summarised by a fetch outcome. The file reader and the storage upload are summarised by the outcome given to `OnLoadEnd`. A data URL without a comma makes `decode(undefined)` throw inside `onloadend` before `.upload` is called: nothing is uploaded or reported and the widget stays busy, so that case is the `ReaderFailed` outcome of `OnLoadEnd`. The random token is a parameter. The progress counter and the source modal are not modelled.
- **`FileUpload.FileUploader.HandleRemove`.** A rejection from `onRemoveFromDb` is not modelled. It propagates after `onRemove` has already run.
- **Rendering.** React rendering, hooks, modals and logging are not modelled.
- **Sign-up e-mail rule.** The e-mail format rule is not modelled, and neither is the sign-up submission itself.
- **`SignUp.Utf16Length`.** Text is a sequence of Unicode scalar values, so strings with unpaired surrogates cannot be expressed.
- **`SearchVehicle.YearOf`.** `substring(0, 4)` is taken on characters. This differs from JavaScript only when the date contains characters outside the BMP.
- **Register JSON types.** The register's JSON fields are assumed to have the types the code reads them as. An entry of the wrong type, which would throw in the endpoint, is not modelled.
- **Error values.** The error value in 500 replies is reduced to its message.
- **Outside this model.** `lib/date-utils.ts`, the mock route `app/api/search-vehicle/route.ts`, the type declarations and the other UI components are not part of this model.

# Upload page file list — a Dafny model

The page (`src/pages/Index.tsx`) lets a visitor drop files onto an upload
zone. The page turns each dropped file into a record
`{id, name, size, type: image|video, isPrivate, url}`. A timer then appends
the record to an in-memory list. File `i` of a drop waits `1000 + 500·i` ms,
so the records appear one by one. Each card can flip its record's privacy
flag. Each card also shows a share link of the form
`https://fotoline.ru/<private|public>/<id>`.

This project models that list and the pure computations around it:

- `Records` holds the record, the dropped file as the page reads it, and
  the media-kind test on the MIME prefix. It also holds the id: the decimal
  string of the clock reading plus the file's index. The clock is read once
  per file. `DecimalValue` reads the digits back. That round trip shows
  that ids within one drop are distinct while the clock does not step back.
  A clock that steps back can make two ids collide.
- `Links` holds the link template. `ParseLink` is its partner: a link gives
  back the privacy flag and id it was built from.
- `Privacy` holds the toggle as a map over the list, with the facts about
  it: what changes at each position, a missing id, applying it twice, and
  commutation.
- `Upload` holds the upload routine's `forEach` loop, written as a method
  that builds the batch of timers. Each timer records when it was set, on
  the browser's monotonic timer clock. That clock is kept apart from the
  wall clock `Date.now()` that feeds the id. The module also says which
  orders the event loop may run timers in: by due time, and by setting
  order on a tie. The lemma `BatchFiresInInputOrder` shows that one drop
  has exactly one such order, input order, whatever the wall clock reads.
  Timers of different drops may interleave (`InterleavedDrops`).
- `UploadedFiles` holds the state container as a class with a
  `seq<FileRecord>` field. `Append` is the timer callback and
  `TogglePrivacy` is the card button. `RunTimers` runs the callbacks in an
  order the event loop allows. `DropTwoAndToggle` is a client that runs the
  two-file scenario.

Inputs the page gets from the browser are parameters: the wall-clock value
`Date.now()` read for each file, the timer clock at each `setTimeout`
call, the formatted size and the object URL (inside `SourceFile`),
and the order in which timers run.

## Model

| member | source | states |
|---|---|---|
| Records.Classify | src/pages/Index.tsx:44-46 | the kind is `image` exactly when the first six characters of the MIME type are "image/", and `video` exactly otherwise |
| Records.ClassifyExamples | src/pages/Index.tsx:44-46 | "image/png" and "image/" are images; the empty type, "image", "Image/png", "video/mp4" and "application/pdf" are videos (the test is case-sensitive) |
| Records.DecimalString | src/pages/Index.tsx:41 | the string form of a non-negative integer is non-empty, all digits, and has no leading zero unless it is "0" |
| Records.DecimalRoundTrip | src/pages/Index.tsx:41 | reading back the digits of `n` gives `n` |
| Records.DecimalStringInjective | src/pages/Index.tsx:41 | different numbers give different id strings |
| Records.RecordId | src/pages/Index.tsx:41 | the id is a plain decimal string (digits only, no leading zero) that reads back as clock reading + index |
| Records.RecordIdsDistinctInBatch | src/pages/Index.tsx:39-41 | a later file of a drop never gets an earlier file's id when its clock reading is not smaller |
| Records.RecordIdCollides | src/pages/Index.tsx:41 | reading `t + 1` at index 0 and `t` at index 1 gives the same id, so a clock stepping back within a drop, or two drops 1 ms apart, can repeat an id |
| Records.MakeRecord | src/pages/Index.tsx:40-49 | a new record is public, keeps the file's name, size and URL, is an image exactly when the MIME type starts with "image/", and its id is the plain decimal form of clock + index |
| Links.GenerateLink | src/pages/Index.tsx:68-72 | parsing a record's link gives back exactly its privacy flag and its id, whatever the id contains |
| Links.GenerateLinkInjective | src/pages/Index.tsx:68-72 | two records have the same link exactly when they agree on id and privacy flag |
| Links.GenerateLinkShape | src/pages/Index.tsx:68-72 | a link is "https://fotoline.ru/", then "private" for a private record and "public" otherwise, then "/" and the id |
| Links.ToggledLinkDiffersOnlyInSegment | src/pages/Index.tsx:68-72 | flipping the flag changes the link; both links share the "https://fotoline.ru/" prefix and the "/" + id suffix, and their middle segments are "private" and "public" |
| Links.NewRecordLinkIsPublic | src/pages/Index.tsx:40-72 | a freshly built record's link is the public link of its clock + index id |
| Privacy.Flip | src/pages/Index.tsx:63 | every field but the flag is copied, and the flag changes exactly when the id matches |
| Privacy.Toggled | src/pages/Index.tsx:61-65 | toggling keeps the length of the list |
| Privacy.ToggledAt | src/pages/Index.tsx:61-65 | at every position the id, name, size, kind and URL are kept, and the flag is negated exactly where the id matches |
| Privacy.ToggledElement | src/pages/Index.tsx:63 | a record with another id comes out identical; a matching record comes out as itself with the flag negated |
| Privacy.ToggleMissingId | src/pages/Index.tsx:62-64 | toggling an id that no record has leaves the list unchanged |
| Privacy.ToggleTwice | src/pages/Index.tsx:60-66 | toggling the same id twice restores the list, also when several records share the id |
| Privacy.TogglesCommute | src/pages/Index.tsx:60-66 | toggles of two ids give the same list in either order |
| Upload.DelayIncreasing | src/pages/Index.tsx:55 | the first delay is 1000 ms, each next file waits 500 ms more, and delays strictly increase with the index |
| Upload.Batch | src/pages/Index.tsx:39-56 | a drop of N files sets N timers; timer i is set at its timer-clock reading, waits exactly 1000 + 500·i ms and carries the record built from file i and its wall-clock reading, so it is public, keeps the file's name, size and URL, is classified by its MIME type, and has the plain decimal id of reading + i |
| Upload.SimulateUpload | src/pages/Index.tsx:39-57 | the loop sets one timer per file, in input order, each with that file's timer-clock reading, delay and record |
| Upload.BatchIdsDistinct | src/pages/Index.tsx:39-41 | no two records of one drop share an id while the clock does not step back |
| Upload.BatchIdsCollideWhenClockStepsBack | src/pages/Index.tsx:39-41 | in a two-file drop whose second reading is 1 ms earlier than the first, both records get the same id |
| Upload.BatchFiresInInputOrder | src/pages/Index.tsx:51-56 | for any wall-clock readings, the only order the event loop can run one drop's timers in is input order, so the records are appended file by file in input order |
| Upload.InputOrderFiresBatch | src/pages/Index.tsx:51-56 | input order is a valid run of every drop's timers, for any wall-clock readings |
| Upload.InterleavedDrops | src/pages/Index.tsx:51-56 | a three-file drop at 0 ms and a one-file drop at 600 ms may fire as file 0, file 1, the second drop's file, file 2 |
| Upload.WallClockStepBackKeepsOrder | src/pages/Index.tsx:41-56 | a wall clock that steps back a second between two files does not let the second file's timer fire first |
| UploadedFiles.UploadList.constructor | src/pages/Index.tsx:10-19 | the list starts empty |
| UploadedFiles.UploadList.Append | src/pages/Index.tsx:53 | the callback adds exactly one record at the end and leaves every earlier record unchanged |
| UploadedFiles.UploadList.TogglePrivacy | src/pages/Index.tsx:60-66 | the new list is the toggled copy of the old one |
| UploadedFiles.UploadList.RunTimers | src/pages/Index.tsx:51-56 | running the timers appends their records to the old list, one per timer, in firing order |
| UploadedFiles.DropTwoAndToggle | src/pages/Index.tsx:38-66 | with non-decreasing wall-clock readings, dropping two files sets delays 1000 and 1500 ms and appends both records in input order; one toggle of the first id makes only that record private, and a second toggle restores the list |

## Left out

- Size formatting: `toFixed(2)` of a floating-point division (line 43) is left out. The size is an opaque string the caller supplies.
- Object URLs: `URL.createObjectURL` (line 48) is a browser call. Its result is an input field of `SourceFile`. The model does not capture that these URLs are never revoked.
- Clock: `Date.now()` (line 41) is read once per file. The readings are the parameter `clock`, one per file. The id treats `now + index` as an exact integer. JavaScript numbers are exact below 2^53, which covers every millisecond clock value, and `String()` of such an integer is its plain decimal form.
- Real timing: delays and due times are modelled, elapsed time is not. The event loop's choice of order is a parameter of `RunTimers`, constrained by `IsFiringOrder`. Each timer's set time is a reading of a monotonic timer clock (`TimerClock`), separate from the wall clock that feeds the id. Timers that run late, after their due time, are not modelled.
- Clipboard: `navigator.clipboard.writeText` (line 201) is a browser call with no effect on the list.
- Drag flag: `isDragging` and its handlers (lines 22-36) only drive a visual highlight.
- `uploadProgress` (line 20) is declared but never used.
- Rendering: the JSX, styling and component-library primitives (lines 74-292) are presentation only.

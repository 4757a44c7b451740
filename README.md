# File-upload platform UI: a verified model of its state logic

The repository is a client-side mock-up of a file-storage product written
as React components. Almost all of it is rendering. Three components hold
logic that can be stated and proved apart from the rendering, and this
project models those three:

- **Upload zone** (`src/components/UploadZone.tsx`), module `Upload`. Files
  that are dropped or picked become upload records at 0 % with status
  `uploading`. Each record gets a timer that adds 10 to its own counter on
  every firing. The timer writes that counter into the record with its id,
  and it is cleared once the counter reaches 100. The class
  `Upload.UploadZone` holds the drag highlight, the record list and the
  timers. One `Timer` value stands for each `simulateUpload` closure: it
  holds the id it writes to and its counter. The timers are kept in a
  sequence parallel to the records. Its invariant `Valid` says that every
  counter and every shown percentage lies in 0..100 in steps of 10, that
  each record's status matches its percentage, and so that no record is
  ever in `error`. `Synced` (each record shows its own timer's counter)
  is preserved whenever ids are unique.
- **File browser** (`src/components/FileManager.tsx`), module
  `FileManager`. This part is pure. It has the case-insensitive name
  search over the fixed item list and the extension-to-icon table.
  The extension is `name.split('.').pop()` lower-cased. It is modelled
  through `split` itself, with a proof that splitting and joining again
  gives back the name. The extension is then characterised as the longest
  dot-free suffix.
- **Chat** (`src/components/MessengerChat.tsx`), module `MessengerChat`.
  It has a pure contact search: the lowered name includes the lowered
  query, or the phone includes the raw query. The class `Chat` holds the
  message list and the inputs. Its send is guarded: nothing happens when
  the trimmed text is empty or no contact is selected. Otherwise one own
  message is appended and the input is cleared. The class also has the
  Enter-key rule and the add-contact toggle.

The JavaScript string operations the components use are in module
`Strings`: `toLowerCase`, `includes`, `trim` and `split`.
`Array.prototype.filter` is in module `Seqs`. `includes` is the position-by-position
search, proved equal to "the query occurs at some index". `trim` uses
the exact ECMAScript whitespace and line-terminator set.

Clock readings are parameters of the methods that use them: `Date.now()`
and the `toLocaleTimeString` label. The upload id `${Date.now()}-${index}`
is the pair `UploadId(stamp, index)`. A positive stamp contains no `-`, so
the pair and the string determine each other. The clock is read inside the
`files.map` callback, once per file, so a batch takes one reading per file
(`stamps[i]` for file `i`), and the readings of one batch may differ. An upload record keeps the
file's byte count where the source keeps the formatted size label.

`MessengerChat.tsx` has no attachment path: its paperclip button
(src/components/MessengerChat.tsx:265-267) has no handler, so messages are
text only.

## Model

| member | source | states |
|---|---|---|
| `Strings.ContainsIff` | src/components/FileManager.tsx:32 | `includes`, as a search over start positions, answers yes exactly when the query occurs at some index of the string |
| `Strings.TrimEmptyIffBlank` | src/components/MessengerChat.tsx:92 | the trimmed text is empty exactly when every character is whitespace, the empty text included |
| `Strings.SplitJoin` | src/components/FileManager.tsx:37 | joining the pieces of `split('.')` with '.' gives back the name |
| `Strings.LastSegment` | src/components/FileManager.tsx:37 | `split('.').pop()` is dot-free and a suffix of the name, and a dot comes right before it unless it is the whole name |
| `Strings.LastSegmentUnique` | src/components/FileManager.tsx:37 | any suffix with those three properties is the last segment |
| `Strings.LastSegmentLower` | src/components/FileManager.tsx:37 | lowering the name and then taking the last segment gives the same result as taking it and then lowering it |
| `FileManager.FilteredFiles` | src/components/FileManager.tsx:31-33 | an item is kept iff its lowered name includes the lowered query, each kept item as many times as it is listed, and the kept items are a subsequence of the list in list order |
| `FileManager.EmptyQueryKeepsAll` | src/components/FileManager.tsx:31-33 | the empty query keeps the whole list unchanged |
| `FileManager.Show` | src/components/FileManager.tsx:78-137 | the layout is the selected view; the shown items are exactly the matching ones, with their multiplicity, in list order; "nothing found" appears iff no item matches |
| `FileManager.ViewDoesNotFilter` | src/components/FileManager.tsx:29-33 | grid and list show the same items and the same "nothing found" state |
| `FileManager.Extension` | src/components/FileManager.tsx:37 | the extension is dot-free and is the lowered text after the last dot; a dot-less name is its own extension, lowered |
| `FileManager.FileIcon` | src/components/FileManager.tsx:35-36 | the folder icon is chosen iff the item is a folder, whatever its name |
| `FileManager.FileIconTable` | src/components/FileManager.tsx:37-45 | pdf/doc/docx give FileText, ppt/pptx Presentation, xls/xlsx Sheet, jpg/jpeg/png Image, and only those |
| `FileManager.IconIgnoresCase` | src/components/FileManager.tsx:37 | two files whose names agree after lowering get the same icon |
| `FileManager.TrailingDotIsGenericFile` | src/components/FileManager.tsx:37-44 | a name ending in '.' has the empty extension and gets the generic file icon |
| `FileManager.ExtensionOf` | src/components/FileManager.tsx:37 | the extension of `stem.ext` is `ext` lowered when `ext` has no dot, whatever the stem |
| `FileManager.IconOfName` | src/components/FileManager.tsx:35-45 | a file named `stem.ext` gets the table's icon for `ext` lowered |
| `FileManager.ReportPdfIcon` | src/components/FileManager.tsx:37-39 | "report.pdf" gets the FileText icon |
| `FileManager.UpperCaseReportPdfIcon` | src/components/FileManager.tsx:37-39 | "REPORT.PDF" gets the FileText icon too |
| `FileManager.MockReportIcon` | src/components/FileManager.tsx:20 | the sample "Отчет_Q4.pdf" gets FileText |
| `FileManager.MockPresentationIcon` | src/components/FileManager.tsx:21 | the sample "Презентация.pptx" gets Presentation |
| `FileManager.MockSpreadsheetIcon` | src/components/FileManager.tsx:22 | the sample "Таблица_данных.xlsx" gets Sheet |
| `Upload.StatusFor` | src/components/UploadZone.tsx:71 | the status is never `error`, and it is `completed` iff the progress is at least 100 |
| `Upload.NewRecords` | src/components/UploadZone.tsx:44-51 | a batch of n files read at n clock readings gives n records in input order, record i with file i's name and size, progress 0, status uploading and id (reading i, i); the batch's ids are pairwise distinct |
| `Upload.AppendUnique` | src/components/UploadZone.tsx:45-53 | after appending a batch all ids are distinct iff they were before and no id of the batch is already taken |
| `Upload.TickDuringBatchCollides` | src/components/UploadZone.tsx:45-46 | a two-file batch whose clock readings are t and t+1 takes id `t+1-1`, which a later two-file batch read at t+1 takes again |
| `Upload.StartTimers` | src/components/UploadZone.tsx:55-57 | one timer per new record, writing to that record's id, with its counter at 0 |
| `Upload.WriteProgress` | src/components/UploadZone.tsx:65-74 | records with the fired id get the new progress and the matching status (completed iff at least 100); every other record is unchanged |
| `Upload.TraceShape` | src/components/UploadZone.tsx:60-80 | from a valid counter c the timer fires (100 - c) / 10 more times, writing c+10, c+20, …, ending at exactly 100, never above |
| `Upload.FreshUploadTakesTenTicks` | src/components/UploadZone.tsx:61-79 | a new upload passes through 10, 20, …, 100 in exactly ten firings |
| `Upload.UploadZone.constructor` | src/components/UploadZone.tsx:16-17 | the zone starts not dragging, with no records and no timers, valid |
| `Upload.UploadZone.DragOver` | src/components/UploadZone.tsx:19-22 | drag-over sets the highlight, leaves the records and timers alone and keeps the state valid |
| `Upload.UploadZone.DragLeave` | src/components/UploadZone.tsx:24-27 | drag-leave clears the highlight, leaves the records and timers alone and keeps the state valid |
| `Upload.UploadZone.HandleFiles` | src/components/UploadZone.tsx:44-58 | the new records are appended after the old ones, which are unchanged and keep their order; one timer starts per new record; validity and synchrony are kept; all ids are distinct afterwards iff they were before and none of the batch's ids was taken |
| `Upload.UploadZone.Drop` | src/components/UploadZone.tsx:29-35 | drop clears the highlight and adds the dropped files as `HandleFiles` does |
| `Upload.UploadZone.FileSelect` | src/components/UploadZone.tsx:37-42 | with no file list nothing changes; otherwise the picked files are added as `HandleFiles` does |
| `Upload.UploadZone.Tick` | src/components/UploadZone.tsx:62-79 | one firing of an active timer raises its counter by exactly 10, rewrites only the records with its id, keeps the state valid (no `error`, progress within 0..100), leaves id uniqueness as it was, and keeps records in step with their timers when ids are unique |
| `Upload.UploadZone.RunTimer` | src/components/UploadZone.tsx:60-81 | a timer fired until cleared writes exactly `Trace` of its counter and stops at 100 with the same id, every other timer unchanged; when ids are unique and every record shows its timer's counter, its record ends completed at 100 with its id, name and size kept, and every other record is unchanged |
| `MessengerChat.FilterContacts` | src/components/MessengerChat.tsx:113-117 | a contact is kept iff its lowered name includes the lowered query or its phone includes the raw query, each kept contact as many times as it is listed, in list order |
| `MessengerChat.EmptySearchKeepsAllContacts` | src/components/MessengerChat.tsx:113-117 | the empty query keeps every contact in order |
| `MessengerChat.UnmatchedSearchFindsNothing` | src/components/MessengerChat.tsx:113-117 | a query matching no name and no phone yields the empty list |
| `MessengerChat.SearchIvan` | src/components/MessengerChat.tsx:29-56 | searching the sample contacts for "Иван" yields exactly Иван Петров |
| `MessengerChat.CanSendIff` | src/components/MessengerChat.tsx:92 | a send goes through iff a contact is selected and the text has a non-whitespace character |
| `MessengerChat.Chat.constructor` | src/components/MessengerChat.tsx:83-89 | the view opens with the sample contacts and messages, the first contact selected, empty inputs and the panel closed |
| `MessengerChat.Chat.FilteredContacts` | src/components/MessengerChat.tsx:113-117 | the shown contacts are exactly those matching the current search, with their multiplicity, in list order |
| `MessengerChat.Chat.SetMessageText` | src/components/MessengerChat.tsx:271 | typing sets the input text and changes nothing else |
| `MessengerChat.Chat.SelectContact` | src/components/MessengerChat.tsx:168 | clicking a contact selects it and changes nothing else |
| `MessengerChat.Chat.SetSearchQuery` | src/components/MessengerChat.tsx:157 | typing in the search box sets the query and changes nothing else |
| `MessengerChat.Chat.SendMessage` | src/components/MessengerChat.tsx:91-104 | blank text or no selected contact: messages and input unchanged; otherwise exactly one message (sender `me`, own, untrimmed text) is appended after the unchanged earlier ones and the input becomes empty |
| `MessengerChat.Chat.KeyPress` | src/components/MessengerChat.tsx:106-111 | Enter without Shift sends as `SendMessage` does; Enter with Shift or any other key changes nothing |
| `MessengerChat.Chat.ToggleAddContact` | src/components/MessengerChat.tsx:128 | the add-contact flag is negated and nothing else changes |
| `MessengerChat.ToggleTwiceRestores` | src/components/MessengerChat.tsx:128 | two toggles restore the flag |
| `MessengerChat.BlankIsNotSent` | src/components/MessengerChat.tsx:92 | typing any whitespace-only text (the empty text included) and sending it leaves the message list unchanged and the text in the input |

## Left out

- All rendering: JSX, CSS classes, icons as glyphs and component composition. `src/components/Dashboard.tsx` (static sample data and markup) and `src/pages/Index.tsx` (tab switching and a header label lookup) are not part of this model.
- `formatFileSize`: it uses floating-point `Math.log`, `Math.pow` and `Math.round`. An upload record keeps the byte count instead of the label.
- Real time: `setInterval` at 200 ms and `clearInterval`. A firing is an explicit `Tick(t)` on a timer that has not been cleared (its counter is below 100), and the interleaving of timers is left to the caller. `Date.now()` and `toLocaleTimeString` are method parameters.
- Upload.UploadZone.HandleFiles: ids can collide across batches (two batches read at the same millisecond, or a batch whose readings span a tick, as `Upload.TickDuringBatchCollides` shows), so unique ids are stated as an if-and-only-if on the batch's readings rather than promised. Timers with the same id then write each other's records, and the model follows that behaviour as written. Whether the clock moves between readings is left to the caller.
- Unicode case mapping: `toLowerCase` is modelled for Latin A-Z and the Cyrillic capitals U+0400..U+042F only; other scripts are left unchanged by the model.
- React state batching, and the stale `messages` closure in `handleSendMessage`: each method call sees the previous call's state.
- The phone-lookup input and its button (src/components/MessengerChat.tsx:134-145): they perform no action.
- The file browser's `searchQuery` and `selectedView` setters carry no logic. They are represented by the query and view parameters of `FileManager.Show`.
- The file browser's list is a fixed constant. `FileManager.FilteredFiles` and `FileManager.Show` take the list as a parameter and are stated for any list.

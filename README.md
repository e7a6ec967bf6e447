# OctoPrint-FileManager file browser, modelled in Dafny

This project models the browser side of the OctoPrint-FileManager plugin: the view-model behind its
file browser (`filemanager.js`) and the Knockout binding that tells a single click from a double
click (`ko.single_double_click.js`).

The view-model keeps a selection (an ordered list without duplicates), a clipboard holding a pending
copy or move with its source paths, the current folder path and the list handed to the list helper.
Guards decide which bulk actions are enabled. The actions call the host's file API; here each call is
appended to a request log (`requests`). The host's capabilities are a `Host` value passed to every
guard and action: the login state, the SD card state, the listing's `enableRemove`, `enableSlicing`
and `enableSelect` checks, `pathForEntry`, `elementByPath` and the full item collection.

Layout, one module per file:

- `wrappers.dfy`: `Option`, for properties that may be missing.
- `text.dfy`: lower-casing, the string `<` (on code points), and the decimal spelling of numbers.
- `entries.dfy`: `FileEntry`, one row of the file tree.
- `api.dfy`: `Host` and the request log's `Request`.
- `comparators.dfy`: the six sort comparators.
- `filters.dfy`: the five list filters and the folder/file split of the displayed page.
- `selection.dfy`: toggling an entry in the selection.
- `dispatch.dfy`: the clipboard and what paste, remove and download send.
- `filemanager.dfy`: the class `FilemanagerViewModel`, with the guards and actions.
- `single_double_click.dfy`: the click counter as step functions, and the class `SingleOrDoubleClickBinding` that follows them.

The model keeps these behaviours of the code as they are:

- `enableDownload` computes a per-entry test and discards it. It is therefore true whenever anything is selected (see Findings).
- The date and size comparators order missing values inconsistently (see Findings).
- `paste` empties the clipboard once its guard passes, even when two or more entries are selected and nothing is sent.
- `cut` is guarded by `enableRemove` plus the local-origin check, not by `enableCopy`.
- `changeFolderByPath` on a path it can resolve keeps the selection.

Two of these depart from what the code evidently means to do. The per-entry test in
`enableDownload` suggests that a folder or a non-local entry should disable download. The date and
size comparators treat a missing value as the smallest when it is the second argument: ascending
answers 1 and descending -1, whatever the first value is. But a missing first value against a
present one gives 0, and two missing values give 1 ascending and -1 descending, so the result is
no consistent order at all. The corrected order (`MissingLast`) is a choice, not something the code
spells out: entries without the value sort after all others in both directions. The model keeps
the code's behaviour in both cases. Both are logged under Findings, each with a corrected
definition beside it.

## Model

| member | source | states |
|---|---|---|
| `Comparators.NameAsc` | octoprint_filemanager/static/js/filemanager.js:30-35 | `nameAsc` answers -1, 0 or 1: negative exactly when the first lower-cased name sorts before the second, positive exactly when it sorts after |
| `Comparators.NameDsc` | octoprint_filemanager/static/js/filemanager.js:36-41 | `nameDsc` is exactly the negation of `nameAsc` on every pair |
| `Comparators.NameAscAntisymmetric` | octoprint_filemanager/static/js/filemanager.js:30-35 | `nameAsc` compares lower-cased names: swapping the arguments negates it, and it is 0 exactly when the lower-cased names are equal |
| `Comparators.UploadAsc` | octoprint_filemanager/static/js/filemanager.js:42-47 | `uploadAsc` answers -1, 0 or 1; on two dated entries it is negative exactly when the first is older and 0 exactly when the dates are equal |
| `Comparators.UploadDsc` | octoprint_filemanager/static/js/filemanager.js:48-53 | `uploadDsc` is exactly the negation of `uploadAsc` on every pair, missing dates included |
| `Comparators.SizeAsc` | octoprint_filemanager/static/js/filemanager.js:54-59 | `sizeAsc` answers -1, 0 or 1; on two sized entries it is negative exactly when the first is smaller and 0 exactly when the sizes are equal |
| `Comparators.SizeDsc` | octoprint_filemanager/static/js/filemanager.js:60-65 | `sizeDsc` is exactly the negation of `sizeAsc` on every pair, missing sizes included |
| `Comparators.DescendingAsWritten` | octoprint_filemanager/static/js/filemanager.js:48-53 | the descending rule on an optional value negates the ascending rule |
| `Comparators.PresentValuesCompareNumerically` | octoprint_filemanager/static/js/filemanager.js:42-59 | wherever both dates are present the date order is the numeric three-way comparison and antisymmetric, whatever the sizes; the same for sizes, whatever the dates |
| `Comparators.MissingValuesAsWritten` | octoprint_filemanager/static/js/filemanager.js:42-65 | a missing second value makes the ascending orders answer 1 (descending -1) whatever the first is; a missing first value against a present second one gives 0 |
| `Comparators.MissingValuesNotAntisymmetric` | octoprint_filemanager/static/js/filemanager.js:42-59 | an undated entry compares greater than itself, and against a dated entry gives 1 one way and 0 the other |
| `Comparators.MissingLastIsConsistent` | octoprint_filemanager/static/js/filemanager.js:42-65 | the corrected rule (missing values last in both directions) is antisymmetric and transitive, puts missing after present, and is 0 only on equal values |
| `Comparators.IntendedOrdersAreConsistent` | octoprint_filemanager/static/js/filemanager.js:42-65 | the corrected date and size orders are antisymmetric both ways and put an entry with a missing value after one with a value |
| `Filters.FilterFacts` | octoprint_filemanager/static/js/filemanager.js:68-82 | `local` is the negation of `sd` on every entry; `printed` holds iff there is no success count above 0; `machinecode` and `model` never both hold |
| `Filters.FoldersOnly` | octoprint_filemanager/static/js/filemanager.js:90-93 | `foldersOnlyList` is an order-preserving subsequence of the page holding exactly its folders |
| `Filters.FilesOnly` | octoprint_filemanager/static/js/filemanager.js:94-97 | `filesOnlyList` is an order-preserving subsequence of the page holding exactly its entries with a non-empty type other than folder |
| `Filters.SplitPartitionsTypedEntries` | octoprint_filemanager/static/js/filemanager.js:90-97 | every occurrence of an entry with a non-empty type lands in exactly one of the two lists; an entry without one lands in neither |
| `Selection.Without` | octoprint_filemanager/static/js/filemanager.js:136 | removing an entry leaves exactly the other entries, in their original order, and keeps the list free of duplicates |
| `Selection.IndexOf` | octoprint_filemanager/static/js/filemanager.js:140-142 | `indexOf` gives the first position holding the entry, and -1 exactly when the entry is absent |
| `Selection.ToggledFlips` | octoprint_filemanager/static/js/filemanager.js:134-142 | `selectItem` flips `isSelected` for the given entry and leaves every other entry's membership unchanged |
| `Selection.ToggledKeepsNoDuplicates` | octoprint_filemanager/static/js/filemanager.js:134-139 | toggling keeps the selection free of duplicates |
| `Selection.ToggledTwice` | octoprint_filemanager/static/js/filemanager.js:134-139 | toggling twice restores the membership, and restores the list itself when the entry was not selected |
| `FileManager.FilemanagerViewModel.constructor` | octoprint_filemanager/static/js/filemanager.js:18-25 | the view-model starts with an empty selection, the root path, no pending action, an empty name field, and nothing sent |
| `FileManager.FilemanagerViewModel.IsSelected` | octoprint_filemanager/static/js/filemanager.js:140-142 | true exactly when the entry is in the selection |
| `FileManager.FilemanagerViewModel.SelectItem` | octoprint_filemanager/static/js/filemanager.js:134-139 | flips the entry's selection, keeps every other entry's, keeps the selection duplicate-free, and changes nothing else |
| `FileManager.AllOfOrigin` | octoprint_filemanager/static/js/filemanager.js:154-160 | the early-return loop answers true iff every entry has the given origin |
| `FileManager.FilemanagerViewModel.CheckSelectedOrigin` | octoprint_filemanager/static/js/filemanager.js:152-161 | true iff every selected entry has origin `o`; vacuously true on an empty selection |
| `FileManager.FilemanagerViewModel.EnableDownload` | octoprint_filemanager/static/js/filemanager.js:163-172 | as written: true on every non-empty selection, whatever its entries are |
| `FileManager.EnableDownloadIgnoresEntryCheck` | octoprint_filemanager/static/js/filemanager.js:163-172 | a selected entry that fails the per-entry test (folder, or not local) leaves download enabled though the intended guard is off, and `download` then starts a download of that entry |
| `FileManager.AllDownloadable` | octoprint_filemanager/static/js/filemanager.js:166-169 | the per-entry loop, made to stop at the first failure, answers true iff every entry is a local file |
| `FileManager.FilemanagerViewModel.EnableDownloadIntended` | octoprint_filemanager/static/js/filemanager.js:163-172 | the intended guard: something selected and every selected entry a local file; it implies the guard as written |
| `FileManager.IntendedDownloadsOnlyLocalFiles` | octoprint_filemanager/static/js/filemanager.js:163-172 | under the intended guard, every download started is of a local entry that is not a folder |
| `FileManager.FilemanagerViewModel.EnableUploadSD` | octoprint_filemanager/static/js/filemanager.js:173-175 | logged in, SD ready, and exactly one selected entry, which is local |
| `FileManager.AllRemovable` | octoprint_filemanager/static/js/filemanager.js:180-185 | the early-return loop answers true iff the listing lets every entry be removed |
| `FileManager.FilemanagerViewModel.EnableRemove` | octoprint_filemanager/static/js/filemanager.js:176-186 | logged in, something selected, and every selected entry removable |
| `FileManager.SliceAndLoadGuards` | octoprint_filemanager/static/js/filemanager.js:187-200 | slicing and loading are never enabled together; either needs exactly one selected entry, and that entry is not a folder |
| `FileManager.FilemanagerViewModel.EnableRename` | octoprint_filemanager/static/js/filemanager.js:201-203 | logged in and exactly one selected entry, which is local |
| `FileManager.FilemanagerViewModel.EnableCopy` | octoprint_filemanager/static/js/filemanager.js:204-206 | logged in, something selected, and every selected entry local |
| `FileManager.FilemanagerViewModel.EnablePaste` | octoprint_filemanager/static/js/filemanager.js:207-209 | logged in, a pending action with at least one source, and every selected entry local |
| `FileManager.FilemanagerViewModel.OnItemsChanged` | octoprint_filemanager/static/js/filemanager.js:99-104 | the selection is emptied and the current path re-resolved against the new collection |
| `FileManager.FilemanagerViewModel.DblClick` | octoprint_filemanager/static/js/filemanager.js:106-114 | a folder is opened; a machinecode entry that the listing lets be selected is loaded without printing; anything else changes nothing |
| `FileManager.FilemanagerViewModel.ChangeFolder` | octoprint_filemanager/static/js/filemanager.js:116-121 | the selection is emptied; the path becomes the entry's path and the items its children |
| `FileManager.FilemanagerViewModel.ChangeFolderByPath` | octoprint_filemanager/static/js/filemanager.js:122-132 | a resolvable path is kept and its element's children shown; otherwise the path becomes "" and the root collection is shown; the selection is untouched |
| `FileManager.FilemanagerViewModel.Download` | octoprint_filemanager/static/js/filemanager.js:211-218 | when enabled, one download per selected entry in order, the i-th tagged `fileDownload<i>`; otherwise nothing |
| `Dispatch.DownloadCookiesDistinct` | octoprint_filemanager/static/js/filemanager.js:215-217 | no two downloads of one call share a cookie name |
| `FileManager.FilemanagerViewModel.UploadSD` | octoprint_filemanager/static/js/filemanager.js:219-231 | when enabled, one `uploadSd` POST to the selected entry's local path; otherwise nothing |
| `Dispatch.GroupByOrigin` | octoprint_filemanager/static/js/filemanager.js:237-247 | the dictionary loop yields the origins of the kept entries in first-seen order, each mapped to its entries' paths in selection order |
| `Dispatch.OriginsInOrderSpec` | octoprint_filemanager/static/js/filemanager.js:237-247 | the dictionary's keys are exactly the origins of the selected entries that are removable and have an origin, each once |
| `Dispatch.PathsFromSpec` | octoprint_filemanager/static/js/filemanager.js:237-247 | an origin's path list holds exactly the paths of the kept entries of that origin, and is empty for an origin that is not a key |
| `Dispatch.PathsFromInOrder` | octoprint_filemanager/static/js/filemanager.js:237-247 | an origin's path list keeps the order of the selection |
| `Dispatch.RemoveSendsOneDeletePerOrigin` | octoprint_filemanager/static/js/filemanager.js:236-253 | with several entries selected: as many requests as distinct origins among the kept entries, each of them that origin's bulk `delete`, to distinct URLs, carrying its paths in selection order; nothing else is sent |
| `Dispatch.RemoveExample` | octoprint_filemanager/static/js/filemanager.js:232-257 | two local entries around one SD entry give exactly two bulk deletes, local first with both paths in order |
| `FileManager.FilemanagerViewModel.Remove` | octoprint_filemanager/static/js/filemanager.js:232-257 | when enabled: the per-origin bulk deletes for several entries, a single `removeFile` for one; otherwise nothing |
| `FileManager.FilemanagerViewModel.Slice` | octoprint_filemanager/static/js/filemanager.js:258-263 | when enabled, one `sliceFile` of the selected entry; otherwise nothing |
| `FileManager.FilemanagerViewModel.LoadSelected` | octoprint_filemanager/static/js/filemanager.js:265-270 | when enabled, one `loadFile` of the selected entry with the given print flag; otherwise nothing |
| `FileManager.FilemanagerViewModel.Rename` | octoprint_filemanager/static/js/filemanager.js:285-289 | when enabled, the dialog's name field takes the selected entry's name |
| `FileManager.FilemanagerViewModel.ConfirmRename` | octoprint_filemanager/static/js/filemanager.js:294-303 | one local move from the entry's path to the path under the new name; the entry keeps its old name |
| `Dispatch.CollectPaths` | octoprint_filemanager/static/js/filemanager.js:320-322 | the loop collects the selected entries' paths in selection order |
| `FileManager.FilemanagerViewModel.Copy` | octoprint_filemanager/static/js/filemanager.js:311-326 | when the guard fails nothing changes; otherwise the clipboard becomes (copy, the paths in selection order) and the selection is emptied |
| `FileManager.FilemanagerViewModel.Cut` | octoprint_filemanager/static/js/filemanager.js:327-342 | the same as copy, with action move, under the remove guard plus the local-origin check |
| `FileManager.FilemanagerViewModel.SendPaste` | octoprint_filemanager/static/js/filemanager.js:347-359 | several sources give one local bulk operation; one source gives a copy or a move matching the action |
| `FileManager.FilemanagerViewModel.Paste` | octoprint_filemanager/static/js/filemanager.js:343-378 | when the guard passes the clipboard is emptied and the paste requests are sent (none with two or more selected); otherwise nothing changes |
| `Dispatch.PasteDispatch` | octoprint_filemanager/static/js/filemanager.js:343-378 | exactly one request with at most one entry selected and none otherwise; the target is the single selected folder, else the current path |
| `SingleDoubleClick.Configure` | octoprint_filemanager/static/js/ko.single_double_click.js:3-17 | the delay is 250 unless an object binding supplies a non-zero delay; a non-object value is the single handler, with no double handler, and calling it throws unless it is `undefined` |
| `SingleDoubleClick.SingleOrDoubleClickBinding.constructor` | octoprint_filemanager/static/js/ko.single_double_click.js:2-17 | the binding starts idle, with the configuration derived from its value |
| `SingleDoubleClick.SingleOrDoubleClickBinding.Click` | octoprint_filemanager/static/js/ko.single_double_click.js:19-27 | the click handler steps the state exactly as `OnClick` does and keeps it consistent |
| `SingleDoubleClick.SingleOrDoubleClickBinding.TimerFires` | octoprint_filemanager/static/js/ko.single_double_click.js:27-39 | the timer callback steps the state exactly as `OnTimer` does: idle again when the handler returns, stuck when it throws |
| `SingleDoubleClick.StepsPreserveConsistency` | octoprint_filemanager/static/js/ko.single_double_click.js:19-41 | a timer is pending exactly while the counter is positive, with `user-select: none`; after the timer fires the binding is idle if the chosen handler returned and stuck (counter positive, no timer) if it threw |
| `SingleDoubleClick.ClickUnderTextSelectionIgnored` | octoprint_filemanager/static/js/ko.single_double_click.js:20-22 | a click while the page holds a non-empty text selection changes nothing |
| `SingleDoubleClick.ClickScheduling` | octoprint_filemanager/static/js/ko.single_double_click.js:24-27 | only the click taking the counter from 0 to 1 schedules a timer and sets `user-select: none`; later clicks only count |
| `SingleDoubleClick.TimerFiring` | octoprint_filemanager/static/js/ko.single_double_click.js:27-39 | at most one handler runs: single iff the counter is 1, none if undefined; `user-select` becomes `auto`; the counter becomes 0 only if the call returns, since a throw skips the reset at :38 |
| `SingleDoubleClick.LaterClicksOnlyCount` | octoprint_filemanager/static/js/ko.single_double_click.js:24-25 | a run of clicks inside a window only raises the counter |
| `SingleDoubleClick.ClickWindow` | octoprint_filemanager/static/js/ko.single_double_click.js:19-41 | n clicks and then the timer: one timer scheduled, the single handler iff n is 1 and the double one otherwise, both given the first click's event; the binding ends idle if the call returned, stuck if it threw |
| `SingleDoubleClick.StuckStaysStuck` | octoprint_filemanager/static/js/ko.single_double_click.js:24-25 | once stuck, every later click only raises the counter, which never again equals 1: no timer is scheduled and no handler called |
| `SingleDoubleClick.PlainValueGetsStuck` | octoprint_filemanager/static/js/ko.single_double_click.js:10-17 | a binding value that is neither an object nor `undefined` is called on the first single click, throws, and leaves the binding stuck |

## Left out

- `Comparators.NameAsc`: `toLocaleLowerCase` is modelled as lower-casing of the ASCII letters only. Locale tables are outside the model. Strings are compared by Unicode code point, where JavaScript compares UTF-16 code units: a name holding a character above U+FFFF (an emoji, say) and one holding a character from U+E000 to U+FFFF (a full-width letter, say) at the same position sort the other way round.
- Sorting, filtering, filter groups and pagination inside the list helper are not part of this model: `ItemListHelper` is OctoPrint's own class, not part of this plugin. The displayed page is an input sequence.
- The Knockout observables and subscriptions become plain fields updated by methods. The check that the listing has `allItems` before subscribing is left out; the handler is modelled as always registered.
- JavaScript object identity (`indexOf`, `remove`) is modelled as equality of entry values.
- A leaf's missing `children` property is modelled as an empty list.
- Dates and sizes are integers. Fractional numbers, `null` and `NaN` are not modelled.
- Object keys in `sortedByOrigins` are iterated in insertion order. JavaScript puts integer-like keys first; origins are never integer-like.
- The DOM and jQuery parts are left out: the viewport meta tag, `templateFor`, `getEntryId` (an MD5 hash), `showAddFolderDialog`, `onStartup`, and the view-model registration.
- Of the rename dialog, the model keeps only the name field and the confirm step.
- `$.fileDownload` and `downloadLink` are left out. A download is logged with its entry and cookie name.
- `FileManager.FilemanagerViewModel.ConfirmRename` requires a non-empty selection. The dialog opens only when exactly one entry is selected, but the selection can still be emptied while it is open: the subscription to the host's item collection (`OnItemsChanged`) clears it whenever the collection changes. The source's click handler then throws on the missing entry; that case is not modelled.
- The host calls (`OctoPrint.postJson`, `OctoPrint.files.*`, the listing's `removeFile`, `loadFile` and `sliceFile`) are logged, not executed. Their network effects and failures are outside the model.
- The handlers of the click binding are logged as calls with the id of the click event they receive; what they do is outside the model. Whether a call returns or throws is a flag of the handler (`completes`), not derived from its code.
- Underscore's `_.isObject` treats a bare function as an object. Such a binding value falls into `ObjectBinding` (its `click` property is usually missing), not into `PlainBinding`. So a `PlainBinding` is `undefined` or a value that cannot be called.
- Non-numeric truthy `delay` values are not modelled.
- `octoprint_filemanager/__init__.py` (the server side) and `ko.marquee.js` are not part of this model.

## Findings

| source | as written | input that shows it | evidently intended | confidence | as-written member | corrected member |
|---|---|---|---|---|---|---|
| octoprint_filemanager/static/js/filemanager.js:42-65 | the date and size comparators answer 1 (descending: -1) whenever the second value is missing, and 0 when only the first is | `a = {date: 5}`, `b = {}`: `uploadAsc(a, b) = 1` but `uploadAsc(b, a) = 0`, and `uploadAsc(b, b) = 1` | a consistent (antisymmetric, transitive) comparison; the corrected order chosen here puts entries without the value after all others in both directions | high; not executed | `Comparators.MissingValuesNotAntisymmetric` | `Comparators.MissingLastIsConsistent` |
| octoprint_filemanager/static/js/filemanager.js:163-172 | the per-entry test inside `_.each` returns false from the callback, which is discarded, so the guard is true on any non-empty selection | one selected SD card folder, `{type: "folder", origin: "sdcard"}`: download is enabled and `download` starts a download of it | download enabled only when something is selected and every selected entry is a local file | high; not executed | `FileManager.EnableDownloadIgnoresEntryCheck` | `FileManager.IntendedDownloadsOnlyLocalFiles` |

The corrected orders are `Comparators.UploadAscIntended`, `UploadDscIntended`, `SizeAscIntended` and
`SizeDscIntended`. No other part of the model sorts, because the list helper is not modelled.
The intended download guard is `FileManager.FilemanagerViewModel.EnableDownloadIntended`. `download`
itself keeps the guard as written, so that the model of the button stays that of the code.

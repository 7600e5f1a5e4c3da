# Transcript upload and API-key setup: a Dafny model

This project models the client-side core of seekr's podcast-transcript workflow and of its
OpenAI key prompt, and proves what that code promises:

- **The transcript upload modal** (`PodcastTranscriptUploadModal.jsx`). The component's
  state (`files`, `uploading`, `error`) is the class `Modal`. Its event handlers are methods:
  file selection, drop, removal, upload. `renderContent` is the function `Modal.Render`. The
  pending batch is keyed by file name. `mergeFiles` rebuilds a JavaScript `Map` from the batch
  and adds the newcomers whose names it lacks, so the first file seen under a name wins.
  `removeFile` drops every entry with the given name. The class invariant is that no two
  files in the batch share a name. Module `UploadBatch` holds the two updaters and their
  lemmas. Module `PodcastTranscriptUploadModal` holds the component.
- **The OpenAI key modal** (`OpenAiSetupModal.jsx`). The state (`apiKey`, `saving`, `error`)
  is the class `SetupModal`. The submit handler refuses a key that is empty or only
  whitespace, sends the trimmed key and handles the update's answer. The `isOpen` effect
  wipes the key and the error when the modal closes. `String.prototype.trim` is modelled in
  module `JsString` over the ECMAScript WhiteSpace and LineTerminator code points.
- **The client transcript model** (`podcastTranscripts.js`), module
  `PodcastTranscriptsClient`. `reset` and `upload` return the decoded body only when the HTTP
  status is ok and the body's `success` is truthy. Otherwise they throw the body's `error`,
  or a fixed fallback message when that is falsy. `upload` puts one `files` entry per file
  into its multipart form, in order.

Asynchronous handlers are split at their `await`. `StartUpload`/`StartSubmit` cover the part
before the call. `FinishUpload`/`FinishSubmit` cover the part after it. `HandleUpload` and
`HandleSubmit` run both. The outcome of each call is a parameter:

- what the uploader did (resolved, or threw with some message);
- the `error` field of `System.updateSystem`'s answer;
- the HTTP status and decoded JSON of a fetch.

Calls the components make to their callers are recorded in fields:

- `uploadCalls` is the batches handed to the uploader.
- `successCalls` counts `onUploadSuccess`.
- `updates` is the keys sent as `OpenAiKey`.
- `configuredCalls` counts `onConfigured`.

Only a successful upload empties the pending batch. The upload modal has no effect on
`isOpen`, so closing the modal keeps the batch, and the model does the same.

## Model

| member | source | states |
|---|---|---|
| JsString.TrimStartShape | frontend/src/components/WorkspaceChat/OpenAiSetupModal.jsx:30 | what `trim` keeps at the start: a suffix of the key that is empty or starts with a code point that is not trimmable; everything removed before it is whitespace or line terminators |
| JsString.TrimEndShape | frontend/src/components/WorkspaceChat/OpenAiSetupModal.jsx:30 | what `trim` keeps at the end: a prefix that is empty or ends with a code point that is not trimmable; everything removed after it is whitespace or line terminators |
| JsString.TrimEnds | frontend/src/components/WorkspaceChat/OpenAiSetupModal.jsx:30 | `apiKey.trim()` is no longer than the key and neither starts nor ends with a trimmable code point |
| JsString.TrimIsInfix | frontend/src/components/WorkspaceChat/OpenAiSetupModal.jsx:30 | the trimmed key is the infix of the key left after cutting a blank prefix and a blank suffix |
| JsString.TrimEmptyIffBlank | frontend/src/components/WorkspaceChat/OpenAiSetupModal.jsx:22 | `apiKey.trim().length === 0` holds exactly when the key is made only of whitespace and line terminators |
| JsString.TrimEndEmptyIffEmpty | frontend/src/components/WorkspaceChat/OpenAiSetupModal.jsx:22 | once the leading whitespace is gone, the trimmed result is empty only for the empty string |
| JsString.TrimStripsPadding | frontend/src/components/WorkspaceChat/OpenAiSetupModal.jsx:30 | a key padded on both sides with whitespace trims to exactly the unpadded key |
| OpenAiSetupModal.KeyRejected | frontend/src/components/WorkspaceChat/OpenAiSetupModal.jsx:22 | the submit guard `!apiKey \|\| apiKey.trim().length === 0` refuses exactly the blank keys, the empty key included |
| OpenAiSetupModal.SetupModal.constructor | frontend/src/components/WorkspaceChat/OpenAiSetupModal.jsx:7-9 | the modal starts with an empty key, not saving, with no error and no calls made |
| OpenAiSetupModal.SetupModal.EditKey | frontend/src/components/WorkspaceChat/OpenAiSetupModal.jsx:74 | typing stores the raw, untrimmed value and changes nothing else |
| OpenAiSetupModal.SetupModal.OpenChanged | frontend/src/components/WorkspaceChat/OpenAiSetupModal.jsx:11-16 | closing the modal resets the key to "" and the error to null; opening changes nothing |
| OpenAiSetupModal.SetupModal.StartSubmit | frontend/src/components/WorkspaceChat/OpenAiSetupModal.jsx:20-31 | a rejected key sets "Please enter a valid OpenAI API key." and makes no update call; otherwise `saving` turns true, the error clears and exactly the trimmed key is sent |
| OpenAiSetupModal.SetupModal.FinishSubmit | frontend/src/components/WorkspaceChat/OpenAiSetupModal.jsx:33-41 | a truthy update error ends saving and is shown, and `onConfigured` is not called; no error ends saving and calls `onConfigured` once |
| OpenAiSetupModal.SetupModal.HandleSubmit | frontend/src/components/WorkspaceChat/OpenAiSetupModal.jsx:20-42 | the whole submit: a blank key is refused without a call; otherwise one update with the trimmed key, saving ends, and the error or one `onConfigured` call follows |
| OpenAiSetupModal.SetupModal.View | frontend/src/components/WorkspaceChat/OpenAiSetupModal.jsx:18-91 | nothing renders while closed; the banner appears exactly for a truthy error; the button is disabled and reads "Saving..." exactly while saving |
| OpenAiSetupModal.EnterKey | frontend/src/components/WorkspaceChat/OpenAiSetupModal.jsx:20-42 | on a fresh modal, a blank key causes no call; any other key causes exactly one call carrying the non-empty trimmed key, then the error or one `onConfigured` call |
| OpenAiSetupModal.RefusedThenClosed | frontend/src/components/WorkspaceChat/OpenAiSetupModal.jsx:11-37 | after a refused save, closing the modal wipes the shown error and the key, and `onConfigured` never fired |
| OpenAiSetupModal.PaddedKeySentTrimmed | frontend/src/components/WorkspaceChat/OpenAiSetupModal.jsx:29-31 | the key "  sk-1\n" is sent as "sk-1" |
| OpenAiSetupModal.PaddedKeyAccepted | frontend/src/components/WorkspaceChat/OpenAiSetupModal.jsx:22-25 | "  sk-1\n" passes the guard while " \t\n" is refused |
| PodcastTranscriptsClient.Accept | frontend/src/models/podcastTranscripts.js:27-31 | the call returns the body only when the status is ok and `success` is truthy (a non-ok status throws even with `success: true`); otherwise it throws the truthy body `error`, else the fallback |
| PodcastTranscriptsClient.Reset | frontend/src/models/podcastTranscripts.js:5-17 | `reset` decides exactly as `Accept` with its own fallback: it throws on a non-ok status; it returns a body whose `success` holds; what it throws is a non-empty message, either the server's `error` or "Unable to reset podcast transcript storage." |
| PodcastTranscriptsClient.Upload | frontend/src/models/podcastTranscripts.js:18-32 | the form has one `files` entry per file, in order, with an omitted list giving none; the outcome follows `Accept` with "Unable to upload podcast transcripts." |
| UploadBatch.PutAbsent | frontend/src/components/WorkspaceChat/PodcastTranscriptUploadModal.jsx:27 | `existing.set` on a name the map lacks appends the entry at the end |
| UploadBatch.PutNames | frontend/src/components/WorkspaceChat/PodcastTranscriptUploadModal.jsx:27 | after `existing.set` the map has its old names plus the new one, still without duplicates |
| UploadBatch.FromEntriesOfDistinct | frontend/src/components/WorkspaceChat/PodcastTranscriptUploadModal.jsx:25 | `new Map(prev.map(...))` over a batch with distinct names gives the batch back unchanged, in order |
| UploadBatch.FreshNames | frontend/src/components/WorkspaceChat/PodcastTranscriptUploadModal.jsx:26-28 | the names the merge adds are exactly the incoming names the map did not have |
| UploadBatch.FreshFirstSeen | frontend/src/components/WorkspaceChat/PodcastTranscriptUploadModal.jsx:26-28 | each added file is the first incoming file carrying its name |
| UploadBatch.FreshInOrder | frontend/src/components/WorkspaceChat/PodcastTranscriptUploadModal.jsx:26-28 | added files keep the order in which their names first occur in the incoming list |
| UploadBatch.KnownThenFresh | frontend/src/components/WorkspaceChat/PodcastTranscriptUploadModal.jsx:26-28 | adding the new files to a map with distinct names keeps the names distinct |
| UploadBatch.AllNewAppendedWhole | frontend/src/components/WorkspaceChat/PodcastTranscriptUploadModal.jsx:26-28 | incoming files with distinct names, none already selected, are all added in their order |
| UploadBatch.MergeKeepsSelection | frontend/src/components/WorkspaceChat/PodcastTranscriptUploadModal.jsx:23-31 | the merge keeps the old batch unchanged as a prefix; its result has distinct names, and its names are exactly the old names plus the incoming ones |
| UploadBatch.MergeAppendsFirstSeen | frontend/src/components/WorkspaceChat/PodcastTranscriptUploadModal.jsx:23-31 | first-seen wins: every appended file has a name not selected before and is the first incoming file with that name, so colliding newcomers are ignored |
| UploadBatch.MergeAppendsInOrder | frontend/src/components/WorkspaceChat/PodcastTranscriptUploadModal.jsx:23-31 | appended files follow the order of first occurrence in the incoming list |
| UploadBatch.MergeFiles | frontend/src/components/WorkspaceChat/PodcastTranscriptUploadModal.jsx:23-31 | the two loops (build the map, set each unseen name) compute the merge specified by `Merged` |
| UploadBatch.RemovedNames | frontend/src/components/WorkspaceChat/PodcastTranscriptUploadModal.jsx:60-62 | after `removeFile(name)` no entry is named `name` and every other name of the batch is still there |
| UploadBatch.RemovedCount | frontend/src/components/WorkspaceChat/PodcastTranscriptUploadModal.jsx:60-62 | every file named `name` is dropped, and every other file keeps its number of occurrences |
| UploadBatch.RemovedInOrder | frontend/src/components/WorkspaceChat/PodcastTranscriptUploadModal.jsx:61 | the files that survive a removal keep their relative order |
| UploadBatch.RemovedKeepsDistinct | frontend/src/components/WorkspaceChat/PodcastTranscriptUploadModal.jsx:60-62 | removal keeps the batch's names distinct |
| PodcastTranscriptUploadModal.FailureMessage | frontend/src/components/WorkspaceChat/PodcastTranscriptUploadModal.jsx:77 | the shown upload error is the thrown message when truthy, else "Failed to upload podcast transcripts.", so it is never empty |
| PodcastTranscriptUploadModal.ClientFailureShownVerbatim | frontend/src/components/WorkspaceChat/PodcastTranscriptUploadModal.jsx:73-77 | when the uploader is the client model, the modal shows the client's thrown message unchanged |
| PodcastTranscriptUploadModal.Modal.constructor | frontend/src/components/WorkspaceChat/PodcastTranscriptUploadModal.jsx:19-21 | the modal starts with an empty batch, not uploading, with no error and no calls made |
| PodcastTranscriptUploadModal.Modal.AddSelection | frontend/src/components/WorkspaceChat/PodcastTranscriptUploadModal.jsx:35-38 | a missing or empty file list changes nothing; otherwise the error clears and the batch becomes the merge of the old batch and the list |
| PodcastTranscriptUploadModal.Modal.HandleFileSelection | frontend/src/components/WorkspaceChat/PodcastTranscriptUploadModal.jsx:33-41 | same as `AddSelection` for the input's file list (`null` when absent) |
| PodcastTranscriptUploadModal.Modal.HandleDrop | frontend/src/components/WorkspaceChat/PodcastTranscriptUploadModal.jsx:43-53 | same as `AddSelection` for the dropped files (absent without a data transfer) |
| PodcastTranscriptUploadModal.Modal.RemoveFile | frontend/src/components/WorkspaceChat/PodcastTranscriptUploadModal.jsx:60-62 | the batch loses exactly its entries with that name; nothing else changes |
| PodcastTranscriptUploadModal.Modal.StartUpload | frontend/src/components/WorkspaceChat/PodcastTranscriptUploadModal.jsx:64-73 | while resetting nothing happens; an empty batch sets "Add at least one transcript before uploading." with no call; otherwise uploading turns on, the error clears and the current batch is sent |
| PodcastTranscriptUploadModal.Modal.FinishUpload | frontend/src/components/WorkspaceChat/PodcastTranscriptUploadModal.jsx:73-80 | on success the batch empties and `onUploadSuccess` fires once; on failure the batch stays and the error is shown; uploading ends either way |
| PodcastTranscriptUploadModal.Modal.HandleUpload | frontend/src/components/WorkspaceChat/PodcastTranscriptUploadModal.jsx:64-81 | the whole upload: no effect while resetting; an empty batch makes no call; otherwise exactly one call with the batch, then success (empty batch, one callback) or failure (batch kept, message shown) |
| PodcastTranscriptUploadModal.Modal.Render | frontend/src/components/WorkspaceChat/PodcastTranscriptUploadModal.jsx:83-201 | `resetting` wins over everything, then a truthy `resetError`, and only then the picker; the picker lists the batch, shows a truthy error and disables upload exactly while uploading or with an empty batch |
| PodcastTranscriptUploadModal.FirstSelectionKept | frontend/src/components/WorkspaceChat/PodcastTranscriptUploadModal.jsx:23-31 | the first selection of files with distinct names becomes the batch as selected |
| PodcastTranscriptUploadModal.SelectThenRemove | frontend/src/components/WorkspaceChat/PodcastTranscriptUploadModal.jsx:60-62 | with `a.txt` and `b.txt` selected, removing `a.txt` leaves only `b.txt` |
| PodcastTranscriptUploadModal.SelectRemoveSubmit | frontend/src/components/WorkspaceChat/PodcastTranscriptUploadModal.jsx:64-81 | select, remove one name, upload successfully: the uploader gets exactly the remaining files, the batch ends empty and the callback fires once |
| PodcastTranscriptUploadModal.ServerRefusesUpload | frontend/src/components/WorkspaceChat/PodcastTranscriptUploadModal.jsx:76-79 | a server answer `{success: false, error: "X"}` shows "X", keeps the batch, stops uploading and fires no callback |

## Left out

- The HTTP exchange is not modelled: `fetch`, request headers, the multipart encoding and JSON decoding. The status flag and the decoded body are inputs to the client model.
- `System.updateSystem` is not part of this model. Only the `error` field of its answer is an input, and it is taken to be a string or missing. A truthy non-string `error` would be stored as is by the source.
- A thrown value is taken to carry a string `message` or none. Thrown values that are not `Error` objects are not modelled.
- PodcastTranscriptsClient.Upload: an omitted `files` argument becomes the empty list, as the default parameter does. An explicit `null` makes the source throw a `TypeError`, which is not modelled.
- The success toast (`showToast`) of the key modal has no observable state and is left out.
- The upload modal's visibility is handled by `ModalWrapper` with `isOpen`. That component, `onRetryReset`, the hidden file input's `click()` and the drag-over handler are not part of this model.
- The modal's static text, icons and the "Uploading…" button label are not modelled. `Render` records the branch taken and what the picker shows and enables.
- React scheduling is not modelled. Each handler sees the state left by the previous one, as in a sequential run. The `Start*`/`Finish*` split lets other handlers run between the call and its answer, but no property about such overlaps is proved.
- A batch whose names repeat cannot arise, because `Modal.Valid` rules it out. `FromEntries` still models the `Map` faithfully for that case: the first position is kept with the last value. The lemmas assume distinct names.
- The server side is not modelled: the upload, reset and list endpoints and the on-disk transcript store. The sidebar search box and the other pages are not modelled either.
- The key input's `required` attribute is not modelled. A browser blocks an empty submit before `handleSubmit` runs. The empty-key branch of `HandleSubmit` and `EnterKey` is the guard as the handler runs it, not what the user sees.
- The callers' callbacks `onUploadSuccess` and `onConfigured` are taken to return normally. If `onUploadSuccess` threw inside the `try`, the source would record its message after the batch was already cleared; that path is not modelled.

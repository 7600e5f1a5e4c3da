/**
 The transcript upload modal as a state machine: the component's state (`files`,
 `uploading`, `error`) is a class whose methods are its event handlers. The `resetting`
 and `resetError` props are inputs of the handlers and of the view choice. The upload call
 is asynchronous, so `handleUpload` is modelled in two steps, the part before the `await`
 (`StartUpload`) and the part after it (`FinishUpload`); `HandleUpload` runs both in a row.
 What the uploader did is an input: it resolved, or it threw an error with some message.
 Two fields record the calls the component makes: the batches handed to the uploader and
 the number of times `onUploadSuccess` fired.
 */
module PodcastTranscriptUploadModal {
  import opened JsValues
  import opened UploadBatch
  import Client = PodcastTranscriptsClient

  const EmptyBatchMessage := "Add at least one transcript before uploading."
  const UploadFailedMessage := "Failed to upload podcast transcripts."

  /** `Array.from(list || [])` for a file list that may be missing. */
  function Listed(list: Option<seq<File>>): seq<File> {
    if list.Some? then list.value else []
  }

  /** How the awaited upload call ended. */
  datatype UploadOutcome = Uploaded | Failed(message: Option<string>)

  /** The branch `renderContent` takes, with what the picker branch shows. */
  datatype Content =
    | Preparing
    | ResetFailed(reason: string)
    | Picker(selected: seq<File>, shownError: Option<string>, submitDisabled: bool)

  /** The message the catch block records for a thrown error: its message, or the fallback when that is falsy. */
  function FailureMessage(message: Option<string>): (m: string)
    ensures m != ""
    ensures Truthy(message) ==> m == message.value
    ensures !Truthy(message) ==> m == UploadFailedMessage
  {
    OrElse(message, UploadFailedMessage)
  }

  /** The outcome the modal sees when its uploader is the client model's `upload`. */
  function OutcomeOf(r: Result<Client.Body>): UploadOutcome {
    match r
    case Ok(_) => Uploaded
    case Err(message) => Failed(Some(message))
  }

  /**
   Composed with the client model, the modal shows the client's message unchanged: the
   client throws only non-empty messages (the server's truthy `error` or its own upload
   fallback), so the modal's fallback is never chosen for them.
   */
  lemma ClientFailureShownVerbatim(response: Client.Response)
    ensures var r := Client.Accept(response, Client.UploadFallback);
      r.Err? ==> FailureMessage(OutcomeOf(r).message) == r.message
  {
  }

  class Modal {
    var files: seq<File>
    var uploading: bool
    var error: Option<string>
    /** Every batch handed to the uploader, oldest first. */
    var uploadCalls: seq<seq<File>>
    /** How many times `onUploadSuccess` was invoked. */
    var successCalls: nat

    /** The batch is keyed by name: no two selected files share one. */
    ghost predicate Valid()
      reads this
    {
      DistinctNames(files)
    }

    constructor ()
      ensures Valid()
      ensures files == [] && !uploading && error == None
      ensures uploadCalls == [] && successCalls == 0
    {
      files := [];
      uploading := false;
      error := None;
      uploadCalls := [];
      successCalls := 0;
    }

    /**
     Shared by the file input and the drop zone: a missing or empty list changes nothing;
     otherwise the error is cleared and the files are merged into the batch.
     */
    method AddSelection(list: Option<seq<File>>)
      requires Valid()
      modifies this
      ensures Valid()
      ensures Listed(list) == [] ==> unchanged(this)
      ensures Listed(list) != [] ==>
                files == Merged(old(files), Listed(list)) && error == None && uploading == old(uploading)
                && uploadCalls == old(uploadCalls) && successCalls == old(successCalls)
    {
      var picked := Listed(list);
      if |picked| == 0 {
        return;
      }
      error := None;
      MergeKeepsSelection(files, picked);
      files := MergeFiles(files, picked);
    }

    /** `handleFileSelection`: the input's `files` list, `null` when absent. */
    method HandleFileSelection(selected: Option<seq<File>>)
      requires Valid()
      modifies this
      ensures Valid()
      ensures Listed(selected) == [] ==> unchanged(this)
      ensures Listed(selected) != [] ==>
                files == Merged(old(files), Listed(selected)) && error == None && uploading == old(uploading)
                && uploadCalls == old(uploadCalls) && successCalls == old(successCalls)
    {
      AddSelection(selected);
    }

    /** `handleDrop`: the drop's `dataTransfer.files`, missing when there is no transfer. */
    method HandleDrop(dropped: Option<seq<File>>)
      requires Valid()
      modifies this
      ensures Valid()
      ensures Listed(dropped) == [] ==> unchanged(this)
      ensures Listed(dropped) != [] ==>
                files == Merged(old(files), Listed(dropped)) && error == None && uploading == old(uploading)
                && uploadCalls == old(uploadCalls) && successCalls == old(successCalls)
    {
      AddSelection(dropped);
    }

    /** `removeFile(name)`: the batch loses exactly its entries named `name`. */
    method RemoveFile(name: string)
      requires Valid()
      modifies this
      ensures Valid()
      ensures files == Removed(old(files), name)
      ensures uploading == old(uploading) && error == old(error)
      ensures uploadCalls == old(uploadCalls) && successCalls == old(successCalls)
    {
      RemovedKeepsDistinct(files, name);
      files := Removed(files, name);
    }

    /**
     `handleUpload` up to the `await`: nothing happens while resetting; an empty batch is
     refused with a message and no call; otherwise the modal turns busy, clears the error
     and hands the current batch to the uploader, which `sent` returns.
     */
    method StartUpload(resetting: bool) returns (sent: Option<seq<File>>)
      requires Valid()
      modifies this
      ensures Valid()
      ensures files == old(files) && successCalls == old(successCalls)
      ensures resetting ==> sent == None && unchanged(this)
      ensures !resetting && old(files) == [] ==>
                sent == None && error == Some(EmptyBatchMessage)
                && uploading == old(uploading) && uploadCalls == old(uploadCalls)
      ensures !resetting && old(files) != [] ==>
                sent == Some(old(files)) && uploading && error == None
                && uploadCalls == old(uploadCalls) + [old(files)]
    {
      if resetting {
        return None;
      }
      if |files| == 0 {
        error := Some(EmptyBatchMessage);
        return None;
      }
      uploading := true;
      error := None;
      uploadCalls := uploadCalls + [files];
      sent := Some(files);
    }

    /**
     `handleUpload` after the `await`: on success the batch is emptied and the callback
     fires once; on failure the batch stays and the error shows the thrown message or the
     fallback; either way the modal stops being busy.
     */
    method FinishUpload(outcome: UploadOutcome)
      requires Valid()
      modifies this
      ensures Valid()
      ensures !uploading && uploadCalls == old(uploadCalls)
      ensures outcome.Uploaded? ==> files == [] && successCalls == old(successCalls) + 1 && error == old(error)
      ensures outcome.Failed? ==>
                files == old(files) && successCalls == old(successCalls)
                && error == Some(FailureMessage(outcome.message))
    {
      match outcome {
        case Uploaded =>
          files := [];
          successCalls := successCalls + 1;
        case Failed(message) =>
          error := Some(FailureMessage(message));
      }
      uploading := false;
    }

    /** `handleUpload` run to completion with the uploader ending as `outcome`. */
    method HandleUpload(resetting: bool, outcome: UploadOutcome)
      requires Valid()
      modifies this
      ensures Valid()
      ensures resetting ==> unchanged(this)
      ensures !resetting && old(files) == [] ==>
                error == Some(EmptyBatchMessage) && files == old(files) && uploading == old(uploading)
                && uploadCalls == old(uploadCalls) && successCalls == old(successCalls)
      ensures !resetting && old(files) != [] ==> uploadCalls == old(uploadCalls) + [old(files)] && !uploading
      ensures !resetting && old(files) != [] && outcome.Uploaded? ==>
                files == [] && error == None && successCalls == old(successCalls) + 1
      ensures !resetting && old(files) != [] && outcome.Failed? ==>
                files == old(files) && error == Some(FailureMessage(outcome.message))
                && successCalls == old(successCalls)
    {
      var sent := StartUpload(resetting);
      if sent.Some? {
        FinishUpload(outcome);
      }
    }

    /**
     `renderContent`: a reset in progress wins over everything, then a failed reset
     (when its message is truthy), and only then the picker, which lists the batch, shows a
     truthy error and disables its button while busy or with an empty batch.
     */
    function Render(resetting: bool, resetError: Option<string>): (c: Content)
      reads this
      ensures resetting ==> c == Preparing
      ensures !resetting && Truthy(resetError) ==> c == ResetFailed(resetError.value)
      ensures c.Picker? <==> !resetting && !Truthy(resetError)
      ensures c.Picker? ==> c.selected == files
      ensures c.Picker? ==> (c.shownError.Some? <==> Truthy(error)) && (c.shownError.Some? ==> c.shownError == error)
      ensures c.Picker? ==> (c.submitDisabled <==> uploading || files == [])
    {
      if resetting then Preparing
      else if Truthy(resetError) then ResetFailed(resetError.value)
      else Picker(files, if Truthy(error) then error else None, uploading || |files| == 0)
    }
  }

  /** The batch a fresh modal holds after one selection of files with distinct names is that selection. */
  lemma {:induction false} FirstSelectionKept(batch: seq<File>)
    requires DistinctNames(batch)
    ensures Merged([], batch) == batch
  {
    assert FromEntries([]) == [];
    AllNewAppendedWhole([], batch);
  }

  /** With `a.txt` and `b.txt` selected, removing `a.txt` leaves `b.txt` alone. */
  lemma SelectThenRemove(a: File, b: File)
    requires a.name == "a.txt" && b.name == "b.txt"
    ensures Merged([], [a, b]) == [a, b]
    ensures Removed([a, b], "a.txt") == [b]
  {
    assert [a, b][1..] == [b] && [b][1..] == [];
    assert !NameIn([], a.name) && !NameIn([], b.name);
    assert NameIn([b], a.name) == (b.name == a.name || NameIn([], a.name));
    assert DistinctNames([b]);
    assert DistinctNames([a, b]);
    FirstSelectionKept([a, b]);
    assert Removed([b], "a.txt") == [b] + Removed([], "a.txt");
    assert Removed([a, b], "a.txt") == [] + Removed([b], "a.txt");
  }

  /**
   Select a batch, remove one name, submit, and let the upload succeed: the uploader
   receives exactly the files that were not removed, the batch ends empty and the callback
   fires once. With `a.txt` and `b.txt` selected and `a.txt` removed, the uploader receives
   only `b.txt` (see `SelectThenRemove`).
   */
  method SelectRemoveSubmit(batch: seq<File>, name: string) returns (sent: seq<seq<File>>, remaining: seq<File>, callbacks: nat)
    requires DistinctNames(batch) && Removed(batch, name) != []
    ensures sent == [Removed(batch, name)] && remaining == [] && callbacks == 1
  {
    var m := new Modal();
    FirstSelectionKept(batch);
    m.HandleFileSelection(Some(batch));
    assert m.files == batch && m.uploadCalls == [] && m.successCalls == 0;
    m.RemoveFile(name);
    assert m.files == Removed(batch, name) && m.uploadCalls == [] && m.successCalls == 0;
    m.HandleUpload(false, Uploaded);
    sent, remaining, callbacks := m.uploadCalls, m.files, m.successCalls;
  }

  /**
   A server answer `{success: false, error: "X"}` to an upload of a non-empty batch: the
   modal shows "X", keeps the batch, stops being busy and does not fire the callback.
   */
  method ServerRefusesUpload(batch: seq<File>, x: string) returns (shown: Option<string>, kept: seq<File>, busy: bool, callbacks: nat)
    requires batch != [] && DistinctNames(batch) && x != ""
    ensures shown == Some(x) && kept == batch && !busy && callbacks == 0
  {
    var m := new Modal();
    FirstSelectionKept(batch);
    m.HandleFileSelection(Some(batch));
    var response := Client.Response(false, Client.Object(Client.Body(false, Some(x), map[])));
    var form, r := Client.Upload(Some(m.files), response);
    m.HandleUpload(false, OutcomeOf(r));
    shown, kept, busy, callbacks := m.error, m.files, m.uploading, m.successCalls;
  }
}

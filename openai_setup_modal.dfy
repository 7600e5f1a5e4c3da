/**
 The modal that asks for an OpenAI API key before agents can run. Its state (`apiKey`,
 `saving`, `error`) is a class whose methods are its handlers: the key input's `onChange`,
 the effect that runs when `isOpen` changes, and the form's submit handler. The submit
 handler awaits `System.updateSystem`, so it is modelled in two steps around the `await`
 (`StartSubmit` and `FinishSubmit`); `HandleSubmit` runs both in a row. The `error` field
 of the update's answer is an input. Two fields record the calls the modal makes: the
 values sent as `OpenAiKey` and the number of times `onConfigured` fired.
 */
module OpenAiSetupModal {
  import opened JsValues
  import opened JsString

  const InvalidKeyMessage := "Please enter a valid OpenAI API key."

  /**
   The guard of the submit handler, `!apiKey || apiKey.trim().length === 0`: it refuses
   exactly the keys made only of whitespace and line terminators, the empty key included.
   */
  function KeyRejected(apiKey: string): (b: bool)
    ensures b <==> Blank(apiKey)
  {
    TrimEmptyIffBlank(apiKey);
    apiKey == "" || |Trim(apiKey)| == 0
  }

  /** What the modal renders when it is open: the error banner, if any, and the submit button. */
  datatype Form = Form(shownError: Option<string>, submitDisabled: bool, submitLabel: string)

  class SetupModal {
    var apiKey: string
    var saving: bool
    var error: Option<string>
    /** Every value sent to `System.updateSystem` as `OpenAiKey`, oldest first. */
    var updates: seq<string>
    /** How many times `onConfigured` was invoked. */
    var configuredCalls: nat

    constructor ()
      ensures apiKey == "" && !saving && error == None
      ensures updates == [] && configuredCalls == 0
    {
      apiKey := "";
      saving := false;
      error := None;
      updates := [];
      configuredCalls := 0;
    }

    /** The key input's `onChange`: the field holds what was typed, untrimmed. */
    method EditKey(value: string)
      modifies this
      ensures apiKey == value
      ensures saving == old(saving) && error == old(error)
      ensures updates == old(updates) && configuredCalls == old(configuredCalls)
    {
      apiKey := value;
    }

    /**
     The effect on `isOpen`: when the modal is closed the key and the error are wiped;
     when it is open nothing changes.
     */
    method OpenChanged(isOpen: bool)
      modifies this
      ensures isOpen ==> unchanged(this)
      ensures !isOpen ==> apiKey == "" && error == None
      ensures saving == old(saving) && updates == old(updates) && configuredCalls == old(configuredCalls)
    {
      if !isOpen {
        apiKey := "";
        error := None;
      }
    }

    /**
     The submit handler up to the `await`: a blank key is refused with a message and no
     call; otherwise the modal turns busy, clears the error and sends the trimmed key,
     which `sent` returns.
     */
    method StartSubmit() returns (sent: Option<string>)
      modifies this
      ensures apiKey == old(apiKey)
      ensures configuredCalls == old(configuredCalls)
      ensures sent.None? <==> KeyRejected(old(apiKey))
      ensures sent.Some? ==> sent.value == Trim(old(apiKey))
      ensures sent.None? ==> error == Some(InvalidKeyMessage) && saving == old(saving) && updates == old(updates)
      ensures sent.Some? ==> saving && error == None && updates == old(updates) + [sent.value]
    {
      var typed := apiKey;
      if KeyRejected(typed) {
        error := Some(InvalidKeyMessage);
        return None;
      }
      var key := Trim(typed);
      saving := true;
      error := None;
      updates := updates + [key];
      sent := Some(key);
    }

    /**
     The submit handler after the `await`: a truthy update error is shown and
     `onConfigured` is not called; otherwise `onConfigured` fires once. Either way the
     modal stops being busy.
     */
    method FinishSubmit(updateError: Option<string>)
      modifies this
      ensures !saving && apiKey == old(apiKey) && updates == old(updates)
      ensures Truthy(updateError) ==> error == updateError && configuredCalls == old(configuredCalls)
      ensures !Truthy(updateError) ==> error == old(error) && configuredCalls == old(configuredCalls) + 1
    {
      if Truthy(updateError) {
        saving := false;
        error := updateError;
        return;
      }
      saving := false;
      configuredCalls := configuredCalls + 1;
    }

    /** The submit handler run to completion with the update answering `updateError`. */
    method HandleSubmit(updateError: Option<string>)
      modifies this
      ensures apiKey == old(apiKey)
      ensures KeyRejected(old(apiKey)) ==>
                error == Some(InvalidKeyMessage) && saving == old(saving)
                && updates == old(updates) && configuredCalls == old(configuredCalls)
      ensures !KeyRejected(old(apiKey)) ==> updates == old(updates) + [Trim(old(apiKey))] && !saving
      ensures !KeyRejected(old(apiKey)) && Truthy(updateError) ==>
                error == updateError && configuredCalls == old(configuredCalls)
      ensures !KeyRejected(old(apiKey)) && !Truthy(updateError) ==>
                error == None && configuredCalls == old(configuredCalls) + 1
    {
      var sent := StartSubmit();
      if sent.Some? {
        FinishSubmit(updateError);
      }
    }

    /**
     What the modal renders: nothing while closed; when open, the banner shows a truthy
     error, and the button is disabled and reads "Saving..." while a save is in flight.
     */
    function View(isOpen: bool): (v: Option<Form>)
      reads this
      ensures v.Some? <==> isOpen
      ensures v.Some? ==> (v.value.shownError.Some? <==> Truthy(error))
      ensures v.Some? && v.value.shownError.Some? ==> v.value.shownError == error
      ensures v.Some? ==> (v.value.submitDisabled <==> saving)
      ensures v.Some? ==> v.value.submitLabel == (if saving then "Saving..." else "Save API Key")
    {
      if !isOpen then None
      else Some(Form(if Truthy(error) then error else None, saving, if saving then "Saving..." else "Save API Key"))
    }
  }

  /**
   Type `key` into a fresh modal and submit it, the update answering `updateError`: a blank
   key is refused without any call; any other key is sent once, trimmed, and the modal
   ends either showing the update's error or having fired `onConfigured` once.
   */
  method EnterKey(key: string, updateError: Option<string>)
    returns (sent: seq<string>, busy: bool, shown: Option<string>, configured: nat)
    ensures Blank(key) ==> sent == [] && !busy && shown == Some(InvalidKeyMessage) && configured == 0
    ensures !Blank(key) ==> sent == [Trim(key)] && !busy && Trim(key) != ""
    ensures !Blank(key) && Truthy(updateError) ==> shown == updateError && configured == 0
    ensures !Blank(key) && !Truthy(updateError) ==> shown == None && configured == 1
  {
    var m := new SetupModal();
    m.EditKey(key);
    m.HandleSubmit(updateError);
    sent, busy, shown, configured := m.updates, m.saving, m.error, m.configuredCalls;
  }

  /**
   A refused save followed by closing the modal: the error the update reported and the
   typed key are both gone, and `onConfigured` never fired.
   */
  method RefusedThenClosed(key: string, message: string)
    returns (keyAfter: string, shown: Option<string>, configured: nat)
    requires !Blank(key) && message != ""
    ensures keyAfter == "" && shown == None && configured == 0
  {
    var m := new SetupModal();
    m.EditKey(key);
    m.HandleSubmit(Some(message));
    assert m.error == Some(message);
    m.OpenChanged(false);
    keyAfter, shown, configured := m.apiKey, m.error, m.configuredCalls;
  }

  /** A key typed with surrounding spaces and a newline is sent without them. */
  lemma PaddedKeySentTrimmed()
    ensures Trim("  sk-1\n") == "sk-1"
  {
    assert "  sk-1\n" == "  " + "sk-1" + "\n";
    TrimStripsPadding("  ", "sk-1", "\n");
  }

  /** Such a padded key passes the guard; a key of spaces, a tab and a newline does not. */
  lemma PaddedKeyAccepted()
    ensures !KeyRejected("  sk-1\n") && KeyRejected(" \t\n")
  {
    assert "  sk-1\n"[2] == 's';
  }
}

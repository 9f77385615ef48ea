/**
 * The chat input box (src/components/ChatInput.tsx): a draft that the user edits,
 * sent through the `onSend` callback on submit or on Enter, then cleared.
 */
module ChatInputComponent {

  import opened Wrappers
  import opened JsString

  /** What `handleSubmit` hands to `onSend` for a given draft and `disabled` prop,
      or None when it sends nothing. */
  function SubmitValue(message: string, disabled: bool): (r: Option<string>)
    ensures r.Some? <==> !disabled && !AllWhitespace(message)
    ensures r.Some? ==> r.value == Trim(message) && r.value != [] && IsTrimmed(r.value)
  {
    if disabled then None else Submittable(message)
  }

  /** The send button's `disabled` attribute. */
  function SendButtonDisabled(message: string, disabled: bool): (d: bool)
    ensures d <==> disabled || AllWhitespace(message)
  {
    TrimEmptyIff(message);
    Trim(message) == [] || disabled
  }

  /** The button is enabled exactly when a submit would send something. */
  lemma ButtonEnabledIffSubmitSends(message: string, disabled: bool)
    ensures !SendButtonDisabled(message, disabled) <==> SubmitValue(message, disabled).Some?
  {
  }

  /** `handleKeyPress` submits on Enter without Shift. */
  predicate IsSubmitKey(key: string, shiftKey: bool) {
    key == "Enter" && !shiftKey
  }

  class ChatInput {
    /** The draft, the `message` state of the component. */
    var message: string
    /** The `disabled` prop, as last rendered by the parent. */
    var disabled: bool
    /** Every value passed to `onSend`, oldest first. */
    var sent: seq<string>

    constructor (disabled: bool)
      ensures message == "" && this.disabled == disabled && sent == []
    {
      message := "";
      this.disabled := disabled;
      sent := [];
    }

    /** The parent re-renders the component with another `disabled` prop. */
    method SetDisabled(disabled: bool)
      modifies this`disabled
      ensures this.disabled == disabled
    {
      this.disabled := disabled;
    }

    /** The text field's `onChange`: the draft becomes what the field holds. */
    method Change(value: string)
      modifies this`message
      ensures message == value
    {
      message := value;
    }

    /** The form's `onSubmit`: sends the trimmed draft once, when there is one and the
        box is enabled, and then clears the draft; otherwise nothing changes. */
    method HandleSubmit() returns (sentValue: Option<string>)
      modifies this`message, this`sent
      ensures sentValue == SubmitValue(old(message), disabled)
      ensures sentValue.Some? ==> message == "" && sent == old(sent) + [sentValue.value]
      ensures sentValue.None? ==> message == old(message) && sent == old(sent)
    {
      var trimmed := Trim(message);
      if trimmed != [] && !disabled {
        sent := sent + [trimmed];
        message := "";
        sentValue := Some(trimmed);
      } else {
        sentValue := None;
      }
    }

    /** The text field's `onKeyPress`: Enter without Shift prevents the default
        (the newline) and submits; any other key does neither. */
    method HandleKeyPress(key: string, shiftKey: bool) returns (defaultPrevented: bool, sentValue: Option<string>)
      modifies this`message, this`sent
      ensures defaultPrevented == IsSubmitKey(key, shiftKey)
      ensures sentValue == if defaultPrevented then SubmitValue(old(message), disabled) else None
      ensures sentValue.Some? ==> message == "" && sent == old(sent) + [sentValue.value]
      ensures sentValue.None? ==> message == old(message) && sent == old(sent)
    {
      if key == "Enter" && !shiftKey {
        defaultPrevented := true;
        sentValue := HandleSubmit();
      } else {
        defaultPrevented, sentValue := false, None;
      }
    }
  }
}

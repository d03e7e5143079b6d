/** The donation page (src/pages/donate.tsx): the preset and custom amount
    handlers, which keep at most one of the two set, and the submit decision. */
module Donate {
  import opened Wrappers

  const DonationAmounts: seq<int> := [100, 200, 500, 1000, 5000]

  /** The amount the thank-you message names. */
  datatype Amount = Preset(value: int) | Custom(text: string)

  datatype Decision = ThankYou(amount: Amount) | AskForAmount

  /** `selectedAmount || (customAmount ? parseFloat(customAmount) : null)`
      followed by the truthiness test. `parsesTruthy` stands for whether
      `parseFloat` gives a number other than 0 and NaN. */
  function SubmitDecision(selected: Option<int>, custom: string, parsesTruthy: string -> bool): (d: Decision)
    ensures selected.Some? && selected.value != 0 ==> d == ThankYou(Preset(selected.value))
    ensures (selected.None? || selected.value == 0) && custom != "" && parsesTruthy(custom) ==>
      d == ThankYou(Custom(custom))
    ensures d == AskForAmount <==>
      (selected.None? || selected.value == 0) && (custom == "" || !parsesTruthy(custom))
  {
    if selected.Some? && selected.value != 0 then ThankYou(Preset(selected.value))
    else if custom != "" && parsesTruthy(custom) then ThankYou(Custom(custom))
    else AskForAmount
  }

  /** At most one of the two inputs holds a value. */
  predicate Exclusive(selected: Option<int>, custom: string) {
    selected.None? || custom == ""
  }

  /** Every preset is positive, so a selected preset is always truthy. */
  lemma PresetsPositive()
    ensures forall i :: 0 <= i < |DonationAmounts| ==> DonationAmounts[i] > 0
  {
  }

  /** With a preset chosen the submit thanks for the preset, whatever the custom text parses to. */
  lemma PresetReachesThankYou(amount: int, custom: string, parsesTruthy: string -> bool)
    requires amount in DonationAmounts
    ensures SubmitDecision(Some(amount), custom, parsesTruthy) == ThankYou(Preset(amount))
  {
  }

  /** In a reachable state a non-empty custom text is what the submit tries. */
  lemma CustomUsedWhenTyped(selected: Option<int>, custom: string, parsesTruthy: string -> bool)
    requires Exclusive(selected, custom) && custom != ""
    ensures SubmitDecision(selected, custom, parsesTruthy)
            == if parsesTruthy(custom) then ThankYou(Custom(custom)) else AskForAmount
  {
  }

  class DonationForm {
    var customAmount: string
    var selectedAmount: Option<int>

    constructor ()
      ensures customAmount == "" && selectedAmount == None
      ensures Exclusive(selectedAmount, customAmount)
    {
      customAmount := "";
      selectedAmount := None;
    }

    /** `handleAmountSelect`. */
    method SelectAmount(amount: int)
      modifies this
      ensures selectedAmount == Some(amount) && customAmount == ""
      ensures Exclusive(selectedAmount, customAmount)
    {
      selectedAmount := Some(amount);
      customAmount := "";
    }

    /** `handleCustomAmountChange`. */
    method ChangeCustomAmount(text: string)
      modifies this
      ensures customAmount == text && selectedAmount == None
      ensures Exclusive(selectedAmount, customAmount)
    {
      customAmount := text;
      selectedAmount := None;
    }

    /** `handleSubmit`, with the alert it raises as the result. */
    method Submit(parsesTruthy: string -> bool) returns (d: Decision)
      ensures d == SubmitDecision(selectedAmount, customAmount, parsesTruthy)
    {
      var hasSelection := selectedAmount.Some? && selectedAmount.value != 0;
      if hasSelection {
        d := ThankYou(Preset(selectedAmount.value));
      } else if customAmount != "" && parsesTruthy(customAmount) {
        d := ThankYou(Custom(customAmount));
      } else {
        d := AskForAmount;
      }
    }
  }

  /** Typing after choosing a preset discards the preset. */
  method TypeAfterPreset(amount: int, text: string, parsesTruthy: string -> bool) returns (d: Decision)
    requires amount in DonationAmounts && text != ""
    ensures d == if parsesTruthy(text) then ThankYou(Custom(text)) else AskForAmount
  {
    var form := new DonationForm();
    form.SelectAmount(amount);
    form.ChangeCustomAmount(text);
    d := form.Submit(parsesTruthy);
  }

  /** Choosing a preset after typing thanks for the preset. */
  method PresetAfterTyping(text: string, amount: int, parsesTruthy: string -> bool) returns (d: Decision)
    requires amount in DonationAmounts
    ensures d == ThankYou(Preset(amount))
  {
    var form := new DonationForm();
    form.ChangeCustomAmount(text);
    form.SelectAmount(amount);
    d := form.Submit(parsesTruthy);
    PresetReachesThankYou(amount, "", parsesTruthy);
  }
}

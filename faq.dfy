/** The FAQ accordion (src/components/FAQ.tsx): one optional open index. */
module Faq {
  import opened Wrappers

  /** The number of questions the section lists. */
  const FaqCount: nat := 5

  /** `activeIndex === index ? null : index`. */
  function Toggled(active: Option<int>, index: int): (r: Option<int>)
    ensures active == Some(index) ==> r == None
    ensures active != Some(index) ==> r == Some(index)
  {
    if active == Some(index) then None else Some(index)
  }

  /** An answer is rendered exactly for the open index. */
  predicate AnswerVisible(active: Option<int>, index: int) {
    active == Some(index)
  }

  /** After a toggle, `index` is open iff it was not open before. */
  lemma ToggleFlips(active: Option<int>, index: int)
    ensures AnswerVisible(Toggled(active, index), index) <==> !AnswerVisible(active, index)
  {
  }

  /** A toggle opens nothing but `index`: every other answer is hidden afterwards. */
  lemma ToggleClosesOthers(active: Option<int>, index: int, other: int)
    requires other != index
    ensures !AnswerVisible(Toggled(active, index), other)
  {
  }

  /** At most one answer is visible in any state. */
  lemma AtMostOneVisible(active: Option<int>, i: int, j: int)
    requires AnswerVisible(active, i) && AnswerVisible(active, j)
    ensures i == j
  {
  }

  /** Toggling the same question twice leaves it as it was and closes any other open answer. */
  lemma ToggleTwice(active: Option<int>, index: int)
    ensures Toggled(Toggled(active, index), index) == if active == Some(index) then Some(index) else None
  {
  }

  /** Clicking only listed questions keeps the open index among them. */
  lemma ToggleStaysInRange(active: Option<int>, index: int)
    requires active.None? || 0 <= active.value < FaqCount
    requires 0 <= index < FaqCount
    ensures var r := Toggled(active, index); r.None? || 0 <= r.value < FaqCount
  {
  }

  class FaqSection {
    var activeIndex: Option<int>

    constructor ()
      ensures activeIndex == None
    {
      activeIndex := None;
    }

    /** `toggleFAQ`. */
    method ToggleFaq(index: int)
      modifies this
      ensures activeIndex == Toggled(old(activeIndex), index)
    {
      if activeIndex == Some(index) {
        activeIndex := None;
      } else {
        activeIndex := Some(index);
      }
    }

    function Visible(index: int): bool
      reads this
    {
      AnswerVisible(activeIndex, index)
    }
  }

  /** A fresh section shows no answer; one click shows exactly that answer. */
  method OpenOne(index: int, other: int) returns (shown: bool, otherShown: bool)
    requires other != index
    ensures shown && !otherShown
  {
    var section := new FaqSection();
    section.ToggleFaq(index);
    shown := section.Visible(index);
    otherShown := section.Visible(other);
  }
}

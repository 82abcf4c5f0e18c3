/** The FAQ accordion (src/components/pages/FAQ.jsx): at most one
    question is open, named by the key "categoryIndex-faqIndex". */
module Faq {
  import opened Wrappers
  import opened Text

  /** The template string `${categoryIndex}-${faqIndex}`. */
  function QuestionKey(categoryIndex: nat, faqIndex: nat): string
  {
    NatToString(categoryIndex) + "-" + NatToString(faqIndex)
  }

  /** The leading run of digits of `a + "-" + b`, for `a` all digits, is `a`. */
  lemma {:induction false} LeadingDigitsOfKey(a: string, b: string)
    requires forall i :: 0 <= i < |a| ==> IsDigit(a[i])
    ensures LeadingDigits(a + "-" + b) == |a|
    decreases |a|
  {
    if |a| > 0 {
      assert (a + "-" + b)[1..] == a[1..] + "-" + b;
      LeadingDigitsOfKey(a[1..], b);
    }
  }

  /** So a key splits back into its two numerals at its first dash. */
  lemma DashSplits(a1: string, b1: string, a2: string, b2: string)
    requires forall i :: 0 <= i < |a1| ==> IsDigit(a1[i])
    requires forall i :: 0 <= i < |a2| ==> IsDigit(a2[i])
    requires a1 + "-" + b1 == a2 + "-" + b2
    ensures a1 == a2 && b1 == b2
  {
    var s := a1 + "-" + b1;
    LeadingDigitsOfKey(a1, b1);
    LeadingDigitsOfKey(a2, b2);
    assert a1 == s[..|a1|] == a2;
    assert b1 == s[|a1| + 1..] == b2;
  }

  /** Distinct questions get distinct keys. */
  lemma QuestionKeyInjective(c1: nat, q1: nat, c2: nat, q2: nat)
    requires QuestionKey(c1, q1) == QuestionKey(c2, q2)
    ensures c1 == c2 && q1 == q2
  {
    DashSplits(NatToString(c1), NatToString(q1), NatToString(c2), NatToString(q2));
    NatToStringInjective(c1, c2);
    NatToStringInjective(q1, q2);
  }

  /** `isOpen`: the stored key is this question's key. */
  predicate IsOpenIn(openQuestion: Option<string>, categoryIndex: nat, faqIndex: nat)
  {
    openQuestion == Some(QuestionKey(categoryIndex, faqIndex))
  }

  /** Whatever is stored, no two questions are open together. */
  lemma AtMostOneOpen(openQuestion: Option<string>, c1: nat, q1: nat, c2: nat, q2: nat)
    requires IsOpenIn(openQuestion, c1, q1) && IsOpenIn(openQuestion, c2, q2)
    ensures c1 == c2 && q1 == q2
  {
    QuestionKeyInjective(c1, q1, c2, q2);
  }

  class Accordion {
    var openQuestion: Option<string>

    predicate IsOpen(categoryIndex: nat, faqIndex: nat)
      reads this
    {
      IsOpenIn(openQuestion, categoryIndex, faqIndex)
    }

    /** Every question starts closed. */
    constructor ()
      ensures openQuestion == None
      ensures forall c: nat, q: nat :: !IsOpen(c, q)
    {
      openQuestion := None;
    }

    /** A click closes the question if it was open; otherwise it opens it
        and thereby closes whichever other question was open. */
    method Click(categoryIndex: nat, faqIndex: nat)
      modifies this
      ensures old(IsOpen(categoryIndex, faqIndex)) ==> openQuestion == None
      ensures !old(IsOpen(categoryIndex, faqIndex)) ==>
        IsOpen(categoryIndex, faqIndex)
        && forall c: nat, q: nat :: IsOpen(c, q) ==> c == categoryIndex && q == faqIndex
    {
      var isOpen := IsOpen(categoryIndex, faqIndex);
      openQuestion := if isOpen then None else Some(QuestionKey(categoryIndex, faqIndex));
      if !isOpen {
        forall c: nat, q: nat | IsOpen(c, q) ensures c == categoryIndex && q == faqIndex {
          AtMostOneOpen(openQuestion, c, q, categoryIndex, faqIndex);
        }
      }
    }
  }
}

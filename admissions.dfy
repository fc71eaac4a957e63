/** The admissions page's FAQ accordion: five question cards, at most one of
    which shows its answer. The page's only state is the index of the open
    card, or none. */
module Admissions {
  import opened Wrappers

  datatype Faq = Faq(question: string, answer: string)

  // The questions, one constant each.
  const TestPolicy :=
    Faq("Is the SAT/ACT required for admission?",
      "For the 2025–2026 cycle, we are test-optional. You may submit scores to strengthen your application, but they are not required. We evaluate applicants holistically.")
  const MultiplePrograms :=
    Faq("Can I apply to multiple programs?",
      "Yes. You may indicate up to three program preferences on your application. If your first-choice program is competitive, we'll automatically consider you for your second choice.")
  const ReviewTime :=
    Faq("How long does the admissions review take?",
      "Early Decision applicants typically receive decisions within 6 weeks. Regular Decision applicants hear back by April 1. Transfer and graduate timelines vary by program.")
  const CampusVisits :=
    Faq("Are campus visits required?",
      "Visits are not required but strongly encouraged. We offer in-person tours weekdays at 10 AM and 2 PM, plus virtual open days every first Saturday of the month.")
  const AcceptanceRate :=
    Faq("What is the acceptance rate?",
      "Our overall acceptance rate for the 2024–2025 cycle was 62%. Rates vary by program; some competitive programs like Computer Science and Business have higher selectivity.")

  /** The questions, in the order the cards are shown. */
  const Faqs: seq<Faq> := [TestPolicy, MultiplePrograms, ReviewTime, CampusVisits, AcceptanceRate]

  /** The click rule for card `idx`: clicking the open card closes it,
      clicking any other card opens that one (closing the one that was open). */
  function Toggled(openFaq: Option<nat>, idx: nat): (r: Option<nat>)
    ensures r == None <==> openFaq == Some(idx)
    ensures r != None ==> r == Some(idx)
  {
    if openFaq == Some(idx) then None else Some(idx)
  }

  /** Two clicks on the same card: an open card is open again, a closed one
      leaves every card closed. */
  lemma ToggledTwice(openFaq: Option<nat>, idx: nat)
    ensures Toggled(Toggled(openFaq, idx), idx) == if openFaq == Some(idx) then Some(idx) else None
  {
  }

  /** The answers rendered by the cards from position `i` on: card `k`
      renders its answer exactly when the open index is `k`. */
  function AnswersFrom(openFaq: Option<nat>, faqs: seq<Faq>, i: nat): (r: seq<string>)
    requires i <= |faqs|
    ensures r == if openFaq.Some? && i <= openFaq.value < |faqs| then [faqs[openFaq.value].answer] else []
    decreases |faqs| - i
  {
    if i == |faqs| then []
    else (if openFaq == Some(i) then [faqs[i].answer] else []) + AnswersFrom(openFaq, faqs, i + 1)
  }

  /** The answers on screen: at most one, and it belongs to the open card. */
  function AnswersShown(openFaq: Option<nat>, faqs: seq<Faq>): (r: seq<string>)
    ensures |r| <= 1
    ensures r != [] <==> openFaq.Some? && openFaq.value < |faqs|
    ensures r != [] ==> r[0] == faqs[openFaq.value].answer
  {
    AnswersFrom(openFaq, faqs, 0)
  }

  /** The accordion's state. */
  class FaqAccordion {
    var openFaq: Option<nat>

    /** The open index, when there is one, names a card. */
    ghost predicate Valid()
      reads this
    {
      openFaq.None? || openFaq.value < |Faqs|
    }

    /** The page opens with every card closed. */
    constructor ()
      ensures Valid() && openFaq == None
      ensures Shown() == []
    {
      openFaq := None;
    }

    /** The answers currently on screen. */
    function Shown(): seq<string>
      reads this
    {
      AnswersShown(openFaq, Faqs)
    }

    /** A click on the header of card `idx`. */
    method Click(idx: nat)
      requires Valid() && idx < |Faqs|
      modifies this
      ensures Valid()
      ensures openFaq == Toggled(old(openFaq), idx)
      ensures old(openFaq) == Some(idx) ==> Shown() == []
      ensures old(openFaq) != Some(idx) ==> Shown() == [Faqs[idx].answer]
    {
      openFaq := Toggled(openFaq, idx);
    }
  }
}

/**
  One rendered card: a `flipped` flag chooses the face, a click toggles it,
  the copy control copies both sides without flipping, and at most four tags
  are shown.
 */
module FlipCard {
  import opened Cards

  /** The text on the face that is showing. */
  function FaceText(card: Flashcard, flipped: bool): string {
    if flipped then card.answer else card.question
  }

  /** An image URL, or none when it is empty. */
  function NonEmpty(url: string): Option<string> {
    if url == "" then None else Some(url)
  }

  /** The background image of the face that is showing; an empty URL means none. */
  function FaceBackground(flipped: bool, frontBg: string, backBg: string): (r: Option<string>)
    ensures r.Some? ==> r.value != "" && r.value == (if flipped then backBg else frontBg)
    ensures r.None? ==> (if flipped then backBg else frontBg) == ""
  {
    NonEmpty(if flipped then backBg else frontBg)
  }

  /** What the copy control writes to the clipboard. */
  function CopyText(card: Flashcard): string {
    card.question + "\n\n" + card.answer
  }

  /** `card.tags.slice(0, 4)`, or nothing when the card has no tags. */
  function ShownTags(card: Flashcard): (r: seq<string>)
    ensures |r| <= 4
    ensures card.tags.None? ==> r == []
    ensures card.tags.Some? ==> r <= card.tags.value
    ensures card.tags.Some? ==> |r| == if |card.tags.value| < 4 then |card.tags.value| else 4
  {
    match card.tags
    case None => []
    case Some(tags) => if |tags| <= 4 then tags else tags[..4]
  }

  /** The flag after `n` clicks on the card, starting from `flipped`. */
  function Clicked(flipped: bool, n: nat): bool
    decreases n
  {
    if n == 0 then flipped else Clicked(!flipped, n - 1)
  }

  /** An odd number of clicks turns the card over; an even number leaves it as it was. */
  lemma {:induction false} ClickedParity(flipped: bool, n: nat)
    ensures Clicked(flipped, n) == (flipped != (n % 2 == 1))
    decreases n
  {
    if n > 0 {
      ClickedParity(!flipped, n - 1);
    }
  }

  /**
    A card starts on its question and shows its answer after `n` clicks
    exactly when `n` is odd (for a card whose two sides differ).
   */
  lemma ShowsAnswerAfterOddClicks(card: Flashcard, n: nat)
    requires card.question != card.answer
    ensures FaceText(card, Clicked(false, n)) == card.answer <==> n % 2 == 1
  {
    ClickedParity(false, n);
  }

  /**
    The text and the background always come from the same face: after `n`
    clicks on a new card, the answer and the back image (when there is one)
    show exactly when `n` is odd, the question and the front image otherwise.
   */
  lemma FaceAfterClicks(card: Flashcard, frontBg: string, backBg: string, n: nat)
    ensures var f := Clicked(false, n);
      && FaceText(card, f) == (if n % 2 == 1 then card.answer else card.question)
      && FaceBackground(f, frontBg, backBg) == (if n % 2 == 1 then NonEmpty(backBg) else NonEmpty(frontBg))
  {
    ClickedParity(false, n);
  }

  /** The copied text starts with the question and ends with the answer, on either face. */
  lemma CopyTextHasBothSides(card: Flashcard)
    ensures card.question <= CopyText(card)
    ensures CopyText(card)[|CopyText(card)| - |card.answer|..] == card.answer
  {
  }

  /**
    One card's component state. The list renders cards keyed by their
    position, so when the set changes the card at a position gets new
    content but keeps its `flipped` flag.
   */
  class FlipCardView {
    var card: Flashcard
    var frontBg: string
    var backBg: string
    var flipped: bool

    constructor (card: Flashcard, frontBg: string, backBg: string)
      ensures this.card == card && this.frontBg == frontBg && this.backBg == backBg
      ensures !flipped
    {
      this.card := card;
      this.frontBg := frontBg;
      this.backBg := backBg;
      flipped := false;
    }

    function Text(): string
      reads this
    {
      FaceText(card, flipped)
    }

    /** A click on the card. */
    method Toggle()
      modifies this
      ensures flipped == !old(flipped)
      ensures Text() == (if old(flipped) then card.question else card.answer)
      ensures card == old(card) && frontBg == old(frontBg) && backBg == old(backBg)
    {
      flipped := !flipped;
    }

    /** The copy control: reads the card and changes nothing, so the face stays as it is. */
    method Copy() returns (text: string)
      ensures text == CopyText(card)
      ensures card.question <= text
    {
      text := card.question + "\n\n" + card.answer;
    }

    /** The parent re-renders this position with new props. */
    method Rerender(card: Flashcard, frontBg: string, backBg: string)
      modifies this
      ensures this.card == card && this.frontBg == frontBg && this.backBg == backBg
      ensures flipped == old(flipped)
      ensures Text() == FaceText(card, old(flipped))
    {
      this.card := card;
      this.frontBg := frontBg;
      this.backBg := backBg;
    }
  }
}

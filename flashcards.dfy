// Flip-card review (src/pages/Flashcards.jsx). The page's state variables
// are the fields of FlashcardPage; the imported flashcard array, which the
// Random Mix button sorts in place, is the shared CardBank object. As on the
// study page, the effect that rebuilds the deck runs after the handler that
// changed the section or category, here also resetting the index and the
// flip.
module Flashcards {
  import opened Js
  import opened Seqs
  import opened Catalog

  datatype CardStep = Select | Category | Practice

  const CardSections: seq<string> := ["math", "english", "reading", "science"]

  const SwipeThreshold: int := 50

  /** JavaScript truthiness of a string that may be null. */
  predicate Truthy(s: Option<string>) { s.Some? && s.value != "" }

  /** The deck for a section and category: the section's cards, narrowed to
      the category unless it is unset, empty or 'all'. */
  function CardDeck(cards: seq<Flashcard>, section: string, category: Option<string>): (deck: seq<Flashcard>)
    ensures forall f :: f in deck <==>
              f in cards && f.section == section &&
              (Truthy(category) && category.value != "all" ==> f.category == category.value)
    ensures multiset(deck) <= multiset(cards)
  {
    var bySection := Filter((f: Flashcard) => f.section == section, cards);
    FilterMembers((f: Flashcard) => f.section == section, cards);
    FilterSubMultiset((f: Flashcard) => f.section == section, cards);
    if Truthy(category) && category.value != "all" then
      var c := category.value;
      FilterMembers((f: Flashcard) => f.category == c, bySection);
      FilterSubMultiset((f: Flashcard) => f.category == c, bySection);
      Filter((f: Flashcard) => f.category == c, bySection)
    else
      bySection
  }

  /** Filtering a reordered bank gives a reordering of the same deck. */
  lemma {:induction false} CardDeckOfPermutation(cards: seq<Flashcard>, shuffled: seq<Flashcard>,
                                                 section: string, category: Option<string>)
    requires multiset(shuffled) == multiset(cards)
    ensures multiset(CardDeck(shuffled, section, category)) == multiset(CardDeck(cards, section, category))
  {
    var p := (f: Flashcard) => f.section == section;
    forall x ensures multiset(Filter(p, shuffled))[x] == multiset(Filter(p, cards))[x] {
      FilterCount(p, shuffled, x);
      FilterCount(p, cards, x);
    }
    assert multiset(Filter(p, shuffled)) == multiset(Filter(p, cards));
    if Truthy(category) && category.value != "all" {
      var c := category.value;
      var q := (f: Flashcard) => f.category == c;
      forall x ensures multiset(Filter(q, Filter(p, shuffled)))[x] == multiset(Filter(q, Filter(p, cards)))[x] {
        FilterCount(q, Filter(p, shuffled), x);
        FilterCount(q, Filter(p, cards), x);
      }
      assert multiset(Filter(q, Filter(p, shuffled))) == multiset(Filter(q, Filter(p, cards)));
    }
  }

  /** Random Mix names the section 'all', which no card carries: the deck the
      effect then builds is empty. */
  lemma RandomMixEffectDeckEmpty(cards: seq<Flashcard>)
    requires forall i :: 0 <= i < |cards| ==> cards[i].section in CardSections
    ensures CardDeck(cards, "all", Some("all")) == []
  {
    forall f | f in cards ensures f.section != "all" {
      var i :| 0 <= i < |cards| && cards[i] == f;
    }
  }

  datatype Gesture = FlipCard | NextCard | PreviousCard | NoGesture

  /** handleDragEnd: a horizontal drag beyond 50 flips (whatever the
      vertical offset); otherwise up beyond 50 is next, down beyond 50
      previous. */
  function GestureOf(dx: int, dy: int): (g: Gesture)
    ensures g == FlipCard <==> dx < -SwipeThreshold || dx > SwipeThreshold
    ensures g == NextCard <==> -SwipeThreshold <= dx <= SwipeThreshold && dy < -SwipeThreshold
    ensures g == PreviousCard <==> -SwipeThreshold <= dx <= SwipeThreshold && dy > SwipeThreshold
  {
    var adx := if dx < 0 then -dx else dx;
    if adx > SwipeThreshold then FlipCard
    else if dy < -SwipeThreshold then NextCard
    else if dy > SwipeThreshold then PreviousCard
    else NoGesture
  }

  /** The keyboard: left and right flip, up is next, down previous. */
  function GestureOfKey(key: string): (g: Gesture)
    ensures g == FlipCard <==> key == "ArrowLeft" || key == "ArrowRight"
    ensures g == NextCard <==> key == "ArrowUp"
    ensures g == PreviousCard <==> key == "ArrowDown"
  {
    if key == "ArrowLeft" || key == "ArrowRight" then FlipCard
    else if key == "ArrowUp" then NextCard
    else if key == "ArrowDown" then PreviousCard
    else NoGesture
  }

  /** Where the viewer stands: the card shown, its face, and the direction
      of the last move (1 forward, -1 back). */
  datatype CardView = CardView(index: int, flipped: bool, direction: int)

  /** The effect of a gesture on a deck of `size` cards: a flip turns the
      card over; next and previous move one card, face up, when there is a
      card to move to, and change nothing otherwise. */
  function AfterGesture(g: Gesture, v: CardView, size: nat): (r: CardView)
    ensures 0 <= v.index < size ==> 0 <= r.index < size
    ensures g == FlipCard ==> r == v.(flipped := !v.flipped)
    ensures g == NoGesture ==> r == v
    ensures r.index == v.index + 1 <==> g == NextCard && v.index < size - 1
    ensures r.index == v.index - 1 <==> g == PreviousCard && v.index > 0
    ensures r.index != v.index ==> !r.flipped && r.direction == r.index - v.index
    ensures g != FlipCard && r.index == v.index ==> r == v
  {
    match g
    case FlipCard => v.(flipped := !v.flipped)
    case NextCard => if v.index < size - 1 then CardView(v.index + 1, false, 1) else v
    case PreviousCard => if v.index > 0 then CardView(v.index - 1, false, -1) else v
    case NoGesture => v
  }

  /** Next then previous comes back to the same card, face up; two flips
      restore the view. */
  lemma {:induction false} GesturesUndo(v: CardView, size: nat)
    ensures 0 <= v.index < size - 1 ==>
              AfterGesture(PreviousCard, AfterGesture(NextCard, v, size), size) == CardView(v.index, false, -1)
    ensures AfterGesture(FlipCard, AfterGesture(FlipCard, v, size), size) == v
  {
    if 0 <= v.index < size - 1 {
      var w := AfterGesture(NextCard, v, size);
      assert w.index == v.index + 1 && !w.flipped;
      assert w.index > 0;
    }
  }

  /** The imported flashcard array, shared by every use of the page. */
  class CardBank {
    var cards: seq<Flashcard>

    constructor (cards: seq<Flashcard>)
      ensures this.cards == cards
    {
      this.cards := cards;
    }
  }

  class FlashcardPage {
    const bank: CardBank

    var step: CardStep
    var selectedSection: Option<string>
    var selectedCategory: Option<string>
    var deck: seq<Flashcard>
    var currentIndex: int
    var isFlipped: bool
    var direction: int

    /** The page invariant: the deck only ever holds cards of the bank, each
        at most as often as the bank does; the index is never negative; the
        category and practice screens have a section. */
    ghost predicate Valid()
      reads this, bank
    {
      0 <= currentIndex &&
      multiset(deck) <= multiset(bank.cards) &&
      (step == Category || step == Practice ==> selectedSection.Some?)
    }

    function View(): CardView
      reads this
    {
      CardView(currentIndex, isFlipped, direction)
    }

    predicate HasCurrentCard()
      reads this
    {
      step == Practice && 0 <= currentIndex < |deck|
    }

    constructor (bank: CardBank)
      ensures Valid()
      ensures this.bank == bank
      ensures step == Select && selectedSection.None? && selectedCategory.None?
      ensures deck == [] && currentIndex == 0 && !isFlipped && direction == 0
    {
      this.bank := bank;
      step := Select;
      selectedSection := None;
      selectedCategory := None;
      deck := [];
      currentIndex := 0;
      isFlipped := false;
      direction := 0;
    }

    /** The filter effect: when the section or category changed and a
        section is chosen, rebuild the deck from the bank, back to its first
        card, face up. */
    method FilterEffect(prevSection: Option<string>, prevCategory: Option<string>)
      requires 0 <= currentIndex && multiset(deck) <= multiset(bank.cards)
      modifies this`deck, this`currentIndex, this`isFlipped
      ensures 0 <= currentIndex && multiset(deck) <= multiset(bank.cards)
      ensures (selectedSection != prevSection || selectedCategory != prevCategory) && Truthy(selectedSection) ==>
                deck == CardDeck(bank.cards, selectedSection.value, selectedCategory) &&
                currentIndex == 0 && !isFlipped
      ensures !((selectedSection != prevSection || selectedCategory != prevCategory) && Truthy(selectedSection)) ==>
                deck == old(deck) && currentIndex == old(currentIndex) && isFlipped == old(isFlipped)
    {
      if (selectedSection != prevSection || selectedCategory != prevCategory) && Truthy(selectedSection) {
        deck := CardDeck(bank.cards, selectedSection.value, selectedCategory);
        currentIndex := 0;
        isFlipped := false;
      }
    }

    /** A section card: choose it and go to the category screen. */
    method ChooseSection(id: string)
      requires Valid() && step == Select && id in CardSections
      modifies this`selectedSection, this`step, this`deck, this`currentIndex, this`isFlipped
      ensures Valid() && selectedSection == Some(id) && step == Category
      ensures old(selectedSection) != Some(id) ==>
                deck == CardDeck(bank.cards, id, selectedCategory) && currentIndex == 0 && !isFlipped
      ensures old(selectedSection) == Some(id) ==>
                deck == old(deck) && currentIndex == old(currentIndex) && isFlipped == old(isFlipped)
    {
      var prevSection, prevCategory := selectedSection, selectedCategory;
      selectedSection := Some(id);
      step := Category;
      assert Truthy(selectedSection) && selectedCategory == prevCategory;
      FilterEffect(prevSection, prevCategory);
    }

    /** A category button, or 'All Categories' with category "all". */
    method ChooseCategory(category: string)
      requires Valid() && step == Category
      modifies this`selectedCategory, this`step, this`deck, this`currentIndex, this`isFlipped
      ensures Valid() && selectedCategory == Some(category) && step == Practice
      ensures old(selectedCategory) != Some(category) && Truthy(selectedSection) ==>
                deck == CardDeck(bank.cards, selectedSection.value, Some(category)) &&
                currentIndex == 0 && !isFlipped
      ensures old(selectedCategory) == Some(category) ==>
                deck == old(deck) && currentIndex == old(currentIndex) && isFlipped == old(isFlipped)
    {
      var prevSection, prevCategory := selectedSection, selectedCategory;
      selectedCategory := Some(category);
      step := Practice;
      FilterEffect(prevSection, prevCategory);
    }

    /** Random Mix: sorts the shared bank in place into a random order, sets
        section and category to 'all', takes the bank as the deck and starts
        practice; the effect then runs if the pair changed. */
    method RandomMix(shuffled: seq<Flashcard>)
      requires Valid() && step == Select
      requires multiset(shuffled) == multiset(bank.cards)
      modifies bank, this`selectedSection, this`selectedCategory, this`deck, this`step,
               this`currentIndex, this`isFlipped
      ensures Valid()
      ensures bank.cards == shuffled && step == Practice
      ensures selectedSection == Some("all") && selectedCategory == Some("all")
      ensures (old(selectedSection), old(selectedCategory)) != (Some("all"), Some("all")) ==>
                deck == CardDeck(shuffled, "all", Some("all")) && currentIndex == 0 && !isFlipped
      ensures (old(selectedSection), old(selectedCategory)) == (Some("all"), Some("all")) ==>
                deck == shuffled && currentIndex == old(currentIndex) && isFlipped == old(isFlipped)
    {
      var prevSection, prevCategory := selectedSection, selectedCategory;
      bank.cards := shuffled;
      selectedSection := Some("all");
      selectedCategory := Some("all");
      deck := shuffled;
      step := Practice;
      FilterEffect(prevSection, prevCategory);
    }

    /** The back arrows: category screen to sections, practice to categories;
        "Go Back" on an empty deck to sections. */
    method BackToSections()
      requires Valid() && (step == Category || (step == Practice && !HasCurrentCard()))
      modifies this`step
      ensures Valid() && step == Select
    {
      step := Select;
    }

    method BackToCategories()
      requires Valid() && HasCurrentCard()
      modifies this`step
      ensures Valid() && step == Category
    {
      step := Category;
    }

    method Flip()
      requires Valid()
      modifies this`isFlipped
      ensures Valid() && isFlipped == !old(isFlipped)
    {
      isFlipped := !isFlipped;
    }

    /** Next: the following card face up; nothing on the last. */
    method Next()
      requires Valid()
      modifies this`currentIndex, this`isFlipped, this`direction
      ensures Valid()
      ensures old(currentIndex) < |deck| - 1 ==> currentIndex == old(currentIndex) + 1 && !isFlipped && direction == 1
      ensures old(currentIndex) >= |deck| - 1 ==> unchanged(this)
    {
      if currentIndex < |deck| - 1 {
        direction := 1;
        currentIndex := currentIndex + 1;
        isFlipped := false;
      }
    }

    /** Previous: the preceding card face up; nothing on the first. */
    method Previous()
      requires Valid()
      modifies this`currentIndex, this`isFlipped, this`direction
      ensures Valid()
      ensures old(currentIndex) > 0 ==> currentIndex == old(currentIndex) - 1 && !isFlipped && direction == -1
      ensures old(currentIndex) == 0 ==> unchanged(this)
    {
      if currentIndex > 0 {
        direction := -1;
        currentIndex := currentIndex - 1;
        isFlipped := false;
      }
    }

    /** The shuffle button: the deck in a random order (given), from its
        first card, face up. */
    method ShuffleDeck(shuffled: seq<Flashcard>)
      requires Valid() && HasCurrentCard()
      requires multiset(shuffled) == multiset(deck)
      modifies this`deck, this`currentIndex, this`isFlipped
      ensures Valid() && HasCurrentCard()
      ensures deck == shuffled && currentIndex == 0 && !isFlipped
    {
      deck := shuffled;
      currentIndex := 0;
      isFlipped := false;
    }

    method Perform(g: Gesture)
      requires Valid()
      modifies this`currentIndex, this`isFlipped, this`direction
      ensures Valid()
      ensures View() == AfterGesture(g, old(View()), |deck|)
    {
      match g
      case FlipCard => Flip();
      case NextCard => Next();
      case PreviousCard => Previous();
      case NoGesture =>
    }

    /** A drag released on the card. */
    method HandleDragEnd(dx: int, dy: int)
      requires Valid() && HasCurrentCard()
      modifies this`currentIndex, this`isFlipped, this`direction
      ensures Valid() && HasCurrentCard()
      ensures View() == AfterGesture(GestureOf(dx, dy), old(View()), |deck|)
    {
      Perform(GestureOf(dx, dy));
    }

    /** A key press: only on the practice screen. */
    method KeyDown(key: string)
      requires Valid()
      modifies this`currentIndex, this`isFlipped, this`direction
      ensures Valid()
      ensures step != Practice ==> unchanged(this)
      ensures step == Practice ==> View() == AfterGesture(GestureOfKey(key), old(View()), |deck|)
    {
      if step == Practice {
        Perform(GestureOfKey(key));
      }
    }
  }
}

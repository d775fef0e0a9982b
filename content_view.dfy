/** The card screen: the category picker, the drag offset of the top card,
    and the swipe rule that either dismisses that card (and asks for a new
    joke) or lets it snap back. */
module Cards {
  import opened Jokes
  import opened JokeLists
  import JokeService

  /** The horizontal distance a drag must exceed to dismiss a card. */
  const DismissThreshold := 100

  function Abs(x: int): nat
  {
    if x < 0 then -x else x
  }

  /** What releasing a drag does to the card. */
  datatype Decision = Dismiss | SnapBack

  /** The release rule on the horizontal drag distance. */
  function Decide(width: int): Decision
  {
    if Abs(width) > DismissThreshold then Dismiss else SnapBack
  }

  /** A card is dismissed exactly when it was dragged more than the threshold
      to either side. The last two clauses are the boundary examples: a drag
      of exactly the threshold snaps back, one unit more dismisses. */
  lemma DecideIff(width: int)
    ensures Decide(width) == Dismiss <==> width < -DismissThreshold || DismissThreshold < width
    ensures Decide(DismissThreshold) == SnapBack && Decide(-DismissThreshold) == SnapBack
    ensures Decide(DismissThreshold + 1) == Dismiss && Decide(-DismissThreshold - 1) == Dismiss
  {
  }

  /** The rule is the same for both directions, and dragging further never
      turns a dismissal into a snap-back. */
  lemma DecideSymmetricMonotone(w: int, v: int)
    ensures Decide(w) == Decide(-w)
    ensures Abs(w) <= Abs(v) && Decide(w) == Dismiss ==> Decide(v) == Dismiss
  {
  }

  /** A drag offset as the screen stores it. */
  datatype Offset = Offset(width: int, height: int)

  const Zero := Offset(0, 0)

  /** The offset applied to the card at `index` among `count` cards: the
      live drag offset for the last card, none for the others. */
  function OffsetOf(index: nat, count: nat, swipe: Offset): Offset
  {
    if index == count - 1 then swipe else Zero
  }

  /** Only the top card moves with the drag. */
  lemma OnlyTopMoves(count: nat, swipe: Offset)
    requires count > 0
    ensures OffsetOf(count - 1, count, swipe) == swipe
    ensures forall i :: 0 <= i < count - 1 ==> OffsetOf(i, count, swipe) == Zero
    ensures forall i :: 0 <= i < count && OffsetOf(i, count, swipe) != Zero ==> i == count - 1
  {
  }

  /** The screen's state. `fetches` holds the categories of the fetches that
      dismissals have started and that have not completed yet. A removed
      sentence was a list entry, so its id was handed out before `nextId`. */
  class ContentView {
    var list: JokeList
    var swipe: Offset
    var removedSentence: Option<JokeSentence>
    var selected: Category
    var fetches: seq<Category>

    ghost predicate Valid()
      reads this, list
    {
      && list.Valid()
      && swipe.height == 0
      && (removedSentence.Some? ==> removedSentence.value.id < list.nextId)
    }

    /** A new screen: the placeholder card at rest, category `All`, and no
        fetch under way. */
    constructor ()
      ensures Valid() && fresh(list)
      ensures |list.sentences| == 1 && list.sentences[0].content == Placeholder
      ensures swipe == Zero && removedSentence == None
      ensures selected == All && fetches == []
    {
      list := new JokeList();
      swipe := Zero;
      removedSentence := None;
      selected := All;
      fetches := [];
    }

    /** The picker selects a category. */
    method SelectCategory(c: Category)
      requires Valid()
      modifies this`selected
      ensures Valid() && selected == c
    {
      selected := c;
    }

    /** While dragging, the horizontal offset follows the finger. */
    method OnChanged(translationWidth: int)
      requires Valid()
      modifies this`swipe
      ensures Valid()
      ensures swipe == Offset(translationWidth, old(swipe.height))
    {
      swipe := swipe.(width := translationWidth);
    }

    /** The drag on `card`, one of the list's entries, ends. Beyond the threshold the card is recorded
        as removed, every entry with its id leaves the list and one fetch for
        the selected category starts; in both cases the offset returns to
        zero. */
    method OnEnded(card: JokeSentence) returns (d: Decision)
      requires Valid() && card in list.sentences
      modifies this, list
      ensures Valid()
      ensures d == Decide(old(swipe.width))
      ensures swipe == Zero
      ensures list == old(list) && list.nextId == old(list.nextId) && selected == old(selected)
      ensures d == Dismiss ==>
        && removedSentence == Some(card)
        && list.sentences == Without(old(list.sentences), card.id)
        && fetches == old(fetches) + [selected]
      ensures d == Dismiss && old(list.sentences) != [] && card.id == old(list.sentences)[|old(list.sentences)| - 1].id ==>
        list.sentences == old(list.sentences)[..|old(list.sentences)| - 1]
      ensures d == SnapBack ==>
        && removedSentence == old(removedSentence)
        && list.sentences == old(list.sentences)
        && fetches == old(fetches)
    {
      d := Decide(swipe.width);
      if d == Dismiss {
        removedSentence := Some(card);
        ghost var before := list.sentences;
        if before != [] && card.id == before[|before| - 1].id {
          WithoutTop(before);
          assert Without(before, card.id) == before[..|before| - 1];
        }
        list.RemoveAll(card.id);
        fetches := fetches + [selected];
        swipe := Zero;
      } else {
        swipe := Zero;
      }
    }

    /** The pending fetch at position `k` completes, in any order relative
        to the others, and its sentence, under a fresh id, is appended to the
        list. */
    method CompleteFetch(k: nat, net: JokeService.Network) returns (added: JokeSentence)
      requires Valid() && k < |fetches|
      modifies this, list
      ensures Valid()
      ensures fetches == old(fetches[..k] + fetches[k + 1..])
      ensures list == old(list) && list.sentences == old(list.sentences) + [added]
      ensures added.id == old(list.nextId) && list.nextId == old(list.nextId) + 1
      ensures added.content == JokeService.Display(JokeService.Fetch(JokeService.RequestUrl(Title(old(fetches[k]))), net))
      ensures swipe == old(swipe) && selected == old(selected) && removedSentence == old(removedSentence)
      ensures removedSentence.Some? ==> added.id != removedSentence.value.id
    {
      var category := fetches[k];
      fetches := fetches[..k] + fetches[k + 1..];
      added := list.AddNewSentence(category, net);
    }
  }

  /** Start the app, drag the placeholder 150 to the left and let go, then
      let the one fetch complete: the list again holds one entry, the
      answer to the wildcard request, under an id other than the dismissed
      card's. */
  method SwipeScenario(net: JokeService.Network) returns (before: nat, decision: Decision, after: nat, dismissed: JokeSentence, top: JokeSentence)
    ensures before == 1 && decision == Dismiss && after == 1
    ensures dismissed.content == Placeholder && top.id != dismissed.id
    ensures top.content == JokeService.Display(JokeService.Fetch(JokeService.AnyUrl, net))
  {
    var view := new ContentView();
    before := |view.list.sentences|;
    view.OnChanged(-150);
    dismissed := view.list.sentences[0];
    decision := view.OnEnded(dismissed);
    assert view.list.sentences == [] && view.fetches == [All];
    var added := view.CompleteFetch(0, net);
    after := |view.list.sentences|;
    top := view.list.sentences[after - 1];
    JokeService.AllUsesAnyUrl();
  }
}

/** The home screen's workspace: the card library and the phrase being
    built, both lists of cards, updated by the screen's handlers. The phrase
    holds card records keyed by the card's own id, so one card added twice
    gives two entries with the same id. */
module Workspace {
  import opened Wrappers
  import opened Types
  import Seqs

  /** `cards.findIndex(c => c.id === id)`. */
  function FindIndex(s: seq<PecCard>, id: string): (r: int)
    ensures -1 <= r < |s|
    ensures r == -1 <==> forall k :: 0 <= k < |s| ==> s[k].id != id
    ensures r >= 0 ==> s[r].id == id && forall k :: 0 <= k < r ==> s[k].id != id
  {
    if s == [] then -1
    else if s[0].id == id then 0
    else
      var r := FindIndex(s[1..], id);
      if r == -1 then -1 else r + 1
  }

  /** `s.filter(c => c.id !== id)`. */
  function RemoveId(s: seq<PecCard>, id: string): (r: seq<PecCard>)
  {
    Seqs.Filter(s, (c: PecCard) => c.id != id)
  }

  /** `splice(i, 1)` on a copy. */
  function RemoveAt(s: seq<PecCard>, i: nat): (r: seq<PecCard>)
    requires i < |s|
  {
    s[..i] + s[i + 1..]
  }

  /** `splice(i, 0, x)` on a copy. */
  function InsertAt(s: seq<PecCard>, i: nat, x: PecCard): (r: seq<PecCard>)
    requires i <= |s|
  {
    s[..i] + [x] + s[i..]
  }

  /** Takes the entry at `d` out and puts it back at index `t` of the
      shortened list. */
  function Move(s: seq<PecCard>, d: nat, t: nat): (r: seq<PecCard>)
    requires d < |s| && t < |s|
  {
    InsertAt(RemoveAt(s, d), t, s[d])
  }

  /** The phrase after dragging the card with id `draggedId` onto the one
      with id `targetId`: both are located first, the dragged card is taken
      out and put back at the target's index as it was before the removal. */
  function Reorder(s: seq<PecCard>, draggedId: string, targetId: string): (r: seq<PecCard>)
  {
    var d := FindIndex(s, draggedId);
    var t := FindIndex(s, targetId);
    if d > -1 && t > -1 then Move(s, d, t) else s
  }

  /** A move keeps the length and the multiset of entries, puts the moved
      entry at index `t`, and leaves all other entries in their relative order. */
  lemma {:induction false} MoveSpec(s: seq<PecCard>, d: nat, t: nat)
    requires d < |s| && t < |s|
    ensures |Move(s, d, t)| == |s|
    ensures multiset(Move(s, d, t)) == multiset(s)
    ensures Move(s, d, t)[t] == s[d]
    ensures RemoveAt(Move(s, d, t), t) == RemoveAt(s, d)
  {
    var rest := RemoveAt(s, d);
    var r := InsertAt(rest, t, s[d]);
    assert s == s[..d] + [s[d]] + s[d + 1..];
    assert r[..t] == rest[..t] && r[t + 1..] == rest[t..];
    assert rest == rest[..t] + rest[t..];
    calc {
      multiset(r);
      multiset(rest[..t]) + multiset{s[d]} + multiset(rest[t..]);
      multiset(rest) + multiset{s[d]};
      multiset(s[..d]) + multiset(s[d + 1..]) + multiset{s[d]};
      multiset(s);
    }
  }

  /** If either id is missing the phrase is left as it was; otherwise the
      dragged card ends up at the target's original index, with the other
      entries in their original relative order and no entry gained or lost. */
  lemma {:induction false} ReorderSpec(s: seq<PecCard>, draggedId: string, targetId: string)
    ensures |Reorder(s, draggedId, targetId)| == |s|
    ensures multiset(Reorder(s, draggedId, targetId)) == multiset(s)
    ensures FindIndex(s, draggedId) == -1 || FindIndex(s, targetId) == -1 ==>
              Reorder(s, draggedId, targetId) == s
    ensures FindIndex(s, draggedId) >= 0 && FindIndex(s, targetId) >= 0 ==>
              var d, t := FindIndex(s, draggedId), FindIndex(s, targetId);
              Reorder(s, draggedId, targetId)[t] == s[d]
              && RemoveAt(Reorder(s, draggedId, targetId), t) == RemoveAt(s, d)
  {
    var d, t := FindIndex(s, draggedId), FindIndex(s, targetId);
    if d >= 0 && t >= 0 {
      MoveSpec(s, d, t);
    }
  }

  /** A library card made from a draft and the id the screen stamps on it. */
  function WithId(draft: CardDraft, id: string): (c: PecCard)
    ensures c.id == id && c.name == draft.name && c.category == draft.category
    ensures c.imageSrc == draft.imageSrc && c.isFavorite == draft.isFavorite
  {
    PecCard(id, draft.name, draft.category, draft.imageSrc, draft.isFavorite)
  }

  /** The cascading delete removes every entry with that id and keeps every
      occurrence of every other card, in the original order. */
  lemma {:induction false} RemoveIdExact(s: seq<PecCard>, id: string)
    ensures forall c :: multiset(RemoveId(s, id))[c] == if c.id == id then 0 else multiset(s)[c]
    ensures forall i :: 0 <= i < |RemoveId(s, id)| ==> RemoveId(s, id)[i].id != id
  {
    Seqs.FilterCount(s, (c: PecCard) => c.id != id);
  }

  /** Removal is order-preserving: it works piecewise on any split of the list. */
  lemma {:induction false} RemoveIdPiecewise(a: seq<PecCard>, b: seq<PecCard>, id: string)
    ensures RemoveId(a + b, id) == RemoveId(a, id) + RemoveId(b, id)
  {
    Seqs.FilterAppend(a, b, (c: PecCard) => c.id != id);
  }

  /** Removing an id that does not occur leaves the list as it was. */
  lemma {:induction false} RemoveIdAbsent(s: seq<PecCard>, id: string)
    requires forall i :: 0 <= i < |s| ==> s[i].id != id
    ensures RemoveId(s, id) == s
  {
    Seqs.FilterKeepsAll(s, (c: PecCard) => c.id != id);
  }

  /** Dragging a card onto itself (or onto a card with the same id) changes nothing. */
  lemma {:induction false} ReorderSelf(s: seq<PecCard>, id: string)
    ensures Reorder(s, id, id) == s
  {
    var d := FindIndex(s, id);
    if d >= 0 {
      assert s == s[..d] + [s[d]] + s[d + 1..];
      assert RemoveAt(s, d)[..d] == s[..d];
      assert RemoveAt(s, d)[d..] == s[d + 1..];
    }
  }

  /** The list with the neighbours at `i` and `i + 1` exchanged. */
  function Swap(s: seq<PecCard>, i: nat): (r: seq<PecCard>)
    requires i + 1 < |s|
  {
    s[..i] + [s[i + 1], s[i]] + s[i + 2..]
  }

  /** Moving between neighbouring positions, in either direction, swaps them. */
  lemma {:induction false} MoveNeighbours(s: seq<PecCard>, i: nat)
    requires i + 1 < |s|
    ensures Move(s, i, i + 1) == Swap(s, i)
    ensures Move(s, i + 1, i) == Swap(s, i)
  {
    assert RemoveAt(s, i) == s[..i] + [s[i + 1]] + s[i + 2..];
    assert RemoveAt(s, i + 1) == s[..i] + [s[i]] + s[i + 2..];
  }

  /** Swapping the same neighbours twice restores the list. */
  lemma {:induction false} SwapTwice(s: seq<PecCard>, i: nat)
    requires i + 1 < |s|
    ensures |Swap(s, i)| == |s| && Swap(Swap(s, i), i) == s
  {
    var w := Swap(s, i);
    assert w[..i] == s[..i] && w[i + 2..] == s[i + 2..];
    assert s == s[..i] + [s[i], s[i + 1]] + s[i + 2..];
  }

  /** The first occurrence of an id is where it first appears. */
  lemma {:induction false} FindIndexAt(s: seq<PecCard>, id: string, i: nat)
    requires i < |s| && s[i].id == id
    requires forall k :: 0 <= k < i ==> s[k].id != id
    ensures FindIndex(s, id) == i
  {
  }

  /** After two neighbours that are first occurrences swap, each is still
      the first occurrence of its id, at the other's former index. */
  lemma {:induction false} SwappedFirstOccurrences(s: seq<PecCard>, i: nat)
    requires i + 1 < |s|
    requires FindIndex(s, s[i].id) == i && FindIndex(s, s[i + 1].id) == i + 1
    ensures FindIndex(Swap(s, i), s[i + 1].id) == i && FindIndex(Swap(s, i), s[i].id) == i + 1
  {
    var w := Swap(s, i);
    assert w[i] == s[i + 1] && w[i + 1] == s[i];
    forall k | 0 <= k < i ensures w[k] == s[k] && w[k].id != s[i].id && w[k].id != s[i + 1].id {
    }
    FindIndexAt(w, s[i + 1].id, i);
    FindIndexAt(w, s[i].id, i + 1);
  }

  /** Two neighbours swap places; the second drag, in the other direction,
      swaps them back. */
  lemma {:induction false} ReorderAdjacentRoundTrip(s: seq<PecCard>, a: string, b: string)
    requires FindIndex(s, a) >= 0 && FindIndex(s, b) >= 0
    requires FindIndex(s, a) + 1 == FindIndex(s, b) || FindIndex(s, b) + 1 == FindIndex(s, a)
    ensures Reorder(Reorder(s, a, b), b, a) == s
  {
    var i := if FindIndex(s, a) < FindIndex(s, b) then FindIndex(s, a) else FindIndex(s, b);
    var w := Swap(s, i);
    MoveNeighbours(s, i);
    SwappedFirstOccurrences(s, i);
    SwapTwice(s, i);
    MoveNeighbours(w, i);
    if FindIndex(s, a) == i {
      assert s[i].id == a && s[i + 1].id == b;
      assert Reorder(s, a, b) == Move(s, i, i + 1) == w;
      assert FindIndex(w, b) == i && FindIndex(w, a) == i + 1;
      assert Reorder(w, b, a) == Move(w, i, i + 1) == s;
    } else {
      assert s[i].id == b && s[i + 1].id == a;
      assert Reorder(s, a, b) == Move(s, i + 1, i) == w;
      assert FindIndex(w, a) == i && FindIndex(w, b) == i + 1;
      assert Reorder(w, b, a) == Move(w, i + 1, i) == s;
    }
  }

  const CardA := PecCard("a", "A", "x", "", None)
  const CardB := PecCard("b", "B", "x", "", None)
  const CardC := PecCard("c", "C", "x", "", None)

  /** Dragging the last of three cards onto the first puts it in front:
      [A, B, C] becomes [C, A, B]. */
  lemma {:induction false} ReorderLastOntoFirst()
    ensures Reorder([CardA, CardB, CardC], "c", "a") == [CardC, CardA, CardB]
  {
    var s := [CardA, CardB, CardC];
    FindIndexAt(s, "c", 2);
    FindIndexAt(s, "a", 0);
    assert RemoveAt(s, 2) == [CardA, CardB];
  }

  /** Reversing a drag between items that are not neighbours does not
      restore the order: [A, B, C] becomes [B, C, A] and then [B, A, C]. */
  lemma {:induction false} ReorderRoundTripNotGeneral()
    ensures Reorder([CardA, CardB, CardC], "a", "c") == [CardB, CardC, CardA]
    ensures Reorder(Reorder([CardA, CardB, CardC], "a", "c"), "c", "a") == [CardB, CardA, CardC]
  {
    var s := [CardA, CardB, CardC];
    FindIndexAt(s, "a", 0);
    FindIndexAt(s, "c", 2);
    assert RemoveAt(s, 0) == [CardB, CardC];
    var s' := [CardB, CardC, CardA];
    FindIndexAt(s', "c", 1);
    FindIndexAt(s', "a", 2);
    assert RemoveAt(s', 1) == [CardB, CardA];
  }

  /** The home screen's state. */
  class HomePage {
    var cards: seq<PecCard>
    var phraseCards: seq<PecCard>

    constructor ()
      ensures cards == [] && phraseCards == []
    {
      cards := [];
      phraseCards := [];
    }

    /** Puts a new card, stamped with the caller's clock reading as its id,
        at the head of the library. */
    method AddCardToLibrary(draft: CardDraft, now: string)
      modifies this
      ensures cards == [WithId(draft, now)] + old(cards)
      ensures phraseCards == old(phraseCards)
    {
      var newCard := PecCard(now, draft.name, draft.category, draft.imageSrc, draft.isFavorite);
      cards := [newCard] + cards;
    }

    /** Appends the card at the tail of the phrase, duplicates included. */
    method AddCardToPhrase(card: PecCard)
      modifies this
      ensures phraseCards == old(phraseCards) + [card]
      ensures cards == old(cards)
    {
      phraseCards := phraseCards + [card];
    }

    method RemoveCardFromPhrase(cardId: string)
      modifies this
      ensures phraseCards == RemoveId(old(phraseCards), cardId)
      ensures cards == old(cards)
    {
      phraseCards := Seqs.Filter(phraseCards, (c: PecCard) => c.id != cardId);
    }

    /** Locates both cards, then splices a copy twice: out at the dragged
        card's index, in at the target's index found before the removal. */
    method ReorderPhraseCards(draggedId: string, targetId: string)
      modifies this
      ensures phraseCards == Reorder(old(phraseCards), draggedId, targetId)
      ensures cards == old(cards)
    {
      var dragIndex := FindIndex(phraseCards, draggedId);
      var targetIndex := FindIndex(phraseCards, targetId);
      if dragIndex > -1 && targetIndex > -1 {
        var newCards := phraseCards;
        var draggedItem := newCards[dragIndex];
        newCards := newCards[..dragIndex] + newCards[dragIndex + 1..];
        newCards := newCards[..targetIndex] + [draggedItem] + newCards[targetIndex..];
        phraseCards := newCards;
      }
    }

    method ClearPhrase()
      modifies this
      ensures phraseCards == [] && cards == old(cards)
    {
      phraseCards := [];
    }

    /** Removes the card from the library and, cascading, from the phrase. */
    method DeleteCardFromLibrary(cardId: string)
      modifies this
      ensures cards == RemoveId(old(cards), cardId)
      ensures phraseCards == RemoveId(old(phraseCards), cardId)
    {
      cards := Seqs.Filter(cards, (c: PecCard) => c.id != cardId);
      phraseCards := Seqs.Filter(phraseCards, (c: PecCard) => c.id != cardId);
    }
  }
}

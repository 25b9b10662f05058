/** The library page: the signed-in user's cards, a category filter whose
    choices are derived from the cards, and card deletion. */
module Library {
  import opened Wrappers
  import opened Types
  import Seqs
  import Text
  import opened Toasts
  import Backend
  import Cards

  /** The filter choice that shows every card. */
  const AllCategories := "all"

  const LoadErrorToast := Toast("Erro", "Não foi possível carregar seus cartões.", true)
  const DeletedToast := Toast("Sucesso", "Cartão removido da biblioteca.", false)
  const DeleteErrorToast := Toast("Erro", "Não foi possível deletar o cartão.", true)

  function CategoryOf(card: PecCard): string { card.category }

  /** The filter choices: "all", then each category once, in order of first use. */
  function Categories(cards: seq<PecCard>): seq<string>
  {
    [AllCategories] + Seqs.Distinct(Seqs.Map(cards, CategoryOf))
  }

  /** "all" comes first; after it, every category of a card appears exactly
      once and nothing else does. */
  lemma CategoriesSpec(cards: seq<PecCard>)
    ensures Categories(cards)[0] == AllCategories
    ensures forall c :: c in Categories(cards)[1..] <==> exists i :: 0 <= i < |cards| && cards[i].category == c
    ensures forall i, j :: 1 <= i < j < |Categories(cards)| ==> Categories(cards)[i] != Categories(cards)[j]
  {
    var names := Seqs.Map(cards, CategoryOf);
    var r := Categories(cards);
    assert r[1..] == Seqs.Distinct(names);
    forall c ensures c in r[1..] <==> exists i :: 0 <= i < |cards| && cards[i].category == c {
      if c in names {
        var i :| 0 <= i < |names| && names[i] == c;
        assert cards[i].category == c;
      }
      if exists i :: 0 <= i < |cards| && cards[i].category == c {
        var i :| 0 <= i < |cards| && cards[i].category == c;
        assert names[i] == c;
      }
    }
  }

  /** The cards shown for the chosen category. */
  function FilteredCards(cards: seq<PecCard>, active: string): seq<PecCard>
  {
    if active == AllCategories then cards
    else Seqs.Filter(cards, (card: PecCard) => card.category == active)
  }

  /** "all" shows every card; any other choice shows exactly the cards of
      that category, each as often as in the library. */
  lemma FilteredCardsSpec(cards: seq<PecCard>, active: string)
    ensures active == AllCategories ==> FilteredCards(cards, active) == cards
    ensures active != AllCategories ==>
              forall card :: multiset(FilteredCards(cards, active))[card] ==
                             if card.category == active then multiset(cards)[card] else 0
  {
    if active != AllCategories {
      Seqs.FilterCount(cards, (card: PecCard) => card.category == active);
    }
  }

  /** Choosing a category offered by the filter never shows an empty list. */
  lemma OfferedCategoryNotEmpty(cards: seq<PecCard>, c: string)
    requires c in Categories(cards)[1..]
    ensures FilteredCards(cards, c) != []
  {
    CategoriesSpec(cards);
    var i :| 0 <= i < |cards| && cards[i].category == c;
    if c == AllCategories {
      assert cards[i] in FilteredCards(cards, c);
    } else {
      FilteredCardsSpec(cards, c);
      assert multiset(cards)[cards[i]] > 0;
      assert multiset(FilteredCards(cards, c))[cards[i]] > 0;
    }
  }

  /** "1 cartão criados", "2 cartões criados". */
  function CountLabel(n: nat): string
  {
    Text.Decimal(n) + " " + (if n == 1 then "cartão" else "cartões") + " criados"
  }

  /** The label counts the cards, and reads "cartão" in the singular
      exactly when there is one card. */
  lemma CountLabelSingular(n: nat)
    ensures Text.StartsWith(CountLabel(n), Text.Decimal(n) + " ")
    ensures Text.EndsWith(CountLabel(n), " cartão criados") <==> n == 1
  {
    var s := CountLabel(n);
    var d := Text.Decimal(n);
    if n == 1 {
      assert s == d + " cartão criados";
    } else {
      assert s == d + " cartões criados";
      assert s[|s| - 15] == 'c';
    }
    assert s[..|d| + 1] == d + " ";
  }

  class LibraryPage {
    var cards: seq<PecCard>
    var activeCategory: string
    var isLoading: bool
    var toasts: seq<Toast>

    constructor ()
      ensures cards == [] && activeCategory == AllCategories && isLoading && toasts == []
    {
      cards := [];
      activeCategory := AllCategories;
      isLoading := true;
      toasts := [];
    }

    /** The skeleton is shown while authentication or loading is pending. */
    predicate ShowsSkeleton(authLoading: bool)
      reads this
    {
      authLoading || isLoading
    }

    /** Loads the library once authentication has settled: nothing while it
        is pending, no request without a signed-in user, otherwise the
        fetched cards or an error toast. */
    method LoadCards(db: Backend.Db, authLoading: bool, signedIn: bool)
      modifies this`cards, this`isLoading, this`toasts
      ensures authLoading ==> cards == old(cards) && isLoading == old(isLoading) && toasts == old(toasts)
      ensures !authLoading && !signedIn ==> cards == old(cards) && !isLoading && toasts == old(toasts)
      ensures !authLoading && signedIn && db.user.Some? ==>
                cards == Cards.LibraryOf(db.cardRows, db.user.value) && !isLoading && toasts == old(toasts)
      ensures !authLoading && signedIn && db.user.None? ==>
                cards == old(cards) && !isLoading && toasts == old(toasts) + [LoadErrorToast]
    {
      if authLoading {
        return;
      }
      if !signedIn {
        isLoading := false;
        return;
      }
      isLoading := true;
      var fetched := Cards.GetCards(db);
      if fetched.Ok? {
        cards := fetched.value;
      } else {
        toasts := toasts + [LoadErrorToast];
      }
      isLoading := false;
    }

    method SelectCategory(category: string)
      modifies this`activeCategory
      ensures activeCategory == category
    {
      activeCategory := category;
    }

    /** Deletes the card in the backend, then drops it from the list. */
    method DeleteCardFromLibrary(db: Backend.Db, cardId: string)
      modifies this`cards, this`toasts, db`cardRows, db`objects
      ensures db.user.Some? ==>
                cards == Seqs.Filter(old(cards), (c: PecCard) => c.id != cardId) &&
                toasts == old(toasts) + [DeletedToast] &&
                db.cardRows == Cards.RemoveWhere(old(db.cardRows), cardId, db.user.value) &&
                db.objects == Cards.ObjectsAfterDelete(old(db.objects), Cards.Matching(old(db.cardRows), cardId, db.user.value), db.buckets)
      ensures db.user.None? ==>
                cards == old(cards) && toasts == old(toasts) + [DeleteErrorToast] &&
                db.cardRows == old(db.cardRows) && db.objects == old(db.objects)
    {
      var r := Cards.DeleteCard(db, cardId);
      if r.Ok? {
        cards := Seqs.Filter(cards, (c: PecCard) => c.id != cardId);
        toasts := toasts + [DeletedToast];
      } else {
        toasts := toasts + [DeleteErrorToast];
      }
    }
  }
}

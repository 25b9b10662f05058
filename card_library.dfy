/** The card grid both pages render: it lays out one library card per card
    and hands each of them the callbacks it forwards. */
module CardLibrary {
  import opened Wrappers
  import opened Types
  import CardView
  import Library

  /** What a page passes to the grid. Callbacks are represented by whether
      the page passed them. */
  datatype GridProps = GridProps(
    cards: seq<PecCard>, categories: seq<string>, activeCategory: string,
    hasSelectCategory: bool, hasDeleteCard: bool, hasReorderInPhrase: bool, hasAddToPhrase: bool)

  /** The library page's grid: the filtered cards, the category choices and
      every callback except reorder (the add callback is a no-op there). */
  function LibraryPageGrid(cards: seq<PecCard>, active: string): GridProps
  {
    GridProps(Library.FilteredCards(cards, active), Library.Categories(cards), active, true, true, false, true)
  }

  /** The home page's grid: all cards, delete and reorder callbacks only. */
  function HomePageGrid(cards: seq<PecCard>): GridProps
  {
    GridProps(cards, [], Library.AllCategories, false, true, true, false)
  }

  /** The props of each rendered card, as written: the grid declares only
      the cards and the delete and reorder callbacks, so an add callback is
      dropped. */
  function CardProps(grid: GridProps, card: PecCard): CardView.Props
  {
    CardView.Props(card, CardView.InLibrary, grid.hasDeleteCard, false, grid.hasReorderInPhrase, false, None)
  }

  /** As written, the grid renders no category control. */
  function CategoryControl(grid: GridProps): Option<seq<string>>
  {
    None
  }

  /** As written, no grid card offers adding to the phrase whatever the page
      passes, and no grid offers a category choice, so the library page's
      filter never leaves "all" and shows every card. */
  lemma GridDropsProps(grid: GridProps, card: PecCard, cards: seq<PecCard>)
    ensures CardView.AddButtonAction(CardProps(grid, card)) == None
    ensures CardView.DeleteButtonAction(CardProps(grid, card)) ==
              (if grid.hasDeleteCard then Some(card.id) else None)
    ensures CategoryControl(grid) == None
    ensures LibraryPageGrid(cards, Library.AllCategories).cards == cards
  {
  }

  /** The props of each rendered card when the grid forwards the add callback. */
  function CardPropsCorrected(grid: GridProps, card: PecCard): CardView.Props
  {
    CardView.Props(card, CardView.InLibrary, grid.hasDeleteCard, false, grid.hasReorderInPhrase, grid.hasAddToPhrase, None)
  }

  /** The category control when the grid forwards the category props: the
      page's choices whenever it passes a selection callback. */
  function CategoryControlCorrected(grid: GridProps): Option<seq<string>>
  {
    if grid.hasSelectCategory then Some(grid.categories) else None
  }

  /** Corrected, a grid card offers adding exactly when the page passes the
      callback, and adding hands over that card; the library page offers its
      category choices, "all" first, so other categories become reachable. */
  lemma GridForwardsPropsCorrected(grid: GridProps, card: PecCard, cards: seq<PecCard>, active: string)
    ensures CardView.AddButtonAction(CardPropsCorrected(grid, card)) ==
              (if grid.hasAddToPhrase then Some(card) else None)
    ensures CardView.DeleteButtonAction(CardPropsCorrected(grid, card)) ==
              (if grid.hasDeleteCard then Some(card.id) else None)
    ensures CategoryControlCorrected(LibraryPageGrid(cards, active)) == Some(Library.Categories(cards))
    ensures Library.Categories(cards)[0] == Library.AllCategories
    ensures CategoryControlCorrected(HomePageGrid(cards)) == None
  {
    Library.CategoriesSpec(cards);
  }
}

/** The shared records of the application. */
module Types {
  import opened Wrappers

  /** A communication card. `isFavorite` is optional in the record: `None`
      stands for a card built without the field. */
  datatype PecCard = PecCard(id: string, name: string, category: string, imageSrc: string, isFavorite: Option<bool>)

  /** A card before it has an id (`Omit<PecCard, 'id'>`). */
  datatype CardDraft = CardDraft(name: string, category: string, imageSrc: string, isFavorite: Option<bool>)

  /** One element of an assembled phrase. Each variant carries its own `id`,
      distinct from the id of the card it may wrap; the card variant holds a
      full snapshot of the card, the text variant only its text. */
  datatype PhraseItem =
    | CardItem(id: string, data: PecCard)
    | TextItem(id: string, text: string)
  {
    /** The `type` discriminator of the JSON form. */
    function Type(): string
    {
      if CardItem? then "card" else "text"
    }
  }
}

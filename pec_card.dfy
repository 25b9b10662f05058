/** One card as rendered in the library or in the phrase: its drag payload,
    which drops it accepts, and what its buttons call back with. */
module CardView {
  import opened Wrappers
  import opened Types

  datatype Location = InLibrary | InPhrase

  /** The component's inputs. Callbacks are represented by whether the
      parent passed them; what they do is the parent's business. */
  datatype Props = Props(
    card: PecCard, location: Location,
    hasDeleteFromLibrary: bool, hasRemoveFromPhrase: bool, hasReorderInPhrase: bool, hasAddToPhrase: bool,
    idInPhrase: Option<string>)

  /** A JSON object placed on a drag: the item form `{ type, id, data }`
      or a bare card. */
  datatype DragData =
    | ItemPayload(kind: string, id: string, data: PecCard)
    | CardPayload(card: PecCard)
  {
    /** The object's `id` field. */
    function Id(): string
    {
      match this
      case ItemPayload(_, id, _) => id
      case CardPayload(card) => card.id
    }
  }

  /** The drag's data store: one JSON object per media type. */
  type DataTransfer = map<string, DragData>

  const ItemKey := "application/pec-ai-item"
  const CardKey := "application/pec-ai-card"

  /** A reorder request: move `draggedId` to where `targetId` is. */
  datatype ReorderCall = ReorderCall(draggedId: string, targetId: string)

  /** A present, non-empty string (JavaScript truthiness). */
  predicate Truthy(s: Option<string>)
  {
    s.Some? && s.value != ""
  }

  /** The id a dragged card announces: its id in the phrase when it has a
      non-empty one, else the card's own id. */
  function DragId(props: Props): string
  {
    if Truthy(props.idInPhrase) then props.idInPhrase.value else props.card.id
  }

  /** What starting a drag puts on the data store. */
  function DragStart(props: Props): (dt: DataTransfer)
    ensures dt.Keys == {ItemKey}
    ensures dt[ItemKey] == ItemPayload("card", DragId(props), props.card)
  {
    map[ItemKey := ItemPayload("card", DragId(props), props.card)]
  }

  /** A card accepts drags over it only in the phrase with a reorder callback. */
  predicate AcceptsDragOver(props: Props)
  {
    props.location == InPhrase && props.hasReorderInPhrase
  }

  /** The drop handler acts only in the phrase, with a reorder callback
      and an id in the phrase. */
  predicate DropGuard(props: Props)
  {
    props.location == InPhrase && props.hasReorderInPhrase && Truthy(props.idInPhrase)
  }

  /** The reorder a drop on this card requests, if any: only under the
      guard, only when the store holds an item object, and never for a card
      dropped on itself. */
  function DropAction(props: Props, dt: DataTransfer): Option<ReorderCall>
  {
    if DropGuard(props) && ItemKey in dt && dt[ItemKey].Id() != props.idInPhrase.value
    then Some(ReorderCall(dt[ItemKey].Id(), props.idInPhrase.value))
    else None
  }

  /** A drop requests a reorder exactly under the guard, from the dragged id
      to this card's id in the phrase. */
  lemma DropActionSpec(props: Props, dt: DataTransfer)
    ensures DropAction(props, dt).Some? <==>
              props.location == InPhrase && props.hasReorderInPhrase && Truthy(props.idInPhrase) &&
              ItemKey in dt && dt[ItemKey].Id() != props.idInPhrase.value
    ensures DropAction(props, dt).Some? ==>
              DropAction(props, dt).value.targetId == props.idInPhrase.value &&
              DropAction(props, dt).value.draggedId != DropAction(props, dt).value.targetId
  {
  }

  /** A card dragged onto another card of the phrase asks to move there. */
  lemma DragOntoOther(dragged: Props, target: Props)
    requires target.location == InPhrase && target.hasReorderInPhrase && Truthy(target.idInPhrase)
    requires DragId(dragged) != target.idInPhrase.value
    ensures DropAction(target, DragStart(dragged)) == Some(ReorderCall(DragId(dragged), target.idInPhrase.value))
  {
  }

  /** The delete button (library only) passes the card's id. */
  function DeleteButtonAction(props: Props): Option<string>
  {
    if props.location == InLibrary && props.hasDeleteFromLibrary then Some(props.card.id) else None
  }

  /** The remove button (phrase only, with an id in the phrase) passes that id. */
  function RemoveButtonAction(props: Props): Option<string>
  {
    if props.location == InPhrase && props.hasRemoveFromPhrase && Truthy(props.idInPhrase)
    then Some(props.idInPhrase.value) else None
  }

  /** The add button (library only) passes the whole card. */
  function AddButtonAction(props: Props): Option<PecCard>
  {
    if props.location == InLibrary && props.hasAddToPhrase then Some(props.card) else None
  }

  /** The buttons of a card are exclusive by location: a library card never
      offers removal from the phrase and a phrase card never offers deletion
      or adding. */
  lemma ButtonsByLocation(props: Props)
    ensures props.location == InLibrary ==> RemoveButtonAction(props).None?
    ensures props.location == InPhrase ==> DeleteButtonAction(props).None? && AddButtonAction(props).None?
    ensures DeleteButtonAction(props).Some? ==> DeleteButtonAction(props).value == props.card.id
    ensures RemoveButtonAction(props).Some? ==>
              props.idInPhrase.Some? && RemoveButtonAction(props).value == props.idInPhrase.value
  {
  }

  class PecCardView {
    const props: Props
    var isDragOver: bool
    var imageError: bool

    constructor (props: Props)
      ensures this.props == props && !isDragOver && !imageError
    {
      this.props := props;
      isDragOver := false;
      imageError := false;
    }

    /** The highlight is on only for a phrase card being dragged over. */
    predicate Highlighted()
      reads this
    {
      isDragOver && props.location == InPhrase
    }

    method HandleDragStart() returns (dt: DataTransfer)
      ensures dt == DragStart(props)
    {
      dt := map[ItemKey := ItemPayload("card", DragId(props), props.card)];
    }

    /** Accepting a drag turns the highlight on. */
    method HandleDragOver() returns (accepted: bool)
      modifies this`isDragOver
      ensures accepted == AcceptsDragOver(props)
      ensures isDragOver == (old(isDragOver) || accepted)
    {
      accepted := props.location == InPhrase && props.hasReorderInPhrase;
      if accepted {
        isDragOver := true;
      }
    }

    method HandleDragLeave()
      modifies this`isDragOver
      ensures !isDragOver
    {
      isDragOver := false;
    }

    /** A drop under the guard turns the highlight off and may request a reorder. */
    method HandleDrop(dt: DataTransfer) returns (call: Option<ReorderCall>)
      modifies this`isDragOver
      ensures call == DropAction(props, dt)
      ensures isDragOver == (if DropGuard(props) then false else old(isDragOver))
    {
      call := None;
      if props.location == InPhrase && props.hasReorderInPhrase && Truthy(props.idInPhrase) {
        isDragOver := false;
        if ItemKey in dt {
          var dragged := dt[ItemKey];
          if dragged.Id() != props.idInPhrase.value {
            call := Some(ReorderCall(dragged.Id(), props.idInPhrase.value));
          }
        }
      }
    }

    /** A broken image is replaced by a placeholder from then on. */
    method HandleImageError()
      modifies this`imageError
      ensures imageError
    {
      imageError := true;
    }
  }
}

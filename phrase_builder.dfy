/** The phrase strip: it receives dropped cards, lists the phrase's cards,
    and speaks the phrase aloud through the platform's speech synthesiser. */
module Builder {
  import opened Wrappers
  import opened Types
  import Seqs
  import Text
  import CardView
  import Phrases
  import Workspace

  function NameOf(card: PecCard): string { card.name }

  /** The text spoken: the card names in order, separated by ", ". */
  function SpokenText(cards: seq<PecCard>): string
  {
    Text.Join(Seqs.Map(cards, NameOf), ", ")
  }

  /** The phrase is silent exactly when it is empty or is one card whose
      name is blank; two or more cards always put a comma in the text. */
  lemma {:induction false} SpokenTextBlank(cards: seq<PecCard>)
    ensures Text.IsBlank(SpokenText(cards)) <==>
              |cards| == 0 || (|cards| == 1 && Text.IsBlank(cards[0].name))
  {
    var names := Seqs.Map(cards, NameOf);
    if |cards| == 1 {
      Text.JoinCons(names, ", ");
      assert SpokenText(cards) == cards[0].name;
    } else if |cards| >= 2 {
      Text.JoinCons(names, ", ");
      var s := SpokenText(cards);
      assert s == names[0] + ", " + Text.Join(names[1..], ", ");
      assert s[|names[0]|] == ',';
      assert !Text.IsJsWhitespace(s[|names[0]|]);
    }
  }

  /** Speaking separates names with ", " while the saved history separates
      labels with " ": the same two cards read differently in each. */
  lemma SpokenAndSavedTexts(a: PecCard, b: PecCard, i: string, j: string)
    ensures SpokenText([a, b]) == a.name + ", " + b.name
    ensures Phrases.PhraseText([CardItem(i, a), CardItem(j, b)]) == a.name + " " + b.name
  {
    var names := Seqs.Map([a, b], NameOf);
    assert names == [a.name, b.name];
    Text.JoinCons(names, ", ");
    Text.JoinCons(names[1..], ", ");
    var labels := Seqs.Map([CardItem(i, a), CardItem(j, b)], Phrases.Label);
    assert labels == [a.name, b.name];
    Text.JoinCons(labels, " ");
    Text.JoinCons(labels[1..], " ");
  }

  /** How each phrase card is rendered, as written: remove and reorder
      callbacks are passed, an id in the phrase is not. */
  function PhraseCardProps(card: PecCard): CardView.Props
  {
    CardView.Props(card, CardView.InPhrase, false, true, true, false, None)
  }

  /** As written, a phrase card highlights under a drag, but neither its
      remove button nor a drop on it ever calls back. */
  lemma PhraseCardsInert(card: PecCard, dt: CardView.DataTransfer)
    ensures CardView.AcceptsDragOver(PhraseCardProps(card))
    ensures CardView.RemoveButtonAction(PhraseCardProps(card)) == None
    ensures CardView.DropAction(PhraseCardProps(card), dt) == None
  {
  }

  /** Phrase cards rendered with their id as the id in the phrase. */
  function PhraseCardPropsCorrected(card: PecCard): CardView.Props
  {
    CardView.Props(card, CardView.InPhrase, false, true, true, false, Some(card.id))
  }

  /** Corrected, the remove button passes the card's id and dragging one
      phrase card onto another requests the reorder of the two. */
  lemma PhraseCardsWorkCorrected(dragged: PecCard, target: PecCard)
    requires dragged.id != "" && target.id != "" && dragged.id != target.id
    ensures CardView.RemoveButtonAction(PhraseCardPropsCorrected(target)) == Some(target.id)
    ensures CardView.DropAction(PhraseCardPropsCorrected(target), CardView.DragStart(PhraseCardPropsCorrected(dragged)))
            == Some(CardView.ReorderCall(dragged.id, target.id))
  {
    CardView.DragOntoOther(PhraseCardPropsCorrected(dragged), PhraseCardPropsCorrected(target));
  }

  /** The card a drop on the strip adds, as written: the strip reads the
      bare-card media type. */
  function BuilderDrop(dt: CardView.DataTransfer): Option<PecCard>
  {
    if CardView.CardKey in dt && dt[CardView.CardKey].CardPayload? then Some(dt[CardView.CardKey].card) else None
  }

  /** As written, a card dragged from anywhere is never added: cards put
      their payload under the item media type, which the strip does not read. */
  lemma DraggedCardNeverAdded(props: CardView.Props)
    ensures BuilderDrop(CardView.DragStart(props)) == None
  {
    assert CardView.CardKey != CardView.ItemKey;
  }

  /** The card a drop on the strip adds when it reads the item media type. */
  function BuilderDropCorrected(dt: CardView.DataTransfer): Option<PecCard>
  {
    if CardView.ItemKey !in dt then None
    else match dt[CardView.ItemKey]
      case ItemPayload(_, _, card) => Some(card)
      case CardPayload(card) => Some(card)
  }

  /** Corrected, dragging any card onto the strip adds exactly that card. */
  lemma DraggedCardAddedCorrected(props: CardView.Props)
    ensures BuilderDropCorrected(CardView.DragStart(props)) == Some(props.card)
  {
  }

  /** What one drop on a phrase card leads to: the card's reorder request,
      then the strip's addition if the event reaches the strip. */
  datatype DropOutcome = DropOutcome(reorder: Option<CardView.ReorderCall>, added: Option<PecCard>)

  /** The page's phrase after a drop's outcome: the reorder, then the addition. */
  function PhraseAfterDrop(phrase: seq<PecCard>, o: DropOutcome): seq<PecCard>
  {
    var reordered := if o.reorder.Some? then Workspace.Reorder(phrase, o.reorder.value.draggedId, o.reorder.value.targetId)
                     else phrase;
    if o.added.Some? then reordered + [o.added.value] else reordered
  }

  /** A drop on a phrase card with both corrections above and the event left
      to bubble: the card's drop handler never stops it, and the card sits
      inside the strip's drop zone, so the strip handles the same drop. */
  function DropOnPhraseCardBubbling(target: PecCard, dt: CardView.DataTransfer): DropOutcome
  {
    DropOutcome(CardView.DropAction(PhraseCardPropsCorrected(target), dt), BuilderDropCorrected(dt))
  }

  /** With the two corrections alone, dragging one phrase card onto another
      both reorders and appends the dragged card again: the phrase grows by
      a duplicate. */
  lemma CorrectionsAloneDuplicate(phrase: seq<PecCard>, dragged: PecCard, target: PecCard)
    requires dragged.id != "" && target.id != "" && dragged.id != target.id
    ensures var o := DropOnPhraseCardBubbling(target, CardView.DragStart(PhraseCardPropsCorrected(dragged)));
            o == DropOutcome(Some(CardView.ReorderCall(dragged.id, target.id)), Some(dragged)) &&
            |PhraseAfterDrop(phrase, o)| == |phrase| + 1 &&
            multiset(PhraseAfterDrop(phrase, o)) == multiset(phrase) + multiset{dragged}
  {
    PhraseCardsWorkCorrected(dragged, target);
    DraggedCardAddedCorrected(PhraseCardPropsCorrected(dragged));
    Workspace.ReorderSpec(phrase, dragged.id, target.id);
  }

  /** A drop on a phrase card when the card stops the event whenever its drop
      guard holds: a drop the card handles never reaches the strip. */
  function DropOnPhraseCard(target: PecCard, dt: CardView.DataTransfer): DropOutcome
  {
    var props := PhraseCardPropsCorrected(target);
    if CardView.DropGuard(props) then DropOutcome(CardView.DropAction(props, dt), None)
    else DropOutcome(None, BuilderDropCorrected(dt))
  }

  /** With the event stopped, dragging one phrase card onto another only
      reorders: the phrase keeps its cards, the dragged one at the target's place. */
  lemma PhraseCardDropReordersOnly(phrase: seq<PecCard>, dragged: PecCard, target: PecCard)
    requires dragged.id != "" && target.id != "" && dragged.id != target.id
    ensures var o := DropOnPhraseCard(target, CardView.DragStart(PhraseCardPropsCorrected(dragged)));
            o == DropOutcome(Some(CardView.ReorderCall(dragged.id, target.id)), None) &&
            PhraseAfterDrop(phrase, o) == Workspace.Reorder(phrase, dragged.id, target.id) &&
            multiset(PhraseAfterDrop(phrase, o)) == multiset(phrase)
  {
    PhraseCardsWorkCorrected(dragged, target);
    Workspace.ReorderSpec(phrase, dragged.id, target.id);
  }

  /** Calls made on the speech synthesiser. */
  datatype SpeechCall = Cancel | Speak(text: string, lang: string)

  const SpeechLang := "pt-BR"

  class PhraseBuilder {
    var isSpeaking: bool
    var isDragOver: bool
    /** The calls made on the synthesiser, oldest first. */
    var speech: seq<SpeechCall>

    constructor ()
      ensures !isSpeaking && !isDragOver && speech == []
    {
      isSpeaking := false;
      isDragOver := false;
      speech := [];
    }

    /** "Falar Frase" is disabled for an empty phrase or while speaking. */
    predicate SpeakDisabled(cards: seq<PecCard>)
      reads this
    {
      |cards| == 0 || isSpeaking
    }

    method HandleDragOver()
      modifies this`isDragOver
      ensures isDragOver
    {
      isDragOver := true;
    }

    method HandleDragLeave()
      modifies this`isDragOver
      ensures !isDragOver
    {
      isDragOver := false;
    }

    /** A drop ends the highlight and hands the dragged card, if any, to the
        page. It reads the media type cards write (`BuilderDropCorrected`);
        the strip as written reads another one (`BuilderDrop`). */
    method HandleDrop(dt: CardView.DataTransfer) returns (added: Option<PecCard>)
      modifies this`isDragOver
      ensures !isDragOver
      ensures added == BuilderDropCorrected(dt)
    {
      isDragOver := false;
      added := None;
      if CardView.ItemKey in dt {
        var dragged := dt[CardView.ItemKey];
        added := Some(if dragged.ItemPayload? then dragged.data else dragged.card);
      }
    }

    /** Speaks the phrase: nothing without a synthesiser, while speaking, or
        when the text is blank; otherwise cancels what is queued and speaks
        the names in Brazilian Portuguese. */
    method SpeakPhrase(cards: seq<PecCard>, synthAvailable: bool)
      modifies this`speech
      ensures var text := SpokenText(cards);
              if !synthAvailable || old(isSpeaking) || Text.IsBlank(text) then speech == old(speech)
              else speech == old(speech) + [Cancel, Speak(text, SpeechLang)]
    {
      if !synthAvailable || isSpeaking {
        return;
      }
      var text := Text.Join(Seqs.Map(cards, NameOf), ", ");
      if Text.IsBlank(text) {
        return;
      }
      speech := speech + [Cancel, Speak(text, SpeechLang)];
    }

    method OnSpeechStart()
      modifies this`isSpeaking
      ensures isSpeaking
    {
      isSpeaking := true;
    }

    /** The utterance ended or failed. */
    method OnSpeechEnd()
      modifies this`isSpeaking
      ensures !isSpeaking
    {
      isSpeaking := false;
    }

    /** Leaving the page silences the synthesiser. */
    method Unmount(synthAvailable: bool)
      modifies this`speech
      ensures speech == if synthAvailable then old(speech) + [Cancel] else old(speech)
    {
      if synthAvailable {
        speech := speech + [Cancel];
      }
    }
  }
}

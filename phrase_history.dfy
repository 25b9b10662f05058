/** The phrase history dialog: lists the saved phrases when opened, loads a
    chosen phrase into the workspace, and deletes a phrase after
    confirmation. */
module History {
  import opened Wrappers
  import opened Types
  import Seqs
  import Text
  import opened Toasts
  import Backend
  import Phrases

  const LoadErrorToast := Toast("Erro", "Não foi possível carregar o histórico de frases.", true)
  const DeletedToast := Toast("Frase deletada", "A frase foi removida do histórico.", false)
  const DeleteErrorToast := Toast("Erro", "Não foi possível deletar a frase.", true)

  function LoadedToast(phraseText: string): Toast
  {
    Toast("Frase carregada!", "\"" + phraseText + "\" foi adicionada à área de trabalho.", false)
  }

  /** "1 item", "3 itens". */
  function ItemCountLabel(n: nat): string
  {
    Text.Decimal(n) + " " + (if n == 1 then "item" else "itens")
  }

  /** The label counts the items, and reads "item" in the singular exactly
      when the phrase has one item. */
  lemma ItemCountLabelSingular(n: nat)
    ensures Text.StartsWith(ItemCountLabel(n), Text.Decimal(n) + " ")
    ensures Text.EndsWith(ItemCountLabel(n), " item") <==> n == 1
  {
    var s := ItemCountLabel(n);
    var d := Text.Decimal(n);
    if n != 1 {
      assert s == d + " itens";
      assert s[|s| - 5] == 'i';
    }
    assert s[..|d| + 1] == d + " ";
  }

  class PhraseHistory {
    var open: bool
    var phrases: seq<Backend.PhraseRow>
    var isLoading: bool
    /** The phrase awaiting confirmation of its deletion. */
    var deleteId: Option<string>
    var toasts: seq<Toast>
    /** The phrases handed to `onLoadPhrase`, oldest first. */
    var loaded: seq<seq<PhraseItem>>

    constructor ()
      ensures !open && phrases == [] && !isLoading && deleteId.None? && toasts == [] && loaded == []
    {
      open := false;
      phrases := [];
      isLoading := false;
      deleteId := None;
      toasts := [];
      loaded := [];
    }

    /** The confirmation dialog shows while a non-empty id awaits. */
    predicate ConfirmOpen()
      reads this
    {
      deleteId.Some? && deleteId.value != ""
    }

    /** Fetches the history; a failure keeps the old list and shows a toast. */
    method LoadPhrases(db: Backend.Db)
      modifies this`phrases, this`isLoading, this`toasts
      ensures db.user.Some? ==> phrases == Phrases.RecentPhrases(db.phraseRows, db.user.value) && toasts == old(toasts)
      ensures db.user.None? ==> phrases == old(phrases) && toasts == old(toasts) + [LoadErrorToast]
      ensures !isLoading
    {
      isLoading := true;
      var data := Phrases.GetSavedPhrases(db);
      if data.Ok? {
        phrases := data.value;
      } else {
        toasts := toasts + [LoadErrorToast];
      }
      isLoading := false;
    }

    /** Opening the dialog (a change from closed to open) fetches the history. */
    method SetOpen(db: Backend.Db, isOpen: bool)
      modifies this`open, this`phrases, this`isLoading, this`toasts
      ensures open == isOpen
      ensures isOpen && !old(open) && db.user.Some? ==> phrases == Phrases.RecentPhrases(db.phraseRows, db.user.value)
      ensures isOpen && !old(open) && db.user.None? ==>
                phrases == old(phrases) && toasts == old(toasts) + [LoadErrorToast]
      ensures !(isOpen && !old(open)) ==>
                phrases == old(phrases) && toasts == old(toasts) && isLoading == old(isLoading)
    {
      var opening := isOpen && !open;
      open := isOpen;
      if opening {
        LoadPhrases(db);
      }
    }

    /** Hands the phrase's items to the workspace and closes the dialog. */
    method HandleLoadPhrase(phrase: Backend.PhraseRow)
      modifies this`loaded, this`open, this`toasts
      ensures loaded == old(loaded) + [phrase.phraseData]
      ensures !open
      ensures toasts == old(toasts) + [LoadedToast(phrase.phraseText)]
    {
      loaded := loaded + [phrase.phraseData];
      open := false;
      toasts := toasts + [LoadedToast(phrase.phraseText)];
    }

    /** The trash button asks for confirmation. */
    method RequestDelete(phraseId: string)
      modifies this`deleteId
      ensures deleteId == Some(phraseId)
    {
      deleteId := Some(phraseId);
    }

    /** Closing the confirmation forgets the pending id. */
    method OnConfirmOpenChange(isOpen: bool)
      modifies this`deleteId
      ensures deleteId == if isOpen then old(deleteId) else None
    {
      if !isOpen {
        deleteId := None;
      }
    }

    /** Deletes in the backend, then drops the phrase from the list. */
    method HandleDeletePhrase(db: Backend.Db, phraseId: string)
      modifies this`phrases, this`toasts, this`deleteId, db`phraseRows
      ensures db.user.Some? ==>
                phrases == Seqs.Filter(old(phrases), (p: Backend.PhraseRow) => p.id != phraseId) &&
                toasts == old(toasts) + [DeletedToast] &&
                db.phraseRows == Phrases.RemovePhrase(old(db.phraseRows), phraseId, db.user.value)
      ensures db.user.None? ==>
                phrases == old(phrases) && toasts == old(toasts) + [DeleteErrorToast] &&
                db.phraseRows == old(db.phraseRows)
      ensures deleteId.None?
    {
      var r := Phrases.DeletePhrase(db, phraseId);
      if r.Ok? {
        phrases := Seqs.Filter(phrases, (p: Backend.PhraseRow) => p.id != phraseId);
        toasts := toasts + [DeletedToast];
      } else {
        toasts := toasts + [DeleteErrorToast];
      }
      deleteId := None;
    }

    /** "Deletar" deletes the pending phrase, if there is one. */
    method ConfirmDelete(db: Backend.Db)
      modifies this`phrases, this`toasts, this`deleteId, db`phraseRows
      ensures !old(ConfirmOpen()) ==>
                phrases == old(phrases) && toasts == old(toasts) && deleteId == old(deleteId) &&
                db.phraseRows == old(db.phraseRows)
      ensures old(ConfirmOpen()) && db.user.Some? ==>
                var id := old(deleteId).value;
                phrases == Seqs.Filter(old(phrases), (p: Backend.PhraseRow) => p.id != id) &&
                toasts == old(toasts) + [DeletedToast] &&
                db.phraseRows == Phrases.RemovePhrase(old(db.phraseRows), id, db.user.value)
      ensures old(ConfirmOpen()) && db.user.None? ==>
                phrases == old(phrases) && toasts == old(toasts) + [DeleteErrorToast] &&
                db.phraseRows == old(db.phraseRows)
      ensures old(ConfirmOpen()) ==> deleteId.None?
    {
      if deleteId.Some? && deleteId.value != "" {
        HandleDeletePhrase(db, deleteId.value);
      }
    }
  }
}

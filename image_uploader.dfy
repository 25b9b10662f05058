/** The "new card" dialog: the user picks an image file, the file is read as
    a data URI, the generation flow turns it into a card draft, and the draft
    is handed to the page. The asynchronous file read is split into the submit
    step and the reader's two callbacks. */
module Uploader {
  import opened Wrappers
  import opened Types
  import Generation
  import opened Toasts

  /** A selected file; its contents reach the model only as the data URI the
      reader produces. */
  datatype FileRef = FileRef(name: string)

  const NoFileToast := Toast("Erro", "Por favor, selecione uma imagem.", true)
  const AiErrorToast := Toast("Erro de IA", "Não foi possível gerar o cartão. Tente outra imagem.", true)
  const FileErrorToast := Toast("Erro de Arquivo", "Não foi possível ler o arquivo de imagem.", true)

  function SuccessToast(objectName: string): Toast
  {
    Toast("Sucesso!", "Cartão \"" + objectName + "\" criado e adicionado à biblioteca.", false)
  }

  /** The draft handed to the page for a generated card (no favourite flag). */
  function DraftOf(card: Generation.GeneratedCard): CardDraft
  {
    CardDraft(card.objectName, card.category, card.cardDataUri, None)
  }

  class ImageUploader {
    var isLoading: bool
    var open: bool
    var file: Option<FileRef>
    /** The toasts shown, oldest first. */
    var toasts: seq<Toast>
    /** The drafts passed to `onCardGenerated`, oldest first. */
    var generated: seq<CardDraft>

    constructor ()
      ensures !isLoading && !open && file.None? && toasts == [] && generated == []
    {
      isLoading := false;
      open := false;
      file := None;
      toasts := [];
      generated := [];
    }

    /** The generate button is disabled while loading or without a file. */
    predicate GenerateDisabled()
      reads this
    {
      isLoading || file.None?
    }

    /** Keeps the first selected file; an empty selection changes nothing. */
    method HandleFileChange(files: seq<FileRef>)
      modifies this`file
      ensures |files| > 0 ==> file == Some(files[0])
      ensures |files| == 0 ==> file == old(file)
    {
      if |files| > 0 {
        file := Some(files[0]);
      }
    }

    /** Without a file: an error toast and nothing else. With one: loading
        starts and the file is read (the read's outcome arrives through
        `OnReadLoad` or `OnReadError`). */
    method HandleSubmit() returns (readStarted: bool)
      modifies this`isLoading, this`toasts
      ensures readStarted <==> old(file).Some?
      ensures !readStarted ==> toasts == old(toasts) + [NoFileToast] && isLoading == old(isLoading)
      ensures readStarted ==> toasts == old(toasts) && isLoading
    {
      if file.None? {
        toasts := toasts + [NoFileToast];
        return false;
      }
      isLoading := true;
      readStarted := true;
    }

    /** The reader produced a data URI: the flow runs; on success the draft
        goes to the page, a success toast is shown, the dialog closes and the
        file is cleared; on failure only an error toast is shown. Loading ends
        either way. */
    method OnReadLoad(photoDataUri: string,
                      identify: string -> Option<Generation.Identification>,
                      synthesise: Generation.SynthesisInput -> Option<string>)
      modifies this`isLoading, this`open, this`file, this`toasts, this`generated
      ensures var result := Generation.IdentifyObjectAndGenerateCard(photoDataUri, identify, synthesise).result;
              && !isLoading
              && (result.Ok? ==>
                    generated == old(generated) + [DraftOf(result.value)] &&
                    toasts == old(toasts) + [SuccessToast(result.value.objectName)] &&
                    !open && file.None?)
              && (result.Err? ==>
                    generated == old(generated) && toasts == old(toasts) + [AiErrorToast] &&
                    open == old(open) && file == old(file))
    {
      var run := Generation.IdentifyObjectAndGenerateCard(photoDataUri, identify, synthesise);
      if run.result.Ok? {
        var card := run.result.value;
        generated := generated + [DraftOf(card)];
        toasts := toasts + [SuccessToast(card.objectName)];
        open := false;
        file := None;
      } else {
        toasts := toasts + [AiErrorToast];
      }
      isLoading := false;
    }

    /** The file could not be read. */
    method OnReadError()
      modifies this`isLoading, this`toasts
      ensures toasts == old(toasts) + [FileErrorToast] && !isLoading
    {
      toasts := toasts + [FileErrorToast];
      isLoading := false;
    }

    /** Opening or closing the dialog; closing forgets the file. */
    method OnOpenChange(isOpen: bool)
      modifies this`open, this`file
      ensures open == isOpen
      ensures !isOpen ==> file.None?
      ensures isOpen ==> file == old(file)
    {
      open := isOpen;
      if !isOpen {
        file := None;
      }
    }
  }

  /** A generated draft carries the recognised name and category and the
      synthesised image, never a favourite flag; recognition failing means no
      draft. */
  lemma GeneratedDraftSpec(photoDataUri: string,
                           identify: string -> Option<Generation.Identification>,
                           synthesise: Generation.SynthesisInput -> Option<string>)
    ensures var result := Generation.IdentifyObjectAndGenerateCard(photoDataUri, identify, synthesise).result;
            (identify(photoDataUri).None? ==> result.Err?) &&
            (result.Ok? ==>
               var id := identify(photoDataUri).value;
               DraftOf(result.value) ==
                 CardDraft(id.objectName, id.category,
                           synthesise(Generation.SynthesisInput(photoDataUri, id.objectName, id.category)).value, None))
  {
  }
}

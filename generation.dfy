/** The card-generation flow: recognise the object in a photo, then ask for a
    card image of it, failing early after either step. The two AI prompts are
    parameters returning `None` when the model gives no structured output; the
    run records the calls it made, in order. */
module Generation {
  import opened Wrappers

  /** Output of the recognition prompt. */
  datatype Identification = Identification(objectName: string, category: string)

  /** Input of the card-synthesis prompt. */
  datatype SynthesisInput = SynthesisInput(photoDataUri: string, objectName: string, category: string)

  /** Output of the whole flow. */
  datatype GeneratedCard = GeneratedCard(cardDataUri: string, objectName: string, category: string)

  datatype AiCall =
    | RecognitionCall(photoDataUri: string)
    | SynthesisCall(input: SynthesisInput)

  /** The result of one run together with the AI calls it made. */
  datatype FlowRun = FlowRun(result: Result<GeneratedCard>, calls: seq<AiCall>)

  const CouldNotIdentify := "Could not identify object."
  const CouldNotGenerate := "Could not generate card."

  function IdentifyObjectAndGenerateCard(
    photoDataUri: string,
    identify: string -> Option<Identification>,
    synthesise: SynthesisInput -> Option<string>
  ): (run: FlowRun)
    // recognition comes first, and there are at most two calls
    ensures 1 <= |run.calls| <= 2 && run.calls[0] == RecognitionCall(photoDataUri)
    // no recognition output: fail, and never call synthesis
    ensures identify(photoDataUri).None? ==>
              run.result == Err(CouldNotIdentify) && run.calls == [RecognitionCall(photoDataUri)]
    // synthesis gets the original photo and exactly the recognised fields;
    // without its output the run fails with no partial result, with it the
    // run returns both outputs unmodified
    ensures identify(photoDataUri).Some? ==>
              var id := identify(photoDataUri).value;
              var request := SynthesisInput(photoDataUri, id.objectName, id.category);
              && run.calls == [RecognitionCall(photoDataUri), SynthesisCall(request)]
              && (synthesise(request).None? ==> run.result == Err(CouldNotGenerate))
              && (synthesise(request).Some? ==>
                    run.result == Ok(GeneratedCard(synthesise(request).value, id.objectName, id.category)))
  {
    match identify(photoDataUri)
    case None => FlowRun(Err(CouldNotIdentify), [RecognitionCall(photoDataUri)])
    case Some(identification) =>
      var request := SynthesisInput(photoDataUri, identification.objectName, identification.category);
      var calls := [RecognitionCall(photoDataUri), SynthesisCall(request)];
      match synthesise(request)
      case None => FlowRun(Err(CouldNotGenerate), calls)
      case Some(cardDataUri) =>
        FlowRun(Ok(GeneratedCard(cardDataUri, identification.objectName, identification.category)), calls)
  }
}

/** The application state and its handlers (App.tsx). Each handler is one
    atomic transition: the state it leaves once its awaited call has settled,
    together with the vendor calls it issued. */
module App {
  import opened Wrappers
  import opened Strings
  import opened Types
  import DataUrls
  import GeminiService

  // The messages are written in pieces; each is the same text as one
  // literal, and the pieces let their characters be reasoned about.
  const EmptyPromptMessage := "Por favor, insira um prompt" + " ou uma imagem de referência" + " para criar."
  const MissingEditMessage := "Por favor, " + "descreva a edição" + " que você deseja fazer."
  const MissingImagesMessage := "Para unir imagens, " + "são necessárias duas imagens" + "."
  const MissingImageMessage := "Por favor, " + "envie uma imagem para editar" + "."
  const NoImageMessage := GeminiService.NoImagePhrase + "." + GeminiService.RetryHint
  const UnknownMimeMessage := "Não foi possível determinar o tipo de mime da imagem."

  /** The form record persisted between sessions: exactly these seven fields. */
  datatype Settings = Settings(
    prompt: string,
    mode: Mode,
    createFunction: CreateFunction,
    editFunction: EditFunction,
    image1: Option<ImageFile>,
    image2: Option<ImageFile>,
    aspectRatio: AspectRatio)

  /** The record used when nothing was saved (or it could not be read). */
  const DefaultSettings := Settings("", Create, Free, AddRemove, None, None, Ratio1x1)

  datatype AppState = AppState(
    prompt: string,
    mode: Mode,
    createFunction: CreateFunction,
    editFunction: EditFunction,
    image1: Option<ImageFile>,
    image2: Option<ImageFile>,
    aspectRatio: AspectRatio,
    isLoading: bool,
    generatedImage: Option<string>,
    error: Option<string>,
    lastCreateFunction: Option<CreateFunction>,
    lastSuccessfulPrompt: string,
    skeletonSourceImage: Option<ImageFile>)

  /** The part of the state that is persisted. */
  function SettingsOf(s: AppState): Settings {
    Settings(s.prompt, s.mode, s.createFunction, s.editFunction, s.image1, s.image2, s.aspectRatio)
  }

  /** `string | null` is truthy when present and non-empty. */
  predicate Present(s: Option<string>) {
    s.Some? && Truthy(s.value)
  }

  /** The state at start-up, from the saved record if there is one. */
  function Initial(saved: Option<Settings>): (s: AppState)
    ensures SettingsOf(s) == saved.GetOr(DefaultSettings)
    ensures !s.isLoading && s.generatedImage.None? && s.error.None?
    ensures s.lastCreateFunction.None? && s.lastSuccessfulPrompt == "" && s.skeletonSourceImage.None?
  {
    var c := saved.GetOr(DefaultSettings);
    AppState(c.prompt, c.mode, c.createFunction, c.editFunction, c.image1, c.image2, c.aspectRatio,
             false, None, None, None, "", None)
  }

  /** `resetToDefaults`; `confirmed` is the user's answer to the confirmation dialog. */
  function ResetToDefaults(s: AppState, confirmed: bool): (s': AppState)
    ensures !confirmed ==> s' == s
    ensures confirmed ==> s' == Initial(None) && SettingsOf(s') == DefaultSettings
  {
    if confirmed then
      s.(prompt := "", mode := Create, createFunction := Free, editFunction := AddRemove,
         image1 := None, image2 := None, generatedImage := None, error := None, isLoading := false,
         lastCreateFunction := None, lastSuccessfulPrompt := "", skeletonSourceImage := None,
         aspectRatio := Ratio1x1)
    else s
  }

  /** A call into the image service. */
  datatype Request =
    | GenerateImageRequest(prompt: string, func: CreateFunction, view: Option<OrthoView>, ratio: AspectRatio, image: Option<ImageFile>)
    | EditImageRequest(prompt: string, editFunc: EditFunction, image1: Option<ImageFile>, image2: Option<ImageFile>)
    | SkeletonRequest(source: ImageFile, orthoView: OrthoView)

  function Perform(req: Request, vendor: GeminiService.Vendor): (o: GeminiService.Outcome)
    ensures o.result.Success? ==> Truthy(o.result.value)
  {
    var o := match req
      case GenerateImageRequest(p, f, v, r, img) => GeminiService.GenerateImage(p, f, v, r, img, vendor)
      case EditImageRequest(p, f, i1, i2) => GeminiService.EditImage(p, f, i1, i2, vendor)
      case SkeletonRequest(src, v) => GeminiService.TransformImageToSkeleton(src, v, vendor);
    assert o.result.Success? ==> DataUrls.SchemeAt(o.result.value, 0);
    o
  }

  /** The validation of `handleGenerate`: the request it sends, or the
      message it throws before calling anything. */
  function GenerateRequest(s: AppState): (r: Result<Request>)
    // Create mode: rejected exactly when there is neither prompt nor image.
    ensures s.mode == Create ==> (r.Failure? <==> s.prompt == "" && s.image1.None?)
    ensures s.mode == Create && r.Failure? ==> r.error == EmptyPromptMessage
    ensures s.mode == Create && r.Success? ==>
      r.value == GenerateImageRequest(s.prompt, s.createFunction, None, s.aspectRatio, s.image1)
    // Edit mode, in this order: the description, then the images.
    ensures s.mode == Edit && s.prompt == "" ==> r == Failure(MissingEditMessage)
    ensures s.mode == Edit && s.prompt != "" && s.editFunction == Compose && (s.image1.None? || s.image2.None?) ==>
      r == Failure(MissingImagesMessage)
    ensures s.mode == Edit && s.prompt != "" && s.editFunction != Compose && s.image1.None? ==>
      r == Failure(MissingImageMessage)
    ensures s.mode == Edit && r.Success? ==>
      && s.prompt != "" && s.image1.Some?
      && (s.editFunction == Compose ==> s.image2.Some?)
      && r.value == EditImageRequest(s.prompt, s.editFunction, s.image1,
                                     if s.editFunction == Compose then s.image2 else None)
  {
    if s.mode == Create then
      if !Truthy(s.prompt) && s.image1.None? then Failure(EmptyPromptMessage)
      else Success(GenerateImageRequest(s.prompt, s.createFunction, None, s.aspectRatio, s.image1))
    else
      if !Truthy(s.prompt) then Failure(MissingEditMessage)
      else
        var isCompose := s.editFunction == Compose;
        if isCompose && (s.image1.None? || s.image2.None?) then Failure(MissingImagesMessage)
        else if !isCompose && s.image1.None? then Failure(MissingImageMessage)
        else Success(EditImageRequest(s.prompt, s.editFunction, s.image1, if isCompose then s.image2 else None))
  }

  /** A handler's effect: the state it leaves and the calls it issued. */
  datatype Step = Step(state: AppState, calls: seq<GeminiService.VendorCall>)

  /** The `catch`/`finally` tail shared by the handlers. A thrown message
      becomes the error; an image is shown in `recorded` (the state with the
      handler's success bookkeeping); a falsy image is itself an error; and
      the loading flag is cleared whatever happened. */
  function Settle(started: AppState, result: Result<string>, recorded: AppState): (s': AppState)
    ensures !s'.isLoading
    ensures result.Failure? ==> s' == started.(error := Some(result.error), isLoading := false)
    ensures result.Success? && Truthy(result.value) ==>
      s' == recorded.(generatedImage := Some(result.value), isLoading := false)
    ensures result == Success("") ==> s' == started.(error := Some(NoImageMessage), isLoading := false)
  {
    var finished :=
      match result
      case Failure(m) => started.(error := Some(m))
      case Success(img) => if Truthy(img) then recorded.(generatedImage := Some(img)) else started.(error := Some(NoImageMessage));
    finished.(isLoading := false)
  }

  /** `handleGenerate`. */
  function HandleGenerate(s: AppState, vendor: GeminiService.Vendor): (step: Step)
    ensures s.isLoading ==> step == Step(s, [])
    ensures !s.isLoading ==> !step.state.isLoading
    // The form itself is never touched by generating.
    ensures SettingsOf(step.state) == SettingsOf(s)
    // A validation error is shown and nothing is called.
    ensures !s.isLoading && GenerateRequest(s).Failure? ==>
      && step.calls == []
      && step.state.error == Some(GenerateRequest(s).error)
      && step.state.generatedImage.None?
    // Otherwise the request is sent and its outcome shown.
    ensures !s.isLoading && GenerateRequest(s).Success? ==>
      var o := Perform(GenerateRequest(s).value, vendor);
      && step.calls == o.calls
      && (o.result.Success? ==> step.state.generatedImage == Some(o.result.value))
      && (o.result.Failure? ==> step.state.error == Some(o.result.error))
    // Afterwards there is either an image or an error, never both.
    ensures !s.isLoading ==> (step.state.error.None? <==> step.state.generatedImage.Some?)
    ensures !s.isLoading ==> step.state.skeletonSourceImage.None?
    // A success records what was created: the function and prompt in Create
    // mode, nothing in Edit mode.
    ensures !s.isLoading && step.state.generatedImage.Some? && s.mode == Create ==>
      step.state.lastCreateFunction == Some(s.createFunction) && step.state.lastSuccessfulPrompt == s.prompt
    ensures !s.isLoading && step.state.generatedImage.Some? && s.mode == Edit ==>
      step.state.lastCreateFunction.None? && step.state.lastSuccessfulPrompt == s.lastSuccessfulPrompt
    ensures step.state.error.Some? ==>
      step.state.lastCreateFunction == s.lastCreateFunction && step.state.lastSuccessfulPrompt == s.lastSuccessfulPrompt
  {
    if s.isLoading then Step(s, [])
    else
      var started := s.(error := None, isLoading := true, generatedImage := None, skeletonSourceImage := None);
      match GenerateRequest(s)
      case Failure(m) => Step(Settle(started, Failure(m), started), [])
      case Success(req) =>
        var o := Perform(req, vendor);
        var recorded :=
          if s.mode == Create then started.(lastCreateFunction := Some(s.createFunction), lastSuccessfulPrompt := s.prompt)
          else started.(lastCreateFunction := None);
        Step(Settle(started, o.result, recorded), o.calls)
  }

  /** The reference image regeneration sends: the source keeps it for
      Miniature and whenever one is loaded, and it is null otherwise, which
      always comes down to the current primary image. */
  function RegenerationSource(func: CreateFunction, image1: Option<ImageFile>): (r: Option<ImageFile>)
    ensures r == image1
  {
    if func == Miniature || image1.Some? then image1 else None
  }

  /** The guard and request of `handleRegenerate`: nothing while loading,
      without a remembered prompt or function, or after a Skeleton result. */
  function RegenerateRequest(s: AppState): (r: Option<Request>)
    ensures r.None? <==>
      s.isLoading || s.lastSuccessfulPrompt == "" || s.lastCreateFunction.None? || s.lastCreateFunction == Some(Skeleton)
    ensures r.Some? ==>
      r.value == GenerateImageRequest(s.lastSuccessfulPrompt, s.lastCreateFunction.value, None, s.aspectRatio, s.image1)
  {
    if s.isLoading || !Truthy(s.lastSuccessfulPrompt) || s.lastCreateFunction.None? || s.lastCreateFunction.value == Skeleton then None
    else
      var func := s.lastCreateFunction.value;
      Some(GenerateImageRequest(s.lastSuccessfulPrompt, func, None, s.aspectRatio, RegenerationSource(func, s.image1)))
  }

  /** `handleRegenerate`. */
  function HandleRegenerate(s: AppState, vendor: GeminiService.Vendor): (step: Step)
    ensures RegenerateRequest(s).None? ==> step == Step(s, [])
    ensures RegenerateRequest(s).Some? ==>
      var o := Perform(RegenerateRequest(s).value, vendor);
      && step.calls == o.calls
      && !step.state.isLoading
      && (o.result.Success? ==> step.state.generatedImage == Some(o.result.value) && step.state.error.None?)
      && (o.result.Failure? ==> step.state.error == Some(o.result.error) && step.state.generatedImage.None?)
    // What was last created, and the form, are left alone.
    ensures step.state.lastCreateFunction == s.lastCreateFunction
    ensures step.state.lastSuccessfulPrompt == s.lastSuccessfulPrompt
    ensures step.state.skeletonSourceImage == s.skeletonSourceImage
    ensures SettingsOf(step.state) == SettingsOf(s)
  {
    match RegenerateRequest(s)
    case None => Step(s, [])
    case Some(req) =>
      var started := s.(error := None, isLoading := true, generatedImage := None);
      var o := Perform(req, vendor);
      Step(Settle(started, o.result, started), o.calls)
  }

  /** The dispatch of `handleGenerateOrthoView`: from the stored skeleton
      source image when there is one, else from the last prompt as a square
      text-to-skeleton generation without an image, else nothing. */
  function OrthoRequest(s: AppState, view: OrthoView): (r: Option<Request>)
    ensures s.isLoading ==> r.None?
    ensures !s.isLoading && s.skeletonSourceImage.Some? ==> r == Some(SkeletonRequest(s.skeletonSourceImage.value, view))
    ensures !s.isLoading && s.skeletonSourceImage.None? && s.lastSuccessfulPrompt != "" ==>
      r == Some(GenerateImageRequest(s.lastSuccessfulPrompt, Skeleton, Some(view), Ratio1x1, None))
    ensures s.skeletonSourceImage.None? && s.lastSuccessfulPrompt == "" ==> r.None?
  {
    if s.isLoading then None
    else
      var isImageToSkeleton := s.skeletonSourceImage.Some?;
      var isTextToSkeleton := !isImageToSkeleton && Truthy(s.lastSuccessfulPrompt);
      if !isImageToSkeleton && !isTextToSkeleton then None
      else if isImageToSkeleton then Some(SkeletonRequest(s.skeletonSourceImage.value, view))
      else Some(GenerateImageRequest(s.lastSuccessfulPrompt, Skeleton, Some(view), Ratio1x1, None))
  }

  /** `handleGenerateOrthoView`. */
  function HandleGenerateOrthoView(s: AppState, view: OrthoView, vendor: GeminiService.Vendor): (step: Step)
    ensures OrthoRequest(s, view).None? ==> step == Step(s, [])
    ensures OrthoRequest(s, view).Some? ==>
      var o := Perform(OrthoRequest(s, view).value, vendor);
      && step.calls == o.calls
      && !step.state.isLoading
      && (o.result.Success? ==>
            step.state.generatedImage == Some(o.result.value) && step.state.error.None?
            && step.state.lastCreateFunction == Some(Skeleton))
      && (o.result.Failure? ==>
            step.state.error == Some(o.result.error) && step.state.generatedImage.None?
            && step.state.lastCreateFunction == s.lastCreateFunction)
    ensures step.state.lastSuccessfulPrompt == s.lastSuccessfulPrompt
    ensures step.state.skeletonSourceImage == s.skeletonSourceImage
    ensures SettingsOf(step.state) == SettingsOf(s)
  {
    match OrthoRequest(s, view)
    case None => Step(s, [])
    case Some(req) =>
      var started := s.(error := None, isLoading := true, generatedImage := None);
      var o := Perform(req, vendor);
      Step(Settle(started, o.result, started.(lastCreateFunction := Some(Skeleton))), o.calls)
  }

  /** The image `handleGenerateSkeletonFromPrompt` recovers from the current
      data URL: the mime type captured by `/data:(.*);base64,/` and the
      payload after the first comma. */
  function ParseGeneratedImage(url: string): (r: Result<ImageFile>)
    ensures r.Failure? <==> forall i, j :: !DataUrls.MatchAt(url, i, j)
    ensures r.Failure? ==> r.error == UnknownMimeMessage
    ensures r.Success? ==> Some(r.value.mimeType) == DataUrls.MatchMimeType(url)
    ensures r.Success? ==> Some(r.value.base64) == DataUrls.SecondField(url)
  {
    match DataUrls.MatchMimeType(url)
    case None => Failure(UnknownMimeMessage)
    case Some(mime) =>
      DataUrls.MatchedHasPayload(url);
      Success(ImageFile(DataUrls.PayloadOf(url), mime))
  }

  /** Every image the service returns parses back to the inline part it came
      from, as long as that part's mime type and payload hold no comma and
      the mime type no line break. */
  lemma ParseGeneratedImageRoundTrip(mimeType: string, payload: string)
    requires ',' !in mimeType && ',' !in payload
    requires forall k | 0 <= k < |mimeType| :: !DataUrls.IsLineTerminator(mimeType[k])
    ensures ParseGeneratedImage(DataUrls.Format(mimeType, payload)) == Success(ImageFile(payload, mimeType))
  {
    DataUrls.ParseFormat(mimeType, payload);
  }

  /** `handleGenerateSkeletonFromPrompt`. */
  function HandleGenerateSkeletonFromPrompt(s: AppState, vendor: GeminiService.Vendor): (step: Step)
    ensures s.isLoading || !Present(s.generatedImage) ==> step == Step(s, [])
    ensures !s.isLoading && Present(s.generatedImage) ==>
      && !step.state.isLoading
      && step.state.lastSuccessfulPrompt == ""
      && match ParseGeneratedImage(s.generatedImage.value)
         case Failure(m) =>
           && step.calls == []
           && step.state.error == Some(m)
           && step.state.generatedImage.None?
           && step.state.skeletonSourceImage == s.skeletonSourceImage
         case Success(source) =>
           var o := Perform(SkeletonRequest(source, Front), vendor);
           && step.calls == o.calls
           && step.state.skeletonSourceImage == Some(source)
           && (o.result.Success? ==> step.state.generatedImage == Some(o.result.value) && step.state.lastCreateFunction == Some(Skeleton))
           && (o.result.Failure? ==> step.state.error == Some(o.result.error) && step.state.generatedImage.None?)
    ensures SettingsOf(step.state) == SettingsOf(s)
  {
    if s.isLoading || !Present(s.generatedImage) then Step(s, [])
    else
      var started := s.(error := None, isLoading := true, generatedImage := None, lastSuccessfulPrompt := "");
      match ParseGeneratedImage(s.generatedImage.value)
      case Failure(m) => Step(Settle(started, Failure(m), started), [])
      case Success(source) =>
        var withSource := started.(skeletonSourceImage := Some(source));
        var o := Perform(SkeletonRequest(source, Front), vendor);
        Step(Settle(withSource, o.result, withSource.(lastCreateFunction := Some(Skeleton))), o.calls)
  }

  const EditedImageMimeType := "image/png"

  /** `handleEditCurrentImage`: the current result becomes the image to edit. */
  function HandleEditCurrentImage(s: AppState): (s': AppState)
    ensures !Present(s.generatedImage) ==> s' == s
    ensures Present(s.generatedImage) ==>
      && s'.mode == Edit && s'.editFunction == AddRemove && s'.createFunction == Free
      && s'.prompt == "" && s'.image2.None? && s'.generatedImage.None? && s'.error.None?
      && s'.skeletonSourceImage.None? && s'.aspectRatio == Ratio1x1
      && s'.image1 == Some(ImageFile(DataUrls.PayloadOf(s.generatedImage.value), EditedImageMimeType))
      // What the handler does not mention stays.
      && s'.isLoading == s.isLoading
      && s'.lastCreateFunction == s.lastCreateFunction
      && s'.lastSuccessfulPrompt == s.lastSuccessfulPrompt
  {
    if !Present(s.generatedImage) then s
    else
      var image := ImageFile(DataUrls.PayloadOf(s.generatedImage.value), EditedImageMimeType);
      s.(mode := Edit, editFunction := AddRemove, createFunction := Free, prompt := "", image1 := Some(image),
         image2 := None, generatedImage := None, error := None, skeletonSourceImage := None, aspectRatio := Ratio1x1)
  }

  /** A validated Edit request always carries its primary image, so the
      service's own "primary image required" guard never fires from the app:
      exactly one call is made and its parts are built from the form. */
  lemma EditRequestHasPrimaryImage(s: AppState, vendor: GeminiService.Vendor)
    requires s.mode == Edit && GenerateRequest(s).Success?
    ensures var o := Perform(GenerateRequest(s).value, vendor);
      && o.calls == [GeminiService.GenerateContent(GeminiService.ImageModel,
           GeminiService.EditParts(s.prompt, s.editFunction, s.image1.value,
                                   if s.editFunction == Compose then s.image2 else None))]
      && o.result != Failure(GeminiService.PrimaryImageRequired)
  {
  }

  /** A Compose edit sends both images, first and second, before the text. */
  lemma ComposeSendsBothImages(s: AppState, vendor: GeminiService.Vendor)
    requires s.mode == Edit && s.editFunction == Compose && GenerateRequest(s).Success?
    ensures var parts := Perform(GenerateRequest(s).value, vendor).calls[0].parts;
      parts == [GeminiService.ImagePart(s.image1.value), GeminiService.ImagePart(s.image2.value),
                GeminiService.TextPart(s.prompt)]
  {
    var parts := GeminiService.EditParts(s.prompt, Compose, s.image1.value, s.image2);
    assert |parts| == 3;
  }

  /** Regenerating after a successful Create generation (other than
      Skeleton, and with a prompt) replays the very request that produced it. */
  lemma RegenerateReplaysCreate(s: AppState, vendor: GeminiService.Vendor)
    requires !s.isLoading && s.mode == Create && s.createFunction != Skeleton && s.prompt != ""
    requires HandleGenerate(s, vendor).state.generatedImage.Some?
    ensures RegenerateRequest(HandleGenerate(s, vendor).state) == Some(GenerateRequest(s).value)
  {
  }

  /** After a Skeleton generation regeneration is off; after a successful
      edit it is off too, because the edit forgets the remembered function. */
  lemma RegenerateAfterGenerate(s: AppState, vendor: GeminiService.Vendor)
    requires !s.isLoading && HandleGenerate(s, vendor).state.generatedImage.Some?
    ensures s.mode == Create && s.createFunction == Skeleton ==> RegenerateRequest(HandleGenerate(s, vendor).state).None?
    ensures s.mode == Edit ==> RegenerateRequest(HandleGenerate(s, vendor).state).None?
  {
  }

  /** Once a skeleton has been made from the current image, every
      orthographic view is taken from that same image. */
  lemma OrthoViewsFollowSkeletonSource(s: AppState, view: OrthoView, vendor: GeminiService.Vendor)
    requires !s.isLoading && Present(s.generatedImage)
    requires ParseGeneratedImage(s.generatedImage.value).Success?
    ensures OrthoRequest(HandleGenerateSkeletonFromPrompt(s, vendor).state, view)
         == Some(SkeletonRequest(ParseGeneratedImage(s.generatedImage.value).value, view))
    ensures RegenerateRequest(HandleGenerateSkeletonFromPrompt(s, vendor).state).None?
  {
  }

  /** A text-to-skeleton sheet keeps offering views from its prompt: after
      a successful Create Skeleton generation, every view is asked for with
      the same prompt, square, and no image. */
  lemma OrthoViewsFollowPrompt(s: AppState, view: OrthoView, vendor: GeminiService.Vendor)
    requires !s.isLoading && s.mode == Create && s.createFunction == Skeleton && s.prompt != ""
    requires HandleGenerate(s, vendor).state.generatedImage.Some?
    ensures OrthoRequest(HandleGenerate(s, vendor).state, view)
         == Some(GenerateImageRequest(s.prompt, Skeleton, Some(view), Ratio1x1, None))
  {
  }

  /** Editing the current image needs a description first; once one is
      typed, the single edit call opens with the image as a PNG part. */
  lemma EditCurrentThenGenerate(s: AppState, description: string, vendor: GeminiService.Vendor)
    requires !s.isLoading && Present(s.generatedImage)
    ensures HandleGenerate(HandleEditCurrentImage(s), vendor).calls == []
    ensures HandleGenerate(HandleEditCurrentImage(s), vendor).state.error == Some(MissingEditMessage)
    ensures description != "" ==>
      var step := HandleGenerate(HandleEditCurrentImage(s).(prompt := description), vendor);
      && |step.calls| == 1
      && step.calls[0].parts[0] == GeminiService.InlineData(DataUrls.PayloadOf(s.generatedImage.value), EditedImageMimeType)
  {
    var e := HandleEditCurrentImage(s).(prompt := description);
    if description != "" {
      EditRequestHasPrimaryImage(e, vendor);
    }
  }
}

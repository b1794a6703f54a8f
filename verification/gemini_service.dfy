/** The prompt construction, request shaping and result extraction of the
    image service (services/geminiService.ts). The vendor SDK is not part of
    the model: a `Vendor` value stands for its answers, and each operation
    returns the calls it would issue together with what it returns or
    throws. */
module GeminiService {
  import opened Wrappers
  import opened Strings
  import opened Types
  import DataUrls

  const ImageModel := "gemini-2.5-flash-image-preview"
  const TextModel := "gemini-2.5-flash"
  const ImagenModel := "imagen-4.0-generate-001"
  const PngMimeType := "image/png"

  const StickerPrefix := "A die-cut sticker of "
  const StickerSuffix := ", vibrant colors, high contrast, isolated on a white background."
  const TextPrefix := "A typographic logo design for \""
  const TextSuffix := "\", clean, modern, vector style, high resolution."
  const ComicPrefix := "A comic book panel illustration of "
  const ComicSuffix := ", in a dynamic, action-packed style with bold lines and vibrant colors, speech bubbles if necessary."
  const SkeletonPrefix := "Professional character design sheet for a 3D model of '"
  const SkeletonSheet := "'. Masterpiece quality, 8k resolution, ultra-detailed, and intricately designed. The character is depicted in full body, vibrant color with cinematic lighting, emphasizing detailed textures and materials. The style should be a high-quality digital painting, suitable for concept art trending on ArtStation. The character must be in a perfect T-pose (arms straight out to the sides, parallel to the ground) with hands open and palms flat, fingers straight and held close together (but not touching), with palms facing completely downwards. The legs should be in a neutral A-pose (feet slightly apart). The view is an orthographic projection isolated on a pure white background with no shadows, ideal for 3D modeling reference."
  const SkeletonFromImageBasePrompt := "Using the provided image as a reference, transform the character into a professional character design sheet for a 3D model. Masterpiece quality, 8k resolution, ultra-detailed, and intricately designed. The character must be depicted in full body, vibrant color with cinematic lighting, emphasizing detailed textures and materials. The style should be a high-quality digital painting, suitable for concept art trending on ArtStation. The character must be in a perfect T-pose (arms straight out to the sides, parallel to the ground) with hands open and palms flat, fingers straight and held close together (but not touching), with palms facing completely downwards. The legs should be in a neutral A-pose (feet slightly apart). The view is an orthographic projection isolated on a pure white background with no shadows, ideal for 3D modeling reference."
  const ColmapPrompt := "Generate a cinematic, photorealistic 4K keyframe image. A realistic statuette of the character from the reference image stands still in the center.\n\n**Base and Environment:** The character is on a simple, circular, matte gray concrete base. The base MUST feature high-contrast, non-repeating geometric markers (like checker patterns or fiducial markers) clearly visible on its surface to serve as tracking points for photogrammetry. The environment is a detailed skyscraper rooftop with industrial textures: concrete slabs and metal railings under a late afternoon sky.\n\n**Lighting and Camera:** Use soft, directional sunlight to cast long shadows and subtle highlights on the character. Simulate a cinematic full-frame camera with a 35mm lens, creating a shallow depth of field.\n\n**Composition:** The image must be full-frame and edge-to-edge clear. No vignettes, circular masks, or blurry edges. Maintain sharp focus on the character. The style is photorealistic, ensuring consistent lighting and texture detail, making it a perfect reference for NeRF training."
  const IdentifyPrompt := "Identifique o modelo principal nesta imagem (ex: carro, personagem, objeto). Responda apenas com o nome do modelo, de forma curta e descritiva."
  const ModelNameFallback := "modelo da imagem"
  const MiniaturePrefix := "Crie uma fotografia comercial de alta qualidade de uma miniatura em escala 1/7 de um(a) **"
  const MiniatureSuffix := "**, baseada na imagem fornecida, em estilo realista. A miniatura está sobre uma mesa de computador em um ambiente de estúdio. A miniatura tem uma base de acrílico redonda e transparente. Ao fundo, uma tela de computador exibe uma sessão de modelagem 3D desta miniatura. Ao lado da tela, há uma caixa de embalagem de brinquedo no estilo BANDAI com arte 2D original do modelo. A composição geral deve ser limpa e profissional. Se possível, a imagem final deve ter uma proporção de 16:9 (widescreen)."
  const VideoBasePrompt := "CRITICAL INSTRUCTION 1: The output video MUST be a SQUARE (1:1 aspect ratio).\nCRITICAL INSTRUCTION 2: The video must start CLEANLY. The very first frame MUST be the intended scene. There should be absolutely no preceding frames, flashes, black frames, or distorted images.\nCRITICAL INSTRUCTION 3: You MUST faithfully reproduce all details from the reference image. The character, its base, and especially the geometric markers on the base MUST be identical to the provided image. Do not alter, omit, or regenerate these elements. The goal is to animate the provided image, not to create a new one.\n\nCreate a SQUARE video with a total duration of exactly 5 seconds, in 4K resolution, that loops perfectly. The video animates the scene from the reference image, featuring the realistic statuette.\n\n**Video Structure (Total 5 seconds):**\n-   **Seconds 0-1 (The Clean Start):** The video MUST begin immediately with a perfectly static, clear, 1-second shot of the character as seen in the reference image. The first frame of the video file must be this static shot. Do not include any fade-in effects, transitions, or visual artifacts.\n-   **Seconds 1-5 (The Motion):** Immediately following the first static second, the camera begins a 4-second continuous motion.\n\n**Scene and Details (from reference image):**\nThe character, base, environment, and all visual elements (including the crucial high-contrast geometric markers for photogrammetry on the base) MUST be preserved exactly as they appear in the reference image. The environment, a detailed skyscraper rooftop with industrial textures under late afternoon lighting, should be coherently extended into a 360-degree panoramic view for the camera orbit.\n\n**Camera and Motion (during seconds 1-5):** Over these 4 seconds, the camera must perform a single, smooth, complete 360-degree orbit around the character. It should also have a slight vertical and horizontal drift (±5cm) to create a strong parallax effect, essential for 3D reconstruction. Simulate a cinematic full-frame camera with a 35mm lens, shallow depth of field, and high shutter speed.\n\n**Video Quality and Aspect Ratio (CRITICAL):**\nThe final output MUST be a SQUARE video with a 1:1 aspect ratio (e.g., 1080x1080 pixels). It is absolutely critical that the final video is NOT widescreen (16:9 or similar). The video must be full-frame and edge-to-edge clear. No vignettes, circular masks, black bars, or blurry edges. Maintain sharp focus on the character with minimal motion blur. Photorealistic. No audio. Ensure consistent lighting and texture detail across all frames for optimal NeRF training."
  const UserDetailsSeparator := "\n\nDetalhes adicionais do usuário: "

  const ColmapNeedsImage := "Para a função Colmap, é necessário enviar uma imagem de referência."
  const MiniatureNeedsImage := "Para a função Miniatura, é necessário enviar uma imagem."
  // The "no image returned" messages are written in pieces, each the same
  // text as one literal; the pieces keep reasoning about their characters
  // small.
  /** The phrase every "no image returned" message starts with. */
  const NoImagePhrase := "A API não retornou uma imagem"
  const RetryHint := " Tente novamente."
  const ColmapNoImage := NoImagePhrase + " para a função Colmap." + RetryHint
  const MiniatureNoImage := NoImagePhrase + " para a função Miniatura." + RetryHint
  const ReferenceNoImage := "A API não retornou uma imagem ao usar a imagem de referência. Tente novamente."
  const TextToImageFailed := "Image generation failed or returned no images."
  const NoImage := NoImagePhrase + "." + RetryHint
  const PrimaryImageRequired := "Primary image is required for editing."

  /** One element of a request's or a response's `parts` list. */
  datatype Part = InlineData(data: string, mimeType: string) | TextPart(text: string)

  /** What the vendor answers. `identifyText` is the `.text` of the
      identification reply; `candidateParts` the parts of the first candidate
      of a content reply (absent when the reply has no candidate, content or
      parts); `generatedImages` the image bytes of a text-to-image reply. */
  datatype Vendor = Vendor(identifyText: string, candidateParts: Option<seq<Part>>, generatedImages: seq<string>)

  /** A request sent to the vendor. */
  datatype VendorCall =
    | GenerateContent(model: string, parts: seq<Part>)
    | GenerateImages(model: string, prompt: string, outputMimeType: string, aspectRatio: AspectRatio)

  /** The calls an operation issues, in order, and what it returns or throws. */
  datatype Outcome = Outcome(calls: seq<VendorCall>, result: Result<string>)

  function ImagePart(image: ImageFile): Part {
    InlineData(image.base64, image.mimeType)
  }

  /** The view an omitted `view` argument stands for. */
  function ViewOrFront(view: Option<OrthoView>): OrthoView {
    view.GetOr(Front)
  }

  function ViewSuffix(view: OrthoView): string {
    match view
    case Front => " Front view."
    case Back => " Back view."
    case SideLeft => " Left side view."
    case SideRight => " Right side view."
  }

  /** Whether the function wraps the user prompt in a fixed template. */
  predicate IsTemplated(func: CreateFunction) {
    func == Sticker || func == Text || func == Comic || func == Skeleton
  }

  /** The text prompt for a creative function: a fixed template around the
      user prompt for Sticker, Text, Comic and Skeleton (the Skeleton sheet
      closed by one view suffix), the prompt itself otherwise. */
  function AugmentedPrompt(prompt: string, func: CreateFunction, view: Option<OrthoView>): (r: string)
    ensures !IsTemplated(func) ==> r == prompt
    // Each template holds the user prompt unchanged between its two fixed parts.
    ensures func == Sticker ==> Frames(r, StickerPrefix, prompt, StickerSuffix)
    ensures func == Text ==> Frames(r, TextPrefix, prompt, TextSuffix)
    ensures func == Comic ==> Frames(r, ComicPrefix, prompt, ComicSuffix)
    ensures func == Skeleton ==> Frames(r, SkeletonPrefix, prompt, SkeletonSheet + ViewSuffix(ViewOrFront(view)))
  {
    match func
    case Sticker => Framed(StickerPrefix, prompt, StickerSuffix); StickerPrefix + prompt + StickerSuffix
    case Text => Framed(TextPrefix, prompt, TextSuffix); TextPrefix + prompt + TextSuffix
    case Comic => Framed(ComicPrefix, prompt, ComicSuffix); ComicPrefix + prompt + ComicSuffix
    case Skeleton =>
      var tail := SkeletonSheet + ViewSuffix(ViewOrFront(view));
      Framed(SkeletonPrefix, prompt, tail);
      SkeletonPrefix + prompt + tail
    case _ => prompt
  }

  /** The prompt that turns a reference image into one view of a character sheet. */
  function SkeletonFromImageViewPrompt(view: Option<OrthoView>): (r: string)
    ensures StartsWith(r, SkeletonFromImageBasePrompt)
    // Exactly the base text, then the view's closing sentence, and nothing else.
    ensures Frames(r, SkeletonFromImageBasePrompt, ViewSuffix(ViewOrFront(view)), "")
  {
    Framed(SkeletonFromImageBasePrompt, ViewSuffix(ViewOrFront(view)), "");
    assert SkeletonFromImageBasePrompt + ViewSuffix(ViewOrFront(view)) + ""
        == SkeletonFromImageBasePrompt + ViewSuffix(ViewOrFront(view));
    SkeletonFromImageBasePrompt + ViewSuffix(ViewOrFront(view))
  }

  /** A base prompt with the user's details appended when there are any. */
  function WithUserDetails(base: string, prompt: string): (r: string)
    ensures !Truthy(prompt) ==> r == base
    ensures Truthy(prompt) ==> StartsWith(r, base + UserDetailsSeparator) && EndsWith(r, prompt)
    ensures |r| == if Truthy(prompt) then |base| + |UserDetailsSeparator| + |prompt| else |base|
    ensures Truthy(prompt) ==> Frames(r, base + UserDetailsSeparator, prompt, "")
  {
    if Truthy(prompt) then
      Framed(base + UserDetailsSeparator, prompt, "");
      assert base + UserDetailsSeparator + prompt + "" == base + UserDetailsSeparator + prompt;
      base + UserDetailsSeparator + prompt
    else base
  }

  /** The identified model name: the trimmed identification text, or the
      fallback when that is empty. */
  function ModelName(identifyText: string): (r: string)
    ensures r != ""
    ensures AllWhitespace(identifyText) ==> r == ModelNameFallback
    ensures !AllWhitespace(identifyText) ==> r == Trim(identifyText) && !IsWhitespace(r[0]) && !IsWhitespace(r[|r| - 1])
  {
    TrimEmptyIff(identifyText);
    var name := Trim(identifyText);
    if Truthy(name) then name else ModelNameFallback
  }

  /** The Miniature generation prompt names the identified model between
      its fixed opening and closing text. */
  function MiniaturePrompt(modelName: string): (r: string)
    ensures Frames(r, MiniaturePrefix, modelName, MiniatureSuffix)
  {
    Framed(MiniaturePrefix, modelName, MiniatureSuffix);
    MiniaturePrefix + modelName + MiniatureSuffix
  }

  /** The prompt sent to the video endpoint. */
  function VideoFinalPrompt(prompt: string): (r: string)
    ensures StartsWith(r, VideoBasePrompt)
    ensures !Truthy(prompt) ==> r == VideoBasePrompt
    // A non-empty prompt follows the fixed instructions after the separator.
    ensures Truthy(prompt) ==> Frames(r, VideoBasePrompt + UserDetailsSeparator, prompt, "")
  {
    WithUserDetails(VideoBasePrompt, prompt)
  }

  /** The data URL of the first part that carries inline data. */
  function FirstInlineImage(parts: seq<Part>): (r: Option<string>)
    ensures r.None? <==> forall k | 0 <= k < |parts| :: !parts[k].InlineData?
    ensures r.Some? ==> exists k | 0 <= k < |parts| ::
      && parts[k].InlineData?
      && (forall m | 0 <= m < k :: !parts[m].InlineData?)
      && r.value == DataUrls.Format(parts[k].mimeType, parts[k].data)
  {
    if |parts| == 0 then None
    else if parts[0].InlineData? then Some(DataUrls.Format(parts[0].mimeType, parts[0].data))
    else
      var r := FirstInlineImage(parts[1..]);
      assert forall k | 1 <= k < |parts| :: parts[k] == parts[1..][k - 1];
      r
  }

  /** The image of a content reply, or the operation's error message. */
  function ExtractImage(candidateParts: Option<seq<Part>>, errorMessage: string): (r: Result<string>)
    ensures r.Failure? <==> candidateParts.None? || forall k | 0 <= k < |candidateParts.value| :: !candidateParts.value[k].InlineData?
    ensures r.Failure? ==> r.error == errorMessage
    ensures r.Success? ==> r.value == FirstInlineImage(candidateParts.value).value
    ensures r.Success? ==> DataUrls.SchemeAt(r.value, 0)
  {
    if candidateParts.Some? && FirstInlineImage(candidateParts.value).Some? then
      Success(FirstInlineImage(candidateParts.value).value)
    else Failure(errorMessage)
  }

  /** `generateImageApi`. */
  function GenerateImage(prompt: string, func: CreateFunction, view: Option<OrthoView>, ratio: AspectRatio,
                         image: Option<ImageFile>, vendor: Vendor): (o: Outcome)
    // Colmap and Miniature refuse to run without an image, before any call.
    ensures func == Colmap && image.None? ==> o == Outcome([], Failure(ColmapNeedsImage))
    ensures func == Miniature && image.None? ==> o == Outcome([], Failure(MiniatureNeedsImage))
    // Colmap: one multimodal call with the fixed Colmap prompt.
    ensures func == Colmap && image.Some? ==>
      o == Outcome([GenerateContent(ImageModel, [ImagePart(image.value), TextPart(ColmapPrompt)])],
                   ExtractImage(vendor.candidateParts, ColmapNoImage))
    // Miniature: identify, then generate with the identified name and the user's details.
    ensures func == Miniature && image.Some? ==>
      o == Outcome([GenerateContent(TextModel, [ImagePart(image.value), TextPart(IdentifyPrompt)]),
                    GenerateContent(ImageModel, [ImagePart(image.value),
                      TextPart(WithUserDetails(MiniaturePrompt(ModelName(vendor.identifyText)), prompt))])],
                   ExtractImage(vendor.candidateParts, MiniatureNoImage))
    // Every other function: the multimodal path with an image, text-to-image without one.
    ensures func != Colmap && func != Miniature && image.Some? ==>
      o == Outcome([GenerateContent(ImageModel, [ImagePart(image.value), TextPart(AugmentedPrompt(prompt, func, view))])],
                   ExtractImage(vendor.candidateParts, ReferenceNoImage))
    ensures func != Colmap && func != Miniature && image.None? ==>
      && o.calls == [GenerateImages(ImagenModel, AugmentedPrompt(prompt, func, view), PngMimeType, ratio)]
      && (o.result.Success? <==> |vendor.generatedImages| > 0)
      && (o.result.Success? ==> o.result.value == DataUrls.Format(PngMimeType, vendor.generatedImages[0]))
      && (o.result.Failure? ==> o.result.error == TextToImageFailed)
  {
    if func == Colmap then
      if image.None? then Outcome([], Failure(ColmapNeedsImage))
      else
        var parts := [ImagePart(image.value), TextPart(ColmapPrompt)];
        Outcome([GenerateContent(ImageModel, parts)], ExtractImage(vendor.candidateParts, ColmapNoImage))
    else if func == Miniature then
      if image.None? then Outcome([], Failure(MiniatureNeedsImage))
      else
        var identify := GenerateContent(TextModel, [ImagePart(image.value), TextPart(IdentifyPrompt)]);
        var finalPrompt := WithUserDetails(MiniaturePrompt(ModelName(vendor.identifyText)), prompt);
        var generate := GenerateContent(ImageModel, [ImagePart(image.value), TextPart(finalPrompt)]);
        Outcome([identify, generate], ExtractImage(vendor.candidateParts, MiniatureNoImage))
    else
      var augmented := AugmentedPrompt(prompt, func, view);
      if image.Some? then
        var parts := [ImagePart(image.value), TextPart(augmented)];
        Outcome([GenerateContent(ImageModel, parts)], ExtractImage(vendor.candidateParts, ReferenceNoImage))
      else
        var call := GenerateImages(ImagenModel, augmented, PngMimeType, ratio);
        if |vendor.generatedImages| > 0 then
          Outcome([call], Success(DataUrls.Format(PngMimeType, vendor.generatedImages[0])))
        else Outcome([call], Failure(TextToImageFailed))
  }

  /** `transformImageToSkeletonApi`. */
  function TransformImageToSkeleton(source: ImageFile, view: OrthoView, vendor: Vendor): (o: Outcome)
    // One image-model call: the source image, then the sheet text closed by the view.
    ensures |o.calls| == 1 && o.calls[0].GenerateContent? && o.calls[0].model == ImageModel
    ensures |o.calls[0].parts| == 2 && o.calls[0].parts[0] == ImagePart(source)
    ensures o.calls[0].parts[1] == TextPart(SkeletonFromImageViewPrompt(Some(view)))
    ensures StartsWith(o.calls[0].parts[1].text, SkeletonFromImageBasePrompt)
    ensures EndsWith(o.calls[0].parts[1].text, ViewSuffix(view))
    // The first inline image of the reply, or the generic "no image" message.
    ensures o.result.Failure? <==>
      vendor.candidateParts.None? || forall k | 0 <= k < |vendor.candidateParts.value| :: !vendor.candidateParts.value[k].InlineData?
    ensures o.result.Failure? ==> o.result.error == NoImage
    ensures o.result.Success? ==> o.result.value == FirstInlineImage(vendor.candidateParts.value).value
  {
    Framed(SkeletonFromImageBasePrompt, ViewSuffix(view), "");
    assert SkeletonFromImageViewPrompt(Some(view)) == SkeletonFromImageBasePrompt + ViewSuffix(view) + "";
    var parts := [ImagePart(source), TextPart(SkeletonFromImageViewPrompt(Some(view)))];
    Outcome([GenerateContent(ImageModel, parts)], ExtractImage(vendor.candidateParts, NoImage))
  }

  /** The parts of an edit request: the primary image, the secondary image
      only when composing, and the instruction text last. */
  function EditParts(prompt: string, func: EditFunction, image1: ImageFile, image2: Option<ImageFile>): (parts: seq<Part>)
    ensures 2 <= |parts| <= 3
    ensures parts[0] == ImagePart(image1)
    ensures parts[|parts| - 1] == TextPart(prompt)
    ensures |parts| == 3 <==> func == Compose && image2.Some?
    ensures |parts| == 3 ==> parts[1] == ImagePart(image2.value)
  {
    var images := if func == Compose && image2.Some? then [ImagePart(image1), ImagePart(image2.value)] else [ImagePart(image1)];
    images + [TextPart(prompt)]
  }

  /** `editImageApi`. */
  function EditImage(prompt: string, func: EditFunction, image1: Option<ImageFile>, image2: Option<ImageFile>,
                     vendor: Vendor): (o: Outcome)
    ensures image1.None? ==> o == Outcome([], Failure(PrimaryImageRequired))
    ensures image1.Some? ==>
      o == Outcome([GenerateContent(ImageModel, EditParts(prompt, func, image1.value, image2))],
                   ExtractImage(vendor.candidateParts, NoImage))
  {
    if image1.None? then Outcome([], Failure(PrimaryImageRequired))
    else Outcome([GenerateContent(ImageModel, EditParts(prompt, func, image1.value, image2))],
                 ExtractImage(vendor.candidateParts, NoImage))
  }

  /** Different user prompts give different augmented prompts: the user
      prompt is embedded verbatim and can be read back. */
  lemma AugmentedPromptInjective(p1: string, p2: string, func: CreateFunction, view: Option<OrthoView>)
    requires AugmentedPrompt(p1, func, view) == AugmentedPrompt(p2, func, view)
    ensures p1 == p2
  {
    var pre, post := "", "";
    match func {
      case Sticker => pre, post := StickerPrefix, StickerSuffix;
      case Text => pre, post := TextPrefix, TextSuffix;
      case Comic => pre, post := ComicPrefix, ComicSuffix;
      case Skeleton => pre, post := SkeletonPrefix, SkeletonSheet + ViewSuffix(ViewOrFront(view));
      case _ =>
    }
    assert AugmentedPrompt(p1, func, view) == pre + p1 + post;
    assert AugmentedPrompt(p2, func, view) == pre + p2 + post;
    Framed(pre, p1, post);
    Framed(pre, p2, post);
  }

  /** Two texts that end alike agree on their `k`-th character from the end. */
  lemma TailChar(r: string, t: string, k: int)
    requires 1 <= k <= |t| && k <= |r|
    ensures EndsWith(r, t) ==> r[|r| - k] == t[|t| - k]
  {
    if EndsWith(r, t) {
      assert r[|r| - |t|..][|t| - k] == r[|r| - k];
    }
  }

  /** The character, counted from the end, that tells a view suffix apart
      from the others: the 7th for all but the two side views, which differ
      at the 13th. */
  function Distinguisher(v: OrthoView, w: OrthoView): nat {
    if (v == SideLeft && w == SideRight) || (v == SideRight && w == SideLeft) then 13 else 7
  }

  /** A text that ends with one view's suffix ends with no other view's suffix. */
  lemma OneViewSuffix(r: string, v: OrthoView)
    requires EndsWith(r, ViewSuffix(v))
    ensures forall w :: EndsWith(r, ViewSuffix(w)) <==> w == v
  {
    var sv := ViewSuffix(v);
    forall w | w != v ensures !EndsWith(r, ViewSuffix(w)) {
      var sw := ViewSuffix(w);
      var k := Distinguisher(v, w);
      if |sw| <= |r| {
        assert sv[|sv| - k] != sw[|sw| - k];
        TailChar(r, sv, k);
        TailChar(r, sw, k);
      }
    }
  }

  /** The Skeleton prompt ends with exactly one view suffix: the requested
      view's, or the front view's when none is requested. */
  lemma SkeletonPromptView(prompt: string, view: Option<OrthoView>)
    ensures forall w :: EndsWith(AugmentedPrompt(prompt, Skeleton, view), ViewSuffix(w)) <==> w == ViewOrFront(view)
    ensures view.None? ==> EndsWith(AugmentedPrompt(prompt, Skeleton, view), " Front view.")
  {
    EndsWithTail(AugmentedPrompt(prompt, Skeleton, view), SkeletonSheet, ViewSuffix(ViewOrFront(view)));
    OneViewSuffix(AugmentedPrompt(prompt, Skeleton, view), ViewOrFront(view));
  }

  /** The image-to-skeleton prompt follows the same view rule over its own base text. */
  lemma SkeletonFromImagePromptView(view: Option<OrthoView>)
    ensures forall w :: EndsWith(SkeletonFromImageViewPrompt(view), ViewSuffix(w)) <==> w == ViewOrFront(view)
    ensures view.None? ==> SkeletonFromImageViewPrompt(view) == SkeletonFromImageViewPrompt(Some(Front))
  {
    var r := SkeletonFromImageViewPrompt(view);
    Framed(SkeletonFromImageBasePrompt, ViewSuffix(ViewOrFront(view)), "");
    assert r == SkeletonFromImageBasePrompt + ViewSuffix(ViewOrFront(view)) + "";
    OneViewSuffix(r, ViewOrFront(view));
  }

  /** Appending user details never loses them: the details can be read back
      after the separator, and different details give different prompts. */
  lemma UserDetailsRecoverable(base: string, p1: string, p2: string)
    ensures Truthy(p1) ==> WithUserDetails(base, p1)[|base| + |UserDetailsSeparator|..] == p1
    ensures WithUserDetails(base, p1) == WithUserDetails(base, p2) ==> p1 == p2
  {
    if Truthy(p1) {
      Framed(base + UserDetailsSeparator, p1, "");
      assert base + UserDetailsSeparator + p1 + "" == WithUserDetails(base, p1);
    }
    if Truthy(p2) {
      Framed(base + UserDetailsSeparator, p2, "");
      assert base + UserDetailsSeparator + p2 + "" == WithUserDetails(base, p2);
    }
  }

  /** A request is well shaped when its images come first and exactly one
      text part closes it. */
  predicate WellShaped(call: VendorCall) {
    call.GenerateContent? ==>
      && |call.parts| >= 2
      && call.parts[|call.parts| - 1].TextPart?
      && forall k | 0 <= k < |call.parts| - 1 :: call.parts[k].InlineData?
  }

  /** A generated image is always returned as a data URL. */
  lemma ResultIsDataUrl(prompt: string, func: CreateFunction, view: Option<OrthoView>, ratio: AspectRatio,
                        image: Option<ImageFile>, vendor: Vendor)
    ensures GenerateImage(prompt, func, view, ratio, image, vendor).result.Success? ==>
      DataUrls.SchemeAt(GenerateImage(prompt, func, view, ratio, image, vendor).result.value, 0)
  {
  }

  /** Every request the image generation issues is well shaped, and at most
      two are issued. */
  lemma RequestsWellShaped(prompt: string, func: CreateFunction, view: Option<OrthoView>, ratio: AspectRatio,
                           image: Option<ImageFile>, vendor: Vendor)
    ensures var calls := GenerateImage(prompt, func, view, ratio, image, vendor).calls;
      |calls| <= 2 && forall k | 0 <= k < |calls| :: WellShaped(calls[k])
  {
    if image.Some? && func == Miniature {
      MiniatureWellShaped(prompt, view, ratio, image.value, vendor);
    } else if image.Some? {
      MultimodalWellShaped(prompt, func, view, ratio, image.value, vendor);
    }
  }

  /** The two Miniature requests: identification, then generation. */
  lemma MiniatureWellShaped(prompt: string, view: Option<OrthoView>, ratio: AspectRatio, image: ImageFile, vendor: Vendor)
    ensures var calls := GenerateImage(prompt, Miniature, view, ratio, Some(image), vendor).calls;
      |calls| == 2 && forall k | 0 <= k < |calls| :: WellShaped(calls[k])
  {
    var finalPrompt := WithUserDetails(MiniaturePrompt(ModelName(vendor.identifyText)), prompt);
    ImageThenTextWellShaped(TextModel, image, IdentifyPrompt);
    ImageThenTextWellShaped(ImageModel, image, finalPrompt);
  }

  /** The one request of every other function given an image. */
  lemma MultimodalWellShaped(prompt: string, func: CreateFunction, view: Option<OrthoView>, ratio: AspectRatio,
                             image: ImageFile, vendor: Vendor)
    requires func != Miniature
    ensures var calls := GenerateImage(prompt, func, view, ratio, Some(image), vendor).calls;
      |calls| == 1 && WellShaped(calls[0])
  {
    var text := if func == Colmap then ColmapPrompt else AugmentedPrompt(prompt, func, view);
    ImageThenTextWellShaped(ImageModel, image, text);
  }

  /** A request of one image followed by one text is well shaped. */
  lemma ImageThenTextWellShaped(model: string, image: ImageFile, text: string)
    ensures WellShaped(GenerateContent(model, [ImagePart(image), TextPart(text)]))
  {
  }

  /** The edit request is well shaped too: its images, then its text. */
  lemma EditWellShaped(prompt: string, editFunc: EditFunction, image1: Option<ImageFile>,
                       image2: Option<ImageFile>, vendor: Vendor)
    ensures var calls := EditImage(prompt, editFunc, image1, image2, vendor).calls;
      forall k | 0 <= k < |calls| :: WellShaped(calls[k])
  {
    if image1.Some? {
      var parts := EditParts(prompt, editFunc, image1.value, image2);
      assert forall k | 0 <= k < |parts| - 1 :: parts[k].InlineData?;
      assert WellShaped(GenerateContent(ImageModel, parts));
    }
  }

  /** So is the skeleton request. */
  lemma SkeletonWellShaped(source: ImageFile, view: OrthoView, vendor: Vendor)
    ensures var calls := TransformImageToSkeleton(source, view, vendor).calls;
      forall k | 0 <= k < |calls| :: WellShaped(calls[k])
  {
    ImageThenTextWellShaped(ImageModel, source, SkeletonFromImageViewPrompt(Some(view)));
  }
}

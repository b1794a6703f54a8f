/** The selection rules of the form (components/LeftPanel.tsx): the menus it
    offers, what a click on a create function does to the aspect ratio,
    which sections are visible, and how an uploaded file is stored. */
module LeftPanel {
  import opened Wrappers
  import opened Types
  import DataUrls
  import App
  import GeminiService

  /** One card of a function menu: the value it selects and its label. */
  datatype MenuItem<K> = MenuItem(key: K, name: string)

  /** The create menu: Colmap and Animate are not offered. */
  const CreateMenu: seq<MenuItem<CreateFunction>> := [
    MenuItem(Free, "Prompt"),
    MenuItem(Sticker, "Adesivos"),
    MenuItem(Text, "Logo"),
    MenuItem(Comic, "HQ"),
    MenuItem(Skeleton, "Esqueleto 3D"),
    MenuItem(Miniature, "Miniatura")
  ]

  const EditMenu: seq<MenuItem<EditFunction>> := [
    MenuItem(AddRemove, "Adicionar"),
    MenuItem(Retouch, "Retoque"),
    MenuItem(Style, "Estilo"),
    MenuItem(Compose, "Unir")
  ]

  const RatioMenu: seq<MenuItem<AspectRatio>> := [
    MenuItem(Ratio1x1, "Quadrado"),
    MenuItem(Ratio16x9, "Widescreen"),
    MenuItem(Ratio9x16, "Vertical"),
    MenuItem(Ratio4x3, "Paisagem"),
    MenuItem(Ratio3x4, "Retrato")
  ]

  function Keys<K>(menu: seq<MenuItem<K>>): (keys: seq<K>)
    ensures |keys| == |menu|
    ensures forall i | 0 <= i < |menu| :: keys[i] == menu[i].key
  {
    if menu == [] then [] else [menu[0].key] + Keys(menu[1..])
  }

  /** No value is offered twice. */
  predicate Distinct<K(==)>(keys: seq<K>) {
    forall i, j | 0 <= i < j < |keys| :: keys[i] != keys[j]
  }

  /** The create menu offers six distinct functions: every create function
      except Colmap and Animate. */
  lemma CreateMenuOffers()
    ensures |CreateMenu| == 6 && Distinct(Keys(CreateMenu))
    ensures forall f :: f in Keys(CreateMenu) <==> f != Colmap && f != Animate
  {
    var keys := Keys(CreateMenu);
    assert keys == [Free, Sticker, Text, Comic, Skeleton, Miniature];
    forall f ensures f in keys <==> f != Colmap && f != Animate {
      match f
      case Free => assert keys[0] == f;
      case Sticker => assert keys[1] == f;
      case Text => assert keys[2] == f;
      case Comic => assert keys[3] == f;
      case Skeleton => assert keys[4] == f;
      case Miniature => assert keys[5] == f;
      case Colmap =>
      case Animate =>
    }
  }

  /** The edit menu offers each edit function once. */
  lemma EditMenuOffers()
    ensures |EditMenu| == 4 && Distinct(Keys(EditMenu))
    ensures forall f: EditFunction :: f in Keys(EditMenu)
  {
    var keys := Keys(EditMenu);
    assert keys == [AddRemove, Retouch, Style, Compose];
    forall f: EditFunction ensures f in keys {
      match f
      case AddRemove => assert keys[0] == f;
      case Retouch => assert keys[1] == f;
      case Style => assert keys[2] == f;
      case Compose => assert keys[3] == f;
    }
  }

  /** The ratio menu offers each of the five aspect ratios once. */
  lemma RatioMenuOffers()
    ensures |RatioMenu| == 5 && Distinct(Keys(RatioMenu))
    ensures forall r: AspectRatio :: r in Keys(RatioMenu)
  {
    var keys := Keys(RatioMenu);
    assert keys == [Ratio1x1, Ratio16x9, Ratio9x16, Ratio4x3, Ratio3x4];
    forall r: AspectRatio ensures r in keys {
      match r
      case Ratio1x1 => assert keys[0] == r;
      case Ratio16x9 => assert keys[1] == r;
      case Ratio9x16 => assert keys[2] == r;
      case Ratio4x3 => assert keys[3] == r;
      case Ratio3x4 => assert keys[4] == r;
    }
  }

  /** `handleCreateFunctionClick`: the clicked function is selected;
      Miniature brings the widescreen ratio, and leaving Miniature brings
      back the square one. Nothing else in the form changes. */
  function CreateFunctionClick(s: App.AppState, clicked: CreateFunction): (s': App.AppState)
    ensures s'.createFunction == clicked
    ensures clicked == Miniature ==> s'.aspectRatio == Ratio16x9
    ensures clicked != Miniature && s.createFunction == Miniature ==> s'.aspectRatio == Ratio1x1
    ensures clicked != Miniature && s.createFunction != Miniature ==> s'.aspectRatio == s.aspectRatio
    ensures s' == s.(createFunction := s'.createFunction, aspectRatio := s'.aspectRatio)
  {
    var selected := s.(createFunction := clicked);
    if clicked == Miniature then selected.(aspectRatio := Ratio16x9)
    else if s.createFunction == Miniature then selected.(aspectRatio := Ratio1x1)
    else selected
  }

  /** Clicking the same function twice does what clicking it once does. */
  lemma CreateFunctionClickIdempotent(s: App.AppState, clicked: CreateFunction)
    ensures CreateFunctionClick(CreateFunctionClick(s, clicked), clicked) == CreateFunctionClick(s, clicked)
  {
  }

  /** The aspect-ratio selector is shown in Create mode, for a function
      other than Miniature and Skeleton, when no reference image is loaded. */
  predicate AspectRatioVisible(s: App.AppState) {
    s.mode == Create && s.createFunction != Miniature && s.createFunction != Skeleton && s.image1.None?
  }

  /** The secondary upload is shown exactly for a Compose edit. */
  predicate SecondaryUploadVisible(s: App.AppState) {
    s.mode == Edit && s.editFunction == Compose
  }

  /** A file as read by the browser: its data URL and its declared type. */
  datatype UploadedFile = UploadedFile(dataUrl: string, fileType: string)

  /** `handleImageUpload`: clearing the upload stores nothing; otherwise
      the stored payload is the data URL's second comma-separated field
      (empty when there is none) and the mime type is the file's type. */
  function UploadImage(file: Option<UploadedFile>): (r: Option<ImageFile>)
    ensures file.None? <==> r.None?
    ensures file.Some? ==> r.value.mimeType == file.value.fileType
    ensures file.Some? && ',' !in file.value.dataUrl ==> r.value.base64 == ""
    ensures file.Some? && ',' in file.value.dataUrl ==>
      Some(r.value.base64) == DataUrls.SecondField(file.value.dataUrl)
  {
    match file
    case None => None
    case Some(f) => Some(ImageFile(DataUrls.PayloadOf(f.dataUrl), f.fileType))
  }

  /** Uploading a file the browser encoded as a base64 data URL stores
      exactly its payload and type. */
  lemma UploadRoundTrip(mimeType: string, payload: string)
    requires ',' !in mimeType && ',' !in payload
    requires forall k | 0 <= k < |mimeType| :: !DataUrls.IsLineTerminator(mimeType[k])
    ensures UploadImage(Some(UploadedFile(DataUrls.Format(mimeType, payload), mimeType)))
         == Some(ImageFile(payload, mimeType))
  {
    DataUrls.ParseFormat(mimeType, payload);
  }

  /** The widescreen ratio Miniature selects is never sent: Miniature never
      reaches the text-to-image call, which is the only one carrying a
      ratio. More generally, every ratio that is sent is the selected one,
      and it was selectable on screen unless the function is Skeleton. */
  lemma SentRatioWasSelectable(s: App.AppState, vendor: GeminiService.Vendor)
    requires !s.isLoading && s.mode == Create
    ensures forall c | c in App.HandleGenerate(s, vendor).calls && c.GenerateImages? ::
      c.aspectRatio == s.aspectRatio && (AspectRatioVisible(s) || s.createFunction == Skeleton)
  {
  }

  /** While the selector is visible, a generation from a description is one
      text-to-image call carrying exactly the ratio on screen, for every
      function but Colmap, which refuses to run without an image. */
  lemma VisibleRatioIsSent(s: App.AppState, vendor: GeminiService.Vendor)
    requires !s.isLoading && AspectRatioVisible(s) && s.prompt != ""
    ensures s.createFunction != Colmap ==>
      App.HandleGenerate(s, vendor).calls ==
        [GeminiService.GenerateImages(GeminiService.ImagenModel,
           GeminiService.AugmentedPrompt(s.prompt, s.createFunction, None),
           GeminiService.PngMimeType, s.aspectRatio)]
    ensures s.createFunction == Colmap ==> App.HandleGenerate(s, vendor).calls == []
  {
  }

  /** The secondary upload is on screen exactly when the request needs a
      second image: with a description and a primary image but no second
      one, an edit is refused precisely when the section is visible. */
  lemma SecondaryUploadShownWhenNeeded(s: App.AppState)
    requires s.mode == Edit && s.prompt != "" && s.image1.Some? && s.image2.None?
    ensures App.GenerateRequest(s).Failure? <==> SecondaryUploadVisible(s)
    ensures SecondaryUploadVisible(s) ==> App.GenerateRequest(s) == Failure(App.MissingImagesMessage)
  {
  }
}

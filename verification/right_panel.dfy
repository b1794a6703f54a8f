/** What the result panel shows (components/RightPanel.tsx): a loading
    indicator, the classified error, the image with its actions, or the
    placeholder, in that order of priority. */
module RightPanel {
  import opened Wrappers
  import opened Strings
  import opened Types
  import App
  import ErrorDisplay
  import GeminiService

  datatype View =
    | Loading
    | ErrorView(shown: ErrorDisplay.FriendlyError)
    | ImageView(url: string, skeletonButton: bool, orthoControls: bool)
    | Placeholder

  /** The functions whose result can be turned into a skeleton sheet. */
  const SkeletonSources: set<CreateFunction> := {Free, Text, Comic, Sticker, Miniature}

  /** The sources are every create function but Skeleton, Colmap and Animate. */
  lemma SkeletonSourcesComplement()
    ensures forall f :: f in SkeletonSources <==> f != Skeleton && f != Colmap && f != Animate
  {
    forall f ensures f in SkeletonSources <==> f != Skeleton && f != Colmap && f != Animate {
      match f
      case Free =>
      case Text =>
      case Comic =>
      case Sticker =>
      case Miniature =>
      case Skeleton =>
      case Colmap =>
      case Animate =>
    }
  }

  /** `canGenerateSkeleton`. */
  function CanGenerateSkeleton(lastCreateFunction: Option<CreateFunction>, lastPrompt: string): (r: bool)
    ensures r <==> lastCreateFunction.Some? && lastCreateFunction.value !in {Skeleton, Colmap, Animate} && lastPrompt != ""
  {
    SkeletonSourcesComplement();
    lastCreateFunction.Some? && lastCreateFunction.value in SkeletonSources && Truthy(lastPrompt)
  }

  /** `isSkeletonResult`. */
  predicate IsSkeletonResult(lastCreateFunction: Option<CreateFunction>) {
    lastCreateFunction == Some(Skeleton)
  }

  /** `renderContent`, reading the application state. */
  function RenderContent(s: App.AppState): (v: View)
    ensures s.isLoading <==> v.Loading?
    ensures v.ErrorView? <==> !s.isLoading && App.Present(s.error)
    ensures v.ErrorView? ==> v.shown == ErrorDisplay.FriendlyErrorOf(s.error.value)
    ensures v.ImageView? <==> !s.isLoading && !App.Present(s.error) && App.Present(s.generatedImage)
    ensures v.ImageView? ==>
      && Some(v.url) == s.generatedImage
      && (v.skeletonButton <==> CanGenerateSkeleton(s.lastCreateFunction, s.lastSuccessfulPrompt))
      && (v.orthoControls <==> s.lastCreateFunction == Some(Skeleton))
    ensures v.Placeholder? <==> !s.isLoading && !App.Present(s.error) && !App.Present(s.generatedImage)
  {
    if s.isLoading then Loading
    else if App.Present(s.error) then ErrorView(ErrorDisplay.FriendlyErrorOf(s.error.value))
    else if App.Present(s.generatedImage) then
      ImageView(s.generatedImage.value,
                CanGenerateSkeleton(s.lastCreateFunction, s.lastSuccessfulPrompt),
                IsSkeletonResult(s.lastCreateFunction))
    else Placeholder
  }

  /** The views the orthographic controls ask for, in button order. */
  const OrthoButtons: seq<OrthoView> := [Front, Back, SideLeft, SideRight]

  /** The four buttons ask for the four views, each once. */
  lemma OrthoButtonsCoverViews()
    ensures |OrthoButtons| == 4
    ensures forall i, j | 0 <= i < j < |OrthoButtons| :: OrthoButtons[i] != OrthoButtons[j]
    ensures forall v: OrthoView :: v in OrthoButtons
  {
    forall v: OrthoView ensures v in OrthoButtons {
      match v
      case Front => assert OrthoButtons[0] == v;
      case Back => assert OrthoButtons[1] == v;
      case SideLeft => assert OrthoButtons[2] == v;
      case SideRight => assert OrthoButtons[3] == v;
    }
  }

  /** A skeleton sheet offers the orthographic views and not another
      skeleton; the two actions are never offered together. */
  lemma SkeletonResultActions(s: App.AppState)
    requires RenderContent(s).ImageView?
    ensures s.lastCreateFunction == Some(Skeleton) ==>
      RenderContent(s).orthoControls && !RenderContent(s).skeletonButton
    ensures !(RenderContent(s).orthoControls && RenderContent(s).skeletonButton)
  {
  }

  /** The skeleton button is only offered when its handler will act: the
      panel is not loading and there is an image to start from. */
  lemma SkeletonButtonActs(s: App.AppState, vendor: GeminiService.Vendor)
    requires RenderContent(s).ImageView? && RenderContent(s).skeletonButton
    ensures App.HandleGenerateSkeletonFromPrompt(s, vendor).state.lastSuccessfulPrompt == ""
    ensures App.HandleGenerateSkeletonFromPrompt(s, vendor) != App.Step(s, [])
  {
  }

  /** The orthographic controls can be on screen while every one of them
      does nothing: after a Skeleton generation from a reference image with
      an empty prompt there is neither a stored source image nor a prompt. */
  lemma OrthoControlsCanBeInert(s: App.AppState, vendor: GeminiService.Vendor, view: OrthoView)
    requires !s.isLoading && s.mode == Create && s.createFunction == Skeleton
    requires s.prompt == "" && s.image1.Some?
    requires App.HandleGenerate(s, vendor).state.generatedImage.Some?
    ensures RenderContent(App.HandleGenerate(s, vendor).state).orthoControls
    ensures App.OrthoRequest(App.HandleGenerate(s, vendor).state, view).None?
  {
  }
}

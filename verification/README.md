# AI Imagem Studio — a Dafny model of its decision logic

AI Imagem Studio is a browser front end. The user types a prompt, picks a
creative function (Prompt, Adesivos, Logo, HQ, Esqueleto 3D, Miniatura) or an
edit function (Adicionar, Retoque, Estilo, Unir), optionally uploads one or
two reference images, and the application asks a generative-AI vendor for an
image. This project models the pure logic around those vendor calls and proves
properties of it:

- **the image service** (`GeminiService`, services/geminiService.ts):
  - the prompt templates of each creative function and the four orthographic
    view suffixes;
  - the rule that appends the user's details;
  - the Colmap and Miniature "image required" preconditions;
  - the choice between the multimodal path and the text-to-image path;
  - the part list of an edit request;
  - the extraction of the first inline image of a reply as a data URL;
  - the final-prompt rule of the video call.
- **the application state machine** (`App`, App.tsx):
  - the default and reset settings;
  - the validation order of `handleGenerate`;
  - the guards and dispatch of the regenerate, orthographic-view and
    skeleton-from-result handlers;
  - the edit-the-current-image transition;
  - the parse of a generated data URL back into an image.
- **data URLs** (`DataUrls`): the base64 form of section 3 of RFC 2397.
  - The model covers both the format the service builds and the way the
    application takes one apart.
  - The regular expression `/data:(.*);base64,/` is modelled exactly: the
    leftmost match, the greedy capture, and `.` not matching line
    terminators.
  - `split(',')[1]` is modelled as the second comma-separated field.
- **error classification** (`ErrorDisplay`, components/ErrorDisplay.tsx): the
  ordered substring classifier that turns a message into a title and a
  suggestion.
- **the two panels** (`LeftPanel`, `RightPanel`):
  - the menus;
  - the aspect-ratio side effect of picking a create function;
  - which sections are visible;
  - the upload payload;
  - the render priority of the result panel and its action buttons.
- **the 3D model service** (`MeshService`, services/meshService.ts): one
  task creation, then at most 60 status polls.

Conventions used throughout:

- **The vendor is an oracle.** A `GeminiService.Vendor` value stands for its
  answers. Each service operation returns an `Outcome`: the calls it issues,
  in order, and the data URL it returns or the message it throws. So "throws
  before any call" reads `calls == []`.
- **Each handler is one atomic transition.** An `App` handler returns a
  `Step`: the state left once its awaited call has settled, with the calls it
  issued.
- **Nullable strings.** `string | null` is `Option<string>`, and a string is
  truthy exactly when it is non-empty.
- **The 3D model responses are inputs.** The create response is a value, and
  the poll responses are a function from the attempt number to an answer.

Two behaviours of the application are proved rather than assumed:

- `RightPanel.OrthoControlsCanBeInert`: after a Skeleton generation from a
  reference image with an empty prompt, the orthographic-view buttons are
  shown but every one of them does nothing. No skeleton source image is
  stored and there is no prompt to fall back on.
- `LeftPanel.SentRatioWasSelectable`: every aspect ratio that a Create-mode
  generation sends is the selected one. It was selectable on screen, except
  for Skeleton, which sends the ratio last selected while the selector is
  hidden. The orthographic-view handler is the exception to "the selected
  one": it always asks for 1:1, whatever is selected (`App.OrthoRequest`).

## Model

| member | source | states |
|---|---|---|
| GeminiService.AugmentedPrompt | services/geminiService.ts:10-35 | Sticker, Text, Comic and Skeleton are exactly their fixed prefix, the user prompt unchanged, then their fixed suffix (so the length is the sum of the three); the Skeleton suffix is the sheet text closed by the requested view (front when none is given); every other function returns the prompt unchanged |
| GeminiService.AugmentedPromptInjective | services/geminiService.ts:10-35 | the user prompt is embedded verbatim: equal augmented prompts come from equal user prompts |
| GeminiService.OneViewSuffix | services/geminiService.ts:20-31 | the four view suffixes are mutually exclusive: a text ending with one ends with no other |
| GeminiService.SkeletonPromptView | services/geminiService.ts:18-31 | the Skeleton prompt ends with exactly one view suffix, that of the requested view, and "Front view." when the view is omitted |
| GeminiService.SkeletonFromImageViewPrompt | services/geminiService.ts:227-240 | the image-to-skeleton prompt is exactly its own base text followed by the closing sentence of the requested view (front when none is given), with nothing in between or after |
| GeminiService.SkeletonFromImagePromptView | services/geminiService.ts:227-240 | the image-to-skeleton prompt follows the same one-suffix view rule, with an omitted view meaning front |
| GeminiService.WithUserDetails | services/geminiService.ts:98 | an empty prompt leaves the base prompt unchanged; otherwise the result is the base, the "Detalhes adicionais do usuário" separator, then the prompt |
| GeminiService.UserDetailsRecoverable | services/geminiService.ts:98 | the appended details can be read back after the separator, and different details give different final prompts |
| GeminiService.VideoFinalPrompt | services/geminiService.ts:190 | the video prompt is exactly the fixed video instructions when the user prompt is empty; otherwise it is those instructions, the "Detalhes adicionais do usuário" separator, then the user prompt unchanged, and nothing more |
| GeminiService.MiniaturePrompt | services/geminiService.ts:96 | the Miniature prompt is its fixed opening, the identified model name unchanged, then its fixed closing text |
| GeminiService.ModelName | services/geminiService.ts:93 | the model name is never empty: the trimmed identification text, or "modelo da imagem" when that text is all whitespace |
| GeminiService.FirstInlineImage | services/geminiService.ts:65-72 | absent iff no part carries inline data; otherwise the data URL of the first part that does |
| GeminiService.ExtractImage | services/geminiService.ts:65-73 | a reply without candidate parts or without an inline part is the operation's error; otherwise the first inline part as a data URL |
| GeminiService.GenerateImage | services/geminiService.ts:38-169 | Colmap and Miniature without an image throw before any call; Colmap makes one call with its fixed prompt; Miniature makes the identify call, then the generation call with the identified name and the user details; other functions take the multimodal path with an image and the text-to-image path (PNG, the selected ratio) without one; each path has its own error message |
| GeminiService.ResultIsDataUrl | services/geminiService.ts:38-169 | every image the generation returns is a data URL |
| GeminiService.RequestsWellShaped | services/geminiService.ts:38-169 | at most two calls are issued, and every content request lists its images first and one text part last |
| GeminiService.TransformImageToSkeleton | services/geminiService.ts:242-268 | one call to the image model: the source image, then the image-to-skeleton text closed by the requested view; it throws the generic "no image" message exactly when the reply has no inline part, and otherwise returns the data URL of the first inline part |
| GeminiService.SkeletonWellShaped | services/geminiService.ts:245-248 | the skeleton request is well shaped |
| GeminiService.EditParts | services/geminiService.ts:276-286 | two or three parts: image1 first, image2 second exactly when composing with a second image, and the text prompt always last |
| GeminiService.EditImage | services/geminiService.ts:271-306 | no primary image throws before any call; otherwise one call with the edit parts, and the generic "no image" message when the reply has no inline part |
| GeminiService.EditWellShaped | services/geminiService.ts:276-286 | the edit request is well shaped |
| DataUrls.Format | services/geminiService.ts:69 | the result is "data:", the mime type unchanged, ";base64,", then the payload unchanged, and is as long as those four pieces |
| DataUrls.MatchMimeType | App.tsx:229-233 | absent iff `/data:(.*);base64,/` cannot match; otherwise the capture of the leftmost, greedy match |
| DataUrls.SecondField | App.tsx:234 | absent iff there is no comma; otherwise the comma-free text between the first comma and the next comma or the end |
| DataUrls.MatchedHasPayload | App.tsx:229-234 | whenever the expression matches, the split has a second field (the comma of ";base64,") |
| DataUrls.ParseFormat | App.tsx:229-236 | parsing a formatted data URL recovers the mime type and the payload when neither has a comma and the mime type has no line terminator |
| Strings.ToLower | components/ErrorDisplay.tsx:15 | lower-casing keeps the length and maps each character |
| Strings.LowerCharAbsent | components/ErrorDisplay.tsx:15 | a text with neither case of a letter lowers to a text without it |
| Strings.Trim | services/geminiService.ts:93 | the result is a slice of the input with only whitespace around it, and it neither starts nor ends with whitespace |
| Strings.TrimEmptyIff | services/geminiService.ts:93 | trimming gives the empty string exactly for all-whitespace input |
| App.Initial | App.tsx:23-41 | the form comes from the saved record, or from the defaults ("", Create, Free, AddRemove, no images, 1:1) when there is none; nothing is loading, shown or remembered |
| App.ResetToDefaults | App.tsx:77-94 | declining changes nothing; confirming yields exactly the start-up state, whose settings are the default record |
| App.GenerateRequest | App.tsx:104-133 | Create mode is refused exactly when there is neither prompt nor image1, and otherwise sends the form with no view; Edit mode checks in order: the description, then two images for Compose, then image1; image2 is forwarded only for Compose |
| App.Perform | App.tsx:110-120 | an image a service call returns is never empty, so the handlers' "no image" branch is never taken |
| App.Settle | App.tsx:144-149 | the loading flag is cleared whatever happened; a thrown message becomes the error; an image is shown with the handler's bookkeeping; an empty image becomes the "no image" error |
| App.HandleGenerate | App.tsx:96-150 | nothing happens while loading; a validation error calls nothing; otherwise the request's outcome is shown; afterwards there is exactly one of image and error; a success records the function and prompt in Create mode and clears the function in Edit mode; the form is untouched |
| App.RegenerationSource | App.tsx:163 | the reference image sent on regeneration always equals image1 |
| App.RegenerateRequest | App.tsx:154-165 | regeneration does nothing exactly when loading, without a remembered prompt or function, or after Skeleton; otherwise it replays the remembered prompt and function with the current ratio and image1 |
| App.HandleRegenerate | App.tsx:152-181 | the outcome of the replayed request is shown with loading cleared; the remembered function and prompt, the skeleton source and the form are unchanged |
| App.RegenerateReplaysCreate | App.tsx:152-165 | after a successful Create generation with a prompt (not Skeleton), regeneration sends the very request that produced the image |
| App.RegenerateAfterGenerate | App.tsx:134-136 | after a successful Skeleton generation or any successful edit, regeneration is off |
| App.OrthoRequest | App.tsx:183-201 | a stored skeleton source image wins; otherwise the last prompt gives a square text-to-skeleton request with no image; otherwise nothing |
| App.HandleGenerateOrthoView | App.tsx:183-218 | the outcome is shown with loading cleared; a success marks the result as a Skeleton; the prompt, the source image and the form are unchanged |
| App.OrthoViewsFollowPrompt | App.tsx:183-201 | after a successful Create Skeleton generation, every view is requested from the same prompt, square, with no image |
| App.ParseGeneratedImage | App.tsx:229-236 | fails with the "tipo de mime" message exactly when the expression cannot match; otherwise the mime type is the capture and the payload the second comma field |
| App.ParseGeneratedImageRoundTrip | App.tsx:229-236 | every data URL the service builds from a comma-free part parses back to that part's image |
| App.HandleGenerateSkeletonFromPrompt | App.tsx:220-256 | nothing without an image or while loading; otherwise the remembered prompt is cleared; an unparsable URL shows the error and calls nothing; a parsed one is stored as the skeleton source and sent for the front view |
| App.OrthoViewsFollowSkeletonSource | App.tsx:220-243 | once a skeleton is made from the current image, every view is taken from that same image, and regeneration is off |
| App.HandleEditCurrentImage | App.tsx:259-281 | with an image shown: Edit mode, AddRemove, Free, empty prompt, no image2, result, error or skeleton source, ratio 1:1, and image1 the payload after the comma as image/png; without one nothing changes |
| App.EditCurrentThenGenerate | App.tsx:259-276 | right after editing the current image, generating asks for a description and calls nothing; with one, the single edit call opens with that image as PNG |
| App.EditRequestHasPrimaryImage | App.tsx:129-133 | a validated edit always carries image1, so the service's "primary image is required" error never comes from the app |
| App.ComposeSendsBothImages | App.tsx:125-133 | a Compose edit sends image1, image2, then the description |
| ErrorDisplay.Classify | components/ErrorDisplay.tsx:14-62 | the reference first-match classifier: the first matching rule decides, and the default shows the message itself |
| ErrorDisplay.FriendlyErrorOf | components/ErrorDisplay.tsx:14-62 | the title is one of the fixed titles; 'api key' in the lower-cased message always gives the authentication error; the title is the unexpected one exactly when no branch matches, and then the suggestion is the message |
| ErrorDisplay.FriendlyErrorIsFirstMatch | components/ErrorDisplay.tsx:14-62 | the branch-by-branch function equals the ordered first-match classifier over the seven rules |
| ErrorDisplay.FirstMatchWins | components/ErrorDisplay.tsx:14-56 | the first matching branch decides whatever later branches would say |
| ErrorDisplay.MissesAuth | components/ErrorDisplay.tsx:15-20 | a message with no 'y' in either case never takes the authentication branch |
| ErrorDisplay.ValidationMessagesShown | components/ErrorDisplay.tsx:21-44 | the four validation messages of the app reach Prompt Vazio, Descrição da Edição Faltando, Imagens Faltando and Imagem Faltando |
| ErrorDisplay.MissingResultRecognised | components/ErrorDisplay.tsx:51-56 | a message naming "A API não retornou uma imagem" is never shown as unexpected |
| ErrorDisplay.NoImageMessagesShown | components/ErrorDisplay.tsx:51-56 | the Colmap, Miniature, skeleton and edit "no image" messages and the app's own one all reach Falha na Geração |
| LeftPanel.CreateMenuOffers | components/LeftPanel.tsx:27-34 | six distinct create functions: all but Colmap and Animate |
| LeftPanel.EditMenuOffers | components/LeftPanel.tsx:36-41 | each edit function once |
| LeftPanel.RatioMenuOffers | components/LeftPanel.tsx:43-49 | each of the five aspect ratios once |
| LeftPanel.CreateFunctionClick | components/LeftPanel.tsx:72-82 | the clicked function is selected; Miniature brings 16:9; leaving Miniature brings 1:1; moving between other functions keeps the ratio; nothing else changes |
| LeftPanel.CreateFunctionClickIdempotent | components/LeftPanel.tsx:72-82 | clicking the same function twice is clicking it once |
| LeftPanel.UploadImage | components/LeftPanel.tsx:59-70 | a cleared upload stores nothing; otherwise the payload is the data URL's second comma field (empty without a comma) and the mime type is the file's type |
| LeftPanel.UploadRoundTrip | components/LeftPanel.tsx:59-70 | uploading a file encoded as a base64 data URL stores exactly its payload and type |
| LeftPanel.SentRatioWasSelectable | components/LeftPanel.tsx:164 | every ratio sent in Create mode is the selected one and the selector was visible, except for Skeleton |
| LeftPanel.AspectRatioVisible | components/LeftPanel.tsx:164 | the ratio selector is on screen in Create mode for a function other than Miniature and Skeleton when no reference image is loaded |
| LeftPanel.VisibleRatioIsSent | components/LeftPanel.tsx:164 | while the selector is visible and a description is given, generating sends one text-to-image call with exactly the ratio on screen; Colmap sends nothing |
| LeftPanel.SecondaryUploadVisible | components/LeftPanel.tsx:57 | the secondary upload is on screen exactly for a Compose edit |
| LeftPanel.SecondaryUploadShownWhenNeeded | components/LeftPanel.tsx:200 | with a description and image1 but no image2, an edit is refused exactly when the secondary upload is on screen |
| RightPanel.SkeletonSourcesComplement | components/RightPanel.tsx:45-51 | the five skeleton sources are every create function but Skeleton, Colmap and Animate |
| RightPanel.CanGenerateSkeleton | components/RightPanel.tsx:45-51 | holds exactly when the last function is present, not Skeleton, Colmap or Animate, and the last prompt is non-empty |
| RightPanel.IsSkeletonResult | components/RightPanel.tsx:53 | the shown result counts as a skeleton sheet exactly when the last create function is Skeleton |
| RightPanel.RenderContent | components/RightPanel.tsx:29-86 | loading wins over the error, the error (classified) over the image, the image over the placeholder; the image view offers the skeleton button per `CanGenerateSkeleton` and the orthographic controls exactly after Skeleton |
| RightPanel.SkeletonResultActions | components/RightPanel.tsx:45-67 | after Skeleton the orthographic controls are shown and the skeleton button is not; the two are never shown together |
| RightPanel.SkeletonButtonActs | components/RightPanel.tsx:62-64 | whenever the skeleton button is shown, its handler acts and clears the remembered prompt |
| RightPanel.OrthoControlsCanBeInert | components/RightPanel.tsx:67-75 | the orthographic controls can be shown while every one of them does nothing |
| RightPanel.OrthoButtonsCoverViews | components/RightPanel.tsx:70-73 | the four buttons ask for the four views, each once |
| MeshService.PollVerdict | services/meshService.ts:41-48 | a completed task with an asset succeeds with it; a failed task or a failing request throws, with "Desconhecido" for a missing reason; a non-ok answer, any other status, or completed without an asset keeps polling |
| MeshService.PollFrom | services/meshService.ts:33-52 | the polling stops at the first terminal answer and takes its verdict; without one it times out after the last attempt |
| MeshService.Poll | services/meshService.ts:33-52 | the loop makes the polls and reaches the outcome that the reference definition gives |
| MeshService.Generate3dModelSpec | services/meshService.ts:3-53 | the reference definition: no key means no request; otherwise one creation request, then one poll per attempt until a terminal answer or `MaxAttempts`, with the asset URL or the message thrown |
| MeshService.Generate3dModel | services/meshService.ts:3-53 | the operation issues the requests and reaches the result that the reference definition gives |
| MeshService.EarlyFailures | services/meshService.ts:5-30 | no key: nothing is requested; a refused creation or a missing task id throws after the one creation request |
| MeshService.PollsBounded | services/meshService.ts:33-39 | at most 60 polls, all for the created task with the same key |
| MeshService.FirstTerminalDecides | services/meshService.ts:41-48 | the first terminal answer, at attempt n, decides the result after exactly n + 1 polls |
| MeshService.TimesOut | services/meshService.ts:52 | 60 non-terminal answers give the timeout error after exactly 60 polls |
| MeshService.SuccessIsCompletedAsset | services/meshService.ts:43-44 | a success is always the asset URL of the last poll, which answered completed |

## Left out

- The vendor SDK and `fetch` are not modelled: their answers are inputs (`Vendor`, `CreateResponse`, the poll answers). Network failures of the image calls are not modelled either. A failing 3D request is `PollThrew`/`CreateThrew`.
- The video call's polling loop, its download and `URL.createObjectURL` (services/geminiService.ts:192-222) are left out. The loop has no bound and all of it is vendor I/O; only its final-prompt rule is modelled.
- `sleep` and the ten-second waits, `FileReader` (the upload takes the data URL as given), and the module-load check of `API_KEY` are left out: they are runtime effects.
- `localStorage`, `JSON.parse` and `JSON.stringify` are not modelled. A saved record is `Option<Settings>`, and the persisted record is `App.SettingsOf`.
- `window.confirm` is the `confirmed` argument of `App.ResetToDefaults`. `window.innerWidth`, the modal, the download helper, the placeholder text, JSX and styling are left out.
- React's batching of state updates is not modelled: each handler is one atomic transition.
- Strings.ToLower: lowers only `A`..`Z` and the KELVIN SIGN. That is every character whose lower case can help spell "api key", but other letters are not lowered as JavaScript does.
- App.Settle: a thrown value that is not an `Error` ("Ocorreu um erro desconhecido.") is not modelled, because every error the modelled code throws is an `Error`.
- DataUrls.PayloadOf: JavaScript's `undefined` from `split(',')[1]` on a comma-free string is the empty string.
- ErrorDisplay.FriendlyErrorOf: the classification of the Colmap and Miniature "image required" messages, the reference "no image" message, the text-to-image failure, the "primary image" message and the "tipo de mime" message is not proved message by message. The general contract still covers them.
- GeminiService.GenerateImage: in the two-step Miniature flow both calls are issued. A failure of the identify call itself is not modelled, since its reply is the `identifyText` input.
- MeshService.Generate3dModel: the request body's JSON encoding and the headers are reduced to the prompt and the key. An error body that is not JSON is `None`.
- services/meshService.ts is not called from the application; it is modelled on its own.
- The regenerate handler (`App.HandleRegenerate`) cannot be reached from the screen: App.tsx:316 passes `onRegenerate` to the right panel, but the panel's props (components/RightPanel.tsx:5-16) do not declare it and no control calls it. The handler and its lemmas are modelled as written, not as the effect of a visible button.

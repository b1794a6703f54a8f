/** The classification of error messages into a title and a suggestion
    (components/ErrorDisplay.tsx). */
module ErrorDisplay {
  import opened Strings
  import App
  import GeminiService

  datatype FriendlyError = FriendlyError(title: string, suggestion: string)

  const AuthTitle := "Erro de Autenticação"
  const EmptyPromptTitle := "Prompt Vazio"
  const MissingEditTitle := "Descrição da Edição Faltando"
  const MissingImagesTitle := "Imagens Faltando"
  const MissingImageTitle := "Imagem Faltando"
  const GenerationFailedTitle := "Falha na Geração"
  const UnexpectedTitle := "Ocorreu um Erro Inesperado"

  /** The seven distinct titles (two branches share `MissingImageTitle`). */
  const Titles: set<string> := {AuthTitle, EmptyPromptTitle, MissingEditTitle, MissingImagesTitle,
                                MissingImageTitle, GenerationFailedTitle, UnexpectedTitle}

  const AuthError := FriendlyError(AuthTitle, "Sua chave de API parece estar inválida ou faltando. Por favor, verifique suas configurações.")
  const EmptyPromptError := FriendlyError(EmptyPromptTitle, "Você precisa descrever a imagem que deseja criar no campo de texto.")
  const MissingEditError := FriendlyError(MissingEditTitle, "Por favor, explique qual alteração você gostaria de fazer na imagem.")
  const MissingImagesError := FriendlyError(MissingImagesTitle, "A função \"Unir\" requer que você envie duas imagens para funcionar.")
  const MissingImageError := FriendlyError(MissingImageTitle, "Para editar, você primeiro precisa carregar uma imagem.")
  const MiniatureImageError := FriendlyError(MissingImageTitle, "A função \"Miniatura\" requer que você envie uma imagem do modelo para funcionar.")
  const GenerationFailedError := FriendlyError(GenerationFailedTitle, "A IA não conseguiu gerar uma imagem com a sua solicitação. Tente reformular seu prompt ou tente novamente mais tarde.")

  /** The substrings the branches look for (the first in the lower-cased
      message, the others as written). */
  const AuthPattern := "api key"
  const EmptyPromptPattern := "Por favor, insira um prompt"
  const MissingEditPattern := "descreva a edição"
  const MissingImagesPattern := "são necessárias duas imagens"
  const MissingImagePattern := "envie uma imagem para editar"
  const MiniaturePattern := "Para a função Miniatura, é necessário enviar uma imagem."
  const GenerationFailedPattern := "A API não retornou uma imagem"

  /** One branch of the classifier: the substring it looks for, whether it
      looks in the lower-cased message, and what it shows. */
  datatype Rule = Rule(pattern: string, lowerCase: bool, shown: FriendlyError)

  /** The branches, in the order they are tried. */
  const Rules: seq<Rule> := [
    Rule(AuthPattern, true, AuthError),
    Rule(EmptyPromptPattern, false, EmptyPromptError),
    Rule(MissingEditPattern, false, MissingEditError),
    Rule(MissingImagesPattern, false, MissingImagesError),
    Rule(MissingImagePattern, false, MissingImageError),
    Rule(MiniaturePattern, false, MiniatureImageError),
    Rule(GenerationFailedPattern, false, GenerationFailedError)
  ]

  predicate RuleMatches(rule: Rule, message: string) {
    Includes(if rule.lowerCase then ToLower(message) else message, rule.pattern)
  }

  /** The default for a message no branch recognises: it is shown as is. */
  function Unexpected(message: string): FriendlyError {
    FriendlyError(UnexpectedTitle, message)
  }

  /** The reference classifier: the first of `rules` that matches decides,
      the default applies when none does. */
  function Classify(rules: seq<Rule>, message: string): (r: FriendlyError)
    ensures (forall k | 0 <= k < |rules| :: !RuleMatches(rules[k], message)) ==> r == Unexpected(message)
    ensures forall k | 0 <= k < |rules| ::
      RuleMatches(rules[k], message) && (forall j | 0 <= j < k :: !RuleMatches(rules[j], message)) ==> r == rules[k].shown
  {
    if |rules| == 0 then Unexpected(message)
    else if RuleMatches(rules[0], message) then rules[0].shown
    else
      var r := Classify(rules[1..], message);
      assert forall k | 1 <= k < |rules| :: rules[k] == rules[1..][k - 1];
      r
  }

  /** `getFriendlyError`, branch by branch. */
  function FriendlyErrorOf(message: string): (r: FriendlyError)
    ensures r.title in Titles
    ensures Includes(ToLower(message), AuthPattern) ==> r == AuthError
    ensures r.title == UnexpectedTitle <==> forall k | 0 <= k < |Rules| :: !RuleMatches(Rules[k], message)
    ensures r.title == UnexpectedTitle ==> r.suggestion == message
  {
    if Includes(ToLower(message), AuthPattern) then
      assert RuleMatches(Rules[0], message);
      AuthError
    else if Includes(message, EmptyPromptPattern) then
      assert RuleMatches(Rules[1], message);
      EmptyPromptError
    else if Includes(message, MissingEditPattern) then
      assert RuleMatches(Rules[2], message);
      MissingEditError
    else if Includes(message, MissingImagesPattern) then
      assert RuleMatches(Rules[3], message);
      MissingImagesError
    else if Includes(message, MissingImagePattern) then
      assert RuleMatches(Rules[4], message);
      MissingImageError
    else if Includes(message, MiniaturePattern) then
      assert RuleMatches(Rules[5], message);
      MiniatureImageError
    else if Includes(message, GenerationFailedPattern) then
      assert RuleMatches(Rules[6], message);
      GenerationFailedError
    else
      assert forall k | 0 <= k < |Rules| :: !RuleMatches(Rules[k], message);
      Unexpected(message)
  }

  /** The branch-by-branch classifier is the ordered first-match classifier
      over `Rules`. */
  lemma FriendlyErrorIsFirstMatch(message: string)
    ensures FriendlyErrorOf(message) == Classify(Rules, message)
  {
    var k := FirstMatching(message, 0);
    if k < |Rules| {
      assert forall j | 0 <= j < k :: !RuleMatches(Rules[j], message);
    }
  }

  /** The index of the first rule from `from` on that matches, or `|Rules|`. */
  function FirstMatching(message: string, from: nat): (k: nat)
    requires from <= |Rules|
    ensures from <= k <= |Rules|
    ensures forall j | from <= j < k :: !RuleMatches(Rules[j], message)
    ensures k < |Rules| ==> RuleMatches(Rules[k], message)
    decreases |Rules| - from
  {
    if from == |Rules| || RuleMatches(Rules[from], message) then from
    else FirstMatching(message, from + 1)
  }

  /** The first matching branch wins, whatever later branches would say. */
  lemma FirstMatchWins(message: string, k: nat)
    requires k < |Rules| && RuleMatches(Rules[k], message)
    requires forall j | 0 <= j < k :: !RuleMatches(Rules[j], message)
    ensures FriendlyErrorOf(message) == Rules[k].shown
  {
    FriendlyErrorIsFirstMatch(message);
  }

  /** Every message the service throws when the vendor returns no image
      names "A API não retornou uma imagem" and so is never shown as
      unexpected. */
  lemma MissingResultRecognised(message: string)
    requires Includes(message, GenerationFailedPattern)
    ensures FriendlyErrorOf(message).title != UnexpectedTitle
  {
    assert RuleMatches(Rules[6], message);
  }

  /** A message without a 'y' in either case never takes the
      authentication branch (every message below qualifies). */
  lemma MissesAuth(message: string)
    requires 'y' !in message && 'Y' !in message
    ensures !RuleMatches(Rules[0], message)
  {
    LowerCharAbsent(message, 'y');
    assert AuthPattern[6] == 'y';
    NotIncludedByChar(ToLower(message), AuthPattern, 'y');
  }

  /** A message lacking the character at position `i` of a case-sensitive
      branch's pattern never takes that branch. */
  lemma MissesRule(message: string, j: nat, i: nat)
    requires 1 <= j < |Rules| && i < |Rules[j].pattern| && Rules[j].pattern[i] !in message
    ensures !RuleMatches(Rules[j], message)
  {
    assert !Rules[j].lowerCase;
    NotIncludedByChar(message, Rules[j].pattern, Rules[j].pattern[i]);
  }

  /** The app's own validation messages reach the branches written for them. */
  lemma ValidationMessagesShown()
    ensures FriendlyErrorOf(App.EmptyPromptMessage) == EmptyPromptError
    ensures FriendlyErrorOf(App.MissingEditMessage) == MissingEditError
    ensures FriendlyErrorOf(App.MissingImagesMessage) == MissingImagesError
    ensures FriendlyErrorOf(App.MissingImageMessage) == MissingImageError
  {
    EmptyPromptShown();
    MissingEditShown();
    MissingImagesShown();
    MissingImageShown();
  }

  /** The "no image returned" messages, the Colmap and Miniature variants
      included, all reach the generation-failed branch. */
  lemma NoImageMessagesShown()
    ensures FriendlyErrorOf(GeminiService.ColmapNoImage) == GenerationFailedError
    ensures FriendlyErrorOf(GeminiService.MiniatureNoImage) == GenerationFailedError
    ensures FriendlyErrorOf(GeminiService.NoImage) == GenerationFailedError
    ensures FriendlyErrorOf(App.NoImageMessage) == GenerationFailedError
  {
    NoImageShown(GeminiService.ColmapNoImage, " para a função Colmap.");
    NoImageShown(GeminiService.MiniatureNoImage, " para a função Miniatura.");
    NoImageShown(GeminiService.NoImage, ".");
  }

  // One message at a time: the characters it lacks (each missing from an
  // earlier branch's pattern), the branches that therefore miss it, and the
  // branch it reaches. The facts about literal characters are kept in
  // lemmas of their own, one per piece of text.

  lemma EmptyPromptLacks()
    ensures 'y' !in App.EmptyPromptMessage && 'Y' !in App.EmptyPromptMessage
  {
  }

  lemma EmptyPromptShown()
    ensures FriendlyErrorOf(App.EmptyPromptMessage) == EmptyPromptError
  {
    var m := App.EmptyPromptMessage;
    EmptyPromptLacks();
    MissesAuth(m);
    assert OccursAt(m, Rules[1].pattern, 0);
    FirstMatchWins(m, 1);
  }

  lemma MissingEditLacks()
    ensures 'y' !in App.MissingEditMessage && 'Y' !in App.MissingEditMessage && 'n' !in App.MissingEditMessage
  {
  }

  lemma MissesBeforeMissingEdit(m: string)
    requires 'y' !in m && 'Y' !in m && 'n' !in m
    ensures forall j | 0 <= j < 2 :: !RuleMatches(Rules[j], m)
  {
    MissesAuth(m);
    MissesRule(m, 1, 12);
  }

  lemma MissingEditShown()
    ensures FriendlyErrorOf(App.MissingEditMessage) == MissingEditError
  {
    var m := App.MissingEditMessage;
    MissingEditLacks();
    MissesBeforeMissingEdit(m);
    Framed("Por favor, ", "descreva a edição", " que você deseja fazer.");
    assert OccursAt(m, Rules[2].pattern, 11);
    FirstMatchWins(m, 2);
  }

  lemma MissingImagesHeadLacks()
    ensures 'y' !in "Para unir imagens, " && 'Y' !in "Para unir imagens, "
    ensures 'f' !in "Para unir imagens, " && 'v' !in "Para unir imagens, "
  {
  }

  lemma MissingImagesTailLacksY()
    ensures 'y' !in "são necessárias duas imagens" && 'Y' !in "são necessárias duas imagens"
  {
  }

  lemma MissingImagesTailLacksFV()
    ensures 'f' !in "são necessárias duas imagens" && 'v' !in "são necessárias duas imagens"
  {
  }

  lemma MissesBeforeMissingImages(m: string)
    requires 'y' !in m && 'Y' !in m && 'f' !in m && 'v' !in m
    ensures forall j | 0 <= j < 3 :: !RuleMatches(Rules[j], m)
  {
    MissesAuth(m);
    MissesRule(m, 1, 4);
    MissesRule(m, 2, 6);
  }

  lemma MissingImagesShown()
    ensures FriendlyErrorOf(App.MissingImagesMessage) == MissingImagesError
  {
    var m := App.MissingImagesMessage;
    MissingImagesHeadLacks();
    MissingImagesTailLacksY();
    MissingImagesTailLacksFV();
    MissesBeforeMissingImages(m);
    Framed("Para unir imagens, ", "são necessárias duas imagens", ".");
    assert OccursAt(m, Rules[3].pattern, 19);
    FirstMatchWins(m, 3);
  }

  lemma MissingImageLacks()
    ensures 'y' !in App.MissingImageMessage && 'Y' !in App.MissingImageMessage && 's' !in App.MissingImageMessage
  {
  }

  lemma MissesBeforeMissingImage(m: string)
    requires 'y' !in m && 'Y' !in m && 's' !in m
    ensures forall j | 0 <= j < 4 :: !RuleMatches(Rules[j], m)
  {
    MissesAuth(m);
    MissesRule(m, 1, 13);
    MissesRule(m, 2, 2);
    MissesRule(m, 3, 0);
  }

  lemma MissingImageShown()
    ensures FriendlyErrorOf(App.MissingImageMessage) == MissingImageError
  {
    var m := App.MissingImageMessage;
    MissingImageLacks();
    MissesBeforeMissingImage(m);
    Framed("Por favor, ", "envie uma imagem para editar", ".");
    assert OccursAt(m, Rules[4].pattern, 11);
    FirstMatchWins(m, 4);
  }

  /** The pieces of the "no image returned" messages lack 'y', 'Y', ',' and 'd'. */
  lemma NoImagePhraseLacks()
    ensures var p := GeminiService.NoImagePhrase; 'y' !in p && 'Y' !in p && ',' !in p && 'd' !in p
  {
  }

  lemma RetryHintLacks()
    ensures var p := GeminiService.RetryHint; 'y' !in p && 'Y' !in p && ',' !in p && 'd' !in p
  {
  }

  lemma NoImageDetailLacks(detail: string)
    requires detail in {" para a função Colmap.", " para a função Miniatura.", "."}
    ensures 'y' !in detail && 'Y' !in detail && ',' !in detail && 'd' !in detail
  {
  }

  lemma MissesBeforeGenerationFailed(m: string)
    requires 'y' !in m && 'Y' !in m && ',' !in m && 'd' !in m
    ensures forall j | 0 <= j < 6 :: !RuleMatches(Rules[j], m)
  {
    MissesAuth(m);
    MissesRule(m, 1, 9);
    MissesRule(m, 2, 0);
    MissesRule(m, 3, 16);
    MissesRule(m, 4, 23);
    MissesRule(m, 5, 23);
  }

  lemma NoImageShown(m: string, detail: string)
    requires detail in {" para a função Colmap.", " para a função Miniatura.", "."}
    requires m == GeminiService.NoImagePhrase + detail + GeminiService.RetryHint
    ensures FriendlyErrorOf(m) == GenerationFailedError
  {
    NoImagePhraseLacks();
    NoImageDetailLacks(detail);
    RetryHintLacks();
    MissesBeforeGenerationFailed(m);
    Framed(GeminiService.NoImagePhrase, detail, GeminiService.RetryHint);
    assert OccursAt(m, Rules[6].pattern, 0);
    FirstMatchWins(m, 6);
  }
}

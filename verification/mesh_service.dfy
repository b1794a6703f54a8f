/** The 3D model service (services/meshService.ts): one task-creation
    request, then at most `MaxAttempts` status polls until the task
    completes with an asset, fails, or the attempts run out. The HTTP
    answers are inputs; the ten-second waits between polls are left out. */
module MeshService {
  import opened Wrappers
  import opened Strings

  const ApiBase := "https://api.mesh.ai/v1"
  const MaxAttempts := 60

  const MissingKeyMessage := "A variável de ambiente MESH_API_KEY não está definida."
  const ApiErrorPrefix := "Erro na API: "
  const CreateFailedDefault := "Falha ao iniciar a geração do modelo 3D"
  const NoTaskIdMessage := "A API não retornou um task_id para a geração do modelo 3D."
  const FailedPrefix := "A geração do modelo 3D falhou. Motivo: "
  const UnknownReason := "Desconhecido"
  const TimeoutMessage := "A geração do modelo 3D expirou após 10 minutos."

  /** The answer to the task-creation request. A missing `task_id` or
      `message` field is the empty string; `bodyMessage` is `None` when the
      error body is not JSON, in which case the status text stands in. */
  datatype CreateResponse =
    | CreateOk(taskId: string)
    | CreateNotOk(bodyMessage: Option<string>, statusText: string)
    | CreateThrew(reason: string)

  /** The answer to one status poll; absent fields are the empty string. */
  datatype PollResponse =
    | PollOk(status: string, assetUrl: string, error: string)
    | PollNotOk
    | PollThrew(reason: string)

  /** The requests sent, with the key they carry. */
  datatype MeshRequest =
    | CreateTask(url: string, apiKey: string, prompt: string)
    | GetTask(url: string, apiKey: string)

  /** How a poll answer ends the polling, if it does. */
  function PollVerdict(p: PollResponse): (r: Option<Result<string>>)
    ensures p.PollOk? && p.status == "completed" && p.assetUrl != "" ==> r == Some(Success(p.assetUrl))
    ensures r.Some? && r.value.Success? ==>
      p.PollOk? && p.status == "completed" && p.assetUrl != "" && r.value.value == p.assetUrl
    ensures r.Some? && r.value.Failure? <==> p.PollThrew? || (p.PollOk? && p.status == "failed")
    ensures p.PollOk? && p.status == "failed" ==>
      r == Some(Failure(FailedPrefix + (if p.error != "" then p.error else UnknownReason)))
    // Not ok, still processing, or completed without an asset: keep polling.
    ensures r.None? <==> p.PollNotOk? || (p.PollOk? && p.status != "failed" && !(p.status == "completed" && p.assetUrl != ""))
  {
    match p
    case PollNotOk => None
    case PollThrew(reason) => Some(Failure(reason))
    case PollOk(status, assetUrl, error) =>
      if status == "completed" && Truthy(assetUrl) then Some(Success(assetUrl))
      else if status == "failed" then Some(Failure(FailedPrefix + (if Truthy(error) then error else UnknownReason)))
      else None
  }

  predicate Terminal(p: PollResponse) {
    PollVerdict(p).Some?
  }

  /** The polling from attempt `i` on, as a reference definition: the number
      of polls made in all and the outcome. */
  function PollFrom(answers: nat -> PollResponse, i: nat): (r: (nat, Result<string>))
    requires i <= MaxAttempts
    ensures i <= r.0 <= MaxAttempts
    // Every poll but the last kept the polling going.
    ensures forall k | i <= k < r.0 - 1 :: !Terminal(answers(k))
    // The first terminal answer decides ...
    ensures (exists k | i <= k < MaxAttempts :: Terminal(answers(k))) ==>
      i < r.0 && Terminal(answers(r.0 - 1)) && Some(r.1) == PollVerdict(answers(r.0 - 1))
    // ... and without one the attempts run out.
    ensures (forall k | i <= k < MaxAttempts :: !Terminal(answers(k))) ==> r == (MaxAttempts, Failure(TimeoutMessage))
    decreases MaxAttempts - i
  {
    if i == MaxAttempts then (MaxAttempts, Failure(TimeoutMessage))
    else
      match PollVerdict(answers(i))
      case Some(outcome) => (i + 1, outcome)
      case None => PollFrom(answers, i + 1)
  }

  function TaskUrl(taskId: string): string {
    ApiBase + "/tasks/" + taskId
  }

  /** `generate3dModelApi` as a reference definition: the requests sent and
      the asset URL or the message thrown. */
  function Generate3dModelSpec(prompt: string, apiKey: string, create: CreateResponse,
                               answers: nat -> PollResponse): (r: (seq<MeshRequest>, Result<string>))
  {
    if !Truthy(apiKey) then ([], Failure(MissingKeyMessage))
    else
      var createRequest := CreateTask(ApiBase + "/tasks", apiKey, prompt);
      match create
      case CreateThrew(reason) => ([createRequest], Failure(reason))
      case CreateNotOk(body, statusText) =>
        var message := body.GetOr(statusText);
        ([createRequest], Failure(ApiErrorPrefix + (if Truthy(message) then message else CreateFailedDefault)))
      case CreateOk(taskId) =>
        if !Truthy(taskId) then ([createRequest], Failure(NoTaskIdMessage))
        else
          var (polls, outcome) := PollFrom(answers, 0);
          ([createRequest] + seq(polls, _ => GetTask(TaskUrl(taskId), apiKey)), outcome)
  }

  /** The polling loop of `generate3dModelApi`: the number of status
      requests made and the outcome. */
  method Poll(answers: nat -> PollResponse) returns (polls: nat, outcome: Result<string>)
    ensures (polls, outcome) == PollFrom(answers, 0)
  {
    polls := 0;
    while polls < MaxAttempts
      invariant polls <= MaxAttempts
      invariant PollFrom(answers, polls) == PollFrom(answers, 0)
    {
      var verdict := PollVerdict(answers(polls));
      polls := polls + 1;
      if verdict.Some? {
        return polls, verdict.value;
      }
    }
    return polls, Failure(TimeoutMessage);
  }

  /** `generate3dModelApi`. */
  method Generate3dModel(prompt: string, apiKey: string, create: CreateResponse, answers: nat -> PollResponse)
    returns (requests: seq<MeshRequest>, result: Result<string>)
    ensures (requests, result) == Generate3dModelSpec(prompt, apiKey, create, answers)
  {
    if !Truthy(apiKey) {
      return [], Failure(MissingKeyMessage);
    }
    requests := [CreateTask(ApiBase + "/tasks", apiKey, prompt)];
    match create {
      case CreateThrew(reason) =>
        result := Failure(reason);
      case CreateNotOk(body, statusText) =>
        var message := body.GetOr(statusText);
        result := Failure(ApiErrorPrefix + (if Truthy(message) then message else CreateFailedDefault));
      case CreateOk(taskId) =>
        if !Truthy(taskId) {
          result := Failure(NoTaskIdMessage);
        } else {
          var polls;
          polls, result := Poll(answers);
          requests := requests + seq(polls, _ => GetTask(TaskUrl(taskId), apiKey));
        }
    }
  }

  /** Nothing is requested without a key; a refused creation or a missing
      task id ends the operation after the one creation request. */
  lemma EarlyFailures(prompt: string, apiKey: string, create: CreateResponse, answers: nat -> PollResponse)
    ensures var (requests, result) := Generate3dModelSpec(prompt, apiKey, create, answers);
      && (apiKey == "" ==> requests == [] && result == Failure(MissingKeyMessage))
      && (apiKey != "" && !create.CreateOk? ==> |requests| == 1 && result.Failure?)
      && (apiKey != "" && create == CreateOk("") ==> |requests| == 1 && result == Failure(NoTaskIdMessage))
  {
  }

  /** At most `MaxAttempts` polls, all for the created task with the same key. */
  lemma PollsBounded(prompt: string, apiKey: string, create: CreateResponse, answers: nat -> PollResponse)
    ensures var (requests, _) := Generate3dModelSpec(prompt, apiKey, create, answers);
      && |requests| <= 1 + MaxAttempts
      && forall k | 1 <= k < |requests| :: requests[k] == GetTask(TaskUrl(create.taskId), apiKey)
  {
  }

  /** With a key and a task id, the first terminal poll answer decides: a
      completed task with an asset returns that asset, a failed task or a
      failing request throws, and without one the operation times out after
      exactly `MaxAttempts` polls. */
  lemma FirstTerminalDecides(prompt: string, apiKey: string, taskId: string, answers: nat -> PollResponse, n: nat)
    requires apiKey != "" && taskId != ""
    requires n < MaxAttempts && Terminal(answers(n))
    requires forall k | 0 <= k < n :: !Terminal(answers(k))
    ensures var (requests, result) := Generate3dModelSpec(prompt, apiKey, CreateOk(taskId), answers);
      && |requests| == n + 2
      && Some(result) == PollVerdict(answers(n))
  {
    assert 0 <= n < MaxAttempts && Terminal(answers(n));
  }

  lemma TimesOut(prompt: string, apiKey: string, taskId: string, answers: nat -> PollResponse)
    requires apiKey != "" && taskId != ""
    requires forall k | 0 <= k < MaxAttempts :: !Terminal(answers(k))
    ensures var (requests, result) := Generate3dModelSpec(prompt, apiKey, CreateOk(taskId), answers);
      && |requests| == 1 + MaxAttempts
      && result == Failure(TimeoutMessage)
  {
  }

  /** A success is always the asset URL of a completed task. */
  lemma SuccessIsCompletedAsset(prompt: string, apiKey: string, create: CreateResponse, answers: nat -> PollResponse)
    requires Generate3dModelSpec(prompt, apiKey, create, answers).1.Success?
    ensures var (requests, result) := Generate3dModelSpec(prompt, apiKey, create, answers);
      && create.CreateOk? && 2 <= |requests|
      && answers(|requests| - 2).PollOk?
      && answers(|requests| - 2).status == "completed"
      && answers(|requests| - 2).assetUrl == result.value != ""
  {
  }
}

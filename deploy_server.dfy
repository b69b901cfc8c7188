/**
 * The decision logic of the deploy server: API-key authentication of `POST /deploy`, the fixed
 * build / sync / commit / push pipeline with its early returns, the status record kept across
 * deploys, and the loopback-only `GET /api-key` route.
 *
 * Each external command (Jekyll build, rsync, `git add`, `git commit`, `git push`) is an opaque
 * `Outcome`: the exit code with the captured stdout and stderr, a timeout, or another exception.
 * The status file is a field holding an optional record (absent when the file is missing or
 * unreadable); the current time and the publish-repository path are parameters.
 */
module DeployServer {
  import opened Wrappers
  import opened Strings

  // ---------------------------------------------------------------------------
  // Requests and responses

  /** The JSON body of a request; `apiKey` is its `api_key` field, absent if missing. */
  datatype JsonBody = JsonBody(apiKey: Option<string>)

  /** The parts of an HTTP request the server looks at. */
  datatype Request = Request(authorization: Option<string>, json: Option<JsonBody>, remoteAddr: string)

  datatype Body =
    | DeployDone(message: string, timestamp: string, count: nat)   // {success: true, message, timestamp, count}
    | DeployError(message: string, step: string)                    // {success: false, message, step}
    | AuthError(message: string)                                    // {success: false, message}
    | Forbidden(error: string)                                      // {error}
    | KeyBody(apiKey: string)                                       // {api_key}
    | StatusBody(status: DeployStatus)                              // the status record verbatim

  datatype Response = Response(code: int, body: Body)

  const BearerPrefix: string := "Bearer "
  const InvalidKeyMessage: string := "API 키가 유효하지 않습니다"
  const Loopback: string := "127.0.0.1"
  const LocalOnlyMessage: string := "로컬 접근만 허용"

  // ---------------------------------------------------------------------------
  // Authentication (the require_api_key decorator)

  /** The key a request presents: the Authorization header after "Bearer ", else the body's `api_key`. */
  function ProvidedKey(req: Request): (key: Option<string>)
    ensures HasBearerHeader(req) ==> key.Some? && req.authorization.value == BearerPrefix + key.value
    ensures !HasBearerHeader(req) && req.json.Some? ==> key == req.json.value.apiKey
    ensures !HasBearerHeader(req) && req.json.None? ==> key == None
  {
    if HasBearerHeader(req) then Some(req.authorization.value[|BearerPrefix|..])
    else if req.json.Some? then req.json.value.apiKey
    else None
  }

  /** The request may reach the deploy handler: it presents a non-empty key equal to the stored one. */
  predicate Authorized(req: Request, apiKey: string)
    ensures Authorized(req, apiKey) <==> apiKey != "" && ProvidedKey(req) == Some(apiKey)
  {
    match ProvidedKey(req)
    case None => false
    case Some(k) => k != "" && k == apiKey
  }

  predicate HasBearerHeader(req: Request) {
    req.authorization.Some? && StartsWith(req.authorization.value, BearerPrefix)
  }

  /** A Bearer header decides the key on its own: the JSON body is ignored. */
  lemma HeaderOverBody(req: Request, other: Option<JsonBody>)
    requires HasBearerHeader(req)
    ensures ProvidedKey(req) == Some(req.authorization.value[|BearerPrefix|..])
    ensures ProvidedKey(req.(json := other)) == ProvidedKey(req)
    ensures Authorized(req.(json := other), req.authorization.value[|BearerPrefix|..]) <==> |req.authorization.value| > |BearerPrefix|
  {
  }

  /**
   * The authentication rule in terms of the request itself: with a Bearer header the header must be
   * exactly "Bearer " followed by the key; otherwise the body must carry the key; the empty key
   * never authenticates.
   */
  lemma {:induction false} AuthorizedIff(req: Request, apiKey: string)
    ensures Authorized(req, apiKey) <==>
      apiKey != "" &&
      if HasBearerHeader(req) then req.authorization.value == BearerPrefix + apiKey
      else req.json.Some? && req.json.value.apiKey == Some(apiKey)
  {
    if HasBearerHeader(req) {
      var h := req.authorization.value;
      assert h == h[..|BearerPrefix|] + h[|BearerPrefix|..];
      if h == BearerPrefix + apiKey {
        assert h[|BearerPrefix|..] == apiKey;
      }
    }
  }

  // ---------------------------------------------------------------------------
  // The status record (get_deploy_status)

  datatype LastStatus = NeverDeployed | Succeeded | Failed {
    /** The `last_status` string stored in the status file. */
    function Name(): string {
      match this
      case NeverDeployed => "none"
      case Succeeded => "success"
      case Failed => "failed"
    }
  }

  datatype DeployStatus = DeployStatus(
    lastDeploy: Option<string>,
    deployCount: nat,
    lastStatus: LastStatus,
    lastMessage: string)

  const NeverDeployedMessage: string := "아직 배포된 적 없음"

  /** The record used when no status file exists or it cannot be read. */
  function DefaultStatus(): (s: DeployStatus)
    ensures s.lastDeploy == None && s.deployCount == 0
    ensures s.lastStatus.Name() == "none" && s.lastMessage == NeverDeployedMessage
  {
    DeployStatus(None, 0, NeverDeployed, NeverDeployedMessage)
  }

  /** get_deploy_status: the stored record, or the default when the file is missing or unreadable. */
  function ReadStatus(file: Option<DeployStatus>): (s: DeployStatus)
    ensures file.Some? ==> s == file.value
    ensures file.None? ==> s == DefaultStatus()
  {
    match file
    case Some(st) => st
    case None => DefaultStatus()
  }

  // ---------------------------------------------------------------------------
  // The pipeline

  /** What an external command did: exited with a code and captured text, timed out, or raised. */
  datatype Outcome = Exited(code: int, stdout: string, stderr: string) | TimedOut | Raised(error: string)

  /** The external commands, named as in the `step` field of the deploy response. */
  datatype Command = JekyllBuild | Rsync | GitAdd | GitCommit | GitPush {
    function Name(): string {
      match this
      case JekyllBuild => "jekyll_build"
      case Rsync => "rsync"
      case GitAdd => "git_add"
      case GitCommit => "git_commit"
      case GitPush => "git_push"
    }

    /** The start of the error message when the command exits non-zero. */
    function FailurePrefix(): string {
      match this
      case JekyllBuild => "Jekyll 빌드 실패: "
      case Rsync => "rsync 실패: "
      case GitAdd => "Git add 실패: "
      case GitCommit => "Git commit 실패: "
      case GitPush => "Git push 실패: "
    }

    /** The timeout in seconds the command runs under, if any. */
    function Timeout(): Option<nat> {
      match this
      case JekyllBuild => Some(120)
      case Rsync => Some(60)
      case GitPush => Some(30)
      case _ => None
    }
  }

  /** The commands run after the repository check, in order. */
  const Commands: seq<Command> := [JekyllBuild, Rsync, GitAdd, GitCommit, GitPush]

  /** The world the pipeline runs in: whether the publish repository exists and what each command does. */
  datatype Environment = Environment(
    repoPath: string,
    repoExists: bool,
    build: Outcome,
    rsync: Outcome,
    add: Outcome,
    commit: Outcome,
    push: Outcome)
  {
    function OutcomeOf(cmd: Command): Outcome {
      match cmd
      case JekyllBuild => build
      case Rsync => rsync
      case GitAdd => add
      case GitCommit => commit
      case GitPush => push
    }

    /** Only the commands started with a timeout can time out. */
    predicate Admissible() {
      forall cmd: Command :: OutcomeOf(cmd) == TimedOut ==> cmd.Timeout().Some?
    }
  }

  const RepoMissingPrefix: string := "GitHub Pages 저장소를 찾을 수 없습니다: "
  const NothingToCommit: string := "nothing to commit"
  const TimeoutMessage: string := "배포 작업이 시간 초과되었습니다"
  const ErrorPrefix: string := "배포 중 오류 발생: "
  const SuccessMessage: string := "배포 성공"

  /** A command lets the pipeline go on: exit code 0, or a commit that had nothing to commit. */
  predicate Passes(env: Environment, cmd: Command)
    ensures Passes(env, cmd) ==> env.OutcomeOf(cmd).Exited?
    ensures env.OutcomeOf(cmd).Exited? && env.OutcomeOf(cmd).code == 0 ==> Passes(env, cmd)
    ensures cmd != GitCommit ==> (Passes(env, cmd) <==> env.OutcomeOf(cmd).Exited? && env.OutcomeOf(cmd).code == 0)
  {
    var o := env.OutcomeOf(cmd);
    o.Exited? && (o.code == 0 || (cmd == GitCommit && Contains(o.stdout, NothingToCommit)))
  }

  /** Why a deploy stopped: no publish repository, a command exited non-zero, timed out, or raised. */
  datatype Failure =
    | RepoMissing(message: string)
    | CommandFailed(cmd: Command, message: string)
    | TimeoutExpired
    | Error(message: string)
  {
    /** The `step` field of the error response. */
    function StageName(): string {
      match this
      case RepoMissing(_) => "repo_check"
      case CommandFailed(cmd, _) => cmd.Name()
      case TimeoutExpired => "timeout"
      case Error(_) => "unknown"
    }

    function Message(): string {
      match this
      case RepoMissing(m) => m
      case CommandFailed(_, m) => m
      case TimeoutExpired => TimeoutMessage
      case Error(m) => m
    }

    /** The failures that return from inside the `try` block, as opposed to the two `except` clauses. */
    predicate IsEarlyReturn() {
      RepoMissing? || CommandFailed?
    }
  }

  datatype Verdict = Published | Stopped(failure: Failure)

  /** The commands that were started, and how the pipeline ended. */
  datatype Run = Run(ran: seq<Command>, verdict: Verdict)

  /** How a command that does not pass stops the pipeline. */
  function Stop(env: Environment, cmd: Command): (f: Failure)
    ensures f.TimeoutExpired? <==> env.OutcomeOf(cmd).TimedOut?
    ensures f.Error? <==> env.OutcomeOf(cmd).Raised?
    ensures f.IsEarlyReturn() <==> env.OutcomeOf(cmd).Exited?
    ensures f.CommandFailed? ==> f.StageName() == cmd.Name() && StartsWith(f.Message(), cmd.FailurePrefix())
    ensures f.Error? ==> StartsWith(f.Message(), ErrorPrefix)
  {
    match env.OutcomeOf(cmd)
    case TimedOut => TimeoutExpired
    case Raised(e) => Error(ErrorPrefix + e)
    case Exited(_, _, err) => CommandFailed(cmd, cmd.FailurePrefix() + err)
  }

  /** Runs `cmds` in order, starting each only if every earlier one passed. */
  function RunCommands(env: Environment, cmds: seq<Command>): (r: Run)
    ensures |r.ran| <= |cmds| && r.ran == cmds[..|r.ran|]
    ensures r.verdict.Published? <==> forall j :: 0 <= j < |cmds| ==> Passes(env, cmds[j])
    ensures r.verdict.Published? ==> r.ran == cmds
    ensures r.verdict.Stopped? ==> r.ran != [] && r.verdict.failure == Stop(env, r.ran[|r.ran| - 1])
    ensures r.verdict.Stopped? ==> !Passes(env, r.ran[|r.ran| - 1])
    ensures r.verdict.Stopped? ==> forall j :: 0 <= j < |r.ran| - 1 ==> Passes(env, r.ran[j])
  {
    if cmds == [] then Run([], Published)
    else if Passes(env, cmds[0]) then
      var rest := RunCommands(env, cmds[1..]);
      Run([cmds[0]] + rest.ran, rest.verdict)
    else
      Run([cmds[0]], Stopped(Stop(env, cmds[0])))
  }

  /**
   * The first command that does not pass stops the run: it and the commands before it are the
   * only ones started, and its failure is the verdict.
   */
  lemma {:induction false} FirstFailureStops(env: Environment, cmds: seq<Command>, k: nat)
    requires k < |cmds|
    requires forall j :: 0 <= j < k ==> Passes(env, cmds[j])
    requires !Passes(env, cmds[k])
    ensures RunCommands(env, cmds) == Run(cmds[..k + 1], Stopped(Stop(env, cmds[k])))
  {
    if k > 0 {
      FirstFailureStops(env, cmds[1..], k - 1);
      assert [cmds[0]] + cmds[1..][..k] == cmds[..k + 1];
    }
  }

  /** The body of `deploy`: check the publish repository, then run the commands in order. */
  function RunPipeline(env: Environment): (r: Run)
    ensures |r.ran| <= |Commands| && r.ran == Commands[..|r.ran|]
    ensures !env.repoExists ==> r.ran == [] && r.verdict == Stopped(RepoMissing(RepoMissingPrefix + env.repoPath))
    ensures r.verdict.Stopped? && r.ran != [] ==> !Passes(env, r.ran[|r.ran| - 1])
  {
    if !env.repoExists then Run([], Stopped(RepoMissing(RepoMissingPrefix + env.repoPath)))
    else RunCommands(env, Commands)
  }

  /** A missing publish repository stops the deploy with `repo_check` before any command starts. */
  lemma MissingRepository(env: Environment)
    requires !env.repoExists
    ensures RunPipeline(env).ran == []
    ensures RunPipeline(env).verdict.Stopped?
    ensures RunPipeline(env).verdict.failure.StageName() == "repo_check"
  {
  }

  /**
   * The first command that does not pass stops the pipeline: it and the commands before it are
   * the only ones started; a non-zero exit is reported under the command's own name with its
   * stderr, a timeout as `timeout` and any other exception as `unknown`.
   */
  lemma ShortCircuit(env: Environment, k: nat)
    requires env.repoExists && k < |Commands|
    requires forall j :: 0 <= j < k ==> Passes(env, Commands[j])
    requires !Passes(env, Commands[k])
    ensures RunPipeline(env).ran == Commands[..k + 1]
    ensures RunPipeline(env).verdict.Stopped?
    ensures var f := RunPipeline(env).verdict.failure;
      match env.OutcomeOf(Commands[k])
      case Exited(_, _, err) =>
        f.StageName() == Commands[k].Name() && f.Message() == Commands[k].FailurePrefix() + err
      case TimedOut => f.StageName() == "timeout"
      case Raised(e) => f.StageName() == "unknown" && f.Message() == ErrorPrefix + e
  {
    FirstFailureStops(env, Commands, k);
  }

  /** Every command passes exactly when the deploy publishes; then all five commands were started. */
  lemma PublishedIff(env: Environment)
    ensures RunPipeline(env).verdict.Published? <==>
      env.repoExists && forall j :: 0 <= j < |Commands| ==> Passes(env, Commands[j])
    ensures RunPipeline(env).verdict.Published? ==> RunPipeline(env).ran == Commands
  {
  }

  /** A commit with nothing to commit passes, so the pipeline goes on to push. */
  lemma {:induction false} NothingToCommitPushes(env: Environment)
    requires env.repoExists
    requires Passes(env, JekyllBuild) && Passes(env, Rsync) && Passes(env, GitAdd)
    requires env.commit.Exited? && Contains(env.commit.stdout, NothingToCommit)
    ensures GitPush in RunPipeline(env).ran
  {
    assert Passes(env, Commands[3]);
    if Passes(env, GitPush) {
      assert RunCommands(env, Commands).ran == Commands;
    } else {
      FirstFailureStops(env, Commands, 4);
      assert Commands[..5] == Commands;
    }
  }

  /** A commit that exits non-zero for another reason stops the pipeline at `git_commit`. */
  lemma {:induction false} CommitFailureStops(env: Environment)
    requires env.repoExists
    requires Passes(env, JekyllBuild) && Passes(env, Rsync) && Passes(env, GitAdd)
    requires env.commit.Exited? && env.commit.code != 0 && !Contains(env.commit.stdout, NothingToCommit)
    ensures RunPipeline(env) == Run([JekyllBuild, Rsync, GitAdd, GitCommit],
      Stopped(CommandFailed(GitCommit, "Git commit 실패: " + env.commit.stderr)))
  {
    assert !Passes(env, Commands[3]);
    FirstFailureStops(env, Commands, 3);
    assert Commands[..4] == [JekyllBuild, Rsync, GitAdd, GitCommit];
  }

  /**
   * After a passing build, sync and `git add`, a commit that exits non-zero with "nothing to commit"
   * in its stdout lets the pipeline go on to `git push`; any other non-zero commit stops it at
   * `git_commit` without pushing.
   */
  lemma CommitRule(env: Environment)
    requires env.repoExists
    requires Passes(env, JekyllBuild) && Passes(env, Rsync) && Passes(env, GitAdd)
    requires env.commit.Exited? && env.commit.code != 0
    ensures Contains(env.commit.stdout, NothingToCommit) ==> GitPush in RunPipeline(env).ran
    ensures !Contains(env.commit.stdout, NothingToCommit) ==>
      RunPipeline(env).verdict == Stopped(CommandFailed(GitCommit, "Git commit 실패: " + env.commit.stderr))
      && GitPush !in RunPipeline(env).ran
  {
    if Contains(env.commit.stdout, NothingToCommit) {
      NothingToCommitPushes(env);
    } else {
      CommitFailureStops(env);
    }
  }

  /** In an admissible environment a `timeout` verdict comes from the build, the sync or the push. */
  lemma TimeoutSource(env: Environment)
    requires env.Admissible()
    requires RunPipeline(env).verdict == Stopped(TimeoutExpired)
    ensures env.build == TimedOut || env.rsync == TimedOut || env.push == TimedOut
  {
    var r := RunPipeline(env);
    var last := r.ran[|r.ran| - 1];
    assert env.OutcomeOf(last) == TimedOut;
  }

  // ---------------------------------------------------------------------------
  // The deploy request as a whole

  /** The message of a successful deploy, naming the total number of deploys. */
  function DoneMessage(count: nat): string {
    "🚀 배포 완료! (총 " + NatToString(count) + "회)"
  }

  /** The status record after a successful deploy at time `now`. */
  function RecordSuccess(prior: DeployStatus, now: string): (s: DeployStatus)
    ensures s.deployCount == prior.deployCount + 1 && s.lastStatus == Succeeded
    ensures s.lastDeploy == Some(now) && s.lastMessage == SuccessMessage
  {
    prior.(lastDeploy := Some(now), deployCount := prior.deployCount + 1,
           lastStatus := Succeeded, lastMessage := SuccessMessage)
  }

  /** The status record after a timeout or an exception: the time and the count stay as they were. */
  function RecordFailure(prior: DeployStatus, message: string): (s: DeployStatus)
    ensures s.deployCount == prior.deployCount && s.lastDeploy == prior.lastDeploy
    ensures s.lastStatus == Failed && s.lastMessage == message
  {
    prior.(lastStatus := Failed, lastMessage := message)
  }

  /** What `POST /deploy` answers and what the status file holds afterwards. */
  datatype Outcomes = Outcomes(response: Response, file: Option<DeployStatus>)

  function HandleDeploy(apiKey: string, req: Request, env: Environment,
                        file: Option<DeployStatus>, now: string): (o: Outcomes)
    ensures o.response.code == 200 || o.response.code == 401 || o.response.code == 500
    ensures o.response.code == 200 <==> Authorized(req, apiKey) && RunPipeline(env).verdict.Published?
    ensures o.file != file ==> Authorized(req, apiKey) && o.file.Some?
  {
    if !Authorized(req, apiKey) then Outcomes(Response(401, AuthError(InvalidKeyMessage)), file)
    else
      match RunPipeline(env).verdict
      case Published =>
        var s := RecordSuccess(ReadStatus(file), now);
        Outcomes(Response(200, DeployDone(DoneMessage(s.deployCount), now, s.deployCount)), Some(s))
      case Stopped(f) =>
        var resp := Response(500, DeployError(f.Message(), f.StageName()));
        if f.IsEarlyReturn() then Outcomes(resp, file)
        else Outcomes(resp, Some(RecordFailure(ReadStatus(file), f.Message())))
  }

  /** Exactly the requests that fail authentication get 401, and they leave the status file alone. */
  lemma AuthGate(apiKey: string, req: Request, env: Environment, file: Option<DeployStatus>, now: string)
    ensures HandleDeploy(apiKey, req, env, file, now).response.code == 401 <==> !Authorized(req, apiKey)
    ensures !Authorized(req, apiKey) ==> HandleDeploy(apiKey, req, env, file, now).file == file
  {
  }

  /**
   * A published deploy answers 200 with the new count, which is the previous count plus one,
   * and records `success`.
   */
  lemma SuccessUpdate(apiKey: string, req: Request, env: Environment, file: Option<DeployStatus>, now: string)
    requires Authorized(req, apiKey) && RunPipeline(env).verdict.Published?
    ensures var o := HandleDeploy(apiKey, req, env, file, now);
      o.response.code == 200 && o.file.Some?
      && o.file.value.deployCount == ReadStatus(file).deployCount + 1
      && o.file.value.lastStatus.Name() == "success"
      && o.response.body == DeployDone(DoneMessage(ReadStatus(file).deployCount + 1), now, o.file.value.deployCount)
    ensures HandleDeploy(apiKey, req, env, file, now).file == Some(RecordSuccess(ReadStatus(file), now))
    ensures HandleDeploy(apiKey, req, env, file, now).file.value.lastDeploy == Some(now)
  {
  }

  /**
   * A timeout or an exception answers 500 with step `timeout` or `unknown`, records `failed`
   * with the error message, and keeps the count.
   */
  lemma ExceptionUpdate(apiKey: string, req: Request, env: Environment, file: Option<DeployStatus>, now: string)
    requires Authorized(req, apiKey)
    requires RunPipeline(env).verdict.Stopped? && !RunPipeline(env).verdict.failure.IsEarlyReturn()
    ensures var o := HandleDeploy(apiKey, req, env, file, now);
      var f := RunPipeline(env).verdict.failure;
      o.response.code == 500 && o.file.Some?
      && o.file.value.deployCount == ReadStatus(file).deployCount
      && o.file.value.lastStatus.Name() == "failed"
      && o.file.value.lastMessage == o.response.body.message
      && o.response.body.step == (if f.TimeoutExpired? then "timeout" else "unknown")
    ensures HandleDeploy(apiKey, req, env, file, now).file ==
      Some(RecordFailure(ReadStatus(file), RunPipeline(env).verdict.failure.Message()))
    ensures HandleDeploy(apiKey, req, env, file, now).file.value.lastDeploy == ReadStatus(file).lastDeploy
  {
  }

  /**
   * A missing repository or a command exiting non-zero answers 500 naming the step and leaves the
   * status file as it was: the source records `failed` only for timeouts and exceptions.
   */
  lemma StepFailureKeepsStatus(apiKey: string, req: Request, env: Environment, file: Option<DeployStatus>, now: string)
    requires Authorized(req, apiKey)
    requires RunPipeline(env).verdict.Stopped? && RunPipeline(env).verdict.failure.IsEarlyReturn()
    ensures HandleDeploy(apiKey, req, env, file, now).file == file
    ensures HandleDeploy(apiKey, req, env, file, now).response ==
      Response(500, DeployError(RunPipeline(env).verdict.failure.Message(), RunPipeline(env).verdict.failure.StageName()))
  {
  }

  /** One deploy request with the world it meets. */
  datatype Attempt = Attempt(req: Request, env: Environment, now: string)

  function Replay(apiKey: string, attempts: seq<Attempt>, file: Option<DeployStatus>): Option<DeployStatus>
    decreases |attempts|
  {
    if attempts == [] then file
    else
      var a := attempts[0];
      Replay(apiKey, attempts[1..], HandleDeploy(apiKey, a.req, a.env, file, a.now).file)
  }

  predicate Succeeds(apiKey: string, a: Attempt) {
    Authorized(a.req, apiKey) && RunPipeline(a.env).verdict.Published?
  }

  function CountSuccesses(apiKey: string, attempts: seq<Attempt>): nat
    decreases |attempts|
  {
    if attempts == [] then 0
    else (if Succeeds(apiKey, attempts[0]) then 1 else 0) + CountSuccesses(apiKey, attempts[1..])
  }

  /** After any run of deploy requests the count has grown by exactly the number that published. */
  lemma {:induction false} CountTracksSuccesses(apiKey: string, attempts: seq<Attempt>, file: Option<DeployStatus>)
    ensures ReadStatus(Replay(apiKey, attempts, file)).deployCount
      == ReadStatus(file).deployCount + CountSuccesses(apiKey, attempts)
  {
    if attempts != [] {
      var a := attempts[0];
      var next := HandleDeploy(apiKey, a.req, a.env, file, a.now).file;
      CountTracksSuccesses(apiKey, attempts[1..], next);
      assert ReadStatus(next).deployCount == ReadStatus(file).deployCount + (if Succeeds(apiKey, a) then 1 else 0);
    }
  }

  // ---------------------------------------------------------------------------
  // GET /api-key

  /** The key is returned only to a request from the loopback address; any other origin gets 403. */
  function ApiKeyRoute(req: Request, apiKey: string): (resp: Response)
    ensures resp.code == 403 <==> req.remoteAddr != Loopback
    ensures req.remoteAddr == Loopback ==> resp == Response(200, KeyBody(apiKey))
    ensures req.remoteAddr != Loopback ==> resp.body == Forbidden(LocalOnlyMessage)
  {
    if req.remoteAddr != Loopback then Response(403, Forbidden(LocalOnlyMessage))
    else Response(200, KeyBody(apiKey))
  }

  /** Headers and body never matter to `/api-key`: a non-loopback caller cannot learn the key. */
  lemma ApiKeyIgnoresHeaders(req: Request, apiKey: string, auth: Option<string>, json: Option<JsonBody>)
    ensures ApiKeyRoute(req.(authorization := auth, json := json), apiKey) == ApiKeyRoute(req, apiKey)
    ensures req.remoteAddr != Loopback ==> !ApiKeyRoute(req, apiKey).body.KeyBody?
  {
  }

  // ---------------------------------------------------------------------------
  // The server's state

  /** The running server: the key loaded at start-up and the status file it reads and rewrites. */
  class DeployService {
    const apiKey: string
    var statusFile: Option<DeployStatus>

    constructor (key: string, file: Option<DeployStatus>)
      ensures apiKey == key && statusFile == file
    {
      apiKey := key;
      statusFile := file;
    }

    /** POST /deploy. */
    method Deploy(req: Request, env: Environment, now: string) returns (resp: Response)
      modifies this
      ensures Outcomes(resp, statusFile) == HandleDeploy(apiKey, req, env, old(statusFile), now)
      ensures resp.code == 200 ==> ReadStatus(statusFile).deployCount == ReadStatus(old(statusFile)).deployCount + 1
      ensures resp.code != 200 ==> ReadStatus(statusFile).deployCount == ReadStatus(old(statusFile)).deployCount
    {
      if !Authorized(req, apiKey) {
        return Response(401, AuthError(InvalidKeyMessage));
      }
      var run := RunPipeline(env);
      if run.verdict.Stopped? {
        var f := run.verdict.failure;
        resp := Response(500, DeployError(f.Message(), f.StageName()));
        if !f.IsEarlyReturn() {
          var status := ReadStatus(statusFile);
          status := status.(lastStatus := Failed, lastMessage := f.Message());
          statusFile := Some(status);
        }
        return;
      }
      var status := ReadStatus(statusFile);
      status := status.(lastDeploy := Some(now));
      status := status.(deployCount := status.deployCount + 1);
      status := status.(lastStatus := Succeeded);
      status := status.(lastMessage := SuccessMessage);
      statusFile := Some(status);
      resp := Response(200, DeployDone(DoneMessage(status.deployCount), now, status.deployCount));
    }

    /** GET /status: the record as read, with no change to the server. */
    method Status() returns (resp: Response)
      ensures resp.code == 200 && resp.body.StatusBody?
      ensures statusFile.Some? ==> resp.body.status == statusFile.value
      ensures statusFile.None? ==> resp.body.status == DefaultStatus()
    {
      resp := Response(200, StatusBody(ReadStatus(statusFile)));
    }

    /** GET /api-key. */
    method ApiKey(req: Request) returns (resp: Response)
      ensures req.remoteAddr == Loopback ==> resp == Response(200, KeyBody(apiKey))
      ensures req.remoteAddr != Loopback ==> resp.code == 403 && !resp.body.KeyBody?
    {
      resp := ApiKeyRoute(req, apiKey);
    }
  }
}

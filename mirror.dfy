/** The mirror's behaviour as values: what one repository pair adds to the
    trace (`SyncTrace`, the sequence of `syncRepositories` in main.go), what
    the ordered batch adds (`RunTrace`), and the whole process from the
    startup checks on (`MainTrace`). The results of the transport, of the
    scratch-directory provider and of reading the configuration file are
    inputs: the model decides only what the program does with them. */
module Mirror {
  import opened Endpoints
  import opened Lines
  import opened Trace

  /** One configured pair; `id` is only used in a log line. */
  datatype Repository = Repository(id: int, source: string, target: string)

  /** The four values read from the environment, under their variable names. */
  datatype Env = Env(username1: string, username2: string, sourceToken: string, targetToken: string)

  /** Result of creating the scratch directory, of the clone and of adding the remote. */
  datatype Result = Ok | Err(err: string)

  /** Result of the force push: the transport's "already up-to-date" is its own case. */
  datatype PushResult = Pushed | AlreadyUpToDate | PushFailed(err: string)

  /** What the environment answers for one pair, step by step. */
  datatype PairOutcome = PairOutcome(tempDir: Result, clone: Result, remote: Result, push: PushResult)

  /** Result of opening, reading and decoding the repository list. */
  datatype Config =
    | Loaded(pairs: seq<Repository>)
    | OpenFailed(err: string)
    | ReadFailed(err: string)
    | ParseFailed(err: string)

  /** Events added, and whether the process stopped on a fatal error. */
  datatype Outcome = Outcome(events: seq<Event>, fatal: bool)

  /** The outcomes the program treats as fatal: every error except an
      up-to-date push. */
  predicate PairFatal(out: PairOutcome)
  {
    out.tempDir.Err? || out.clone.Err? || out.remote.Err? || out.push.PushFailed?
  }

  /** The events of `syncRepositories` for one pair, in workspace `ws`.
      A fatal step ends the events with its fatal line and nothing else: in
      particular the deferred workspace removal does not run. */
  function SyncTrace(ws: nat, source: string, target: string, sourceToken: string, targetToken: string,
                     username1: string, username2: string, out: PairOutcome): Outcome
  {
    var sourceURL := SourceEndpoint(username2, sourceToken, source);
    var targetURL := TargetEndpoint(username1, targetToken, target);
    var syncing := [Log(Syncing(source, target))];
    var cloning := syncing + [MakeWorkspace(ws)] + [Clone(ws, sourceURL, BasicAuth(username2, sourceToken), true)];
    var adding := cloning + [AddRemote(ws, RemoteName, [targetURL])];
    var pushing := adding + [Push(ws, RemoteName, BasicAuth(username1, targetToken), true)];
    match out.tempDir
    case Err(e) => Outcome(syncing + [Fatal(TempDirFailure(e))], true)
    case Ok =>
      match out.clone
      case Err(e) => Outcome(cloning + [Fatal(CloneFailure(sourceURL, e))], true)
      case Ok =>
        match out.remote
        case Err(e) => Outcome(adding + [Fatal(RemoteFailure(e))], true)
        case Ok =>
          match out.push
          case PushFailed(e) => Outcome(pushing + [Fatal(PushFailure(e))], true)
          case AlreadyUpToDate => Outcome(pushing + [Log(UpToDate)] + [Log(Completed)] + [RemoveWorkspace(ws)], false)
          case Pushed => Outcome(pushing + [Log(Completed)] + [RemoveWorkspace(ws)], false)
  }

  /** `SyncTrace` for a configured pair and the run's credentials, as the
      batch loop calls it. */
  function PairSync(ws: nat, repo: Repository, env: Env, out: PairOutcome): Outcome
  {
    SyncTrace(ws, repo.source, repo.target, env.sourceToken, env.targetToken, env.username1, env.username2, out)
  }

  /** The events of the k-th iteration of the batch loop: its progress line,
      then the pair's own events. */
  function Block(pairs: seq<Repository>, env: Env, transport: nat -> PairOutcome, k: nat): seq<Event>
    requires k < |pairs|
  {
    [Log(Processing(pairs[k].id))] + PairSync(k, pairs[k], env, transport(k)).events
  }

  /** The blocks of the first n pairs, in list order. */
  function Blocks(pairs: seq<Repository>, env: Env, transport: nat -> PairOutcome, n: nat): seq<Event>
    requires n <= |pairs|
  {
    if n == 0 then [] else Blocks(pairs, env, transport, n - 1) + Block(pairs, env, transport, n - 1)
  }

  /** The first position in [lo, n) whose outcome is fatal, or n. */
  function FirstFatal(lo: nat, n: nat, transport: nat -> PairOutcome): (r: nat)
    requires lo <= n
    ensures lo <= r <= n
    ensures forall j :: lo <= j < r ==> !PairFatal(transport(j))
    ensures r < n ==> PairFatal(transport(r))
    decreases n - lo
  {
    if lo == n then n
    else if PairFatal(transport(lo)) then lo
    else FirstFatal(lo + 1, n, transport)
  }

  /** How many pairs the batch loop starts: all of them, or up to and
      including the first fatal one. */
  function Processed(n: nat, transport: nat -> PairOutcome): nat
  {
    var f := FirstFatal(0, n, transport);
    if f < n then f + 1 else n
  }

  /** The batch loop of main: the blocks of the processed pairs, fatal iff
      some pair was fatal. */
  function RunTrace(pairs: seq<Repository>, env: Env, transport: nat -> PairOutcome): Outcome
  {
    var m := Processed(|pairs|, transport);
    assert m <= |pairs|;
    Outcome(Blocks(pairs, env, transport, m), FirstFatal(0, |pairs|, transport) < |pairs|)
  }

  predicate CredentialsPresent(env: Env)
  {
    env.username1 != "" && env.username2 != "" && env.sourceToken != "" && env.targetToken != ""
  }

  /** The whole process: the `.env` load, the credential check, the
      configuration file, then the batch loop. */
  function MainTrace(envLoaded: bool, env: Env, config: Config, transport: nat -> PairOutcome): Outcome
  {
    if !envLoaded then Outcome([Fatal(EnvLoadFailure)], true)
    else if !CredentialsPresent(env) then Outcome([Fatal(MissingCredentials)], true)
    else match config
      case OpenFailed(e) => Outcome([Fatal(OpenFailure(e))], true)
      case ReadFailed(e) => Outcome([Fatal(ReadFailure(e))], true)
      case ParseFailed(e) => Outcome([Fatal(ParseFailure(e))], true)
      case Loaded(pairs) => RunTrace(pairs, env, transport)
  }
}

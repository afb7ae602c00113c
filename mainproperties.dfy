/** Properties of the whole process: the startup checks, the configuration
    file, and the batch loop they guard. */
module MainProperties {
  import opened Endpoints
  import opened Lines
  import opened Trace
  import opened Mirror
  import opened MirrorProperties
  import opened RunProperties

  /** Without the `.env` file or without all four credentials the process
      stops with one fatal line, before reading the configuration and before
      any transport call; what the configuration or the transport would have
      answered makes no difference. */
  lemma StartupGate(envLoaded: bool, env: Env, config: Config, config': Config,
                    transport: nat -> PairOutcome, transport': nat -> PairOutcome)
    requires !envLoaded || !CredentialsPresent(env)
    ensures var r := MainTrace(envLoaded, env, config, transport);
            r == MainTrace(envLoaded, env, config', transport') &&
            r.fatal && |r.events| == 1 && !InWorkspace(r.events[0]) &&
            r.events[0] == Fatal(if !envLoaded then EnvLoadFailure else MissingCredentials)
  {
  }

  /** A configuration file that cannot be opened, read or decoded stops the
      process with one fatal line naming that step, before any pair. */
  lemma ConfigFailureIsFatal(env: Env, config: Config, transport: nat -> PairOutcome, transport': nat -> PairOutcome)
    requires CredentialsPresent(env) && !config.Loaded?
    ensures var r := MainTrace(true, env, config, transport);
            r == MainTrace(true, env, config, transport') &&
            r.fatal && |r.events| == 1 && !InWorkspace(r.events[0]) &&
            (config.OpenFailed? ==> r.events[0] == Fatal(OpenFailure(config.err))) &&
            (config.ReadFailed? ==> r.events[0] == Fatal(ReadFailure(config.err))) &&
            (config.ParseFailed? ==> r.events[0] == Fatal(ParseFailure(config.err)))
  {
  }

  /** Whatever the environment answers: the process logs a fatal line only as
      its last event and exactly when it stops on an error; it never holds
      two workspaces or calls the transport outside the one it holds; and it
      handles pairs in list order. */
  lemma MainShape(envLoaded: bool, env: Env, config: Config, transport: nat -> PairOutcome)
    ensures var r := MainTrace(envLoaded, env, config, transport);
            FatalLast(r.events) && (r.fatal <==> EndsFatal(r.events)) &&
            Occupancy(r.events, Idle) != Misused && InOrder(r.events)
  {
    if envLoaded && CredentialsPresent(env) && config.Loaded? {
      RunStopsAtFirstFatal(config.pairs, env, transport);
      RunWorkspace(config.pairs, env, transport);
      RunCredentialRoles(config.pairs, env, transport);
    }
  }

  /** With the credentials present, a readable list and no failing pair,
      the process ends normally with every pair mirrored once and no
      workspace left behind. */
  lemma MainSucceeds(env: Env, pairs: seq<Repository>, transport: nat -> PairOutcome, k: Kind)
    requires CredentialsPresent(env)
    requires forall j :: 0 <= j < |pairs| ==> !PairFatal(transport(j))
    ensures var r := MainTrace(true, env, Loaded(pairs), transport);
            !r.fatal && NoFatal(r.events) && Occupancy(r.events, Idle) == Idle &&
            (k in {MakeKind, CloneKind, RemoteKind, PushKind, RemoveKind} ==> Count(r.events, k) == |pairs|)
  {
    AllPairsSucceed(pairs, env, transport, k);
    RunStopsAtFirstFatal(pairs, env, transport);
    RunWorkspace(pairs, env, transport);
  }

  /** Every clone of a run reads back as the source endpoint of its pair,
      with the second principal and the source secret, and authenticates as
      that same principal; every push goes to the remote whose only URL reads
      back as the target endpoint with the first principal and the target
      secret, and authenticates as that principal. */
  lemma EndpointsCarryTheirRoles(env: Env, pairs: seq<Repository>, transport: nat -> PairOutcome, i: nat)
    requires ':' !in env.username1 && ':' !in env.username2
    requires '@' !in env.sourceToken && '@' !in env.targetToken
    requires CredentialsPresent(env)
    requires i < |MainTrace(true, env, Loaded(pairs), transport).events|
    ensures var e := MainTrace(true, env, Loaded(pairs), transport).events[i];
            (e.Clone? ==>
               e.ws < |pairs| && e.bare && e.auth == BasicAuth(env.username2, env.sourceToken) &&
               Parse(e.url) == Some(Endpoint("http", env.username2, env.sourceToken, pairs[e.ws].source))) &&
            (e.AddRemote? ==>
               e.ws < |pairs| && e.name == RemoteName && |e.urls| == 1 &&
               Parse(e.urls[0]) == Some(Endpoint("https", env.username1, env.targetToken, pairs[e.ws].target))) &&
            (e.Push? ==> e.remote == RemoteName && e.force && e.auth == BasicAuth(env.username1, env.targetToken))
  {
    var ev := MainTrace(true, env, Loaded(pairs), transport).events;
    RunCredentialRoles(pairs, env, transport);
    var e := ev[i];
    assert Authenticated(e, pairs, env, Processed(|pairs|, transport));
    if e.Clone? {
      SourceEndpointRoundTrip(env.username2, env.sourceToken, pairs[e.ws].source);
    } else if e.AddRemote? {
      TargetEndpointRoundTrip(env.username1, env.targetToken, pairs[e.ws].target);
    }
  }

  /** A single pair whose target already matches: the process ends normally,
      logging the progress line, the "Syncing" line, the up-to-date line and
      the completion line, and removes its workspace. */
  lemma SinglePairUpToDate(env: Env, repo: Repository, transport: nat -> PairOutcome)
    requires CredentialsPresent(env)
    requires transport(0) == PairOutcome(Ok, Ok, Ok, AlreadyUpToDate)
    ensures var r := MainTrace(true, env, Loaded([repo]), transport);
            !r.fatal && Occupancy(r.events, Idle) == Idle &&
            Messages(r.events) == [Processing(repo.id), Syncing(repo.source, repo.target), UpToDate, Completed]
  {
    MainSucceeds(env, [repo], transport, RemoveKind);
    assert Processed(1, transport) == 1;
    BlocksMessages([repo], env, transport, 1);
  }

  /** Two pairs, the second failing to clone: the first pair is mirrored, the
      process then stops on the clone error of the second, whose remote is
      never added and whose push is never attempted. */
  lemma SecondCloneFails(env: Env, first: Repository, second: Repository, transport: nat -> PairOutcome, err: string)
    requires CredentialsPresent(env)
    requires transport(0) == PairOutcome(Ok, Ok, Ok, Pushed)
    requires transport(1).tempDir.Ok? && transport(1).clone == Err(err)
    ensures var r := MainTrace(true, env, Loaded([first, second]), transport);
            r.fatal && EndsFatal(r.events) &&
            r.events[|r.events| - 1] == Fatal(CloneFailure(SourceEndpoint(env.username2, env.sourceToken, second.source), err)) &&
            Count(r.events, CloneKind) == 2 && Count(r.events, RemoteKind) == 1 &&
            Count(r.events, PushKind) == 1 && Count(r.events, RemoveKind) == 1
  {
    var pairs := [first, second];
    assert FirstFatal(0, 2, transport) == 1;
    RunStopsAtFirstFatal(pairs, env, transport);
    FatalRunCounts(pairs, env, transport, CloneKind);
    FatalRunCounts(pairs, env, transport, RemoteKind);
    FatalRunCounts(pairs, env, transport, PushKind);
    FatalRunCounts(pairs, env, transport, RemoveKind);
    var ev := PairSync(1, second, env, transport(1)).events;
    assert Blocks(pairs, env, transport, 2) == Blocks(pairs, env, transport, 1) + ([Log(Processing(second.id))] + ev);
  }
}

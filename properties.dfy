/** What the mirror promises, proved about its specification in `Mirror`:
    first for one repository pair, then for the ordered batch, then for the
    whole process including the startup checks. */
module MirrorProperties {
  import opened Endpoints
  import opened Lines
  import opened Trace
  import opened Mirror

  // ---------------------------------------------------------------------
  // One repository pair
  // ---------------------------------------------------------------------

  /** A pair is fatal exactly when some step failed other than by an
      up-to-date push; the pair starts with its "Syncing" line; a fatal line
      can only come last and comes last exactly when the pair is fatal; a
      pair that returns normally creates its workspace, clones, adds the
      remote and pushes, in that order, then logs "Sync completed" (after the up-to-date
      line when the push had nothing to do) and then removes its workspace. */
  lemma PairOutcomeShape(ws: nat, repo: Repository, env: Env, out: PairOutcome)
    ensures var r := PairSync(ws, repo, env, out);
            (r.fatal <==> PairFatal(out)) &&
            |r.events| >= 2 && r.events[0] == Log(Syncing(repo.source, repo.target)) &&
            FatalLast(r.events) && (r.fatal <==> EndsFatal(r.events)) &&
            (!r.fatal ==> NoFatal(r.events))
    ensures var ev := PairSync(ws, repo, env, out).events;
            !PairFatal(out) ==>
              |ev| >= 7 &&
              ev[1] == MakeWorkspace(ws) && ev[2].Clone? && ev[3].AddRemote? && ev[4].Push? &&
              ev[|ev| - 1] == RemoveWorkspace(ws) && ev[|ev| - 2] == Log(Completed) &&
              (out.push == AlreadyUpToDate <==> ev[|ev| - 3] == Log(UpToDate))
  {
  }

  /** How often each kind of event occurs for one pair: a workspace and a
      clone once the scratch directory exists, the remote only after a
      successful clone, the push only after the remote was added, one removal
      exactly when the pair is not fatal, one fatal line exactly when it is,
      and the "Syncing" line, the completion line and, when the push had
      nothing to do, the up-to-date line. */
  function PairKindCount(out: PairOutcome, k: Kind): nat
  {
    match k
    case MakeKind => Ind(out.tempDir.Ok?)
    case CloneKind => Ind(out.tempDir.Ok?)
    case RemoteKind => Ind(out.tempDir.Ok? && out.clone.Ok?)
    case PushKind => Ind(out.tempDir.Ok? && out.clone.Ok? && out.remote.Ok?)
    case RemoveKind => Ind(!PairFatal(out))
    case FatalKind => Ind(PairFatal(out))
    case LogKind => 1 + (if PairFatal(out) then 0 else 1 + Ind(out.push == AlreadyUpToDate))
  }

  lemma PairCounts(ws: nat, repo: Repository, env: Env, out: PairOutcome, k: Kind)
    ensures Count(PairSync(ws, repo, env, out).events, k) == PairKindCount(out, k)
  {
    if out.tempDir.Err? || out.clone.Err? {
      EarlyCounts(ws, repo, env, out, k);
    } else {
      LateCounts(ws, repo, env, out, k);
    }
  }

  lemma EarlyCounts(ws: nat, repo: Repository, env: Env, out: PairOutcome, k: Kind)
    requires out.tempDir.Err? || out.clone.Err?
    ensures Count(PairSync(ws, repo, env, out).events, k) == PairKindCount(out, k)
  {
    var sourceURL := SourceEndpoint(env.username2, env.sourceToken, repo.source);
    var syncing := [Log(Syncing(repo.source, repo.target))];
    var made := syncing + [MakeWorkspace(ws)];
    var cloning := made + [Clone(ws, sourceURL, BasicAuth(env.username2, env.sourceToken), true)];
    CountSnoc([], syncing[0], k);
    assert [] + [syncing[0]] == syncing;
    var ev := PairSync(ws, repo, env, out).events;
    match out.tempDir
    case Err(e) =>
      assert ev == syncing + [Fatal(TempDirFailure(e))];
      CountSnoc(syncing, Fatal(TempDirFailure(e)), k);
    case Ok =>
      var e := out.clone.err;
      assert ev == cloning + [Fatal(CloneFailure(sourceURL, e))];
      CountSnoc(syncing, MakeWorkspace(ws), k);
      CountSnoc(made, Clone(ws, sourceURL, BasicAuth(env.username2, env.sourceToken), true), k);
      CountSnoc(cloning, Fatal(CloneFailure(sourceURL, e)), k);
  }

  lemma LateCounts(ws: nat, repo: Repository, env: Env, out: PairOutcome, k: Kind)
    requires out.tempDir.Ok? && out.clone.Ok?
    ensures Count(PairSync(ws, repo, env, out).events, k) == PairKindCount(out, k)
  {
    var sourceURL := SourceEndpoint(env.username2, env.sourceToken, repo.source);
    var targetURL := TargetEndpoint(env.username1, env.targetToken, repo.target);
    var syncing := [Log(Syncing(repo.source, repo.target))];
    var made := syncing + [MakeWorkspace(ws)];
    var cloning := made + [Clone(ws, sourceURL, BasicAuth(env.username2, env.sourceToken), true)];
    var adding := cloning + [AddRemote(ws, RemoteName, [targetURL])];
    var pushing := adding + [Push(ws, RemoteName, BasicAuth(env.username1, env.targetToken), true)];
    assert Count(adding, k) == Ind(LogKind == k) + Ind(MakeKind == k) + Ind(CloneKind == k) + Ind(RemoteKind == k) by {
      CountSnoc([], syncing[0], k);
      assert [] + [syncing[0]] == syncing;
      CountSnoc(syncing, MakeWorkspace(ws), k);
      CountSnoc(made, Clone(ws, sourceURL, BasicAuth(env.username2, env.sourceToken), true), k);
      CountSnoc(cloning, AddRemote(ws, RemoteName, [targetURL]), k);
    }
    var ev := PairSync(ws, repo, env, out).events;
    if out.remote.Err? {
      var e := out.remote.err;
      assert ev == adding + [Fatal(RemoteFailure(e))];
      CountSnoc(adding, Fatal(RemoteFailure(e)), k);
    } else {
      CountSnoc(adding, Push(ws, RemoteName, BasicAuth(env.username1, env.targetToken), true), k);
      PushCounts(ws, repo, env, out, k, pushing);
    }
  }

  lemma PushCounts(ws: nat, repo: Repository, env: Env, out: PairOutcome, k: Kind, pushing: seq<Event>)
    requires out.tempDir.Ok? && out.clone.Ok? && out.remote.Ok?
    requires pushing == [Log(Syncing(repo.source, repo.target))] + [MakeWorkspace(ws)] +
      [Clone(ws, SourceEndpoint(env.username2, env.sourceToken, repo.source), BasicAuth(env.username2, env.sourceToken), true)] +
      [AddRemote(ws, RemoteName, [TargetEndpoint(env.username1, env.targetToken, repo.target)])] +
      [Push(ws, RemoteName, BasicAuth(env.username1, env.targetToken), true)]
    requires Count(pushing, k) == Ind(LogKind == k) + Ind(MakeKind == k) + Ind(CloneKind == k) + Ind(RemoteKind == k) + Ind(PushKind == k)
    ensures Count(PairSync(ws, repo, env, out).events, k) == PairKindCount(out, k)
  {
    var ev := PairSync(ws, repo, env, out).events;
    match out.push
    case PushFailed(e) =>
      assert ev == pushing + [Fatal(PushFailure(e))];
      CountSnoc(pushing, Fatal(PushFailure(e)), k);
    case AlreadyUpToDate =>
      var up := pushing + [Log(UpToDate)];
      var done := up + [Log(Completed)];
      assert ev == done + [RemoveWorkspace(ws)];
      CountSnoc(pushing, Log(UpToDate), k);
      CountSnoc(up, Log(Completed), k);
      CountSnoc(done, RemoveWorkspace(ws), k);
    case Pushed =>
      var done := pushing + [Log(Completed)];
      assert ev == done + [RemoveWorkspace(ws)];
      CountSnoc(pushing, Log(Completed), k);
      CountSnoc(done, RemoveWorkspace(ws), k);
  }

  /** The log lines of one pair, in order. */
  function PairLines(repo: Repository, env: Env, out: PairOutcome): seq<Line>
  {
    [Syncing(repo.source, repo.target)] +
    match out.tempDir
    case Err(e) => [TempDirFailure(e)]
    case Ok =>
      match out.clone
      case Err(e) => [CloneFailure(SourceEndpoint(env.username2, env.sourceToken, repo.source), e)]
      case Ok =>
        match out.remote
        case Err(e) => [RemoteFailure(e)]
        case Ok =>
          match out.push
          case PushFailed(e) => [PushFailure(e)]
          case AlreadyUpToDate => [UpToDate, Completed]
          case Pushed => [Completed]
  }

  lemma PairMessages(ws: nat, repo: Repository, env: Env, out: PairOutcome)
    ensures Messages(PairSync(ws, repo, env, out).events) == PairLines(repo, env, out)
  {
    var sourceURL := SourceEndpoint(env.username2, env.sourceToken, repo.source);
    var targetURL := TargetEndpoint(env.username1, env.targetToken, repo.target);
    var syncing := [Log(Syncing(repo.source, repo.target))];
    var made := syncing + [MakeWorkspace(ws)];
    var cloning := made + [Clone(ws, sourceURL, BasicAuth(env.username2, env.sourceToken), true)];
    var ev := PairSync(ws, repo, env, out).events;
    assert Messages(syncing) == [Syncing(repo.source, repo.target)];
    match out.tempDir
    case Err(e) =>
      assert ev == syncing + [Fatal(TempDirFailure(e))];
      MessagesSnoc(syncing, Fatal(TempDirFailure(e)));
    case Ok =>
      MessagesSnoc(syncing, MakeWorkspace(ws));
      MessagesSnoc(made, Clone(ws, sourceURL, BasicAuth(env.username2, env.sourceToken), true));
      assert Messages(cloning) == [Syncing(repo.source, repo.target)];
      match out.clone
      case Err(e) =>
        assert ev == cloning + [Fatal(CloneFailure(sourceURL, e))];
        MessagesSnoc(cloning, Fatal(CloneFailure(sourceURL, e)));
      case Ok =>
        LateMessages(ws, repo, env, out, cloning);
  }

  lemma LateMessages(ws: nat, repo: Repository, env: Env, out: PairOutcome, cloning: seq<Event>)
    requires out.tempDir.Ok? && out.clone.Ok?
    requires cloning == [Log(Syncing(repo.source, repo.target))] + [MakeWorkspace(ws)] +
      [Clone(ws, SourceEndpoint(env.username2, env.sourceToken, repo.source), BasicAuth(env.username2, env.sourceToken), true)]
    requires Messages(cloning) == [Syncing(repo.source, repo.target)]
    ensures Messages(PairSync(ws, repo, env, out).events) == PairLines(repo, env, out)
  {
    var targetURL := TargetEndpoint(env.username1, env.targetToken, repo.target);
    var adding := cloning + [AddRemote(ws, RemoteName, [targetURL])];
    var pushing := adding + [Push(ws, RemoteName, BasicAuth(env.username1, env.targetToken), true)];
    var ev := PairSync(ws, repo, env, out).events;
    MessagesSnoc(cloning, AddRemote(ws, RemoteName, [targetURL]));
    MessagesSnoc(adding, Push(ws, RemoteName, BasicAuth(env.username1, env.targetToken), true));
    match out.remote
    case Err(e) =>
      assert ev == adding + [Fatal(RemoteFailure(e))];
      MessagesSnoc(adding, Fatal(RemoteFailure(e)));
    case Ok =>
      match out.push
      case PushFailed(e) =>
        assert ev == pushing + [Fatal(PushFailure(e))];
        MessagesSnoc(pushing, Fatal(PushFailure(e)));
      case AlreadyUpToDate =>
        var up := pushing + [Log(UpToDate)];
        var done := up + [Log(Completed)];
        assert ev == done + [RemoveWorkspace(ws)];
        MessagesSnoc(pushing, Log(UpToDate));
        MessagesSnoc(up, Log(Completed));
        MessagesSnoc(done, RemoveWorkspace(ws));
      case Pushed =>
        var done := pushing + [Log(Completed)];
        assert ev == done + [RemoveWorkspace(ws)];
        MessagesSnoc(pushing, Log(Completed));
        MessagesSnoc(done, RemoveWorkspace(ws));
  }

  /** The log lines of a pair, and so their text, do not depend on the
      credentials, except for the clone-failure line, which quotes the
      authenticated source endpoint. */
  lemma PairLinesIgnoreCredentials(ws: nat, repo: Repository, env: Env, env': Env, out: PairOutcome)
    requires !(out.tempDir.Ok? && out.clone.Err?)
    ensures Messages(PairSync(ws, repo, env, out).events) == Messages(PairSync(ws, repo, env', out).events)
  {
    PairMessages(ws, repo, env, out);
    PairMessages(ws, repo, env', out);
  }

  /** The clone-failure line is the exception: it names the second principal
      and carries the source secret. */
  lemma CloneFailureRevealsSecret(ws: nat, repo: Repository, env: Env, out: PairOutcome)
    requires out.tempDir.Ok? && out.clone.Err?
    ensures var ev := PairSync(ws, repo, env, out).events;
            |ev| > 0 && ev[|ev| - 1].Fatal? &&
            Contains(Text(ev[|ev| - 1].line), env.sourceToken) && Contains(Text(ev[|ev| - 1].line), env.username2)
  {
    var url := SourceEndpoint(env.username2, env.sourceToken, repo.source);
    var line := Text(CloneFailure(url, out.clone.err));
    SourceTokenAt(env.username2, env.sourceToken, repo.source);
    var n := |"Failed to clone "|;
    assert line == "Failed to clone " + url + ": " + out.clone.err;
    assert line[n..n + |url|] == url;
    assert OccursAt(line, env.sourceToken, n + 8 + |env.username2|) by {
      assert line[n + 8 + |env.username2|..n + 8 + |env.username2| + |env.sourceToken|]
          == url[8 + |env.username2|..8 + |env.username2| + |env.sourceToken|];
    }
    assert OccursAt(line, env.username2, n + 7) by {
      assert line[n + 7..n + 7 + |env.username2|] == url[7..7 + |env.username2|];
    }
  }

  /** One pair keeps to one workspace at a time: it creates its workspace
      before any transport call, calls the transport only inside it, and
      leaves the scratch storage empty when it returns normally. On a fatal
      error after the workspace exists the workspace is left behind, since
      the process exits without running the deferred removal. */
  lemma PairWorkspace(ws: nat, repo: Repository, env: Env, out: PairOutcome)
    ensures Occupancy(PairSync(ws, repo, env, out).events, Idle) ==
            if out.tempDir.Ok? && PairFatal(out) then Held(ws) else Idle
  {
    var sourceURL := SourceEndpoint(env.username2, env.sourceToken, repo.source);
    var syncing := [Log(Syncing(repo.source, repo.target))];
    var made := syncing + [MakeWorkspace(ws)];
    var cloning := made + [Clone(ws, sourceURL, BasicAuth(env.username2, env.sourceToken), true)];
    var ev := PairSync(ws, repo, env, out).events;
    assert Occupancy(syncing, Idle) == Idle;
    match out.tempDir
    case Err(e) =>
      assert ev == syncing + [Fatal(TempDirFailure(e))];
      OccupancySnoc(syncing, Fatal(TempDirFailure(e)), Idle);
    case Ok =>
      OccupancySnoc(syncing, MakeWorkspace(ws), Idle);
      OccupancySnoc(made, Clone(ws, sourceURL, BasicAuth(env.username2, env.sourceToken), true), Idle);
      match out.clone
      case Err(e) =>
        assert ev == cloning + [Fatal(CloneFailure(sourceURL, e))];
        OccupancySnoc(cloning, Fatal(CloneFailure(sourceURL, e)), Idle);
      case Ok =>
        LateWorkspace(ws, repo, env, out, cloning);
  }

  lemma LateWorkspace(ws: nat, repo: Repository, env: Env, out: PairOutcome, cloning: seq<Event>)
    requires out.tempDir.Ok? && out.clone.Ok?
    requires cloning == [Log(Syncing(repo.source, repo.target))] + [MakeWorkspace(ws)] +
      [Clone(ws, SourceEndpoint(env.username2, env.sourceToken, repo.source), BasicAuth(env.username2, env.sourceToken), true)]
    requires Occupancy(cloning, Idle) == Held(ws)
    ensures Occupancy(PairSync(ws, repo, env, out).events, Idle) ==
            if PairFatal(out) then Held(ws) else Idle
  {
    var targetURL := TargetEndpoint(env.username1, env.targetToken, repo.target);
    var adding := cloning + [AddRemote(ws, RemoteName, [targetURL])];
    var pushing := adding + [Push(ws, RemoteName, BasicAuth(env.username1, env.targetToken), true)];
    var ev := PairSync(ws, repo, env, out).events;
    OccupancySnoc(cloning, AddRemote(ws, RemoteName, [targetURL]), Idle);
    OccupancySnoc(adding, Push(ws, RemoteName, BasicAuth(env.username1, env.targetToken), true), Idle);
    match out.remote
    case Err(e) =>
      assert ev == adding + [Fatal(RemoteFailure(e))];
      OccupancySnoc(adding, Fatal(RemoteFailure(e)), Idle);
    case Ok =>
      match out.push
      case PushFailed(e) =>
        assert ev == pushing + [Fatal(PushFailure(e))];
        OccupancySnoc(pushing, Fatal(PushFailure(e)), Idle);
      case AlreadyUpToDate =>
        var up := pushing + [Log(UpToDate)];
        var done := up + [Log(Completed)];
        assert ev == done + [RemoveWorkspace(ws)];
        OccupancySnoc(pushing, Log(UpToDate), Idle);
        OccupancySnoc(up, Log(Completed), Idle);
        OccupancySnoc(done, RemoveWorkspace(ws), Idle);
      case Pushed =>
        var done := pushing + [Log(Completed)];
        assert ev == done + [RemoveWorkspace(ws)];
        OccupancySnoc(pushing, Log(Completed), Idle);
        OccupancySnoc(done, RemoveWorkspace(ws), Idle);
  }

  /** Which credentials and endpoint each call of pair `repo` in workspace
      `ws` uses: the bare clone goes to the source endpoint as the second
      principal with the source secret; the remote is named "target" and has
      the target endpoint as its only URL; the force push goes to that remote
      as the first principal with the target secret. */
  predicate PairRoles(e: Event, ws: nat, repo: Repository, env: Env)
  {
    match e
    case MakeWorkspace(x) => x == ws
    case RemoveWorkspace(x) => x == ws
    case Clone(x, url, auth, bare) =>
      x == ws && url == SourceEndpoint(env.username2, env.sourceToken, repo.source) &&
      auth == BasicAuth(env.username2, env.sourceToken) && bare
    case AddRemote(x, name, urls) =>
      x == ws && name == RemoteName && urls == [TargetEndpoint(env.username1, env.targetToken, repo.target)]
    case Push(x, remote, auth, force) =>
      x == ws && remote == RemoteName && auth == BasicAuth(env.username1, env.targetToken) && force
    case _ => true
  }

  lemma PairCredentialRoles(ws: nat, repo: Repository, env: Env, out: PairOutcome)
    ensures var ev := PairSync(ws, repo, env, out).events;
            forall i :: 0 <= i < |ev| ==> PairRoles(ev[i], ws, repo, env)
  {
  }
}

/** The program itself, step by step: a process whose log and actions grow
    as it runs and which stops for good on its first fatal error. Each
    method is proved to produce exactly the events of its specification in
    module Mirror. */
module Program {
  import opened Endpoints
  import opened Lines
  import opened Trace
  import opened Mirror
  import opened MirrorProperties
  import opened RunProperties

  class Process {
    /** Everything observable so far. */
    var trace: seq<Event>
    /** Set by the fatal logger: the process has exited. */
    var halted: bool

    ghost predicate Valid()
      reads this
    {
      FatalLast(trace) && (halted <==> EndsFatal(trace))
    }

    constructor ()
      ensures Valid() && trace == [] && !halted
    {
      trace := [];
      halted := false;
    }

    /** logMessage: one informational line. */
    method LogMessage(message: Line)
      requires Valid() && !halted
      modifies this
      ensures Valid() && !halted && trace == old(trace) + [Log(message)]
    {
      trace := trace + [Log(message)];
    }

    /** errorMessage: one "ERROR:" line, then the process exits. */
    method ErrorMessage(message: Line)
      requires Valid() && !halted
      modifies this
      ensures Valid() && halted && trace == old(trace) + [Fatal(message)]
    {
      trace := trace + [Fatal(message)];
      halted := true;
    }

    /** A workspace or transport action that returned to the program. */
    method Perform(e: Event)
      requires Valid() && !halted && !e.Fatal? && !e.Log?
      modifies this
      ensures Valid() && !halted && trace == old(trace) + [e]
    {
      trace := trace + [e];
    }

    /** syncRepositories for one pair, in workspace `ws`, with `out` the
        environment's answers to its steps. */
    method SyncRepository(ws: nat, source: string, target: string, sourceToken: string, targetToken: string,
                          username1: string, username2: string, out: PairOutcome)
      requires Valid() && !halted
      modifies this
      ensures Valid()
      ensures var o := SyncTrace(ws, source, target, sourceToken, targetToken, username1, username2, out);
              trace == old(trace) + o.events && halted == o.fatal
    {
      var sourceURL := SourceEndpoint(username2, sourceToken, source);
      var targetURL := TargetEndpoint(username1, targetToken, target);
      LogMessage(Syncing(source, target));
      if out.tempDir.Err? {
        ErrorMessage(TempDirFailure(out.tempDir.err));
        return;
      }
      Perform(MakeWorkspace(ws));
      Perform(Clone(ws, sourceURL, BasicAuth(username2, sourceToken), true));
      if out.clone.Err? {
        ErrorMessage(CloneFailure(sourceURL, out.clone.err));
        return;
      }
      Perform(AddRemote(ws, RemoteName, [targetURL]));
      if out.remote.Err? {
        ErrorMessage(RemoteFailure(out.remote.err));
        return;
      }
      Perform(Push(ws, RemoteName, BasicAuth(username1, targetToken), true));
      match out.push {
        case PushFailed(e) =>
          ErrorMessage(PushFailure(e));
          return;
        case AlreadyUpToDate =>
          LogMessage(UpToDate);
        case Pushed =>
      }
      LogMessage(Completed);
      // the deferred removal of the scratch directory
      Perform(RemoveWorkspace(ws));
    }

    /** main: the startup checks, then one iteration per configured pair,
        `transport(k)` answering the steps of the k-th pair. */
    method Run(envLoaded: bool, env: Env, config: Config, transport: nat -> PairOutcome)
      requires Valid() && trace == [] && !halted
      modifies this
      ensures Valid()
      ensures var o := MainTrace(envLoaded, env, config, transport);
              trace == o.events && halted == o.fatal
      ensures config.Loaded? && !halted ==>
                Count(trace, CloneKind) == |config.pairs| && Count(trace, PushKind) == |config.pairs|
    {
      if !envLoaded {
        ErrorMessage(EnvLoadFailure);
        return;
      }
      if !CredentialsPresent(env) {
        ErrorMessage(MissingCredentials);
        return;
      }
      match config {
        case OpenFailed(e) =>
          ErrorMessage(OpenFailure(e));
        case ReadFailed(e) =>
          ErrorMessage(ReadFailure(e));
        case ParseFailed(e) =>
          ErrorMessage(ParseFailure(e));
        case Loaded(pairs) =>
          SyncAll(pairs, env, transport);
      }
    }

    /** The batch loop of main: one progress line and one sync per pair, in
        list order, until a fatal error ends the process. */
    method SyncAll(pairs: seq<Repository>, env: Env, transport: nat -> PairOutcome)
      requires Valid() && trace == [] && !halted
      modifies this
      ensures Valid()
      ensures Outcome(trace, halted) == RunTrace(pairs, env, transport)
      ensures !halted ==> Count(trace, CloneKind) == |pairs| && Count(trace, PushKind) == |pairs|
    {
      for i := 0 to |pairs|
        invariant Valid() && !halted
        invariant Progress(pairs, env, transport, i, trace)
      {
        SyncPair(pairs, env, transport, i);
        if halted {
          return;
        }
      }
      assert Progress(pairs, env, transport, |pairs|, trace);
      LoopDone(pairs, env, transport);
    }

    /** One iteration of the batch loop: the progress line, then the sync of
        the i-th pair. */
    method SyncPair(pairs: seq<Repository>, env: Env, transport: nat -> PairOutcome, i: nat)
      requires i < |pairs|
      requires Valid() && !halted && Progress(pairs, env, transport, i, trace)
      modifies this
      ensures Valid()
      ensures halted ==> Outcome(trace, halted) == RunTrace(pairs, env, transport)
      ensures !halted ==> Progress(pairs, env, transport, i + 1, trace)
    {
      var repo := pairs[i];
      LogMessage(Processing(repo.id));
      SyncRepository(i, repo.source, repo.target, env.sourceToken, env.targetToken,
                     env.username1, env.username2, transport(i));
      LoopStep(pairs, env, transport, i, trace, halted);
    }
  }

  /** The state of the batch loop after i pairs, none of them fatal: every
      one of them was cloned and pushed once. */
  ghost predicate Progress(pairs: seq<Repository>, env: Env, transport: nat -> PairOutcome, i: nat, t: seq<Event>)
  {
    i <= |pairs| && t == Blocks(pairs, env, transport, i) &&
    (forall j :: 0 <= j < i ==> !PairFatal(transport(j))) &&
    Count(t, CloneKind) == i && Count(t, PushKind) == i
  }

  /** One iteration of the batch loop, in terms of the blocks of the run. */
  lemma LoopStep(pairs: seq<Repository>, env: Env, transport: nat -> PairOutcome, i: nat,
                 t: seq<Event>, fatal: bool)
    requires i < |pairs|
    requires Progress(pairs, env, transport, i, Blocks(pairs, env, transport, i))
    requires var o := PairSync(i, pairs[i], env, transport(i));
             t == Blocks(pairs, env, transport, i) + [Log(Processing(pairs[i].id))] + o.events &&
             fatal == o.fatal
    ensures t == Blocks(pairs, env, transport, i + 1)
    ensures fatal <==> PairFatal(transport(i))
    ensures fatal ==> Outcome(t, fatal) == RunTrace(pairs, env, transport)
    ensures !fatal ==> Progress(pairs, env, transport, i + 1, t)
  {
    var a := Blocks(pairs, env, transport, i);
    var b := Block(pairs, env, transport, i);
    var ev := PairSync(i, pairs[i], env, transport(i)).events;
    assert a + [Log(Processing(pairs[i].id))] + ev == a + ([Log(Processing(pairs[i].id))] + ev);
    assert t == a + b;
    PairOutcomeShape(i, pairs[i], env, transport(i));
    if fatal {
      assert FirstFatal(0, |pairs|, transport) == i;
    } else {
      CountAppend(a, b, CloneKind);
      CountAppend(a, b, PushKind);
      BlockCount(pairs, env, transport, i, CloneKind);
      BlockCount(pairs, env, transport, i, PushKind);
    }
  }

  /** The loop ran to the end: no pair was fatal. */
  lemma LoopDone(pairs: seq<Repository>, env: Env, transport: nat -> PairOutcome)
    requires forall j :: 0 <= j < |pairs| ==> !PairFatal(transport(j))
    ensures RunTrace(pairs, env, transport) == Outcome(Blocks(pairs, env, transport, |pairs|), false)
  {
    assert FirstFatal(0, |pairs|, transport) == |pairs|;
  }
}

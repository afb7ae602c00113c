/** Properties of the batch loop: the ordered run over the configured pairs,
    stopped by the first fatal pair. */
module RunProperties {
  import opened Endpoints
  import opened Lines
  import opened Trace
  import opened Mirror
  import opened MirrorProperties

  /** A block is the progress line and the pair's events; a fatal line can
      only close it, and does exactly when the pair is fatal. */
  lemma BlockShape(pairs: seq<Repository>, env: Env, transport: nat -> PairOutcome, k: nat)
    requires k < |pairs|
    ensures var b := Block(pairs, env, transport, k);
            b != [] && b[0] == Log(Processing(pairs[k].id)) && FatalLast(b) &&
            (EndsFatal(b) <==> PairFatal(transport(k))) &&
            (!PairFatal(transport(k)) ==> NoFatal(b))
  {
    var ev := PairSync(k, pairs[k], env, transport(k)).events;
    PairOutcomeShape(k, pairs[k], env, transport(k));
    var b := Block(pairs, env, transport, k);
    assert forall i :: 1 <= i < |b| ==> b[i] == ev[i - 1];
  }

  /** While no pair is fatal, the run has no fatal line. */
  lemma {:induction false} BlocksNoFatal(pairs: seq<Repository>, env: Env, transport: nat -> PairOutcome, n: nat)
    requires n <= |pairs|
    requires forall j :: 0 <= j < n ==> !PairFatal(transport(j))
    ensures NoFatal(Blocks(pairs, env, transport, n))
  {
    if n > 0 {
      BlocksNoFatal(pairs, env, transport, n - 1);
      BlockShape(pairs, env, transport, n - 1);
      NoFatalAppend(Blocks(pairs, env, transport, n - 1), Block(pairs, env, transport, n - 1));
    }
  }

  /** The loop processes pairs up to the first fatal one and stops there:
      the run is fatal iff some configured pair is fatal, and its fatal line,
      if any, is its last event. */
  lemma RunStopsAtFirstFatal(pairs: seq<Repository>, env: Env, transport: nat -> PairOutcome)
    ensures var r := RunTrace(pairs, env, transport);
            FatalLast(r.events) && (r.fatal <==> EndsFatal(r.events)) &&
            (r.fatal <==> exists j :: 0 <= j < |pairs| && PairFatal(transport(j))) &&
            (!r.fatal ==> NoFatal(r.events))
  {
    var n := |pairs|;
    var f := FirstFatal(0, n, transport);
    if f == n {
      BlocksNoFatal(pairs, env, transport, n);
    } else {
      BlocksNoFatal(pairs, env, transport, f);
      BlockShape(pairs, env, transport, f);
      FatalLastAppend(Blocks(pairs, env, transport, f), Block(pairs, env, transport, f));
    }
  }

  /** Events of kind `k` in the first n blocks: a progress line per pair,
      plus what each pair contributes. */
  function KindTotal(transport: nat -> PairOutcome, n: nat, k: Kind): nat
  {
    if n == 0 then 0 else KindTotal(transport, n - 1, k) + Ind(k == LogKind) + PairKindCount(transport(n - 1), k)
  }

  lemma BlockCount(pairs: seq<Repository>, env: Env, transport: nat -> PairOutcome, j: nat, k: Kind)
    requires j < |pairs|
    ensures Count(Block(pairs, env, transport, j), k) == Ind(k == LogKind) + PairKindCount(transport(j), k)
  {
    var head := Log(Processing(pairs[j].id));
    CountSnoc([], head, k);
    assert [] + [head] == [head];
    CountAppend([head], PairSync(j, pairs[j], env, transport(j)).events, k);
    PairCounts(j, pairs[j], env, transport(j), k);
  }

  lemma {:induction false} BlocksCount(pairs: seq<Repository>, env: Env, transport: nat -> PairOutcome, n: nat, k: Kind)
    requires n <= |pairs|
    ensures Count(Blocks(pairs, env, transport, n), k) == KindTotal(transport, n, k)
  {
    if n > 0 {
      BlocksCount(pairs, env, transport, n - 1, k);
      CountAppend(Blocks(pairs, env, transport, n - 1), Block(pairs, env, transport, n - 1), k);
      BlockCount(pairs, env, transport, n - 1, k);
    }
  }

  /** Every pair that succeeds (pushed or already up-to-date) creates one
      workspace, clones once, adds one remote, pushes once and removes its
      workspace, and logs nothing fatal. */
  lemma {:induction false} TotalWithoutFatal(transport: nat -> PairOutcome, n: nat, k: Kind)
    requires forall j :: 0 <= j < n ==> !PairFatal(transport(j))
    ensures k in {MakeKind, CloneKind, RemoteKind, PushKind, RemoveKind} ==> KindTotal(transport, n, k) == n
    ensures k == FatalKind ==> KindTotal(transport, n, k) == 0
  {
    if n > 0 {
      TotalWithoutFatal(transport, n - 1, k);
    }
  }

  /** When every pair succeeds, each of the N pairs is cloned, given its
      remote, pushed and cleaned up once, and nothing is fatal. */
  lemma AllPairsSucceed(pairs: seq<Repository>, env: Env, transport: nat -> PairOutcome, k: Kind)
    requires forall j :: 0 <= j < |pairs| ==> !PairFatal(transport(j))
    ensures var r := RunTrace(pairs, env, transport);
            !r.fatal &&
            (k in {MakeKind, CloneKind, RemoteKind, PushKind, RemoveKind} ==> Count(r.events, k) == |pairs|) &&
            (k == FatalKind ==> Count(r.events, k) == 0)
  {
    assert FirstFatal(0, |pairs|, transport) == |pairs|;
    BlocksCount(pairs, env, transport, |pairs|, k);
    TotalWithoutFatal(transport, |pairs|, k);
  }

  /** On a fatal run, the pairs before the fatal one are complete, the fatal
      pair runs only the steps up to its failing one, no later pair runs, no
      workspace is removed for the fatal pair, and exactly one fatal line is
      logged. */
  lemma FatalRunCounts(pairs: seq<Repository>, env: Env, transport: nat -> PairOutcome, k: Kind)
    requires exists j :: 0 <= j < |pairs| && PairFatal(transport(j))
    ensures var f := FirstFatal(0, |pairs|, transport);
            var r := RunTrace(pairs, env, transport);
            var out := transport(f);
            f < |pairs| && r.fatal &&
            (k == FatalKind ==> Count(r.events, k) == 1) &&
            (k == RemoveKind ==> Count(r.events, k) == f) &&
            (k in {MakeKind, CloneKind} ==> Count(r.events, k) == f + Ind(out.tempDir.Ok?)) &&
            (k == RemoteKind ==> Count(r.events, k) == f + Ind(out.tempDir.Ok? && out.clone.Ok?)) &&
            (k == PushKind ==> Count(r.events, k) == f + Ind(out.tempDir.Ok? && out.clone.Ok? && out.remote.Ok?))
  {
    var f := FirstFatal(0, |pairs|, transport);
    RunCount(pairs, env, transport, k);
    FatalTotal(transport, f, k);
  }

  /** The run's events of kind `k`, as the totals of the processed pairs. */
  lemma RunCount(pairs: seq<Repository>, env: Env, transport: nat -> PairOutcome, k: Kind)
    ensures Count(RunTrace(pairs, env, transport).events, k) == KindTotal(transport, Processed(|pairs|, transport), k)
  {
    BlocksCount(pairs, env, transport, Processed(|pairs|, transport), k);
  }

  lemma FatalTotal(transport: nat -> PairOutcome, f: nat, k: Kind)
    requires forall j :: 0 <= j < f ==> !PairFatal(transport(j))
    requires PairFatal(transport(f))
    ensures var out := transport(f);
            (k == FatalKind ==> KindTotal(transport, f + 1, k) == 1) &&
            (k == RemoveKind ==> KindTotal(transport, f + 1, k) == f) &&
            (k in {MakeKind, CloneKind} ==> KindTotal(transport, f + 1, k) == f + Ind(out.tempDir.Ok?)) &&
            (k == RemoteKind ==> KindTotal(transport, f + 1, k) == f + Ind(out.tempDir.Ok? && out.clone.Ok?)) &&
            (k == PushKind ==> KindTotal(transport, f + 1, k) == f + Ind(out.tempDir.Ok? && out.clone.Ok? && out.remote.Ok?))
  {
    TotalWithoutFatal(transport, f, k);
  }

  /** Before the first fatal pair the scratch storage is empty between pairs. */
  lemma BlockWorkspace(pairs: seq<Repository>, env: Env, transport: nat -> PairOutcome, j: nat)
    requires j < |pairs|
    ensures Occupancy(Block(pairs, env, transport, j), Idle) ==
            if transport(j).tempDir.Ok? && PairFatal(transport(j)) then Held(j) else Idle
  {
    var head := Log(Processing(pairs[j].id));
    OccupancyAppend([head], PairSync(j, pairs[j], env, transport(j)).events, Idle);
    assert Occupancy([head], Idle) == Occupancy([], Advance(Idle, head));
    PairWorkspace(j, pairs[j], env, transport(j));
  }

  lemma {:induction false} BlocksIdle(pairs: seq<Repository>, env: Env, transport: nat -> PairOutcome, n: nat)
    requires n <= |pairs|
    requires forall j :: 0 <= j < n ==> !PairFatal(transport(j))
    ensures Occupancy(Blocks(pairs, env, transport, n), Idle) == Idle
  {
    if n > 0 {
      BlocksIdle(pairs, env, transport, n - 1);
      OccupancyAppend(Blocks(pairs, env, transport, n - 1), Block(pairs, env, transport, n - 1), Idle);
      BlockWorkspace(pairs, env, transport, n - 1);
    }
  }

  /** The run never holds two workspaces, never calls the transport outside
      the workspace it holds, and ends with none, except that a fatal pair
      whose workspace exists leaves that workspace behind. */
  lemma RunWorkspace(pairs: seq<Repository>, env: Env, transport: nat -> PairOutcome)
    ensures var f := FirstFatal(0, |pairs|, transport);
            var r := RunTrace(pairs, env, transport);
            Occupancy(r.events, Idle) ==
            if r.fatal && transport(f).tempDir.Ok? then Held(f) else Idle
  {
    var n := |pairs|;
    var f := FirstFatal(0, n, transport);
    if f == n {
      BlocksIdle(pairs, env, transport, n);
    } else {
      FatalBlockWorkspace(pairs, env, transport, f);
    }
  }

  lemma FatalBlockWorkspace(pairs: seq<Repository>, env: Env, transport: nat -> PairOutcome, f: nat)
    requires f < |pairs|
    requires forall j :: 0 <= j < f ==> !PairFatal(transport(j))
    requires PairFatal(transport(f))
    ensures Occupancy(Blocks(pairs, env, transport, f + 1), Idle) == if transport(f).tempDir.Ok? then Held(f) else Idle
  {
    BlocksIdle(pairs, env, transport, f);
    OccupancyAppend(Blocks(pairs, env, transport, f), Block(pairs, env, transport, f), Idle);
    BlockWorkspace(pairs, env, transport, f);
  }

  /** A workspace event of the run belongs to one of the first n pairs and
      uses that pair's endpoints and the credentials of its role. */
  predicate Authenticated(e: Event, pairs: seq<Repository>, env: Env, n: nat)
  {
    InWorkspace(e) ==> e.ws < n && e.ws < |pairs| && PairRoles(e, e.ws, pairs[e.ws], env)
  }

  lemma BlockRoles(pairs: seq<Repository>, env: Env, transport: nat -> PairOutcome, j: nat)
    requires j < |pairs|
    ensures var b := Block(pairs, env, transport, j);
            forall i :: 0 <= i < |b| ==> (InWorkspace(b[i]) ==> b[i].ws == j && PairRoles(b[i], j, pairs[j], env))
  {
    var ev := PairSync(j, pairs[j], env, transport(j)).events;
    PairCredentialRoles(j, pairs[j], env, transport(j));
    var b := Block(pairs, env, transport, j);
    assert forall i :: 1 <= i < |b| ==> b[i] == ev[i - 1];
  }

  lemma {:induction false} BlocksRoles(pairs: seq<Repository>, env: Env, transport: nat -> PairOutcome, n: nat)
    requires n <= |pairs|
    ensures forall i :: 0 <= i < |Blocks(pairs, env, transport, n)| ==>
              Authenticated(Blocks(pairs, env, transport, n)[i], pairs, env, n)
  {
    if n > 0 {
      var a := Blocks(pairs, env, transport, n - 1);
      var b := Block(pairs, env, transport, n - 1);
      BlocksRoles(pairs, env, transport, n - 1);
      BlockRoles(pairs, env, transport, n - 1);
      assert Blocks(pairs, env, transport, n) == a + b;
      forall i | 0 <= i < |a + b|
        ensures Authenticated((a + b)[i], pairs, env, n)
      {
        if i < |a| {
          assert (a + b)[i] == a[i];
          assert Authenticated(a[i], pairs, env, n - 1);
        } else {
          assert (a + b)[i] == b[i - |a|];
        }
      }
    }
  }

  /** Workspace events come pair by pair in list order. */
  lemma {:induction false} BlocksOrdered(pairs: seq<Repository>, env: Env, transport: nat -> PairOutcome, n: nat)
    requires n <= |pairs|
    ensures InOrder(Blocks(pairs, env, transport, n))
  {
    if n > 0 {
      var a := Blocks(pairs, env, transport, n - 1);
      var b := Block(pairs, env, transport, n - 1);
      BlocksOrdered(pairs, env, transport, n - 1);
      BlocksRoles(pairs, env, transport, n - 1);
      BlockRoles(pairs, env, transport, n - 1);
      assert WorkspacesAtMost(a, n - 1) by {
        forall i | 0 <= i < |a| && InWorkspace(a[i]) ensures a[i].ws <= n - 1 {
          assert Authenticated(a[i], pairs, env, n - 1);
        }
      }
      InOrderAppend(a, b, n - 1);
    }
  }

  /** Every clone, remote and push of the run uses, for its pair, the role
      its step requires; only processed pairs appear; pairs are handled in
      list order. */
  lemma RunCredentialRoles(pairs: seq<Repository>, env: Env, transport: nat -> PairOutcome)
    ensures var ev := RunTrace(pairs, env, transport).events;
            var m := Processed(|pairs|, transport);
            (forall i :: 0 <= i < |ev| ==> Authenticated(ev[i], pairs, env, m)) &&
            InOrder(ev)
  {
    var m := Processed(|pairs|, transport);
    assert RunTrace(pairs, env, transport).events == Blocks(pairs, env, transport, m);
    BlocksRoles(pairs, env, transport, m);
    BlocksOrdered(pairs, env, transport, m);
  }

  /** A fatal pair is the last one to touch the transport or the scratch storage. */
  lemma FatalStopsLaterPairs(pairs: seq<Repository>, env: Env, transport: nat -> PairOutcome, k: nat)
    requires k < |pairs| && PairFatal(transport(k))
    ensures var r := RunTrace(pairs, env, transport);
            r.fatal && WorkspacesAtMost(r.events, k)
  {
    RunCredentialRoles(pairs, env, transport);
  }

  lemma {:induction false} BlocksPrefix(pairs: seq<Repository>, env: Env, transport: nat -> PairOutcome, m: nat, n: nat)
    requires m <= n <= |pairs|
    ensures Blocks(pairs, env, transport, m) <= Blocks(pairs, env, transport, n)
  {
    if m < n {
      BlocksPrefix(pairs, env, transport, m, n - 1);
      var a := Blocks(pairs, env, transport, n - 1);
      assert Blocks(pairs, env, transport, n) == a + Block(pairs, env, transport, n - 1);
      assert a <= a + Block(pairs, env, transport, n - 1);
    }
  }

  /** Every processed pair is announced by its progress line, and its block
      follows the blocks of the pairs before it. */
  lemma RunOrder(pairs: seq<Repository>, env: Env, transport: nat -> PairOutcome, k: nat)
    requires k < Processed(|pairs|, transport)
    ensures var ev := RunTrace(pairs, env, transport).events;
            var pre := Blocks(pairs, env, transport, k);
            pre + Block(pairs, env, transport, k) <= ev && ev[|pre|] == Log(Processing(pairs[k].id))
  {
    var m := Processed(|pairs|, transport);
    BlocksPrefix(pairs, env, transport, k + 1, m);
  }

  /** An up-to-date push is not fatal: the next pair is still processed. */
  lemma UpToDateContinues(pairs: seq<Repository>, env: Env, transport: nat -> PairOutcome, k: nat)
    requires k + 1 < |pairs|
    requires forall j :: 0 <= j < k ==> !PairFatal(transport(j))
    requires transport(k) == PairOutcome(Ok, Ok, Ok, AlreadyUpToDate)
    ensures k + 1 < Processed(|pairs|, transport)
    ensures Blocks(pairs, env, transport, k + 2) <= RunTrace(pairs, env, transport).events
  {
    assert FirstFatal(0, |pairs|, transport) > k;
    BlocksPrefix(pairs, env, transport, k + 2, Processed(|pairs|, transport));
  }

  /** The log lines of the first n blocks, in order: a progress line before
      the lines of each pair. */
  function RunLines(pairs: seq<Repository>, env: Env, transport: nat -> PairOutcome, n: nat): seq<Line>
    requires n <= |pairs|
  {
    if n == 0 then []
    else RunLines(pairs, env, transport, n - 1) + [Processing(pairs[n - 1].id)] +
         PairLines(pairs[n - 1], env, transport(n - 1))
  }

  lemma BlockMessages(pairs: seq<Repository>, env: Env, transport: nat -> PairOutcome, j: nat)
    requires j < |pairs|
    ensures Messages(Block(pairs, env, transport, j)) == [Processing(pairs[j].id)] + PairLines(pairs[j], env, transport(j))
  {
    var head := Log(Processing(pairs[j].id));
    MessagesAppend([head], PairSync(j, pairs[j], env, transport(j)).events);
    MessagesOne(head);
    PairMessages(j, pairs[j], env, transport(j));
  }

  lemma {:induction false} BlocksMessages(pairs: seq<Repository>, env: Env, transport: nat -> PairOutcome, n: nat)
    requires n <= |pairs|
    ensures Messages(Blocks(pairs, env, transport, n)) == RunLines(pairs, env, transport, n)
  {
    if n > 0 {
      BlocksMessages(pairs, env, transport, n - 1);
      MessagesAppend(Blocks(pairs, env, transport, n - 1), Block(pairs, env, transport, n - 1));
      BlockMessages(pairs, env, transport, n - 1);
    }
  }

  lemma {:induction false} RunLinesIgnoreCredentials(pairs: seq<Repository>, env: Env, env': Env,
                                                      transport: nat -> PairOutcome, n: nat)
    requires n <= |pairs|
    requires forall j :: 0 <= j < n ==> !(transport(j).tempDir.Ok? && transport(j).clone.Err?)
    ensures RunLines(pairs, env, transport, n) == RunLines(pairs, env', transport, n)
  {
    if n > 0 {
      RunLinesIgnoreCredentials(pairs, env, env', transport, n - 1);
    }
  }

  /** Unless a processed pair's clone fails, the run's log is the same
      whatever the principals and secrets, for the same transport answers:
      no line the program writes carries a credential. */
  lemma RunLogIgnoresCredentials(pairs: seq<Repository>, env: Env, env': Env, transport: nat -> PairOutcome)
    requires forall j :: 0 <= j < Processed(|pairs|, transport) ==> !(transport(j).tempDir.Ok? && transport(j).clone.Err?)
    ensures Messages(RunTrace(pairs, env, transport).events) == Messages(RunTrace(pairs, env', transport).events)
  {
    var m := Processed(|pairs|, transport);
    BlocksMessages(pairs, env, transport, m);
    BlocksMessages(pairs, env', transport, m);
    RunLinesIgnoreCredentials(pairs, env, env', transport, m);
  }
}

/** The observable behaviour of one run of the mirror, as an ordered trace of
    events: log lines, the fatal log line that ends the process, workspace
    creation and removal, and the three calls into the transport. */
module Trace {
  import opened Lines

  datatype BasicAuth = BasicAuth(username: string, password: string)

  datatype Event =
    | Log(line: Line)                       // an informational line
    | Fatal(line: Line)                     // an "ERROR:" line followed by process exit
    | MakeWorkspace(ws: nat)                // scratch directory created
    | RemoveWorkspace(ws: nat)              // scratch directory removed recursively
    | Clone(ws: nat, url: string, auth: BasicAuth, bare: bool)
    | AddRemote(ws: nat, name: string, urls: seq<string>)
    | Push(ws: nat, remote: string, auth: BasicAuth, force: bool)

  /** Events that act on a scratch workspace. */
  predicate InWorkspace(e: Event)
  {
    e.MakeWorkspace? || e.RemoveWorkspace? || e.Clone? || e.AddRemote? || e.Push?
  }

  function Ind(b: bool): nat { if b then 1 else 0 }

  /** The kind of an event, for counting. */
  datatype Kind = LogKind | FatalKind | MakeKind | RemoveKind | CloneKind | RemoteKind | PushKind

  function KindOf(e: Event): Kind
  {
    match e
    case Log(_) => LogKind
    case Fatal(_) => FatalKind
    case MakeWorkspace(_) => MakeKind
    case RemoveWorkspace(_) => RemoveKind
    case Clone(_, _, _, _) => CloneKind
    case AddRemote(_, _, _) => RemoteKind
    case Push(_, _, _, _) => PushKind
  }

  /** Number of events of kind `k` in `s`. */
  function Count(s: seq<Event>, k: Kind): nat
  {
    if s == [] then 0 else Ind(KindOf(s[0]) == k) + Count(s[1..], k)
  }

  lemma {:induction false} CountAppend(a: seq<Event>, b: seq<Event>, k: Kind)
    ensures Count(a + b, k) == Count(a, k) + Count(b, k)
  {
    if a == [] {
      assert a + b == b;
    } else {
      assert (a + b)[1..] == a[1..] + b;
      CountAppend(a[1..], b, k);
    }
  }

  lemma CountSnoc(a: seq<Event>, e: Event, k: Kind)
    ensures Count(a + [e], k) == Count(a, k) + Ind(KindOf(e) == k)
  {
    CountAppend(a, [e], k);
    assert [e][1..] == [];
  }

  /** The line an event logs, if any. */
  function Emitted(e: Event): seq<Line>
  {
    match e
    case Log(l) => [l]
    case Fatal(l) => [l]
    case _ => []
  }

  /** Every line logged, informational or fatal, in order. */
  function Messages(s: seq<Event>): seq<Line>
  {
    if s == [] then [] else Emitted(s[0]) + Messages(s[1..])
  }

  lemma {:induction false} MessagesAppend(a: seq<Event>, b: seq<Event>)
    ensures Messages(a + b) == Messages(a) + Messages(b)
  {
    if a == [] {
      assert a + b == b;
    } else {
      assert (a + b)[1..] == a[1..] + b;
      MessagesAppend(a[1..], b);
    }
  }

  lemma MessagesOne(e: Event)
    ensures Messages([e]) == Emitted(e)
  {
    assert [e][1..] == [];
  }

  lemma MessagesSnoc(a: seq<Event>, e: Event)
    ensures Messages(a + [e]) == Messages(a) + Emitted(e)
  {
    MessagesAppend(a, [e]);
    MessagesOne(e);
  }

  predicate NoFatal(s: seq<Event>)
  {
    forall i :: 0 <= i < |s| ==> !s[i].Fatal?
  }

  predicate EndsFatal(s: seq<Event>)
  {
    |s| > 0 && s[|s| - 1].Fatal?
  }

  /** A fatal line can only be the last event: nothing happens after it. */
  predicate FatalLast(s: seq<Event>)
  {
    forall i :: 0 <= i < |s| - 1 ==> !s[i].Fatal?
  }

  /** The state of the local scratch storage, as far as the trace shows it:
      no workspace, exactly one (`Held`), or a trace that creates a second
      workspace, removes one it does not hold, or calls the transport outside
      the one it holds (`Misused`, which is absorbing). A removal always
      returns the storage to `Idle`: the program ignores the result of the
      removal, so `Idle` means that every removal was requested. */
  datatype Scratch = Idle | Held(ws: nat) | Misused

  function Advance(w: Scratch, e: Event): Scratch
  {
    match e
    case MakeWorkspace(x) => if w == Idle then Held(x) else Misused
    case RemoveWorkspace(x) => if w == Held(x) then Idle else Misused
    case Clone(x, _, _, _) => if w == Held(x) then w else Misused
    case AddRemote(x, _, _) => if w == Held(x) then w else Misused
    case Push(x, _, _, _) => if w == Held(x) then w else Misused
    case _ => w
  }

  function Occupancy(s: seq<Event>, w: Scratch): Scratch
  {
    if s == [] then w else Occupancy(s[1..], Advance(w, s[0]))
  }

  lemma {:induction false} OccupancyAppend(a: seq<Event>, b: seq<Event>, w: Scratch)
    ensures Occupancy(a + b, w) == Occupancy(b, Occupancy(a, w))
  {
    if a == [] {
      assert a + b == b;
    } else {
      assert (a + b)[1..] == a[1..] + b;
      OccupancyAppend(a[1..], b, Advance(w, a[0]));
    }
  }

  lemma OccupancySnoc(a: seq<Event>, e: Event, w: Scratch)
    ensures Occupancy(a + [e], w) == Advance(Occupancy(a, w), e)
  {
    OccupancyAppend(a, [e], w);
    assert Occupancy([e], Occupancy(a, w)) == Occupancy([], Advance(Occupancy(a, w), e));
  }

  lemma NoFatalAppend(a: seq<Event>, b: seq<Event>)
    requires NoFatal(a) && NoFatal(b)
    ensures NoFatal(a + b)
  {
    assert forall i :: |a| <= i < |a + b| ==> (a + b)[i] == b[i - |a|];
  }

  /** A fatal-free prefix does not disturb where a fatal line may sit. */
  lemma FatalLastAppend(a: seq<Event>, b: seq<Event>)
    requires NoFatal(a) && FatalLast(b) && b != []
    ensures FatalLast(a + b)
    ensures EndsFatal(a + b) <==> EndsFatal(b)
  {
    assert forall i :: |a| <= i < |a + b| ==> (a + b)[i] == b[i - |a|];
    assert (a + b)[|a + b| - 1] == b[|b| - 1];
  }

  /** Workspace events appear in non-decreasing workspace order. */
  predicate InOrder(s: seq<Event>)
  {
    forall i, j :: 0 <= i < j < |s| && InWorkspace(s[i]) && InWorkspace(s[j]) ==> s[i].ws <= s[j].ws
  }

  /** Every workspace event of `s` is in workspace `ws` or below. */
  predicate WorkspacesAtMost(s: seq<Event>, ws: nat)
  {
    forall i :: 0 <= i < |s| && InWorkspace(s[i]) ==> s[i].ws <= ws
  }

  /** Every workspace event of `s` is in workspace `ws`. */
  predicate WorkspacesAt(s: seq<Event>, ws: nat)
  {
    forall i :: 0 <= i < |s| && InWorkspace(s[i]) ==> s[i].ws == ws
  }

  lemma InOrderAppend(a: seq<Event>, b: seq<Event>, ws: nat)
    requires InOrder(a) && WorkspacesAtMost(a, ws) && WorkspacesAt(b, ws)
    ensures InOrder(a + b)
  {
    forall i, j | 0 <= i < j < |a + b| && InWorkspace((a + b)[i]) && InWorkspace((a + b)[j])
      ensures (a + b)[i].ws <= (a + b)[j].ws
    {
      if j < |a| {
        assert (a + b)[i] == a[i] && (a + b)[j] == a[j];
      } else if i < |a| {
        assert (a + b)[i] == a[i] && (a + b)[j] == b[j - |a|];
      } else {
        assert (a + b)[i] == b[i - |a|] && (a + b)[j] == b[j - |a|];
      }
    }
  }
}

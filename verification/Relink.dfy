// When the server says its credential needs re-linking: what a stream outcome does to the
// state, with per-request calls moving the same state at any moment.
module Relink {
  import opened Wrappers
  import opened Grpc

  datatype State = NotLinked | Connecting | Ready | Relink

  // A call's error as the client sees it: none, the sentinel for a missing credential, a
  // gRPC status, or an error that is no status because the call never reached the node.
  datatype CallError = NoError | NoCredential | Status(code: Code) | Unreached

  // IsAuthFailure: the node verified our credential and refused it.
  predicate IsAuthFailure(e: CallError) {
    e.Status? && (e.code.Unauthenticated? || e.code.PermissionDenied?)
  }

  // IsCredentialRejected: every answer but the codes known to say nothing about it.
  predicate IsCredentialRejected(e: CallError) {
    e.Status? && e.code in {Code.Unknown, Code.PermissionDenied, Code.Unauthenticated,
                            Code.Aborted, Code.Internal, Code.DataLoss}
  }

  // The verdicts are refusals, the codes of a node that did not answer are not, and every
  // other code is decided by the node's stage.
  lemma VerdictsAreRefusals(e: CallError)
    ensures IsAuthFailure(e) ==> IsCredentialRejected(e)
    ensures e.Status? && e.code in {Code.OK, Code.Canceled, Code.DeadlineExceeded, Code.Unavailable} ==>
              !IsCredentialRejected(e)
    ensures IsCredentialRejected(e) && !IsAuthFailure(e) <==>
              e.Status? && e.code in {Code.Unknown, Code.Aborted, Code.Internal, Code.DataLoss}
  {}

  // What a stream outcome is judged from: the error, whether the credential could be
  // read, whether the stream had delivered anything, and, asked only when that is what
  // decides, whether the node's stage was read and admits calls.
  datatype Outcome =
    | Stream(e: CallError, readable: bool, delivered: bool, admits: bool)
    | LocalFailure

  predicate Missing(o: Outcome) {
    o.Stream? && !o.e.NoError? && (o.e.NoCredential? || !o.readable)
  }

  predicate Verdict(o: Outcome) {
    o.Stream? && !Missing(o) && IsAuthFailure(o.e)
  }

  // A refusal of a stream that had delivered nothing, by a node that says it is up.
  predicate AdmittedRefusal(o: Outcome) {
    && o.Stream? && !Missing(o) && !IsAuthFailure(o.e) && IsCredentialRejected(o.e)
    && !o.delivered && o.admits
  }

  // A suspicion is raised by exactly four codes, from a node that says it is up, on a stream
  // that had delivered nothing under a credential that could be read; a verdict is two codes.
  lemma SuspicionsAndVerdicts(o: Outcome)
    requires o.Stream?
    ensures AdmittedRefusal(o) <==>
              && o.e in {Status(Code.Unknown), Status(Code.Aborted), Status(Code.Internal), Status(Code.DataLoss)}
              && o.readable && !o.delivered && o.admits
    ensures Verdict(o) <==>
              o.readable && (o.e == Status(Code.Unauthenticated) || o.e == Status(Code.PermissionDenied))
  {}

  // The state, the suspicion, a stream outcome judged but not yet recorded, and every
  // stream outcome so far. `stood` says re-link was the state when it was judged, `moved`
  // that another call has moved the state since.
  datatype Judged = Judged(to: Option<State>, stood: bool, moved: bool)

  datatype World = World(
    state: State, suspected: bool, judged: Option<Judged>, outcomes: seq<Outcome>)

  datatype Request = Answered | Absent | Dialled | OtherError

  datatype Action = Judge(o: Outcome) | Record | Local | OnRequest(r: Request)

  predicate Can(w: World, a: Action) {
    match a
    case Judge(o) => w.judged.None? && o.Stream?
    case Record => w.judged.Some?
    case Local => w.judged.None?
    case OnRequest(_) => true
  }

  // recordState with relinkState: the state a stream outcome comes to, if any.
  function Verdicts(w: World, o: Outcome): Option<State> {
    if !o.Stream? then None
    else if o.e.NoError? then Some(Ready)
    else if Missing(o) then Some(NotLinked)
    else if IsAuthFailure(o.e) then Some(Relink)
    else if !IsCredentialRejected(o.e) then None
    else if AdmittedRefusal(o) && (w.suspected || w.state.Relink?) then Some(Relink)
    else Some(Connecting)
  }

  predicate Suspects(w: World, o: Outcome) {
    AdmittedRefusal(o) && !w.suspected && !w.state.Relink?
  }

  function RequestState(s: State, r: Request): State {
    match r
    case Answered => Ready
    case Absent => NotLinked
    case Dialled => if s.NotLinked? then Connecting else s
    case OtherError => s
  }

  function Do(w: World, a: Action): World
    requires Can(w, a)
  {
    match a
    case Judge(o) =>
      World(w.state, Suspects(w, o), Some(Judged(Verdicts(w, o), w.state.Relink?, false)),
            w.outcomes + [o])
    case Record =>
      w.(state := if w.judged.value.to.Some? then w.judged.value.to.value else w.state, judged := None)
    case Local => w.(suspected := false, outcomes := w.outcomes + [LocalFailure])
    case OnRequest(r) =>
      var s := RequestState(w.state, r);
      w.(state := s, judged := if w.judged.None? then None
        else Some(w.judged.value.(moved := w.judged.value.moved || s != w.state)))
  }

  ghost predicate Step(w: World, a: Action, v: World) { Can(w, a) && v == Do(w, a) }

  ghost predicate Run(ws: seq<World>, acts: seq<Action>) {
    |ws| == |acts| + 1 && forall n :: 0 <= n < |acts| ==> Step(ws[n], acts[n], ws[n + 1])
  }

  // A client as it is built: never re-link.
  predicate Fresh(w: World) {
    !w.suspected && w.judged.None? && w.outcomes == [] && (w.state.NotLinked? || w.state.Connecting?)
  }

  predicate TwoRefusals(os: seq<Outcome>) {
    var n := |os|;
    n >= 2 && AdmittedRefusal(os[n - 1]) && AdmittedRefusal(os[n - 2])
  }

  predicate LastVerdict(os: seq<Outcome>) { os != [] && Verdict(os[|os| - 1]) }

  predicate Inv(w: World) {
    && (w.suspected ==> w.outcomes != [] && AdmittedRefusal(w.outcomes[|w.outcomes| - 1]))
    && (w.judged.Some? && w.judged.value.to == Some(Relink) ==>
          LastVerdict(w.outcomes) || TwoRefusals(w.outcomes) || w.judged.value.stood)
    && (w.judged.Some? && w.judged.value.stood && !w.judged.value.moved ==> w.state.Relink?)
  }

  lemma {:induction false} InvAlong(ws: seq<World>, acts: seq<Action>, n: nat)
    requires Run(ws, acts) && Fresh(ws[0]) && n <= |acts|
    ensures Inv(ws[n])
  {
    if n > 0 {
      InvAlong(ws, acts, n - 1);
      assert Step(ws[n - 1], acts[n - 1], ws[n]);
    }
  }

  // A refusal judged over a standing re-link, of which neither a verdict nor the refusal
  // before it gives the reason.
  predicate Restores(w: World, o: Outcome) {
    w.state.Relink? && AdmittedRefusal(o) && !TwoRefusals(w.outcomes + [o])
  }

  // Requests alone come between step k, where an outcome was judged, and step n.
  predicate OnlyRequests(acts: seq<Action>, k: nat, n: nat)
    requires k < n <= |acts|
  {
    forall i :: k < i < n ==> acts[i].OnRequest?
  }

  // The step at which the outcome about to be recorded was judged.
  lemma {:induction false} JudgedAt(ws: seq<World>, acts: seq<Action>, n: nat) returns (k: nat)
    requires Run(ws, acts) && ws[0].judged.None? && n <= |acts| && ws[n].judged.Some?
    ensures k < n && acts[k].Judge? && OnlyRequests(acts, k, n)
    ensures ws[n].outcomes == ws[k].outcomes + [acts[k].o]
    ensures ws[n].judged.value.to == Verdicts(ws[k], acts[k].o)
    ensures ws[n].judged.value.stood == ws[k].state.Relink?
  {
    assert Step(ws[n - 1], acts[n - 1], ws[n]);
    if acts[n - 1].Judge? {
      k := n - 1;
    } else {
      k := JudgedAt(ws, acts, n - 1);
    }
  }

  // Entering re-link takes a verdict code, or two consecutive refusals of a stream that
  // had delivered nothing, each while the node's stage admitted calls; the one other way
  // in is back: a refusal judged at step k, while re-link still stood, and a request that
  // moved the state before it was recorded.
  lemma RelinkNeedsTwoRefusals(ws: seq<World>, acts: seq<Action>, n: nat) returns (k: nat)
    requires Run(ws, acts) && Fresh(ws[0]) && n < |acts|
    requires !ws[n].state.Relink? && ws[n + 1].state.Relink?
    ensures acts[n].Record? && k < n && acts[k].Judge? && OnlyRequests(acts, k, n)
    ensures LastVerdict(ws[n].outcomes) || TwoRefusals(ws[n].outcomes) || Restores(ws[k], acts[k].o)
    ensures || LastVerdict(ws[n].outcomes) || TwoRefusals(ws[n].outcomes)
            || (ws[n].judged.value.stood && ws[n].judged.value.moved)
  {
    InvAlong(ws, acts, n);
    assert Step(ws[n], acts[n], ws[n + 1]);
    k := JudgedAt(ws, acts, n);
    InvAlong(ws, acts, k);
    RecordsRelinkIff(ws[k], acts[k].o);
  }

  // What is judged re-link without a verdict or a second refusal.
  lemma RecordsRelinkIff(w: World, o: Outcome)
    requires o.Stream? && (w.suspected ==> Suspicious(w))
    ensures Verdicts(w, o) == Some(Relink) <==>
              LastVerdict(w.outcomes + [o]) || (AdmittedRefusal(o) && (w.suspected || w.state.Relink?))
    ensures AdmittedRefusal(o) && w.suspected ==> TwoRefusals(w.outcomes + [o])
  {}

  // A suspicion is the last outcome's.
  predicate Suspicious(w: World) {
    w.outcomes != [] && AdmittedRefusal(w.outcomes[|w.outcomes| - 1])
  }

  // This outcome, judged here, may put re-link back over an answer the node gave meanwhile,
  // with neither a verdict nor two refusals in a row to say so.
  ghost predicate MayEnterUnconfirmed(w: World, o: Outcome) {
    exists ws: seq<World>, acts: seq<Action> :: EntersUnconfirmed(ws, acts, w, o)
  }

  ghost predicate EntersUnconfirmed(ws: seq<World>, acts: seq<Action>, w: World, o: Outcome) {
    var n := |acts| - 1;
    && Run(ws, acts) && ws[0] == w && n > 0
    && acts[0] == Judge(o) && OnlyRequests(acts, 0, n) && acts[n] == Record
    && !ws[n].state.Relink? && ws[n + 1].state.Relink?
    && !LastVerdict(ws[n].outcomes) && !TwoRefusals(ws[n].outcomes)
  }

  // It may exactly when re-link stood as it was judged and it is the first refusal in a row.
  lemma EntersUnconfirmedIff(w: World, o: Outcome)
    requires w.judged.None? && o.Stream? && (w.suspected ==> Suspicious(w))
    ensures MayEnterUnconfirmed(w, o) <==> Restores(w, o)
  {
    if Restores(w, o) {
      var ws, acts := OneRefusalOverASuccess(w, o);
      assert EntersUnconfirmed(ws, acts, w, o);
    }
    if MayEnterUnconfirmed(w, o) {
      var ws: seq<World>, acts: seq<Action> :| EntersUnconfirmed(ws, acts, w, o);
      var n := |acts| - 1;
      assert Step(ws[n], acts[n], ws[n + 1]);
      var k := JudgedAt(ws, acts, n);
      assert k == 0;
      RecordsRelinkIff(w, o);
    }
  }

  lemma Grow(ws: seq<World>, acts: seq<Action>, a: Action)
    requires Run(ws, acts) && Can(ws[|acts|], a)
    ensures Run(ws + [Do(ws[|acts|], a)], acts + [a])
  {
    var vs, more := ws + [Do(ws[|acts|], a)], acts + [a];
    forall i | 0 <= i < |more| ensures Step(vs[i], more[i], vs[i + 1]) {
      assert i < |acts| ==> Step(ws[i], acts[i], ws[i + 1]);
    }
  }

  lemma Go(us: seq<World>, bs: seq<Action>, a: Action) returns (ws: seq<World>, acts: seq<Action>)
    requires Run(us, bs) && Can(us[|bs|], a)
    ensures Run(ws, acts) && us <= ws && ws[|acts|] == Do(us[|bs|], a) && acts == bs + [a]
  {
    Grow(us, bs, a);
    ws, acts := us + [Do(us[|bs|], a)], bs + [a];
  }

  // Two refusals with no other call in between do reach re-link.
  lemma SecondRefusalIsRelink(us: seq<World>, bs: seq<Action>, o: Outcome, p: Outcome)
    returns (ws: seq<World>, acts: seq<Action>)
    requires Run(us, bs) && Fresh(us[0]) && us[|bs|].judged.None?
    requires AdmittedRefusal(o) && AdmittedRefusal(p)
    ensures Run(ws, acts) && acts == bs + [Judge(o), Record, Judge(p), Record]
    ensures ws[|acts|].state.Relink?
  {
    ws, acts := Go(us, bs, Judge(o));
    ws, acts := Go(ws, acts, Record);
    ws, acts := Go(ws, acts, Judge(p));
    ws, acts := Go(ws, acts, Record);
  }

  // The other way in happens, wherever it may: a refusal is judged over a standing re-link,
  // a request succeeds, and recording the refusal puts re-link back over one refusal since
  // the node answered.
  lemma OneRefusalOverASuccess(w: World, o: Outcome) returns (ws: seq<World>, acts: seq<Action>)
    requires w.judged.None? && Restores(w, o)
    ensures EntersUnconfirmed(ws, acts, w, o)
    ensures acts == [Judge(o), OnRequest(Answered), Record]
  {
    ws, acts := Go([w], [], Judge(o));
    ws, acts := Go(ws, acts, OnRequest(Answered));
    ws, acts := Go(ws, acts, Record);
  }
}

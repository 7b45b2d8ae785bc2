// The rotation exit's memory: a stored hash of the credential the guard last exited over,
// a held-exit flag and an atomic count of accepted calls, worked on by any number of
// concurrent calls at the grain of the state lock, over any number of restarts.
module ExitMemory {
  import opened Wrappers

  type Hash = nat

  // A probe remembers how many acceptances had been counted when it was sent. Judging
  // holds the state lock: the count is compared first, what to do is decided after.
  datatype Probe =
    | Flying(sent: nat) | Judging(sent: nat, mounted: Option<Hash>)
    | Judged(sent: nat, mounted: Option<Hash>, stale: bool) | Answered

  // An accepted call, by its number in the count: counted, holding the lock, back from a
  // state that would not load or save, finished.
  datatype Acceptance =
    | Counted(number: nat) | Clearing(number: nat) | Failing(number: nat) | Finished(number: nat)

  datatype Lock = Free | Probing(i: nat) | Accepting(j: nat)

  // What became of an exit's record.
  datatype Record = Recorded | NotSaved | NotLoaded

  // What the operator could see from outside, oldest first: an exit over these bytes, an
  // accepted call having cleared the memory, a start over these bytes.
  datatype Event = Exited(over: Option<Hash>, record: Record) | Forgot | Started(mount: Option<Hash>)

  datatype World = World(
    count: nat, hold: bool, holder: nat, memory: Option<Hash>, lock: Lock,
    probes: seq<Probe>, accepts: seq<Acceptance>, events: seq<Event>)

  datatype Action =
    | Accept | TakeToClear(j: nat) | Clear(j: nat, loaded: bool, saved: bool) | EndHold(j: nat)
    | Send | TakeToJudge(i: nat, mounted: Option<Hash>) | Compare(i: nat)
    | Decide(i: nat, saved: bool) | CannotLoad(i: nat)
    | Restart(mount: Option<Hash>, loaded: bool, saved: bool)

  predicate Can(w: World, a: Action) {
    match a
    case Accept => true
    case TakeToClear(j) => w.lock.Free? && j < |w.accepts| && w.accepts[j].Counted?
    case Clear(j, _, _) => w.lock == Accepting(j) && j < |w.accepts| && w.accepts[j].Clearing?
    case EndHold(j) => j < |w.accepts| && w.accepts[j].Failing?
    case Send => true
    case TakeToJudge(i, _) => w.lock.Free? && i < |w.probes| && w.probes[i].Flying?
    case Compare(i) => w.lock == Probing(i) && i < |w.probes| && w.probes[i].Judging?
    case Decide(i, _) => w.lock == Probing(i) && i < |w.probes| && w.probes[i].Judged?
    case CannotLoad(i) => w.lock == Probing(i) && i < |w.probes| && w.probes[i].Judging?
    case Restart(_, _, _) => true
  }

  function ClearDo(w: World, j: nat, loaded: bool, saved: bool): World
    requires j < |w.accepts| && w.accepts[j].Clearing?
  {
    var n := w.accepts[j].number;
    var clean := loaded && (w.memory.None? || saved);
    w.(lock := Free, hold := w.hold && !loaded,
       memory := if clean then None else w.memory,
       events := if clean then w.events + [Forgot] else w.events,
       accepts := w.accepts[j := if clean then Finished(n) else Failing(n)])
  }

  // A verdict at the threshold: stale, unreadable, held over the same bytes, or an exit.
  function DecideDo(w: World, i: nat, saved: bool): World
    requires i < |w.probes| && w.probes[i].Judged?
  {
    var p := w.probes[i];
    var v := w.(lock := Free, probes := w.probes[i := Answered]);
    if p.stale then v
    else if p.mounted.None? then v.(events := w.events + [Exited(None, NotSaved)])
    else if w.memory == p.mounted then
      v.(hold := true, holder := if w.hold then w.holder else p.sent)
    else
      v.(memory := if saved then p.mounted else w.memory,
         events := w.events + [Exited(p.mounted, if saved then Recorded else NotSaved)])
  }

  // A new process: nothing in memory survives, and a start over a file other than the
  // remembered one forgets it.
  function RestartDo(w: World, mount: Option<Hash>, loaded: bool, saved: bool): World {
    var forgets := mount.Some? && loaded && saved && w.memory.Some? && w.memory != mount;
    World(0, false, 0, if forgets then None else w.memory, Free, [], [], w.events + [Started(mount)])
  }

  function Do(w: World, a: Action): World
    requires Can(w, a)
  {
    match a
    case Accept => w.(count := w.count + 1, accepts := w.accepts + [Counted(w.count + 1)])
    case TakeToClear(j) =>
      w.(lock := Accepting(j), accepts := w.accepts[j := Clearing(w.accepts[j].number)])
    case Clear(j, loaded, saved) => ClearDo(w, j, loaded, saved)
    case EndHold(j) => w.(hold := false, accepts := w.accepts[j := Finished(w.accepts[j].number)])
    case Send => w.(probes := w.probes + [Flying(w.count)])
    case TakeToJudge(i, mounted) =>
      w.(lock := Probing(i), probes := w.probes[i := Judging(w.probes[i].sent, mounted)])
    case Compare(i) =>
      var p := w.probes[i];
      w.(probes := w.probes[i := Judged(p.sent, p.mounted, w.count != p.sent)])
    case Decide(i, saved) => DecideDo(w, i, saved)
    case CannotLoad(i) =>
      w.(lock := Free, probes := w.probes[i := Answered],
         events := w.events + [Exited(w.probes[i].mounted, NotLoaded)])
    case Restart(mount, loaded, saved) => RestartDo(w, mount, loaded, saved)
  }

  ghost predicate Step(w: World, a: Action, v: World) { Can(w, a) && v == Do(w, a) }

  ghost predicate Run(ws: seq<World>, acts: seq<Action>) {
    |ws| == |acts| + 1 && forall n :: 0 <= n < |acts| ==> Step(ws[n], acts[n], ws[n + 1])
  }

  predicate Fresh(w: World) {
    w == World(0, false, 0, None, Free, [], [], [])
  }

  // ---------------------------------------------------- no hold outlives a success

  // An acceptance that has had the lock, or one numbered above n that has not.
  predicate AcceptOk(w: World, j: nat)
    requires j < |w.accepts|
  {
    var a := w.accepts[j];
    && a.number <= w.count
    && (a.Clearing? <==> w.lock == Accepting(j))
    && (a.Finished? && w.hold ==> a.number <= w.holder)
  }

  // A probe sees the count as it was when it was sent. Past the comparison, nothing that
  // was counted after it was sent has had the lock since.
  predicate ProbeOk(w: World, i: nat)
    requires i < |w.probes|
  {
    var p := w.probes[i];
    && (p.Judging? || p.Judged? <==> w.lock == Probing(i))
    && (p.Judged? && !p.stale ==> Unseen(w, p.sent))
  }

  predicate Unseen(w: World, sent: nat) {
    forall a <- w.accepts :: a.Finished? || a.Failing? ==> a.number <= sent
  }

  ghost predicate HoldInv(w: World) {
    && (forall j :: 0 <= j < |w.accepts| ==> AcceptOk(w, j))
    && (forall i :: 0 <= i < |w.probes| ==> ProbeOk(w, i))
    && (w.lock.Probing? ==> w.lock.i < |w.probes|)
    && (w.lock.Accepting? ==> w.lock.j < |w.accepts|)
  }

  lemma ProbeStep(w: World, a: Action, i: nat)
    requires HoldInv(w) && Can(w, a) && i < |Do(w, a).probes|
    ensures ProbeOk(Do(w, a), i)
  {
    if i < |w.probes| { assert ProbeOk(w, i); }
    if a.TakeToClear? || a.Clear? || a.EndHold? { assert AcceptOk(w, a.j); }
    forall j | 0 <= j < |w.accepts| ensures w.accepts[j].number <= w.count { assert AcceptOk(w, j); }
  }

  lemma AcceptStep(w: World, a: Action, j: nat)
    requires HoldInv(w) && Can(w, a) && j < |Do(w, a).accepts|
    ensures AcceptOk(Do(w, a), j)
  {
    if j < |w.accepts| { assert AcceptOk(w, j); }
    if a.Decide? { assert ProbeOk(w, a.i); }
  }

  lemma HoldStep(w: World, a: Action)
    requires HoldInv(w) && Can(w, a)
    ensures HoldInv(Do(w, a))
  {
    forall i | 0 <= i < |Do(w, a).probes| ensures ProbeOk(Do(w, a), i) { ProbeStep(w, a, i); }
    forall j | 0 <= j < |Do(w, a).accepts| ensures AcceptOk(Do(w, a), j) { AcceptStep(w, a, j); }
  }

  lemma {:induction false} HoldInvAlong(ws: seq<World>, acts: seq<Action>, n: nat)
    requires Run(ws, acts) && Fresh(ws[0]) && n <= |acts|
    ensures HoldInv(ws[n])
  {
    if n > 0 {
      HoldInvAlong(ws, acts, n - 1);
      assert Step(ws[n - 1], acts[n - 1], ws[n]);
      HoldStep(ws[n - 1], acts[n - 1]);
    }
  }

  // No hold outlives a success: once an acceptance has finished, the flag is up only if a
  // probe sent after that acceptance was counted put it up.
  lemma NoHoldOutlivesASuccess(ws: seq<World>, acts: seq<Action>, n: nat, j: nat)
    requires Run(ws, acts) && Fresh(ws[0]) && n <= |acts|
    requires j < |ws[n].accepts| && ws[n].accepts[j].Finished? && ws[n].hold
    ensures ws[n].accepts[j].number <= ws[n].holder
  {
    HoldInvAlong(ws, acts, n);
    assert AcceptOk(ws[n], j);
  }

  // ------------------------------------------------------- one exit per rotation

  // Nothing between two events that could make the guard forget an exit over h.
  predicate Quiet(es: seq<Event>, i: nat, j: nat, h: Hash) {
    forall k :: i < k < j && k < |es| ==> !Forgets(es[k], h)
  }

  predicate Forgets(e: Event, h: Hash) {
    || e.Forgot?
    || (e.Started? && e.mount.Some? && e.mount != Some(h))
    || (e.Exited? && e.record.Recorded? && e.over != Some(h))
  }

  // A second exit over the bytes of a recorded one, by a guard that could read its state.
  predicate Repeats(es: seq<Event>, i: nat, j: nat, h: Hash) {
    && i < j < |es| && es[i] == Exited(Some(h), Recorded)
    && es[j].Exited? && es[j].over == Some(h) && !es[j].record.NotLoaded?
  }

  predicate Remembers(w: World, i: nat, h: Hash) {
    (i < |w.events| && w.events[i] == Exited(Some(h), Recorded)
     && Quiet(w.events, i, |w.events|, h)) ==> w.memory == Some(h)
  }

  lemma RemembersStep(w: World, a: Action, i: nat, h: Hash)
    requires Can(w, a) && Remembers(w, i, h)
    ensures Remembers(Do(w, a), i, h)
  {
    var v := Do(w, a);
    if i < |v.events| && v.events[i] == Exited(Some(h), Recorded) && Quiet(v.events, i, |v.events|, h) {
      if i < |w.events| {
        assert forall k :: 0 <= k < |w.events| ==> v.events[k] == w.events[k];
        if |v.events| > |w.events| {
          assert !Forgets(v.events[|w.events|], h);
        }
      }
    }
  }

  lemma {:induction false} RemembersAlong(ws: seq<World>, acts: seq<Action>, n: nat, i: nat, h: Hash)
    requires Run(ws, acts) && Fresh(ws[0]) && n <= |acts|
    ensures Remembers(ws[n], i, h)
  {
    if n > 0 {
      RemembersAlong(ws, acts, n - 1, i, h);
      assert Step(ws[n - 1], acts[n - 1], ws[n]);
      RemembersStep(ws[n - 1], acts[n - 1], i, h);
    }
  }

  lemma RepeatStep(w: World, a: Action, i: nat, j: nat, h: Hash)
    requires Can(w, a) && Remembers(w, i, h)
    requires Repeats(w.events, i, j, h) ==> !Quiet(w.events, i, j, h)
    ensures Repeats(Do(w, a).events, i, j, h) ==> !Quiet(Do(w, a).events, i, j, h)
  {
    var v := Do(w, a);
    assert forall k :: 0 <= k < |w.events| ==> v.events[k] == w.events[k];
    if Repeats(v.events, i, j, h) {
      if j < |w.events| {
        var k :| i < k < j && Forgets(w.events[k], h);
        assert Forgets(v.events[k], h);
      } else if Quiet(w.events, i, |w.events|, h) {
        assert false;
      } else {
        var k :| i < k < |w.events| && Forgets(w.events[k], h);
        assert Forgets(v.events[k], h);
      }
    }
  }

  // One exit per rotation, over any number of restarts: between a recorded exit and the
  // next exit over the same bytes an accepted call cleared the memory, or the guard
  // started over other bytes, or it exited over other bytes and recorded that.
  lemma {:induction false} OneExitPerRotation(
    ws: seq<World>, acts: seq<Action>, n: nat, i: nat, j: nat, h: Hash)
    requires Run(ws, acts) && Fresh(ws[0]) && n <= |acts|
    ensures Repeats(ws[n].events, i, j, h) ==> !Quiet(ws[n].events, i, j, h)
  {
    if n > 0 {
      OneExitPerRotation(ws, acts, n - 1, i, j, h);
      RemembersAlong(ws, acts, n - 1, i, h);
      assert Step(ws[n - 1], acts[n - 1], ws[n]);
      RepeatStep(ws[n - 1], acts[n - 1], i, j, h);
    }
  }

  lemma Grow(ws: seq<World>, acts: seq<Action>, a: Action)
    requires Run(ws, acts) && Can(ws[|acts|], a)
    ensures Run(ws + [Do(ws[|acts|], a)], acts + [a])
  {
    var vs, more := ws + [Do(ws[|acts|], a)], acts + [a];
    forall i | 0 <= i < |more| ensures Step(vs[i], more[i], vs[i + 1]) {
      assert i < |acts| ==> Step(ws[i], acts[i], ws[i + 1]);
    }
  }

  lemma Go(us: seq<World>, bs: seq<Action>, a: Action) returns (ws: seq<World>, acts: seq<Action>)
    requires Run(us, bs) && Can(us[|bs|], a)
    ensures Run(ws, acts) && us <= ws && ws[|acts|] == Do(us[|bs|], a) && acts == bs + [a]
  {
    Grow(us, bs, a);
    ws, acts := us + [Do(us[|bs|], a)], bs + [a];
  }

  lemma ExitOver(us: seq<World>, bs: seq<Action>, i: nat, h: Hash)
    returns (ws: seq<World>, acts: seq<Action>)
    requires Run(us, bs) && us[|bs|].lock.Free? && i < |us[|bs|].probes|
    requires us[|bs|].probes[i] == Flying(us[|bs|].count) && us[|bs|].memory != Some(h)
    ensures Run(ws, acts) && us <= ws
    ensures acts == bs + [TakeToJudge(i, Some(h)), Compare(i), Decide(i, true)]
    ensures |ws| > 1 && ExitsOver(ws[|acts| - 1], ws[|acts|], h)
  {
    ws, acts := Go(us, bs, TakeToJudge(i, Some(h)));
    ws, acts := Go(ws, acts, Compare(i));
    ws, acts := Go(ws, acts, Decide(i, true));
  }

  // ------------------------------------- one exit for each accepted call, and exactly when

  // What is remembered is an exit this guard took and recorded.
  lemma {:induction false} MemoryIsAnExit(ws: seq<World>, acts: seq<Action>, n: nat, h: Hash)
    requires Run(ws, acts) && Fresh(ws[0]) && n <= |acts| && ws[n].memory == Some(h)
    ensures Exited(Some(h), Recorded) in ws[n].events
  {
    if n > 0 {
      assert Step(ws[n - 1], acts[n - 1], ws[n]);
      if ws[n - 1].memory == Some(h) {
        MemoryIsAnExit(ws, acts, n - 1, h);
      }
    }
  }

  // This step is an exit over these bytes, taken by a guard that could read its state.
  predicate ExitsOver(w: World, v: World, h: Hash) {
    && |v.events| == |w.events| + 1
    && var e := v.events[|w.events|]; e.Exited? && e.over == Some(h) && !e.record.NotLoaded?
  }

  // A step that is no reason to exit over the same bytes again: no call is accepted, the
  // guard does not start over other bytes, and it records no exit over other bytes.
  predicate NoReason(w: World, a: Action, v: World, h: Hash) {
    && !a.Accept? && (a.Restart? ==> a.mount.None? || a.mount == Some(h))
    && !(a.Decide? && v.memory != w.memory && v.memory != Some(h))
  }

  ghost predicate ExitsAgainFrom(v: World, h: Hash) {
    exists ws: seq<World>, acts: seq<Action> :: ExitsAgain(ws, acts, v, h)
  }

  ghost predicate ExitsAgain(ws: seq<World>, acts: seq<Action>, v: World, h: Hash) {
    && Run(ws, acts) && ws[0] == v && acts != []
    && (forall i :: 0 <= i < |acts| ==> NoReason(ws[i], acts[i], ws[i + 1], h))
    && ExitsOver(ws[|acts| - 1], ws[|acts|], h)
  }

  // No accepted call is on its way to the memory.
  predicate NoneComing(w: World) { forall a <- w.accepts :: !a.Counted? && !a.Clearing? }

  lemma {:induction false} StaysRemembered(ws: seq<World>, acts: seq<Action>, n: nat, h: Hash)
    requires Run(ws, acts) && n <= |acts| && ws[0].memory == Some(h) && NoneComing(ws[0])
    requires forall i :: 0 <= i < n ==> NoReason(ws[i], acts[i], ws[i + 1], h)
    ensures ws[n].memory == Some(h) && NoneComing(ws[n])
  {
    if n > 0 {
      StaysRemembered(ws, acts, n - 1, h);
      assert Step(ws[n - 1], acts[n - 1], ws[n]);
      RememberedStep(ws[n - 1], acts[n - 1], h);
    }
  }

  lemma RememberedStep(w: World, a: Action, h: Hash)
    requires Can(w, a) && w.memory == Some(h) && NoneComing(w) && NoReason(w, a, Do(w, a), h)
    ensures Do(w, a).memory == Some(h) && NoneComing(Do(w, a)) && !ExitsOver(w, Do(w, a), h)
  {
    if a.TakeToClear? || a.Clear? || a.EndHold? {
      assert w.accepts[a.j] in w.accepts;
    }
  }

  // Having exited over h, with the lock free, the guard may exit over h again with no call
  // accepted and nothing else learned in between, exactly when a call that was counted
  // before has still to reach the lock.
  lemma ExitsAgainIff(v: World, h: Hash)
    requires v.memory == Some(h) && v.lock.Free? && forall a <- v.accepts :: !a.Clearing?
    ensures ExitsAgainFrom(v, h) <==> exists a <- v.accepts :: a.Counted?
  {
    if a :| a in v.accepts && a.Counted? {
      var j :| 0 <= j < |v.accepts| && v.accepts[j] == a;
      var ws, acts := SlowAcceptanceAllowsASecondExit(v, h, j);
      assert ExitsAgain(ws, acts, v, h);
    } else if ExitsAgainFrom(v, h) {
      var ws: seq<World>, acts: seq<Action> :| ExitsAgain(ws, acts, v, h);
      var n := |acts| - 1;
      StaysRemembered(ws, acts, n, h);
      assert Step(ws[n], acts[n], ws[n + 1]);
      RememberedStep(ws[n], acts[n], h);
    }
  }

  // The call counted before the run of rejections reaches the lock after the exit, clears
  // the memory of it, and the next probe finds nothing to hold it back.
  lemma SlowAcceptanceAllowsASecondExit(v: World, h: Hash, j: nat)
    returns (ws: seq<World>, acts: seq<Action>)
    requires v.memory == Some(h) && v.lock.Free? && j < |v.accepts| && v.accepts[j].Counted?
    ensures ExitsAgain(ws, acts, v, h) && forall a <- acts :: !a.Restart?
  {
    var i := |v.probes|;
    ws, acts := Go([v], [], TakeToClear(j));
    ws, acts := Go(ws, acts, Clear(j, true, true));
    ws, acts := Go(ws, acts, Send);
    ws, acts := ExitOver(ws, acts, i, h);
    assert acts == [TakeToClear(j), Clear(j, true, true), Send,
                    TakeToJudge(i, Some(h)), Compare(i), Decide(i, true)];
    forall n | 0 <= n < |acts| ensures NoReason(ws[n], acts[n], ws[n + 1], h) {
      assert Step(ws[n], acts[n], ws[n + 1]);
    }
  }
}

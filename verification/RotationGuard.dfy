// The exit memory as the guard runs it. Between any two of its statements other calls may
// be accepted and other probes judged, as the state lock allows; every method is proved to
// be a run of the exit memory's machine.
module RotationGuard {
  import opened Wrappers
  import opened ExitMemory

  datatype Outcome = TakeExit | HoldBegins | Held | Stale

  class Memory {
    var acceptances: nat
    var holdingExit: bool
    var rotationExit: Option<Hash>

    ghost var past: seq<World>
    ghost var acts: seq<Action>
    ghost var w: World

    ghost predicate History()
      reads this`past, this`acts, this`w
    {
      Run(past, acts) && Fresh(past[0]) && w == past[|acts|]
    }

    ghost predicate Valid()
      reads this
    {
      History() && w.count == acceptances && w.hold == holdingExit && w.memory == rotationExit
    }

    ghost predicate Ready()
      reads this
    {
      Valid() && w.lock.Free?
    }

    constructor ()
      ensures Ready() && w.events == []
    {
      acceptances, holdingExit, rotationExit := 0, false, None;
      w := World(0, false, 0, None, Free, [], [], []);
      new;
      past, acts := [w], [];
    }

    ghost method Take(a: Action)
      requires History() && Can(w, a)
      modifies this`past, this`acts, this`w
      ensures History() && w == Do(old(w), a)
      ensures acts == old(acts) + [a] && past == old(past) + [w]
    {
      Grow(past, acts, a);
      w := Do(w, a);
      past, acts := past + [w], acts + [a];
    }

    // Whether the state can be loaded, or saved. An operation called with `works` meets no
    // failure of either.
    method Lucky(works: bool) returns (ok: bool)
      ensures works ==> ok
    {
      ok := *;
      ok := ok || works;
    }

    // The calls under way here are where they were, whatever others have done.
    twostate predicate Interleaved()
      reads this
    {
      && Valid() && old(w).probes <= w.probes && old(w).accepts <= w.accepts
      && old(acceptances) <= acceptances && w.lock == old(w).lock
      && old(acts) <= acts && old(past) <= past
    }

    // While the lock is held others can only count acceptances.
    method OthersCount()
      requires Valid()
      modifies this
      ensures Interleaved() && holdingExit == old(holdingExit) && rotationExit == old(rotationExit)
      ensures w.probes == old(w.probes) && w.events == old(w.events) && w.holder == old(w.holder)
    {
      var more: nat := *;
      while more > 0
        invariant Interleaved() && holdingExit == old(holdingExit)
        invariant rotationExit == old(rotationExit)
        invariant w.probes == old(w.probes) && w.events == old(w.events) && w.holder == old(w.holder)
      {
        acceptances := acceptances + 1;
        Take(Accept);
        more := more - 1;
      }
    }

    method Others()
      requires Ready()
      modifies this
      ensures Interleaved()
    {
      var more: nat := *;
      while more > 0
        invariant Interleaved()
      {
        var accepted := Lucky(false);
        if accepted { AnotherAccepted(); } else { AnotherProbe(); }
        more := more - 1;
      }
    }

    method AnotherAccepted()
      requires Ready()
      modifies this
      ensures Interleaved()
    {
      acceptances := acceptances + 1;
      ghost var j := |w.accepts|;
      Take(Accept);
      Take(TakeToClear(j));
      var saved := Lucky(false);
      holdingExit := false;
      if saved { rotationExit := None; }
      Take(Clear(j, true, saved));
    }

    method AnotherProbe()
      requires Ready()
      modifies this
      ensures Interleaved()
    {
      var mounted: Hash := *;
      var saved := Lucky(false);
      ghost var i := |w.probes|;
      Take(Send);
      Take(TakeToJudge(i, Some(mounted)));
      Take(Compare(i));
      if rotationExit == Some(mounted) {
        holdingExit := true;
      } else if saved {
        rotationExit := Some(mounted);
      }
      Take(Decide(i, saved));
    }

    // The count as a probe remembers it when it goes out.
    method SendProbe() returns (sent: nat, ghost i: nat)
      requires Ready()
      modifies this
      ensures Ready() && i < |w.probes| && w.probes[i] == Flying(sent)
      ensures sent == acceptances == old(acceptances)
    {
      sent, i := acceptances, |w.probes|;
      Take(Send);
    }

    ghost predicate ExitedOver(mounted: Option<Hash>)
      reads this`w
    {
      var n := |w.events|;
      n > 0 && w.events[n - 1].Exited? && w.events[n - 1].over == mounted
    }

    // What a probe's judgement makes of what it found under the lock, the count then being
    // `counted`: stale if a call was accepted since it was sent; an exit already taken over
    // the same bytes holds; and otherwise the guard exits, over a mount it may not be able
    // to read.
    ghost predicate Judged(outcome: Outcome, sent: nat, mounted: Option<Hash>, found: World, counted: nat)
      reads this
    {
      var same := mounted.Some? && found.memory == mounted;
      && (outcome.Stale? <==> counted != sent)
      && (outcome.HoldBegins? <==> counted == sent && same && !found.hold)
      && (outcome.Held? <==> counted == sent && same && found.hold)
      && (outcome.TakeExit? <==> counted == sent && !same)
      && holdingExit == (found.hold || outcome.HoldBegins?)
      && (rotationExit == found.memory || (outcome.TakeExit? && mounted.Some? && rotationExit == mounted))
    }

    // recordRotationExit: the comparison and the decision under one hold of the lock.
    method RecordRotationExit(sent: nat, mounted: Option<Hash>, ghost i: nat, works: bool)
      returns (outcome: Outcome, ghost k: nat, ghost m: nat)
      requires Ready() && i < |w.probes| && w.probes[i] == Flying(sent) && sent <= acceptances
      modifies this
      ensures Ready() && old(acts) <= acts && old(past) <= past
      ensures outcome.Stale? ==> sent < acceptances
      ensures outcome.HoldBegins? ==> w.holder == sent
      ensures outcome.TakeExit? ==> ExitedOver(mounted)
      ensures k < |acts| && |past| == |acts| + 1 && acts[k] == TakeToJudge(i, mounted)
      ensures (m < |acts| && acts[m] == Compare(i) && Judged(outcome, sent, mounted, past[k], past[m].count))
        || (!works && outcome.TakeExit? && holdingExit == past[k].hold && rotationExit == past[k].memory)
      ensures works && outcome.TakeExit? && mounted.Some? ==> rotationExit == mounted
    {
      Others();
      k, m := |acts|, 0;
      Take(TakeToJudge(i, mounted));
      var loaded := Lucky(works);
      if !loaded {
        Take(CannotLoad(i));
        return TakeExit, k, m;
      }
      outcome, m := Judge(sent, mounted, i, works);
    }

    // A probe the node rejected once too often: sent, and judged when it comes back.
    method RejectedProbe(mounted: Option<Hash>, works: bool) returns (outcome: Outcome)
      requires Ready()
      modifies this
      ensures Ready()
      ensures outcome.Stale? ==> old(acceptances) < acceptances
      ensures outcome.HoldBegins? || outcome.Held? ==> holdingExit && mounted.Some?
      ensures outcome.HoldBegins? || outcome.Held? ==> rotationExit == mounted
      ensures outcome.HoldBegins? ==> old(acceptances) <= w.holder
      ensures outcome.TakeExit? ==> ExitedOver(mounted)
      ensures works && outcome.TakeExit? && mounted.Some? ==> rotationExit == mounted
    {
      var sent, i := SendProbe();
      Others();
      ghost var k, m;
      outcome, k, m := RecordRotationExit(sent, mounted, i, works);
    }

    method Judge(sent: nat, mounted: Option<Hash>, ghost i: nat, works: bool)
      returns (outcome: Outcome, ghost m: nat)
      requires Valid() && w.lock == Probing(i) && i < |w.probes|
      requires w.probes[i] == Judging(sent, mounted) && sent <= acceptances
      modifies this
      ensures Ready() && old(acts) <= acts && old(past) <= past && |past| == |acts| + 1
      ensures m < |acts| && acts[m] == Compare(i)
      ensures Judged(outcome, sent, mounted, old(w), past[m].count)
      ensures outcome.Stale? ==> sent < acceptances
      ensures outcome.HoldBegins? ==> w.holder == sent
      ensures outcome.TakeExit? ==> ExitedOver(mounted)
      ensures works && outcome.TakeExit? && mounted.Some? ==> rotationExit == mounted
    {
      OthersCount();
      m := |acts|;
      var stale := acceptances != sent;
      Take(Compare(i));
      OthersCount();
      outcome := TakeExit;
      var saved := Lucky(works);
      if stale {
        outcome := Stale;
      } else if mounted.Some? {
        if rotationExit == mounted {
          outcome := if holdingExit then Held else HoldBegins;
          holdingExit := true;
        } else if saved {
          rotationExit := mounted;
        }
      }
      Take(Decide(i, saved));
    }

    // nodeAccepted: the count first, then the hold and the memory under the lock; a state
    // that would not load or save ends the hold all the same.
    method NodeAccepted(works: bool) returns (ghost number: nat)
      requires Ready()
      modifies this
      ensures works ==> rotationExit.None?
      ensures Ready() && !holdingExit && old(acceptances) < number <= acceptances
      ensures Finished(number) in w.accepts
    {
      acceptances := acceptances + 1;
      number := acceptances;
      ghost var j := |w.accepts|;
      Take(Accept);
      assert w.accepts[j] == Counted(number);
      Others();
      var clean := ClearUnderLock(j, number, works);
      if !clean {
        FinishHold(j, number);
      }
      assert w.accepts[j] == Finished(number);
    }

    method ClearUnderLock(ghost j: nat, ghost number: nat, works: bool) returns (clean: bool)
      requires Ready() && j < |w.accepts| && w.accepts[j] == Counted(number)
      modifies this
      ensures Ready() && old(acceptances) <= acceptances && j < |w.accepts|
      ensures clean ==> !holdingExit && rotationExit.None? && w.accepts[j] == Finished(number)
      ensures !clean ==> rotationExit == old(rotationExit) && w.accepts[j] == Failing(number)
      ensures works ==> clean
    {
      Take(TakeToClear(j));
      OthersCount();
      var loaded := Lucky(works);
      var saved := Lucky(works);
      clean := loaded && (rotationExit.None? || saved);
      if loaded { holdingExit := false; }
      if clean { rotationExit := None; }
      Take(Clear(j, loaded, saved));
    }

    method FinishHold(ghost j: nat, ghost number: nat)
      requires Ready() && j < |w.accepts| && w.accepts[j] == Failing(number)
      modifies this
      ensures Ready() && !holdingExit && old(acceptances) <= acceptances
      ensures j < |w.accepts| && w.accepts[j] == Finished(number)
    {
      Others();
      holdingExit := false;
      Take(EndHold(j));
    }

    // A restart, with forgetExitOverAnotherFile: an unreadable mount changes nothing.
    method Start(mounted: Option<Hash>, works: bool)
      requires Valid()
      modifies this
      ensures Ready() && !holdingExit && acceptances == 0
      ensures rotationExit.None? || rotationExit == old(rotationExit)
      ensures mounted.None? || mounted == old(rotationExit) ==> rotationExit == old(rotationExit)
      ensures w.events == old(w.events) + [Started(mounted)]
      ensures works && mounted.Some? && mounted != old(rotationExit) ==> rotationExit.None?
    {
      acceptances, holdingExit := 0, false;
      var loaded := Lucky(works);
      var saved := Lucky(works);
      if mounted.Some? && loaded && rotationExit.Some? && rotationExit != mounted && saved {
        rotationExit := None;
      }
      Take(Restart(mounted, loaded, saved));
    }
  }
}

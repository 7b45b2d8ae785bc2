// The latch on sending is one field of one state file: the root-key protocol clears it and
// asks about it, the ceremony sets it. A joint run is a run of each, step by step in the
// same state file and under the same bake lock.
module Sending {
  import opened Wrappers
  import K = RootKeys
  import C = Ceremony

  // The two machines agree about the latch, and one of them at most holds the bake lock.
  predicate Together(k: K.World, c: C.World) {
    k.rec.latch == c.controls.latch && (k.task.Idle? || c.holder.Free?)
  }

  // A step of one machine alone is beside a step of the other that changes nothing: an
  // Elsewhere of no keys, or a Tick of no time.
  predicate Joint(ks: seq<K.World>, kacts: seq<K.Action>, cs: seq<C.World>, cacts: seq<C.Action>) {
    && K.Run(ks, kacts) && C.Run(cs, cacts) && |kacts| == |cacts|
    && forall i :: 0 <= i < |ks| ==> Together(ks[i], cs[i])
  }

  lemma StandingStillIsAStep(k: K.World, c: C.World)
    ensures K.Step(k, K.Elsewhere({}, {}), k) && C.Step(c, C.Tick(c.now), c)
  {
    assert k.node - {} + {} == k.node;
  }

  // The first step from m on that turns the latch on.
  lemma {:induction false} FirstGrant(acts: seq<K.Action>, m: nat, n: nat) returns (i: nat)
    requires m <= n <= |acts| && !K.NoGrant(acts, m, n)
    ensures m <= i < n && acts[i] == K.SetLatch(true) && K.NoGrant(acts, m, i)
  {
    if K.NoGrant(acts, m, n - 1) {
      i := n - 1;
    } else {
      i := FirstGrant(acts, m, n - 1);
    }
  }

  // Revoked stays revoked until the operator says otherwise: after the write that ends
  // sending at step m, a spend key chosen by step n is preceded by the ceremony's commit of
  // sending turned on, against a grant for just that which the same call consumed.
  lemma NewSpendKeyNeedsAGrant(
    ks: seq<K.World>, kacts: seq<K.Action>, cs: seq<C.World>, cacts: seq<C.Action>,
    m: nat, n: nat, id: K.Key)
    returns (i: nat, k: nat, g: C.Grant)
    requires Joint(ks, kacts, cs, cacts) && C.Inv(cs[0]) && cs[0].holder.Free? && m < n < |ks|
    requires kacts[m] == K.Finish && ks[m].task.Sweeping? && ks[m].task.why.Ending?
    requires ks[m].gated == 0
    requires id in K.SpendIds(ks[n]) && id !in K.SpendIds(ks[m])
    ensures m < i < n && kacts[i] == K.SetLatch(true) && cacts[i] == C.Commit(true)
    ensures g.change.control.Sending? && g.change.on
    ensures cs[i].holder == C.Committing(g.change, Some(g.serial))
    ensures k < i && cacts[k].Redeem? && cs[k].grant == Some(g) && cs[k + 1].grant.None?
    ensures cs[k].holder.Redeeming? && !g.Expired(cs[k].holder.at)
    ensures C.Matches(g, cs[k].holder.code)
  {
    if K.NoGrant(kacts, m + 1, n) {
      K.RevokedStaysRevoked(ks, kacts, m, n);
      assert false;
    }
    i := FirstGrant(kacts, m + 1, n);
    LatchIsOffUntil(ks, kacts, m, i);
    assert K.Step(ks[i], kacts[i], ks[i + 1]) && Together(ks[i], cs[i]) && Together(ks[i + 1], cs[i + 1]);
    k, g := C.EveryLooseningSpendsAGrant(cs, cacts, i);
  }

  lemma LatchIsOffUntil(ks: seq<K.World>, kacts: seq<K.Action>, m: nat, i: nat)
    requires K.Run(ks, kacts) && m < i < |ks| && kacts[m] == K.Finish
    requires ks[m].task.Sweeping? && ks[m].task.why.Ending? && K.NoGrant(kacts, m + 1, i)
    ensures !ks[i].rec.latch
  {
    assert K.Step(ks[m], kacts[m], ks[m + 1]);
    K.GateBoundsSpendBakes(ks, kacts, m + 1, i);
  }

  // And with a grant sending does start again: a joint run in which a spend key is chosen
  // after sending ended.
  lemma GrantReopensSending(k: K.World, c: C.World, code: string, id: K.Key)
    returns (ks: seq<K.World>, kacts: seq<K.Action>, cs: seq<C.World>, cacts: seq<C.Action>)
    requires Together(k, c) && c.holder.Free? && k.task.Sweeping? && k.task.why == K.Ending(false)
    requires k.task.queue == [] && K.Fresh(k, id) && k.gated == 0
    ensures Joint(ks, kacts, cs, cacts) && ks[0] == k && cs[0] == c && kacts != []
    ensures kacts[0] == K.Finish && id in K.SpendIds(ks[|kacts|]) && id !in K.SpendIds(k)
  {
    EndingFinishes(k);
    ks, kacts, cs, cacts := Go([k], [], [c], [], K.Finish, C.EndSending);
    ks, kacts, cs, cacts := Redeemed(ks, kacts, cs, cacts, code);
    ks, kacts, cs, cacts := Resumed(ks, kacts, cs, cacts, id);
  }

  lemma EndingFinishes(k: K.World)
    requires k.task.Sweeping? && k.task.why == K.Ending(false) && k.task.queue == []
    ensures var v := K.Do(k, K.Finish);
            && v.task.Idle? && !v.rec.latch && v.node == k.node && v.issued == k.issued
            && v.gated == k.gated
  {}

  // The change committed, and a spend credential asked for.
  lemma Resumed(
    ks: seq<K.World>, kacts: seq<K.Action>, cs: seq<C.World>, cacts: seq<C.Action>, id: K.Key)
    returns (ks': seq<K.World>, kacts': seq<K.Action>, cs': seq<C.World>, cacts': seq<C.Action>)
    requires Joint(ks, kacts, cs, cacts) && ks[|kacts|].task.Idle? && K.Fresh(ks[|kacts|], id)
    requires cs[|cacts|].holder.Committing?
    requires cs[|cacts|].holder.change == C.Change(C.Sending, true, 0)
    ensures Joint(ks', kacts', cs', cacts') && kacts <= kacts' && ks <= ks' && cs <= cs'
    ensures id in K.SpendIds(ks'[|kacts'|])
  {
    var now := cs[|cacts|].now;
    ks', kacts', cs', cacts' := Go(ks, kacts, cs, cacts, K.SetLatch(true), C.Commit(true));
    ks', kacts', cs', cacts' := Go(ks', kacts', cs', cacts', K.ReadGate, C.Tick(now));
    K.IssuingAddsOne(ks'[|kacts'|], K.Spend, id);
    ks', kacts', cs', cacts' := Go(ks', kacts', cs', cacts', K.StartBake(K.Spend, id), C.Tick(now));
  }

  // The operator asks for sending, reads the code and types it in.
  lemma Redeemed(
    ks: seq<K.World>, kacts: seq<K.Action>, cs: seq<C.World>, cacts: seq<C.Action>, code: string)
    returns (ks': seq<K.World>, kacts': seq<K.Action>, cs': seq<C.World>, cacts': seq<C.Action>)
    requires Joint(ks, kacts, cs, cacts) && ks[|kacts|].task.Idle?
    requires cs[|cacts|].holder.Free? && !cs[|cacts|].controls.latch
    ensures Joint(ks', kacts', cs', cacts') && kacts <= kacts' && ks <= ks' && cs <= cs'
    ensures ks'[|kacts'|] == ks[|kacts|] && cs'[|cacts'|].controls == cs[|cacts|].controls
    ensures cs'[|cacts'|].holder.Committing?
    ensures cs'[|cacts'|].holder.change == C.Change(C.Sending, true, 0)
  {
    ks', kacts', cs', cacts' := Offered(ks, kacts, cs, cacts, code);
    var change := C.Change(C.Sending, true, 0);
    ks', kacts', cs', cacts' := Operator(ks', kacts', cs', cacts', C.Begin(change, code));
    ks', kacts', cs', cacts' := Operator(ks', kacts', cs', cacts', C.Redeem(true, true));
  }

  lemma Offered(
    ks: seq<K.World>, kacts: seq<K.Action>, cs: seq<C.World>, cacts: seq<C.Action>, code: string)
    returns (ks': seq<K.World>, kacts': seq<K.Action>, cs': seq<C.World>, cacts': seq<C.Action>)
    requires Joint(ks, kacts, cs, cacts) && ks[|kacts|].task.Idle?
    requires cs[|cacts|].holder.Free? && !cs[|cacts|].controls.latch
    ensures Joint(ks', kacts', cs', cacts') && kacts <= kacts' && ks <= ks' && cs <= cs'
    ensures ks'[|kacts'|] == ks[|kacts|] && cs'[|cacts'|].controls == cs[|cacts|].controls
    ensures var g := cs'[|cacts'|].grant;
            && cs'[|cacts'|].holder.Free? && g.Some? && !g.value.Expired(cs'[|cacts'|].now)
            && g.value.change == C.Change(C.Sending, true, 0) && g.value.code == code
  {
    var change := C.Change(C.Sending, true, 0);
    var asked := C.Request(change, cs[|cacts|].now);
    ks', kacts', cs', cacts' := Operator(ks, kacts, cs, cacts, C.Ask(change));
    ks', kacts', cs', cacts' := Operator(ks', kacts', cs', cacts', C.Install(asked, code, true, true));
  }

  // A step of the ceremony alone.
  lemma Operator(
    ks: seq<K.World>, kacts: seq<K.Action>, cs: seq<C.World>, cacts: seq<C.Action>, b: C.Action)
    returns (ks': seq<K.World>, kacts': seq<K.Action>, cs': seq<C.World>, cacts': seq<C.Action>)
    requires Joint(ks, kacts, cs, cacts) && C.Can(cs[|cacts|], b)
    requires Together(ks[|kacts|], C.Do(cs[|cacts|], b))
    ensures Joint(ks', kacts', cs', cacts') && kacts <= kacts' && ks <= ks' && cs <= cs'
    ensures ks'[|kacts'|] == ks[|kacts|] && cs'[|cacts'|] == C.Do(cs[|cacts|], b)
  {
    StandingStillIsAStep(ks[|kacts|], cs[|cacts|]);
    ks', kacts', cs', cacts' := Go(ks, kacts, cs, cacts, K.Elsewhere({}, {}), b);
  }

  lemma Go(ks: seq<K.World>, kacts: seq<K.Action>, cs: seq<C.World>, cacts: seq<C.Action>,
           a: K.Action, b: C.Action)
    returns (ks': seq<K.World>, kacts': seq<K.Action>, cs': seq<C.World>, cacts': seq<C.Action>)
    requires Joint(ks, kacts, cs, cacts) && K.Can(ks[|kacts|], a) && C.Can(cs[|cacts|], b)
    requires Together(K.Do(ks[|kacts|], a), C.Do(cs[|cacts|], b))
    ensures Joint(ks', kacts', cs', cacts') && kacts' == kacts + [a] && ks <= ks' && cs <= cs'
    ensures ks'[|kacts'|] == K.Do(ks[|kacts|], a) && cs'[|cacts'|] == C.Do(cs[|cacts|], b)
  {
    K.Grow(ks, kacts, a);
    C.Grow(cs, cacts, b);
    ks', kacts' := ks + [K.Do(ks[|kacts|], a)], kacts + [a];
    cs', cacts' := cs + [C.Do(cs[|cacts|], b)], cacts + [b];
  }
}

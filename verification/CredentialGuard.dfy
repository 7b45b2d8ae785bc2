// The guard's credential operations as the program performs them, statement by
// statement, each proved to be a run of the root-key protocol. Any call to the node
// or the disk may fail, and the process may die between any two of them.
module CredentialGuard {
  import opened Wrappers
  import opened RootKeys

  datatype Result = Done | Refused | Failed | Died

  const ROOT_KEY_ATTEMPTS := 8

  // randomRootKeyID never chooses the key every other app of the node was baked under.
  function NeverZero(random: Key): Key { if random == 0 then 1 else random }

  // Draw i is the first that is not in use, and this is its id.
  predicate Picks(randoms: seq<Key>, i: nat, used: set<Key>, id: Key)
    requires i < |randoms|
  {
    && id == NeverZero(randoms[i]) && (randoms[i] != 0 ==> id == randoms[i]) && id !in used
    && forall j :: 0 <= j < i ==> NeverZero(randoms[j]) in used
  }

  predicate SpendBake(a: Action) { a.StartBake? && a.kind == Spend }

  ghost predicate NoSpendBake(acts: seq<Action>) {
    forall i :: 0 <= i < |acts| ==> !SpendBake(acts[i])
  }

  // A spend key is chosen by a spend bake and by nothing else.
  lemma {:induction false} NoSpendBakeNoSpendKey(ws: seq<World>, acts: seq<Action>, n: nat)
    requires Run(ws, acts) && n <= |acts| && NoSpendBake(acts)
    ensures SpendIds(ws[n]) == SpendIds(ws[0])
  {
    if n > 0 {
      NoSpendBakeNoSpendKey(ws, acts, n - 1);
      var a := acts[n - 1];
      assert Step(ws[n - 1], a, ws[n]) && !SpendBake(a);
      if a.StartBake? { IssuingAddsOne(ws[n - 1], a.kind, a.id); }
    }
  }

  // Eight draws, none an id this guard has ever chosen.
  predicate Drawn(randoms: seq<Key>, issued: map<Key, Kind>) {
    |randoms| == 8 && forall r <- randoms :: NeverZero(r) !in issued
  }

  // What a sweep keeps: the ids it spares, and those it was not told are gone.
  function KeptOf(ids: seq<Key>, gone: seq<bool>, spare: seq<Key>): seq<Key>
    requires |gone| == |ids|
  {
    if ids == [] then [] else
      var i := |ids| - 1;
      KeptOf(ids[..i], gone[..i], spare) + if ids[i] in spare || !gone[i] then [ids[i]] else []
  }

  lemma {:induction false} KeptOfWithin(ids: seq<Key>, gone: seq<bool>, spare: seq<Key>)
    requires |gone| == |ids|
    ensures forall k <- KeptOf(ids, gone, spare) :: k in ids
  {
    if ids != [] {
      var most := ids[..|ids| - 1];
      KeptOfWithin(most, gone[..|ids| - 1], spare);
      assert forall k <- most :: k in ids;
    }
  }

  lemma {:induction false} SparedAreKept(ids: seq<Key>, gone: seq<bool>, spare: seq<Key>)
    requires |gone| == |ids|
    ensures forall k <- ids :: k in spare ==> k in KeptOf(ids, gone, spare)
  {
    if ids != [] {
      var i := |ids| - 1;
      SparedAreKept(ids[..i], gone[..i], spare);
      assert ids == ids[..i] + [ids[i]];
    }
  }

  // When every id asked about went, only spared ones are kept.
  lemma {:induction false} KeptOfSpared(ids: seq<Key>, gone: seq<bool>, spare: seq<Key>)
    requires |gone| == |ids| && forall i :: 0 <= i < |ids| ==> gone[i] || ids[i] in spare
    ensures forall k <- KeptOf(ids, gone, spare) :: k in spare
  {
    if ids != [] { KeptOfSpared(ids[..|ids| - 1], gone[..|ids| - 1], spare); }
  }

  lemma KeptOfOneMore(ids: seq<Key>, gone: seq<bool>, spare: seq<Key>, id: Key, g: bool)
    requires |gone| == |ids|
    ensures KeptOf(ids + [id], gone + [g], spare) ==
            KeptOf(ids, gone, spare) + if id in spare || !g then [id] else []
  {
    assert (ids + [id])[..|ids|] == ids && (gone + [g])[..|ids|] == gone;
  }

  lemma KeptOfNext(ids: seq<Key>, i: nat, gone: seq<bool>, spare: seq<Key>)
    requires i < |ids| && |gone| == i
    ensures ids[i..] != [] && ids[i..][0] == ids[i] && ids[i..][1..] == ids[i + 1..]
    ensures forall g :: KeptOf(ids[..i + 1], gone + [g], spare) ==
              KeptOf(ids[..i], gone, spare) + if ids[i] in spare || !g then [ids[i]] else []
  {
    assert ids[..i + 1] == ids[..i] + [ids[i]];
    forall g ensures KeptOf(ids[..i + 1], gone + [g], spare) ==
              KeptOf(ids[..i], gone, spare) + if ids[i] in spare || !g then [ids[i]] else [] {
      KeptOfOneMore(ids[..i], gone, spare, ids[i], g);
    }
  }

  class Guard {
    // What the program reads and writes: the state file's key records, the two
    // credential slots, and the node's own key set.
    var rec: Records
    var receive: Slot
    var spend: Slot
    var node: set<Key>
    // Every id this guard ever chose. The program keeps no such list; it is here to
    // say which of the node's keys belong to other apps.
    var issued: map<Key, Kind>
    // GUARD_ALLOW_SENDING, the deployment's ceiling.
    const allowSending: bool

    // The run of the protocol so far, and the world it has come to.
    ghost var past: seq<World>
    ghost var acts: seq<Action>
    ghost var w: World

    ghost predicate History()
      reads this`past, this`acts, this`w
    {
      Run(past, acts) && Inv(past[0]) && w == past[|acts|] && UnderCeiling()
    }

    // No spend bake was started on a deployment that forbids sending.
    ghost predicate UnderCeiling()
      reads this`acts
    {
      allowSending || NoSpendBake(acts)
    }

    // The guard's stores are where a run of the protocol from a good state leaves them.
    ghost predicate Valid()
      reads this
    {
      && History()
      && w.rec == rec && w.receive == receive && w.spend == spend && w.node == node
      && w.issued == issued
    }

    ghost predicate Ready()
      reads this
    {
      Valid() && w.task.Idle? && w.look.NoLook?
    }

    constructor (w: World, allowSending: bool)
      requires Inv(w)
      ensures Valid() && this.w == w && past == [w] && acts == []
    {
      this.rec, this.receive, this.spend := w.rec, w.receive, w.spend;
      this.node, this.issued := w.node, w.issued;
      this.allowSending := allowSending;
      this.past, this.acts, this.w := [w], [], w;
    }

    function On(c: Kind): Slot
      reads this
    {
      if c == Receive then receive else spend
    }

    // Records one atomic step of the protocol that the program has just taken.
    ghost method Take(a: Action)
      requires History() && Can(w, a) && (SpendBake(a) ==> allowSending)
      modifies this`past, this`acts, this`w
      ensures History() && w == Do(old(w), a)
      ensures old(acts) <= acts && old(past) <= past
    {
      Grow(past, acts, a);
      w := Do(w, a);
      past, acts := past + [w], acts + [a];
    }

    // No key of this guard's has come back at the node since it honoured these.
    ghost predicate Shrunk(was: set<Key>)
      reads this
    {
      forall k <- issued :: k in node ==> k in was
    }

    // Whether a call to the node or the disk does what it was asked. An operation called
    // with `works` meets no failure and is not stopped, though other apps go on using the
    // node.
    method Lucky(works: bool) returns (ok: bool)
      ensures works ==> ok
    {
      ok := *;
      ok := ok || works;
    }

    // Between two steps: other apps and the operator change the node's keys, and
    // this process may be stopped.
    method Elapse(works: bool) returns (alive: bool)
      requires Valid()
      modifies this
      ensures works ==> alive
      ensures Valid() && rec == old(rec) && receive == old(receive) && spend == old(spend)
      ensures old(acts) <= acts && old(past) <= past
      ensures w.issued == old(w.issued) && Shrunk(old(node))
      ensures alive ==> w == old(w).(node := node)
      ensures !alive ==> w.task.Idle? && w.gated == 0 && w.look.NoLook?
    {
      var gone: set<Key>, added: set<Key> := *, *;
      added := added - issued.Keys;
      node := node - gone + added;
      Take(Elsewhere(gone, added));
      alive := Lucky(works);
      if !alive { Take(Crash); }
    }

    ghost method Abandon(c: Kind)
      requires Valid() && (c == Spend ==> w.gated > 0)
      modifies this`past, this`acts, this`w
      ensures Valid() && old(acts) <= acts && old(past) <= past
      ensures w == if c == Spend then old(w).(gated := old(w).gated - 1) else old(w)
    {
      if c == Spend { Take(LeaveGate); }
    }

    // Whatever the program has done so far, it can name every key of its own that
    // the node still honours.
    lemma LosesNoKey(k: Key)
      requires Valid() && k in issued && k in node
      ensures k in rec.pending || k == rec.receive || k == rec.spend
    {
      NoKeyIsLost(past, acts, |acts|, k);
    }

    // On a deployment that forbids sending no spend key is ever chosen, whatever the latch.
    lemma CeilingHolds()
      requires Valid() && !allowSending
      ensures SpendIds(w) == SpendIds(past[0])
    {
      NoSpendBakeNoSpendKey(past, acts, |acts|);
    }

    // newRootKeyID: the first of eight random ids the node is not using, never zero; None
    // when it is using them all.
    method NewRootKeyID(randoms: seq<Key>) returns (id: Option<Key>)
      requires Valid() && |randoms| == 8
      ensures id.None? <==> forall r <- randoms :: NeverZero(r) in node
      ensures id.Some? ==> id.value != 0 && id.value !in node
      ensures id.Some? ==> exists i :: 0 <= i < |randoms| && Picks(randoms, i, node, id.value)
    {
      for i := 0 to ROOT_KEY_ATTEMPTS
        invariant forall j :: 0 <= j < i ==> NeverZero(randoms[j]) in node
      {
        var pick := NeverZero(randoms[i]);
        if pick !in node {
          assert Picks(randoms, i, node, pick);
          return Some(pick);
        }
      }
      return None;
    }

    // What holds at every return of a step of a bake of c that began in state o:
    // the run goes on from where it was, and nothing of the other credential moved.
    ghost predicate Follows(o: World, c: Kind, thus: seq<World>, did: seq<Action>)
      reads this
    {
      && Valid() && thus <= past && did <= acts
      && w.issued == o.issued && (w.gated == o.gated || (w.task.Idle? && w.gated == 0))
      && (w.look == o.look || w.look.NoLook?)
      && rec.latch == o.rec.latch && rec.Current(c.Other()) == o.rec.Current(c.Other())
      && On(c.Other()) == o.On(c.Other())
    }

    // Guard.bake for either credential. `young` and `conforms` are the two local
    // facts wouldRepeatItself reads off the clock and the macaroon.
    method Bake(c: Kind, young: bool, conforms: bool, randoms: seq<Key>, works: bool)
      returns (r: Result)
      requires Ready() && (c == Spend ==> w.gated > 0)
      requires Drawn(randoms, w.issued) && (c == Spend ==> allowSending)
      modifies this
      ensures Ready() && old(acts) <= acts && old(past) <= past
      ensures w.gated <= if c == Spend then old(w).gated - 1 else old(w).gated
      ensures r == Refused ==> rec == old(rec) && w.issued == old(w.issued)
      ensures r == Refused ==> young && conforms && rec.Current(c) in node
      ensures r == Done ==> exists r <- randoms :: rec.Current(c) == NeverZero(r)
      ensures r == Done ==> NewCredential(c, rec.Current(c), old(w))
      ensures rec.latch == old(rec).latch
      ensures c == Receive ==> SpendIds(w) == SpendIds(old(w))
      ensures works ==> r == if young && conforms && old(rec).Current(c) in old(node) then Refused
                             else if exists r <- randoms :: NeverZero(r) !in old(node) then Done
                             else Failed
      ensures works && r == Done ==> Replaced(c, old(rec))
    {
      if young && conforms {
        var answered := Lucky(works);
        if answered && rec.Current(c) in node {
          Abandon(c);
          return Refused;
        }
      }
      var listed := Lucky(works);
      var pick := NewRootKeyID(randoms);
      var saved := Lucky(works);
      if !listed || pick.None? || !saved {
        Abandon(c);
        return Failed;
      }
      r := BakeWith(c, pick.value, works);
    }

    // The id recorded, and the bake under it.
    method BakeWith(c: Kind, id: Key, works: bool) returns (r: Result)
      requires Ready() && (c == Spend ==> w.gated > 0 && allowSending) && Fresh(w, id)
      modifies this
      ensures Ready() && old(acts) <= acts && old(past) <= past && r != Refused
      ensures w.gated <= if c == Spend then old(w).gated - 1 else old(w).gated
      ensures r == Done ==> NewCredential(c, id, old(w)) && rec.Current(c) == id
      ensures rec.latch == old(rec).latch
      ensures c == Receive ==> SpendIds(w) == SpendIds(old(w))
      ensures works ==> r == Done && Replaced(c, old(rec))
    {
      var before := rec;
      Record(c, id);
      r := BakeUnder(c, id, before, works);
    }

    // File, sidecar and state name one new id, and the other credential is as it was.
    predicate NewCredential(c: Kind, id: Key, was: World)
      reads this
    {
      && id != 0 && id !in was.issued && id == rec.Current(c) && id !in rec.pending
      && On(c) == Slot(Some(id), Some(id))
      && rec.Current(c.Other()) == was.rec.Current(c.Other()) && On(c.Other()) == was.On(c.Other())
    }

    // The key it replaces is gone from the node, and nothing else is left that need not be.
    predicate Replaced(c: Kind, before: Records)
      reads this
    {
      && (before.Current(c) != 0 ==> before.Current(c) !in node && before.Current(c) !in rec.pending)
      && PendingAfterBake(c, before)
    }

    // What a bake leaves pending when nothing fails: of what was pending before, what a
    // sidecar names, or all of it when the other credential has no sidecar to say.
    predicate PendingAfterBake(c: Kind, before: Records)
      reads this
    {
      var o := On(c.Other());
      forall k <- rec.pending ::
        k in before.pending && ((o.file.Some? && o.sidecar.None?) || NamedBy(receive, k) || NamedBy(spend, k))
    }

    // The id is recorded as pending before the node is asked for anything.
    method Record(c: Kind, id: Key)
      requires Ready() && (c == Spend ==> w.gated > 0 && allowSending) && Fresh(w, id)
      modifies this
      ensures Valid() && old(acts) <= acts && old(past) <= past && w.task == Asked(c, id, old(rec))
      ensures w.issued == old(w).issued[id := c]
      ensures w.gated == if c == Spend then old(w).gated - 1 else old(w).gated
      ensures rec == old(rec).(pending := old(rec).pending + [id]) && w.look == old(w).look
      ensures node == old(node)
      ensures receive == old(receive) && spend == old(spend)
      ensures SpendIds(w) == if c == Spend then SpendIds(old(w)) + {id} else SpendIds(old(w))
    {
      IssuingAddsOne(w, c, id);
      rec := rec.(pending := rec.pending + [id]);
      issued := issued[id := c];
      Take(StartBake(c, id));
    }

    // The bake from there on.
    method BakeUnder(c: Kind, id: Key, before: Records, works: bool) returns (r: Result)
      requires Valid() && w.task == Asked(c, id, before)
      modifies this
      ensures Follows(old(w), c, old(past), old(acts)) && r != Refused && w.task.Idle?
      ensures r == Done ==> rec.Current(c) == id && id !in rec.pending
      ensures r == Done ==> On(c) == Slot(Some(id), Some(id))
      ensures works ==> r == Done && OnlySparedPending(c, id, before)
    {
      ghost var made;
      r, made := Mint(c, id, before, works);
      if r == Done { r := PlaceTheCredential(c, id, before, works); }
      if r == Done { r := SettleTheBake(c, id, before, works); }
    }

    // The replaced key is gone, and of what was pending before only what was to be spared
    // is left.
    predicate OnlySparedPending(c: Kind, id: Key, before: Records)
      reads this
    {
      && (before.Current(c) != 0 ==> before.Current(c) !in node && before.Current(c) !in rec.pending)
      && forall k <- rec.pending :: k in before.pending && k in SpareAfter(c, before)
    }

    // Both files, the readable one first.
    method PlaceTheCredential(c: Kind, id: Key, before: Records, works: bool) returns (r: Result)
      requires Valid() && w.task == Minted(c, id, before)
      modifies this
      ensures Follows(old(w), c, old(past), old(acts)) && r != Refused
      ensures r == Done ==> w.task == Placed(c, id, before) && On(c) == Slot(Some(id), Some(id))
      ensures r != Done ==> w.task.Idle?
      ensures works ==> r == Done
    {
      r := WriteTheSidecar(c, id, before, works);
      if r == Done { r := WriteTheMacaroon(c, id, before, works); }
    }

    // The state, and then what the state has made obsolete.
    method SettleTheBake(c: Kind, id: Key, before: Records, works: bool) returns (r: Result)
      requires Valid() && w.task == Placed(c, id, before) && On(c) == Slot(Some(id), Some(id))
      modifies this
      ensures Follows(old(w), c, old(past), old(acts)) && r != Refused && w.task.Idle?
      ensures r == Done ==> rec.Current(c) == id && id !in rec.pending
      ensures On(c) == old(On(c))
      ensures works ==> r == Done && OnlySparedPending(c, id, before)
    {
      ReplacedIsNotSpared(past, acts);
      r := SaveTheBake(c, id, before, works);
      if r == Done { r := SweepAfterBake(c, id, before, works); }
    }

    // The node is asked for the macaroon. It may create the key and still fail; and the
    // caveats are added and the result verified before anything is written.
    method Mint(c: Kind, id: Key, before: Records, works: bool) returns (r: Result, ghost made: bool)
      requires Valid() && w.task == Asked(c, id, before)
      modifies this
      ensures Follows(old(w), c, old(past), old(acts)) && r != Refused
      ensures r == Done ==> w.task == Minted(c, id, before) && made
      ensures made ==> id in node
      ensures rec == old(rec) && id in rec.pending
      ensures r != Done ==> w.task.Idle?
      ensures works ==> r == Done
    {
      BakingIsPending(past, acts);
      var alive, answered;
      alive, answered, made := AskTheNode(c, id, before, works);
      r := Died;
      if alive {
        var verified := Lucky(works);
        r := if answered && verified then Done else Failed;
        if r == Failed { Take(Stop); }
      }
    }

    method AskTheNode(c: Kind, id: Key, before: Records, works: bool)
      returns (alive: bool, answered: bool, ghost made: bool)
      requires Valid() && w.task == Asked(c, id, before)
      modifies this
      ensures Follows(old(w), c, old(past), old(acts)) && rec == old(rec)
      ensures made ==> id in node
      ensures if alive then w.gated == old(w).gated && w.look == old(w).look else w.task.Idle?
      ensures alive ==> w.task == if made then Minted(c, id, before) else Asked(c, id, before)
      ensures alive && answered ==> made
      ensures works ==> alive && answered
    {
      answered, made := false, false;
      alive := Elapse(works);
      if alive {
        var created: bool := *;
        answered := Lucky(works);
        if created || answered {
          node, made := node + {id}, true;
          Take(Action.Mint);
        }
      }
    }

    // The sidecar first, then the macaroon.
    method WriteTheSidecar(c: Kind, id: Key, before: Records, works: bool) returns (r: Result)
      requires Valid() && w.task == Minted(c, id, before)
      modifies this
      ensures Follows(old(w), c, old(past), old(acts)) && r != Refused
      ensures r == Done ==> w.task == Task.Named(c, id, before) && On(c).sidecar == Some(id)
      ensures On(c).file == old(On(c)).file && (r != Done ==> On(c) == old(On(c)))
      ensures works ==> r == Done
      ensures r != Done ==> w.task.Idle?
    {
      r := Died;
      var alive := Elapse(works);
      if alive {
        var wrote := Lucky(works);
        if !wrote {
          Take(Stop);
          r := Failed;
        } else {
          if c == Receive {
            receive := receive.(sidecar := Some(id));
          } else {
            spend := spend.(sidecar := Some(id));
          }
          Take(WriteSidecar);
          r := Done;
        }
      }
    }

    method WriteTheMacaroon(c: Kind, id: Key, before: Records, works: bool) returns (r: Result)
      requires Valid() && w.task == Task.Named(c, id, before) && On(c).sidecar == Some(id)
      modifies this
      ensures Follows(old(w), c, old(past), old(acts)) && r != Refused
      ensures r == Done ==> w.task == Placed(c, id, before) && On(c) == Slot(Some(id), Some(id))
      ensures r != Done ==> On(c) == old(On(c)) && w.task.Idle?
      ensures works ==> r == Done
    {
      r := Died;
      var alive := Elapse(works);
      if alive {
        var wrote := Lucky(works);
        if !wrote {
          Take(Stop);
          r := Failed;
        } else {
          if c == Receive {
            receive := receive.(file := Some(id));
          } else {
            spend := spend.(file := Some(id));
          }
          Take(WriteFile);
          r := Done;
        }
      }
    }

    function SpareAfter(c: Kind, before: Records): seq<Key>
      reads this
    {
      if On(c.Other()).LacksSidecar() then before.pending else receive.Names() + spend.Names()
    }

    // The id becomes current and its predecessor pending, together or not at all.
    method SaveTheBake(c: Kind, id: Key, before: Records, works: bool) returns (r: Result)
      requires Valid() && w.task == Placed(c, id, before)
      modifies this
      ensures Follows(old(w), c, old(past), old(acts)) && r != Refused && On(c) == old(On(c))
      ensures r == Done ==> rec.Current(c) == id && id !in rec.pending
      ensures r == Done && before.Current(c) != 0 ==> before.Current(c) in rec.pending
      ensures r == Done ==> forall k <- before.pending :: k in rec.pending
      ensures r == Done ==> rec == Recorded(old(rec), c, id, before.Current(c))
      ensures r != Done ==> rec == old(rec)
      ensures r == Done ==> w.task == Sweeping(AfterBake(c, id),
                before.pending + [before.Current(c)], [], SpareAfter(c, before))
      ensures r != Done ==> w.task.Idle?
      ensures works ==> r == Done
    {
      r := Died;
      var alive := Elapse(works);
      if alive {
        var saved := Lucky(works);
        if !saved {
          Take(Stop);
          r := Failed;
        } else {
          CommitSettles(past, acts);
          rec := Recorded(rec, c, id, before.Current(c));
          Take(Commit);
          r := Done;
        }
      }
    }

    // A key the bake replaced, which no sweep is told to spare.
    predicate Superseded(c: Kind, id: Key, before: Records)
      reads this
    {
      var previous := before.Current(c);
      previous != 0 && previous != id && previous in issued && previous !in SpareAfter(c, before)
    }

    // The sweep at the end of a bake, and the write that forgets what it saw go.
    method SweepAfterBake(c: Kind, id: Key, before: Records, works: bool) returns (r: Result)
      requires Valid() && w.task == Sweeping(AfterBake(c, id),
                 before.pending + [before.Current(c)], [], SpareAfter(c, before))
      modifies this
      ensures Follows(old(w), c, old(past), old(acts)) && w.task.Idle?
      ensures r == Done || (r == Died && !works)
      ensures On(c) == old(On(c)) && rec == old(rec).(pending := rec.pending)
      ensures forall k <- rec.pending :: k in old(rec).pending
      ensures works ==> forall k <- rec.pending :: k == id || k in old(SpareAfter(c, before))
      ensures works && Superseded(c, id, before) ==> before.Current(c) !in node
      ensures On(c.Other()) == old(On(c.Other()))
    {
      var ids, spare := before.pending + [before.Current(c)], SpareAfter(c, before);
      var kept, alive := SweepSuperseded(c, id, ids, spare, works);
      r := if alive then Done else Died;
      if alive { SaveSwept(c, id, kept, works); }
    }

    method SweepSuperseded(c: Kind, id: Key, ids: seq<Key>, spare: seq<Key>, works: bool)
      returns (kept: seq<Key>, alive: bool)
      requires Valid() && w.task == Sweeping(AfterBake(c, id), ids, [], spare) && ids != []
      modifies this
      ensures Follows(old(w), c, old(past), old(acts))
      ensures rec == old(rec) && receive == old(receive) && spend == old(spend)
      ensures alive ==> w.task == Sweeping(AfterBake(c, id), [], kept, spare)
      ensures if alive then w.gated == old(w).gated && w.look == old(w).look else w.task.Idle?
      ensures works ==> alive && forall k <- kept :: k in spare
      ensures works ==> var last := ids[|ids| - 1];
                last == id || last == 0 || last in spare || (last in issued ==> last !in node)
    {
      ghost var gone;
      kept, alive, gone := SweepPending(ids, id, spare, works);
      if works {
        KeptOfSpared(ids, gone, spare);
        assert GoneFor(ids[|ids| - 1], id) || ids[|ids| - 1] in spare;
      }
    }

    // What was not kept is forgotten, if the state can be saved.
    method SaveSwept(c: Kind, id: Key, kept: seq<Key>, works: bool)
      requires Valid() && w.task.Sweeping? && w.task.why == AfterBake(c, id)
      requires w.task.queue == [] && w.task.kept == kept
      modifies this
      ensures Valid() && old(past) <= past && old(acts) <= acts
      ensures receive == old(receive) && spend == old(spend) && node == old(node)
      ensures w == old(w).(rec := rec, task := Idle)
      ensures rec == old(rec).(pending := rec.pending)
      ensures forall k <- rec.pending :: k in old(rec).pending
      ensures works ==> forall k <- rec.pending :: k == id || k in kept
    {
      var saved := Lucky(works);
      if saved {
        rec := rec.(pending := Keep(rec.pending, k => k == id || k in kept));
        Take(Finish);
      } else {
        Take(Stop);
      }
    }

    // sweepPending: the ids that are still there.
    method SweepPending(ids: seq<Key>, current: Key, spare: seq<Key>, works: bool)
      returns (kept: seq<Key>, alive: bool, ghost gone: seq<bool>)
      requires Valid() && w.task.Sweeping? && w.task.queue == ids && w.task.kept == []
      requires w.task.spare == spare
      requires current == if w.task.why.AfterBake? then w.task.why.id else 0
      modifies this
      ensures Valid() && old(acts) <= acts && old(past) <= past
      ensures rec == old(rec) && receive == old(receive) && spend == old(spend)
      ensures w.issued == old(w.issued) && Shrunk(old(node))
      ensures alive ==> w == old(w).(node := node, task := old(w).task.(queue := [], kept := kept))
      ensures alive ==> |gone| == |ids| && kept == KeptOf(ids, gone, spare)
      ensures alive ==> AllGone(ids, gone, current)
      ensures works ==> alive && forall i :: 0 <= i < |ids| ==> gone[i] || ids[i] in spare
      ensures !alive ==> w.task.Idle? && w.gated == 0 && w.look.NoLook?
    {
      kept, alive, gone := [], true, [];
      ghost var o := w;
      var i := 0;
      while i < |ids|
        invariant 0 <= i <= |ids| && alive
        invariant old(acts) <= acts && old(past) <= past && Shrunk(old(node))
        invariant rec == old(rec) && receive == old(receive) && spend == old(spend)
        invariant Settled(o, ids, i, spare, current, kept, gone)
        invariant works ==> forall j :: 0 <= j < i ==> gone[j] || ids[j] in spare
      {
        kept, alive, gone := SettleNext(o, ids, i, spare, current, kept, gone, works);
        if !alive { return; }
        i := i + 1;
      }
      assert ids[i..] == [] && ids[..i] == ids;
    }

    // The sweep that began in world o, with the first i of its ids settled.
    ghost predicate Settled(
      o: World, ids: seq<Key>, i: nat, spare: seq<Key>, current: Key, kept: seq<Key>, gone: seq<bool>)
      reads this
    {
      && Valid() && o.task.Sweeping? && o.task.spare == spare
      && current == (if o.task.why.AfterBake? then o.task.why.id else 0)
      && i <= |ids| && w == o.(node := node, task := o.task.(queue := ids[i..], kept := kept))
      && |gone| == i && kept == KeptOf(ids[..i], gone, spare) && AllGone(ids, gone, current)
    }

    method SettleNext(ghost o: World, ids: seq<Key>, i: nat, spare: seq<Key>, current: Key,
                      kept: seq<Key>, ghost gone: seq<bool>, works: bool)
      returns (more: seq<Key>, alive: bool, ghost went: seq<bool>)
      requires i < |ids| && Settled(o, ids, i, spare, current, kept, gone)
      modifies this
      ensures Valid() && old(acts) <= acts && old(past) <= past && Shrunk(old(node))
      ensures rec == old(rec) && receive == old(receive) && spend == old(spend)
      ensures w.issued == old(w.issued)
      ensures alive ==> Settled(o, ids, i + 1, spare, current, more, went) && went[..i] == gone
      ensures works ==> alive && (went[i] || ids[i] in spare)
      ensures !alive ==> w.task.Idle? && w.gated == 0 && w.look.NoLook?
    {
      KeptOfNext(ids, i, gone, spare);
      var out: bool;
      out, alive := NextId(ids[i], current, spare, works);
      more := if ids[i] in spare || !out then kept + [ids[i]] else kept;
      went := gone + [out];
    }

    // The next id, whatever has happened since the last.
    method NextId(id: Key, current: Key, spare: seq<Key>, works: bool)
      returns (went: bool, alive: bool)
      requires Valid() && w.task.Sweeping? && w.task.queue != [] && w.task.queue[0] == id
      requires w.task.spare == spare
      requires current == if w.task.why.AfterBake? then w.task.why.id else 0
      modifies this
      ensures Valid() && old(acts) <= acts && old(past) <= past && Shrunk(old(node))
      ensures rec == old(rec) && receive == old(receive) && spend == old(spend)
      ensures w.issued == old(w.issued)
      ensures alive ==> w == old(w).(node := node, task := old(w).task.(
                queue := old(w).task.queue[1..],
                kept := if id in spare || !went then old(w).task.kept + [id] else old(w).task.kept))
      ensures !alive ==> w.task.Idle? && w.gated == 0 && w.look.NoLook?
      ensures alive && went ==> GoneFor(id, current)
      ensures works ==> alive && (went || id in spare)
    {
      went := false;
      alive := Elapse(works);
      if alive {
        went := SettleId(id, current, spare, works);
      }
    }

    // One id: spared, or asked about.
    method SettleId(id: Key, current: Key, spare: seq<Key>, works: bool) returns (went: bool)
      requires Valid() && w.task.Sweeping? && w.task.queue != [] && w.task.queue[0] == id
      requires w.task.spare == spare
      requires current == if w.task.why.AfterBake? then w.task.why.id else 0
      modifies this
      ensures Valid() && old(acts) <= acts && old(past) <= past && Shrunk(old(node))
      ensures rec == old(rec) && receive == old(receive) && spend == old(spend)
      ensures w == old(w).(node := node, task := old(w).task.(
                queue := old(w).task.queue[1..],
                kept := if id in spare || !went then old(w).task.kept + [id] else old(w).task.kept))
      ensures went ==> GoneFor(id, current)
      ensures works ==> went || id in spare
    {
      went := false;
      if id in spare {
        Take(SweepOne(false, false));
      } else {
        went := RevokePrevious(id, current, works);
      }
    }

    ghost predicate AllGone(ids: seq<Key>, gone: seq<bool>, current: Key)
      reads this
    {
      |gone| <= |ids| && forall i :: 0 <= i < |gone| && gone[i] ==> GoneFor(ids[i], current)
    }

    // What the loop takes for gone: zero, the key just baked, or a key of this guard's
    // that is not at the node.
    ghost predicate GoneFor(id: Key, current: Key)
      reads this
    {
      id == 0 || id == current || (id in issued ==> id !in node)
    }

    // revokePrevious: whether the key is gone from the node, which is not the same
    // as this call having deleted it.
    method RevokePrevious(previous: Key, current: Key, works: bool) returns (gone: bool)
      requires Valid() && w.task.Sweeping? && w.task.queue != [] && w.task.queue[0] == previous
      requires previous !in w.task.spare
      requires current == if w.task.why.AfterBake? then w.task.why.id else 0
      modifies this
      ensures Valid() && old(acts) <= acts && old(past) <= past
      ensures rec == old(rec) && receive == old(receive) && spend == old(spend)
      ensures w == old(w).(node := node, task := old(w).task.(
                queue := old(w).task.queue[1..],
                kept := if gone then old(w).task.kept else old(w).task.kept + [previous]))
      ensures gone ==> previous == 0 || previous == current || previous !in node
      ensures node <= old(node) && (works ==> gone)
    {
      var took: bool := *;
      var deleted := Lucky(works);
      gone := previous == 0 || previous == current || deleted;
      if previous != 0 && previous != current && (deleted || took) {
        node := node - {previous};
      }
      Take(SweepOne(deleted, took));
    }

    // ------------------------------------------------------------ ending sending

    // sweepAndForgetSpend: every pending key the node will let go of, sparing what
    // the receive sidecar names, and then one write that forgets the spend
    // credential and drops the latch.
    method SweepAndForgetSpend(lost: bool, works: bool) returns (r: Result)
      requires Valid() && w.look.NoLook?
      requires w.task == Sweeping(Ending(lost), rec.pending, [], receive.Names())
      modifies this
      ensures Valid() && w.look.NoLook? && old(acts) <= acts && old(past) <= past
      ensures w.issued == old(w.issued) && w.gated <= old(w).gated && Shrunk(old(node))
      ensures receive == old(receive) && spend == old(spend) && r != Refused
      ensures r == Done ==> Forgotten(old(rec))
      ensures r == Done ==> w.task == if lost && spend.file.Some? then Removing else Idle
      ensures r != Done ==> w.task.Idle? && rec == old(rec)
      ensures works ==> r == Done && OnlyReceiveNamed()
    {
      r := Died;
      var kept, alive, gone := SweepPending(rec.pending, 0, receive.Names(), works);
      if alive {
        var saved := Lucky(works);
        if saved {
          KeptOfWithin(rec.pending, gone, receive.Names());
          SparedAreKept(rec.pending, gone, receive.Names());
          if works { KeptOfSpared(rec.pending, gone, receive.Names()); }
          rec := rec.(spend := 0, pending := kept, latch := false);
          Take(Finish);
          r := Done;
        } else {
          Take(Stop);
          r := Failed;
        }
      }
    }

    // A sidecar beside its credential names this key.
    predicate NamedBy(s: Slot, k: Key) { s.file.Some? && s.sidecar == Some(k) }

    // Nothing is left pending but what the receive sidecar names.
    predicate OnlyReceiveNamed()
      reads this
    {
      forall k <- rec.pending :: NamedBy(receive, k)
    }

    // Sending forgotten: no spend key, the latch off, and no id pending that was not.
    predicate Forgotten(was: Records)
      reads this
    {
      && rec.spend == 0 && !rec.latch && rec.receive == was.receive
      && (forall k <- rec.pending :: k in was.pending)
      && forall k <- was.pending :: NamedBy(receive, k) ==> k in rec.pending
    }

    // RevokeSpend, the kill switch: the node first, then the file, then the state.
    // Done is never said while the node still honours the recorded key.
    method RevokeSpend(works: bool) returns (r: Result)
      requires Ready()
      modifies this
      ensures Ready() && old(acts) <= acts && old(past) <= past
      ensures w.issued == old(w.issued) && w.gated <= old(w).gated && receive == old(receive)
      ensures r == Done ==> rec.spend == 0 && !rec.latch
      ensures r == Done ==> old(rec).spend == 0 || old(rec).spend !in node
      ensures r == Done && old(rec).spend == 0 ==> spend.file.None?
      ensures rec == old(rec) || Forgotten(old(rec))
      ensures r != Done && old(rec).spend != 0 ==> rec == old(rec)
      ensures works ==> (r == Done <==> old(rec).spend != 0 || old(spend).file.None?)
      ensures works ==> spend.file.None? && rec.spend == 0 && !rec.latch && OnlyReceiveNamed()
    {
      if rec.spend == 0 {
        r := RevokeLostSpend(works);
      } else {
        CurrentIsIssued(past, acts, Spend);
        var took: bool := *;
        var deleted := Lucky(works);
        if !deleted && !took { return Failed; }
        node := node - {rec.spend};
        Take(KillCurrent);
        if !deleted {
          Take(Stop);
          return Failed;
        }
        r := DropSpend(works);
      }
    }

    // The recorded key is gone from the node: the file goes if it will, and sending
    // is forgotten.
    method DropSpend(works: bool) returns (r: Result)
      requires Valid() && w.task.Killed? && w.look.NoLook?
      modifies this
      ensures Ready() && old(acts) <= acts && old(past) <= past
      ensures w.issued == old(w.issued) && w.gated <= old(w).gated && receive == old(receive)
      ensures Shrunk(old(node)) && r != Refused
      ensures if r == Done then Forgotten(old(rec)) else rec == old(rec)
      ensures works ==> r == Done && spend.file.None? && OnlyReceiveNamed()
    {
      r := Died;
      var alive := Elapse(works);
      if alive {
        var removed := Lucky(works);
        if removed { spend := spend.(file := None); }
        Take(RemoveFile(removed));
        r := SweepAndForgetSpend(false, works);
      }
    }

    // Nothing recorded: the sweep still runs, and a file left behind is removed and
    // reported as not revoked at the node.
    method RevokeLostSpend(works: bool) returns (r: Result)
      requires Ready() && rec.spend == 0
      modifies this
      ensures Ready() && old(acts) <= acts && old(past) <= past
      ensures w.issued == old(w.issued) && w.gated <= old(w).gated && receive == old(receive)
      ensures r == Done ==> rec.spend == 0 && !rec.latch && spend.file.None?
      ensures r == Done || r == Failed || r == Died
      ensures rec == old(rec) || Forgotten(old(rec))
      ensures works ==> (r == Done <==> old(spend).file.None?)
      ensures works ==> spend.file.None? && !rec.latch && rec.spend == 0 && OnlyReceiveNamed()
    {
      Take(StartLost);
      r := SweepAndForgetSpend(true, works);
      if r == Done && spend.file.Some? {
        var removed := Lucky(works);
        if removed { spend := spend.(file := None); }
        Take(RemoveLost(removed));
        r := Failed;
      }
    }

    // acceptExternalRevocation, on a fresh read under the bake lock: dropped when the
    // recorded key has moved since the node was asked about it.
    method AcceptExternalRevocation(forgotten: Key, works: bool) returns (r: Result)
      requires Valid() && w.task.Idle? && w.look == Doubts(forgotten)
      modifies this
      ensures Ready() && old(acts) <= acts && old(past) <= past
      ensures w.issued == old(w.issued) && w.gated <= old(w).gated
      ensures r == Refused <==> old(rec).spend != forgotten
      ensures r == Refused ==> rec == old(rec)
      ensures r == Done ==> rec.spend == 0 && !rec.latch
      ensures rec.latch ==> rec == old(rec)
      ensures works && r != Refused ==> r == Done && spend.file.None? && OnlyReceiveNamed()
    {
      Take(Accept);
      if rec.spend != forgotten { return Refused; }
      r := DropSpend(works);
    }

    // ------------------------------------------------------------ entry points

    // The permission check of BakeSpend, read before the bake lock is taken.
    predicate SendingPermitted()
      reads this
    {
      allowSending && rec.latch
    }

    method BakeSpend(young: bool, conforms: bool, randoms: seq<Key>, works: bool)
      returns (r: Result)
      requires Ready() && Drawn(randoms, w.issued)
      modifies this
      ensures Ready() && old(acts) <= acts && old(past) <= past && rec.latch == old(rec).latch
      ensures w.gated <= old(w).gated
      ensures !allowSending || !old(rec).latch ==> r == Refused && rec == old(rec) && spend == old(spend)
      ensures !allowSending || !old(rec).latch ==> SpendIds(w) == SpendIds(old(w)) && node == old(node)
      ensures works && allowSending && old(rec).latch ==>
                r == if young && conforms && old(rec).spend in old(node) then Refused
                     else if exists r <- randoms :: NeverZero(r) !in old(node) then Done
                     else Failed
      ensures r == Done ==> rec.spend !in old(w).issued && spend == Slot(Some(rec.spend), Some(rec.spend))
    {
      if !SendingPermitted() { return Refused; }
      Take(ReadGate);
      r := Bake(Spend, young, conforms, randoms, works);
    }

    // EnsureSpendMacaroon, one renewal tick. `obsolete` is a spend file with no guard
    // caveat; `conforms` says the file needs no baking.
    method EnsureSpendMacaroon(
      obsolete: bool, young: bool, conforms: bool, randoms: seq<Key>, works: bool)
      returns (r: Result)
      requires Ready() && Drawn(randoms, w.issued)
      modifies this
      ensures Ready() && old(acts) <= acts && old(past) <= past
      ensures w.gated <= old(w).gated && (rec.latch ==> old(rec).latch)
      ensures !allowSending || !old(rec).latch ==> SpendIds(w) == SpendIds(old(w))
      ensures !obsolete && old(rec).spend == 0 ==> r == Done && rec == old(rec)
      ensures !obsolete && (!allowSending || !old(rec).latch) ==> rec == old(rec) && spend == old(spend)
      ensures obsolete && (!allowSending || !old(rec).latch) && r == Done ==> Revoked(old(rec))
      ensures works && allowSending && old(rec).latch && old(rec).spend != 0 ==>
                Renewed(old(w), obsolete, young, conforms, randoms, r)
    {
      if obsolete {
        r := ReplaceOrRevokeObsolete(young, randoms, works);
        return;
      }
      if rec.spend == 0 { return Done; }
      if !SendingPermitted() { return Refused; }
      Take(ReadGate);
      r := RenewSpend(young, conforms, randoms, works);
    }

    // Sending is forgotten, and the key that was recorded is not at the node.
    predicate Revoked(was: Records)
      reads this
    {
      rec.spend == 0 && !rec.latch && (was.spend == 0 || was.spend !in node)
    }

    // What a tick that is permitted to send comes to when nothing fails: a new credential
    // for one that needs it, nothing for one that does not, and sending ended when the node
    // has dropped its key.
    ghost predicate Renewed(
      was: World, obsolete: bool, young: bool, conforms: bool, randoms: seq<Key>, r: Result)
      reads this
    {
      var free := exists r <- randoms :: NeverZero(r) !in was.node;
      if !obsolete && was.rec.spend !in was.node then
        r == Done && rec.spend == 0 && !rec.latch && spend.file.None?
      else if !obsolete && conforms then r == Done && rec == was.rec && spend == was.spend
      else if free then
        && r == Done && rec.latch && rec.spend !in was.issued
        && spend == Slot(Some(rec.spend), Some(rec.spend))
      else r == Failed
    }

    // A spend file with no guard caveat: baked again if sending is permitted, and ended if
    // it is not.
    method ReplaceOrRevokeObsolete(young: bool, randoms: seq<Key>, works: bool) returns (r: Result)
      requires Ready() && Drawn(randoms, w.issued)
      modifies this
      ensures Ready() && old(acts) <= acts && old(past) <= past
      ensures w.gated <= old(w).gated && (rec.latch ==> old(rec).latch)
      ensures !allowSending || !old(rec).latch ==> SpendIds(w) == SpendIds(old(w))
      ensures (!allowSending || !old(rec).latch) && r == Done ==> Revoked(old(rec))
      ensures works && (!allowSending || !old(rec).latch) ==> rec.spend == 0 && spend.file.None?
      ensures works && allowSending && old(rec).latch ==>
                Renewed(old(w), true, young, false, randoms, r)
    {
      if SendingPermitted() {
        Take(ReadGate);
        r := Bake(Spend, young, false, randoms, works);
      } else {
        r := RevokeSpend(works);
      }
    }

    // The rest of a tick that sending was permitted for: the node is asked whether it
    // still has the key, and the credential is baked when it needs it.
    method RenewSpend(young: bool, conforms: bool, randoms: seq<Key>, works: bool)
      returns (r: Result)
      requires Ready() && Drawn(randoms, w.issued) && w.gated > 0 && rec.spend != 0 && rec.latch
      requires allowSending
      modifies this
      ensures Ready() && old(acts) <= acts && old(past) <= past
      ensures w.gated <= old(w).gated - 1
      ensures works ==> Renewed(old(w), false, young, conforms, randoms, r)
    {
      Take(Look);
      var listed := Lucky(works);
      if listed && rec.spend !in node {
        Take(Notice);
        Take(LeaveGate);
        r := AcceptExternalRevocation(rec.spend, works);
      } else {
        Take(Unlook);
        if conforms {
          Take(LeaveGate);
          r := Done;
        } else {
          r := Bake(Spend, young, conforms, randoms, works);
        }
      }
    }

    // sweepOrphans: nothing while a credential on disk has no sidecar.
    method SweepOrphans(works: bool) returns (r: Result)
      requires Ready()
      modifies this
      ensures Ready() && old(acts) <= acts && old(past) <= past
      ensures receive == old(receive) && spend == old(spend) && w.issued == old(w.issued)
      ensures rec == old(rec).(pending := rec.pending)
      ensures forall k <- rec.pending :: k in old(rec).pending
      ensures r == Refused ==> rec == old(rec) && node == old(node)
      ensures r == Refused <==>
                || old(rec).pending == [] || (receive.file.Some? && receive.sidecar.None?)
                || (spend.file.Some? && spend.sidecar.None?)
      ensures works && r != Refused ==>
                forall k <- rec.pending :: NamedBy(receive, k) || NamedBy(spend, k) || k in {rec.receive, rec.spend}
      ensures forall k <- old(rec).pending :: NamedBy(receive, k) || NamedBy(spend, k) ==> k in rec.pending
    {
      if rec.pending == [] || receive.LacksSidecar() || spend.LacksSidecar() { return Refused; }
      var spare := [rec.receive, rec.spend] + (receive.Names() + spend.Names());
      var swept := rec.pending;
      Take(StartOrphans);
      var kept, alive, gone := SweepPending(swept, 0, spare, works);
      r := Died;
      if alive {
        if works { KeptOfSpared(swept, gone, spare); }
        SparedAreKept(swept, gone, spare);
        SaveOrphans(swept, kept, works);
        r := Done;
      }
    }

    // What was swept and not kept is forgotten, if the state can be saved.
    method SaveOrphans(swept: seq<Key>, kept: seq<Key>, works: bool)
      requires Valid() && w.look.NoLook? && w.task.Sweeping? && w.task.why == Orphans
      requires w.task.queue == [] && w.task.kept == kept && swept == rec.pending
      modifies this
      ensures Ready() && old(acts) <= acts && old(past) <= past
      ensures receive == old(receive) && spend == old(spend) && w.issued == old(w.issued)
      ensures rec == old(rec).(pending := rec.pending)
      ensures forall k <- rec.pending :: k in old(rec).pending
      ensures works ==> forall k <- rec.pending :: k in kept
      ensures forall k <- old(rec).pending :: k in kept ==> k in rec.pending
    {
      var saved := Lucky(works);
      if saved {
        rec := rec.(pending := Keep(rec.pending, k => !(k in swept && k !in kept)));
        SweptAreAllPending(swept, kept);
        Take(Finish);
      } else {
        Take(Stop);
      }
    }
  }

  // The update removes what was swept and not kept; what was swept is the whole set.
  lemma SweptAreAllPending(swept: seq<Key>, kept: seq<Key>)
    ensures Keep(swept, k => !(k in swept && k !in kept)) == Keep(swept, k => k in kept)
  {
    KeepAgrees(swept, k => !(k in swept && k !in kept), k => k in kept);
  }

  lemma KeepAgrees(s: seq<Key>, p: Key -> bool, q: Key -> bool)
    requires forall k <- s :: p(k) == q(k)
    ensures Keep(s, p) == Keep(s, q)
  {}
}

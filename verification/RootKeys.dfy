// The root-key protocol of internal/guard: four stores that fail on their own -
// the node's key set, the guard's state file, each credential file and the
// sidecar beside it - and the atomic steps that bake, sweep and revoke take over
// them. A crash or an error return may fall between any two steps.
module RootKeys {
  import opened Wrappers

  // A uint64 root key id. Zero is "none recorded", and LND's own default key.
  type Key = k: int | 0 <= k < 0x1_0000_0000_0000_0000

  datatype Kind = Receive | Spend {
    function Other(): Kind { if this == Receive then Spend else Receive }
  }

  // What the guard's state file says about keys, plus the operator's latch.
  datatype Records = Records(receive: Key, spend: Key, pending: seq<Key>, latch: bool) {
    function Current(c: Kind): Key { if c == Receive then receive else spend }

    function WithCurrent(c: Kind, id: Key): Records {
      if c == Receive then this.(receive := id) else this.(spend := id)
    }
  }

  // One credential on disk. `file` holds the key the macaroon was baked under,
  // which the guard itself cannot read back; `sidecar` is what the readable file
  // beside it names, None when it is missing or unreadable.
  datatype Slot = Slot(file: Option<Key>, sidecar: Option<Key>) {
    // A sidecar counts only beside its credential.
    function Names(): seq<Key> {
      if file.Some? && sidecar.Some? then [sidecar.value] else []
    }

    predicate LacksSidecar() { file.Some? && sidecar.None? }
  }

  // Why a sweep is running: at the end of a bake, unattended, or because sending ends.
  datatype Why = AfterBake(kind: Kind, id: Key) | Orphans | Ending(lost: bool)

  // What the holder of the bake lock is doing, with the locals it carries.
  datatype Task =
    | Idle
    | Asked(kind: Kind, id: Key, before: Records)
    | Minted(kind: Kind, id: Key, before: Records)
    | Named(kind: Kind, id: Key, before: Records)
    | Placed(kind: Kind, id: Key, before: Records)
    | Killed
    | Sweeping(why: Why, queue: seq<Key>, kept: seq<Key>, spare: seq<Key>)
    | Removing

  // The renewal loop's own snapshot, taken without the bake lock.
  datatype Look = NoLook | Looked(key: Key) | Doubts(key: Key)

  // `issued` remembers every id the guard ever chose and for which credential;
  // `gated` counts spend bakes past the permission check but not yet under the
  // lock; `torn` records that a bake stopped between its sidecar and its macaroon
  // while the file on disk was known to nothing but that sidecar.
  datatype World = World(
    node: set<Key>, issued: map<Key, Kind>, rec: Records, receive: Slot, spend: Slot,
    task: Task, gated: nat, look: Look, torn: bool)
  {
    function On(c: Kind): Slot { if c == Receive then receive else spend }

    function WithSlot(c: Kind, s: Slot): World {
      if c == Receive then this.(receive := s) else this.(spend := s)
    }

    // The keys both sidecars name, which the sweeps spare.
    function Named(): seq<Key> { receive.Names() + spend.Names() }
  }

  datatype Action =
    | ReadGate
    | LeaveGate
    | SetLatch(on: bool)
    | StartBake(kind: Kind, id: Key)
    | Mint
    | WriteSidecar
    | WriteFile
    | Commit
    | StartOrphans
    | StartLost
    | KillCurrent
    | RemoveFile(ok: bool)
    | SweepOne(answered: bool, took: bool)
    | Finish
    | RemoveLost(ok: bool)
    | Look
    | Notice
    | Accept
    | Unlook
    | Stop
    | Crash
    | Elsewhere(gone: set<Key>, added: set<Key>)

  predicate Fresh(w: World, id: Key) {
    id != 0 && id !in w.node && id !in w.issued
  }

  predicate Can(w: World, a: Action) {
    match a
    case ReadGate => w.rec.latch
    case LeaveGate => w.gated > 0
    case SetLatch(_) => w.task.Idle?
    case StartBake(c, id) => w.task.Idle? && Fresh(w, id) && (c == Spend ==> w.gated > 0)
    case Mint => w.task.Asked?
    case WriteSidecar => w.task.Minted?
    case WriteFile => w.task.Named?
    case Commit => w.task.Placed?
    case StartOrphans =>
      w.task.Idle? && w.rec.pending != [] && !w.receive.LacksSidecar() && !w.spend.LacksSidecar()
    case StartLost => w.task.Idle? && w.rec.spend == 0
    case KillCurrent => w.task.Idle? && w.rec.spend != 0
    case RemoveFile(_) => w.task.Killed?
    case SweepOne(_, _) => w.task.Sweeping? && w.task.queue != []
    case Finish => w.task.Sweeping? && w.task.queue == []
    case RemoveLost(_) => w.task.Removing?
    case Look => w.look.NoLook? && w.rec.spend != 0 && w.rec.latch
    case Notice => w.look.Looked? && w.look.key !in w.node
    case Accept => w.look.Doubts? && w.task.Idle?
    case Unlook => !w.look.NoLook?
    case Stop => !w.task.Idle?
    case Crash => true
    case Elsewhere(gone, added) => added !! w.issued.Keys
  }

  // The keys of s that satisfy p, in order: slices.DeleteFunc with the test reversed.
  function Keep(s: seq<Key>, p: Key -> bool): (r: seq<Key>)
    ensures forall k :: k in r <==> k in s && p(k)
  {
    if s == [] then [] else (if p(s[0]) then [s[0]] else []) + Keep(s[1..], p)
  }

  // The state write that ends a bake: the new key becomes current, the one it
  // replaces becomes pending, and the new key is never left pending.
  function Recorded(rec: Records, c: Kind, id: Key, previous: Key): Records {
    var pending := if previous != 0 && previous != id && previous !in rec.pending
                   then rec.pending + [previous] else rec.pending;
    rec.WithCurrent(c, id).(pending := Keep(pending, k => k != id))
  }

  // What a bake's own sweep spares: what the sidecars name, or everything that was
  // pending before when the other credential has no sidecar to name its key.
  function BakeSpares(w: World, c: Kind, before: Records): seq<Key> {
    if w.On(c.Other()).LacksSidecar() then before.pending else w.Named()
  }

  // A key whose fate a sweep settles without asking the node.
  predicate Untouched(t: Task, k: Key)
    requires t.Sweeping?
  {
    k == 0 || (t.why.AfterBake? && k == t.why.id)
  }

  // The last state write of a sweep.
  function Swept(rec: Records, why: Why, kept: seq<Key>): Records {
    match why
    case AfterBake(_, id) => rec.(pending := Keep(rec.pending, k => k == id || k in kept))
    case Orphans => rec.(pending := Keep(rec.pending, k => k in kept))
    case Ending(_) => rec.(spend := 0, pending := kept, latch := false)
  }

  function EndTask(w: World): World {
    w.(task := Idle,
       torn := w.torn || (w.task.Named? && w.On(w.task.kind).file.Some? &&
                          w.On(w.task.kind).file.value in w.rec.pending))
  }

  function Do(w: World, a: Action): World
    requires Can(w, a)
  {
    match a
    case ReadGate => w.(gated := w.gated + 1)
    case LeaveGate => w.(gated := w.gated - 1)
    case SetLatch(on) => w.(rec := w.rec.(latch := on))
    case StartBake(c, id) =>
      w.(gated := if c == Spend then w.gated - 1 else w.gated,
         issued := w.issued[id := c],
         rec := w.rec.(pending := w.rec.pending + [id]),
         task := Asked(c, id, w.rec))
    case Mint =>
      w.(node := w.node + {w.task.id}, task := Minted(w.task.kind, w.task.id, w.task.before))
    case WriteSidecar =>
      var t := w.task;
      w.WithSlot(t.kind, w.On(t.kind).(sidecar := Some(t.id))).(
        task := Task.Named(t.kind, t.id, t.before))
    case WriteFile =>
      var t := w.task;
      w.WithSlot(t.kind, w.On(t.kind).(file := Some(t.id))).(task := Placed(t.kind, t.id, t.before))
    case Commit =>
      var t := w.task;
      var previous := t.before.Current(t.kind);
      w.(rec := Recorded(w.rec, t.kind, t.id, previous),
         task := Sweeping(AfterBake(t.kind, t.id), t.before.pending + [previous], [],
                          BakeSpares(w, t.kind, t.before)))
    case StartOrphans =>
      w.(task := Sweeping(Orphans, w.rec.pending, [], [w.rec.receive, w.rec.spend] + w.Named()))
    case StartLost => w.(task := Sweeping(Ending(true), w.rec.pending, [], w.receive.Names()))
    case KillCurrent => w.(node := w.node - {w.rec.spend}, task := Killed)
    case RemoveFile(ok) =>
      w.(spend := if ok then w.spend.(file := None) else w.spend,
         task := Sweeping(Ending(false), w.rec.pending, [], w.receive.Names()))
    case SweepOne(answered, took) =>
      var t := w.task;
      var k := t.queue[0];
      if k in t.spare then
        w.(task := t.(queue := t.queue[1..], kept := t.kept + [k]))
      else if Untouched(t, k) then
        w.(task := t.(queue := t.queue[1..]))
      else if answered then
        w.(node := w.node - {k}, task := t.(queue := t.queue[1..]))
      else
        w.(node := if took then w.node - {k} else w.node,
           task := t.(queue := t.queue[1..], kept := t.kept + [k]))
    case Finish =>
      var t := w.task;
      w.(rec := Swept(w.rec, t.why, t.kept),
         task := if t.why == Ending(true) && w.spend.file.Some? then Removing else Idle)
    case RemoveLost(ok) =>
      w.(spend := if ok then w.spend.(file := None) else w.spend, task := Idle)
    case Look => w.(look := Looked(w.rec.spend))
    case Notice => w.(look := Doubts(w.look.key))
    case Accept => w.(look := NoLook, task := if w.rec.spend == w.look.key then Killed else Idle)
    case Unlook => w.(look := NoLook)
    case Stop => EndTask(w)
    case Crash => EndTask(w).(gated := 0, look := NoLook)
    case Elsewhere(gone, added) => w.(node := w.node - gone + added)
  }

  predicate Step(u: World, a: Action, v: World) { Can(u, a) && v == Do(u, a) }

  // A run: the worlds passed through, and the step between each and the next.
  predicate Run(ws: seq<World>, acts: seq<Action>) {
    |ws| == |acts| + 1 && forall i :: 0 <= i < |acts| ==> Step(ws[i], acts[i], ws[i + 1])
  }

  // ---------------------------------------------------------------- invariants

  // Every key this guard chose and the node honours is named by the guard.
  predicate NoLostKey(w: World) {
    forall k <- w.issued :: k in w.node ==>
      k in w.rec.pending || k == w.rec.receive || k == w.rec.spend
  }

  // Each id on record is one the guard chose, for the credential it is recorded under.
  predicate Owned(w: World) {
    && 0 !in w.issued
    && (forall k <- w.rec.pending :: k in w.issued)
    && OwnedBy(w, Receive) && OwnedBy(w, Spend)
  }

  predicate IsOurs(w: World, c: Kind, k: Key) { k in w.issued && w.issued[k] == c }

  predicate OwnedBy(w: World, c: Kind) {
    && (w.rec.Current(c) != 0 ==> IsOurs(w, c, w.rec.Current(c)))
    && (w.On(c).file.Some? && w.On(c).file.value != 0 ==> IsOurs(w, c, w.On(c).file.value))
    && (w.On(c).sidecar.Some? ==> IsOurs(w, c, w.On(c).sidecar.value))
    && w.rec.Current(c) !in w.rec.pending
  }

  // A pending key that a file on disk was baked under is the one its sidecar names.
  predicate FileNamed(w: World, c: Kind) {
    var s := w.On(c);
    s.file.Some? && s.sidecar.Some? && s.file.value in w.rec.pending ==>
      s.sidecar.value == s.file.value
  }

  predicate FilesNamed(w: World) {
    && ((w.task.Named? && w.task.kind == Receive) || FileNamed(w, Receive))
    && ((w.task.Named? && w.task.kind == Spend) || FileNamed(w, Spend))
  }

  predicate Baking(t: Task) { t.Asked? || t.Minted? || t.Named? || t.Placed? }

  predicate BakeInv(w: World)
    requires Baking(w.task)
  {
    var t := w.task;
    && IsOurs(w, t.kind, t.id)
    && w.rec == t.before.(pending := t.before.pending + [t.id])
    && t.id !in t.before.pending
    && t.id != t.before.receive && t.id != t.before.spend
    && (!t.Placed? ==> w.On(t.kind).file != Some(t.id))
    && (t.Named? || t.Placed? ==> w.On(t.kind).sidecar == Some(t.id))
    && (t.Placed? ==> w.On(t.kind).file == Some(t.id))
  }

  // What a sweep may still delete is not the key of a file on disk.
  predicate Avoids(w: World, c: Kind)
    requires w.task.Sweeping?
  {
    var f := w.On(c).file;
    f.None? || f.value == 0 || f.value !in w.task.queue || f.value in w.task.spare
  }

  // The sweeps that end sending may take the spend credential's own key, and the
  // receive credential's only when no sidecar names it.
  predicate AvoidsFiles(w: World)
    requires w.task.Sweeping?
  {
    && (Avoids(w, Receive) || (w.task.why.Ending? && w.receive.LacksSidecar()))
    && (Avoids(w, Spend) || w.task.why.Ending?)
  }

  predicate SweepInv(w: World)
    requires w.task.Sweeping?
  {
    var t := w.task;
    && (forall p <- w.rec.pending :: p in t.queue || p in t.kept || p !in w.node)
    && (t.why.AfterBake? ==> t.why.id != 0 && w.rec.Current(t.why.kind) == t.why.id)
    && (t.why.Ending? ==>
          && (forall q <- t.queue :: q in w.rec.pending)
          && (forall q <- t.kept :: q in w.rec.pending)
          && t.spare == w.receive.Names()
          && w.rec.spend !in w.node * w.issued.Keys)
    && (!w.torn ==> AvoidsFiles(w))
  }

  predicate TaskInv(w: World) {
    && (Baking(w.task) ==> BakeInv(w))
    && (w.task.Sweeping? ==> SweepInv(w))
    && (w.task.Killed? ==> w.rec.spend != 0 && w.rec.spend !in w.node)
  }

  predicate LookInv(w: World) {
    && (!w.look.NoLook? ==> w.look.key in w.issued)
    && (!w.look.NoLook? && w.task.Asked? ==> w.look.key != w.task.id)
    && (w.look.Doubts? ==> w.look.key !in w.node)
  }

  predicate Inv(w: World) {
    NoLostKey(w) && Owned(w) && TaskInv(w) && LookInv(w) && (!w.torn ==> FilesNamed(w))
  }

  // ------------------------------------------------------------ steps keep them

  lemma NewIdKeepsOwners(w: World, c: Kind, id: Key, d: Kind)
    requires Can(w, StartBake(c, id)) && OwnedBy(w, d)
    ensures OwnedBy(Do(w, StartBake(c, id)), d)
    ensures FileNamed(w, d) ==> FileNamed(Do(w, StartBake(c, id)), d)
  {}

  lemma BakeStartsWell(w: World, c: Kind, id: Key)
    requires Inv(w) && Can(w, StartBake(c, id))
    ensures Inv(Do(w, StartBake(c, id)))
  {
    var v := Do(w, StartBake(c, id));
    NewIdKeepsOwners(w, c, id, Receive);
    NewIdKeepsOwners(w, c, id, Spend);
    assert v.node == w.node && v.look == w.look;
    assert OwnedBy(w, Receive) && OwnedBy(w, Spend);
    assert BakeInv(v);
  }

  // A step that leaves the records and both credentials as they were, and brings no key
  // of this guard back to the node.
  predicate OnlyTaskMoved(u: World, v: World) {
    && v.rec == u.rec && v.receive == u.receive && v.spend == u.spend
    && v.issued == u.issued && v.torn == u.torn && v.look == u.look
    && forall k <- u.issued :: k in v.node ==> k in u.node
  }

  lemma RecordsStand(u: World, v: World)
    requires Inv(u) && OnlyTaskMoved(u, v)
    ensures NoLostKey(v) && Owned(v)
    ensures !u.task.Named? && !v.torn ==> FilesNamed(v)
  {}

  lemma MintKeepsInv(w: World)
    requires Inv(w) && Can(w, Mint)
    ensures Inv(Do(w, Mint))
  {
    var v := Do(w, Mint);
    assert NoLostKey(v) && Owned(v) && LookInv(v) && FilesNamed(w) == FilesNamed(v);
  }

  lemma SidecarKeepsOwners(w: World, c: Kind)
    requires Inv(w) && Can(w, WriteSidecar)
    ensures OwnedBy(Do(w, WriteSidecar), c)
    ensures !w.torn && c != w.task.kind ==> FileNamed(Do(w, WriteSidecar), c)
  {
    assert OwnedBy(w, c) && BakeInv(w);
  }

  lemma SidecarKeepsInv(w: World)
    requires Inv(w) && Can(w, WriteSidecar)
    ensures Inv(Do(w, WriteSidecar))
  {
    var v := Do(w, WriteSidecar);
    SidecarKeepsOwners(w, Receive);
    SidecarKeepsOwners(w, Spend);
    assert v.node == w.node && v.rec == w.rec && v.issued == w.issued && v.look == w.look;
    assert BakeInv(v);
  }

  lemma MacaroonKeepsOwners(w: World, c: Kind)
    requires Can(w, WriteFile) && BakeInv(w) && OwnedBy(w, c)
    requires !w.torn && c != w.task.kind ==> FileNamed(w, c)
    ensures OwnedBy(Do(w, WriteFile), c)
    ensures !w.torn ==> FileNamed(Do(w, WriteFile), c)
  {
    if c != w.task.kind { assert Do(w, WriteFile).On(c) == w.On(c); }
  }

  lemma MacaroonKeepsInv(w: World)
    requires Inv(w) && Can(w, WriteFile)
    ensures Inv(Do(w, WriteFile))
  {
    var v := Do(w, WriteFile);
    MacaroonKeepsOwners(w, Receive);
    MacaroonKeepsOwners(w, Spend);
    assert v.node == w.node && v.rec == w.rec && v.issued == w.issued && v.look == w.look;
    assert BakeInv(v);
  }

  lemma CommitNames(w: World)
    requires Inv(w) && Can(w, Commit)
    ensures var v := Do(w, Commit);
            && (forall p :: p in v.rec.pending <==>
                 p in w.task.before.pending ||
                 (p != 0 && p == w.task.before.Current(w.task.kind)))
            && v.rec.Current(w.task.kind) == w.task.id
            && v.rec.Current(w.task.kind.Other()) == w.task.before.Current(w.task.kind.Other())
  {}

  lemma CommitKeepsOwn(w: World)
    requires Inv(w) && Can(w, Commit)
    ensures var v, c := Do(w, Commit), w.task.kind; OwnedBy(v, c) && FileNamed(v, c)
  {
    CommitNames(w);
    assert BakeInv(w) && OwnedBy(w, w.task.kind);
  }

  lemma CommitKeepsOther(w: World)
    requires Inv(w) && Can(w, Commit)
    ensures var v, c := Do(w, Commit), w.task.kind.Other();
            OwnedBy(v, c) && (!w.torn ==> FileNamed(v, c))
  {
    CommitNames(w);
    assert BakeInv(w) && OwnedBy(w, w.task.kind) && OwnedBy(w, w.task.kind.Other());
  }

  lemma CommitKeepsOwners(w: World, c: Kind)
    requires Inv(w) && Can(w, Commit)
    ensures OwnedBy(Do(w, Commit), c) && (!w.torn ==> FileNamed(Do(w, Commit), c))
  {
    CommitKeepsOwn(w);
    CommitKeepsOther(w);
  }

  lemma CommitKeepsNames(w: World)
    requires Inv(w) && Can(w, Commit)
    ensures var v := Do(w, Commit);
            NoLostKey(v) && Owned(v) && LookInv(v) && (!v.torn ==> FilesNamed(v))
  {
    CommitNames(w);
    CommitKeepsOwners(w, Receive);
    CommitKeepsOwners(w, Spend);
    assert OwnedBy(w, w.task.kind);
  }

  lemma CommitKeepsSweep(w: World)
    requires Inv(w) && Can(w, Commit)
    ensures SweepInv(Do(w, Commit))
  {
    CommitNames(w);
    var v, t := Do(w, Commit), w.task;
    assert OwnedBy(w, t.kind) && OwnedBy(w, t.kind.Other());
    if !w.torn {
      assert FileNamed(w, t.kind.Other());
      assert Avoids(v, t.kind) && Avoids(v, t.kind.Other());
    }
  }

  lemma OrphansStartWell(w: World)
    requires Inv(w) && Can(w, StartOrphans)
    ensures Inv(Do(w, StartOrphans))
  {
    var v := Do(w, StartOrphans);
    RecordsStand(w, v);
    assert !w.torn ==> FileNamed(w, Receive) && FileNamed(w, Spend);
    assert !w.torn ==> Avoids(v, Receive) && Avoids(v, Spend);
  }

  lemma LostStartsWell(w: World)
    requires Inv(w) && Can(w, StartLost)
    ensures Inv(Do(w, StartLost))
  {
    var v := Do(w, StartLost);
    RecordsStand(w, v);
    assert !w.torn ==> FileNamed(w, Receive);
  }

  lemma RemovalKeepsInv(w: World, ok: bool)
    requires Inv(w) && Can(w, RemoveFile(ok))
    ensures Inv(Do(w, RemoveFile(ok)))
  {
    var v := Do(w, RemoveFile(ok));
    assert OwnedBy(w, Receive) && OwnedBy(w, Spend);
    assert NoLostKey(v) && Owned(v) && LookInv(v);
    assert !w.torn ==> FileNamed(w, Receive) && FileNamed(w, Spend);
  }

  lemma SweepOneKeepsAccount(w: World, a: Action)
    requires Can(w, a) && a.SweepOne?
    requires w.task.why.AfterBake? ==> w.task.why.id !in w.rec.pending
    requires 0 !in w.rec.pending
    requires forall p <- w.rec.pending :: p in w.task.queue || p in w.task.kept || p !in w.node
    ensures var v := Do(w, a);
            forall p <- v.rec.pending :: p in v.task.queue || p in v.task.kept || p !in v.node
  {
    var v, t := Do(w, a), w.task;
    assert t.queue == [t.queue[0]] + v.task.queue;
    forall p <- v.rec.pending ensures p in v.task.queue || p in v.task.kept || p !in v.node {
      assert p in t.queue || p in t.kept || p !in w.node;
    }
  }

  lemma SweepOneKeepsFiles(w: World, a: Action)
    requires Inv(w) && Can(w, a) && a.SweepOne? && !w.torn
    ensures AvoidsFiles(Do(w, a))
  {
    var v, t := Do(w, a), w.task;
    assert t.queue == [t.queue[0]] + v.task.queue;
    assert AvoidsFiles(w);
  }

  lemma SweepOneKeepsQueue(w: World, a: Action)
    requires Inv(w) && Can(w, a) && a.SweepOne?
    ensures var v := Do(w, a);
            && v.task.Sweeping? && v.task.why == w.task.why && v.task.spare == w.task.spare
            && v.node <= w.node && OnlyTaskMoved(w, v) && v.gated == w.gated
            && (forall q <- v.task.queue :: q in w.task.queue)
            && (forall q <- v.task.kept :: q in w.task.kept || q in w.task.queue)
  {
    var t := w.task;
    assert t.queue == [t.queue[0]] + t.queue[1..];
  }

  lemma SweepOneKeepsInv(w: World, a: Action)
    requires Inv(w) && Can(w, a) && a.SweepOne?
    ensures Inv(Do(w, a))
  {
    var v := Do(w, a);
    SweepOneKeepsQueue(w, a);
    assert OwnedBy(w, Receive) && OwnedBy(w, Spend) && SweepInv(w);
    SweepOneKeepsAccount(w, a);
    if !w.torn { SweepOneKeepsFiles(w, a); }
    RecordsStand(w, v);
    assert SweepInv(w);
  }

  // What the last write of a sweep leaves pending was pending, and every key it forgets is
  // gone from the node or current.
  lemma FinishForgetsTheGone(w: World)
    requires Inv(w) && Can(w, Finish)
    ensures NoLostKey(Do(w, Finish))
    ensures forall p <- Do(w, Finish).rec.pending :: p in w.rec.pending
  {
    assert SweepInv(w);
  }

  lemma FinishKeepsInv(w: World)
    requires Inv(w) && Can(w, Finish)
    ensures Inv(Do(w, Finish))
  {
    var v := Do(w, Finish);
    FinishForgetsTheGone(w);
    assert OwnedBy(w, Receive) && OwnedBy(w, Spend);
    assert v.receive == w.receive && v.spend == w.spend && v.issued == w.issued;
    assert OwnedBy(v, Receive) && OwnedBy(v, Spend);
    assert !w.torn ==> FileNamed(w, Receive) && FileNamed(w, Spend);
  }

  lemma StopKeepsInv(w: World, a: Action)
    requires Inv(w) && Can(w, a) && (a.Stop? || a.Crash?)
    ensures Inv(Do(w, a))
  {}

  lemma ElsewhereKeepsInv(w: World, a: Action)
    requires Inv(w) && Can(w, a) && a.Elsewhere?
    ensures Inv(Do(w, a))
  {
    var v := Do(w, a);
    assert forall k <- w.issued :: k in v.node ==> k in w.node;
  }

  lemma LockFreeStepsLookWell(w: World, a: Action)
    requires Inv(w) && Can(w, a)
    requires a.ReadGate? || a.LeaveGate? || a.Look? || a.Notice? || a.Unlook?
    ensures LookInv(Do(w, a))
  {
    assert OwnedBy(w, Spend);
  }

  // Nothing else depends on the gate or on the renewal loop's own snapshot.
  lemma GateAndLookStandApart(u: World, v: World)
    requires Inv(u) && v == u.(gated := v.gated, look := v.look) && LookInv(v)
    ensures Inv(v)
  {
    assert NoLostKey(v) && OwnedBy(v, Receive) == OwnedBy(u, Receive);
    assert OwnedBy(v, Spend) == OwnedBy(u, Spend) && FilesNamed(v) == FilesNamed(u);
    assert Baking(u.task) ==> BakeInv(v);
    assert u.task.Sweeping? ==> SweepInv(v);
  }

  lemma LockFreeStepsKeepInv(w: World, a: Action)
    requires Inv(w) && Can(w, a)
    requires a.ReadGate? || a.LeaveGate? || a.Look? || a.Notice? || a.Unlook?
    ensures Inv(Do(w, a))
  {
    LockFreeStepsLookWell(w, a);
    GateAndLookStandApart(w, Do(w, a));
  }

  lemma LatchKeepsInv(w: World, on: bool)
    requires Inv(w) && Can(w, SetLatch(on))
    ensures Inv(Do(w, SetLatch(on)))
  {
    var v := Do(w, SetLatch(on));
    assert OwnedBy(v, Receive) == OwnedBy(w, Receive) && OwnedBy(v, Spend) == OwnedBy(w, Spend);
  }

  lemma KillKeepsInv(w: World)
    requires Inv(w) && Can(w, KillCurrent)
    ensures Inv(Do(w, KillCurrent))
  {
    RecordsStand(w, Do(w, KillCurrent));
  }

  lemma RemoveLostKeepsInv(w: World, ok: bool)
    requires Inv(w) && Can(w, RemoveLost(ok))
    ensures Inv(Do(w, RemoveLost(ok)))
  {
    var v := Do(w, RemoveLost(ok));
    assert OwnedBy(w, Receive) && OwnedBy(w, Spend);
    assert OwnedBy(v, Receive) && OwnedBy(v, Spend);
    assert !w.torn ==> FileNamed(w, Receive) && FileNamed(w, Spend);
  }

  lemma AcceptKeepsInv(w: World)
    requires Inv(w) && Can(w, Accept)
    ensures Inv(Do(w, Accept))
  {
    RecordsStand(w.(look := NoLook), Do(w, Accept));
  }

  lemma StepKeepsInv(w: World, a: Action)
    requires Inv(w) && Can(w, a)
    ensures Inv(Do(w, a))
  {
    match a
    case StartBake(c, id) => BakeStartsWell(w, c, id);
    case Mint => MintKeepsInv(w);
    case WriteSidecar => SidecarKeepsInv(w);
    case WriteFile => MacaroonKeepsInv(w);
    case Commit => CommitKeepsNames(w); CommitKeepsSweep(w);
    case StartOrphans => OrphansStartWell(w);
    case StartLost => LostStartsWell(w);
    case RemoveFile(ok) => RemovalKeepsInv(w, ok);
    case SweepOne(_, _) => SweepOneKeepsInv(w, a);
    case Finish => FinishKeepsInv(w);
    case Stop => StopKeepsInv(w, a);
    case Crash => StopKeepsInv(w, a);
    case Elsewhere(_, _) => ElsewhereKeepsInv(w, a);
    case SetLatch(on) => LatchKeepsInv(w, on);
    case KillCurrent => KillKeepsInv(w);
    case RemoveLost(ok) => RemoveLostKeepsInv(w, ok);
    case Accept => AcceptKeepsInv(w);
    case _ => LockFreeStepsKeepInv(w, a);
  }

  // ------------------------------------------------------------ over whole runs

  lemma {:induction false} InvAlong(ws: seq<World>, acts: seq<Action>, n: nat)
    requires Run(ws, acts) && Inv(ws[0]) && n < |ws|
    ensures Inv(ws[n])
  {
    if n > 0 {
      InvAlong(ws, acts, n - 1);
      assert Step(ws[n - 1], acts[n - 1], ws[n]);
      StepKeepsInv(ws[n - 1], acts[n - 1]);
    }
  }

  lemma Grow(ws: seq<World>, acts: seq<Action>, a: Action)
    requires Run(ws, acts) && Can(ws[|acts|], a)
    ensures Run(ws + [Do(ws[|acts|], a)], acts + [a])
  {
    var vs, more := ws + [Do(ws[|acts|], a)], acts + [a];
    forall i | 0 <= i < |more| ensures Step(vs[i], more[i], vs[i + 1]) {
      assert i < |acts| ==> Step(ws[i], acts[i], ws[i + 1]);
    }
  }

  // After the state write that ends a bake its key is current and not pending.
  lemma CommitSettles(ws: seq<World>, acts: seq<Action>)
    requires Run(ws, acts) && Inv(ws[0]) && ws[|acts|].task.Placed?
    ensures var w := ws[|acts|];
            var r := Recorded(w.rec, w.task.kind, w.task.id, w.task.before.Current(w.task.kind));
            && r.Current(w.task.kind) == w.task.id && w.task.id !in r.pending
            && r.Current(w.task.kind.Other()) == w.rec.Current(w.task.kind.Other())
            && r.latch == w.rec.latch
            && (forall k <- w.task.before.pending :: k in r.pending)
            && (w.task.before.Current(w.task.kind) != 0 ==> w.task.before.Current(w.task.kind) in r.pending)
  {
    InvAlong(ws, acts, |acts|);
    CommitNames(ws[|acts|]);
  }

  // The key a bake replaces is spared by no sidecar and was not pending; and what is pending
  // after it was before, or is that key.
  lemma ReplacedIsNotSpared(ws: seq<World>, acts: seq<Action>)
    requires Run(ws, acts) && Inv(ws[0]) && ws[|acts|].task.Placed?
    ensures var w := ws[|acts|];
            var t := w.task;
            var previous := t.before.Current(t.kind);
            && (previous != 0 ==> previous != t.id && previous in w.issued
                                  && previous !in BakeSpares(w, t.kind, t.before))
            && forall p <- Recorded(w.rec, t.kind, t.id, previous).pending ::
                 p in t.before.pending || (p == previous && p != 0)
  {
    InvAlong(ws, acts, |acts|);
    var w := ws[|acts|];
    assert OwnedBy(w, w.task.kind) && OwnedBy(w, w.task.kind.Other());
    CommitNames(w);
  }

  // The id of a bake under way is pending.
  lemma BakingIsPending(ws: seq<World>, acts: seq<Action>)
    requires Run(ws, acts) && Inv(ws[0]) && Baking(ws[|acts|].task)
    ensures ws[|acts|].task.id in ws[|acts|].rec.pending
  {
    InvAlong(ws, acts, |acts|);
  }

  lemma CurrentIsIssued(ws: seq<World>, acts: seq<Action>, c: Kind)
    requires Run(ws, acts) && Inv(ws[0]) && ws[|acts|].rec.Current(c) != 0
    ensures ws[|acts|].rec.Current(c) in ws[|acts|].issued
  {
    InvAlong(ws, acts, |acts|);
    assert OwnedBy(ws[|acts|], c);
  }

  // No lost key: wherever a run stops, a key the guard chose and the node honours
  // is in the pending set or recorded as a current key.
  lemma NoKeyIsLost(ws: seq<World>, acts: seq<Action>, n: nat, k: Key)
    requires Run(ws, acts) && Inv(ws[0]) && n < |ws|
    ensures k in ws[n].issued && k in ws[n].node ==>
              k in ws[n].rec.pending || k == ws[n].rec.receive || k == ws[n].rec.spend
  {
    InvAlong(ws, acts, n);
  }

  // Sweep safety: no sweep but the ones that end sending takes the key of a
  // credential file away from the node, if no bake was torn.
  lemma UnattendedSweepSparesFiles(ws: seq<World>, acts: seq<Action>, n: nat, c: Kind, f: Key)
    requires Run(ws, acts) && Inv(ws[0]) && n < |acts| && acts[n].SweepOne?
    requires !ws[n].torn && ws[n].task.Sweeping? && !ws[n].task.why.Ending?
    requires ws[n].On(c).file == Some(f) && f in ws[n].node
    ensures f in ws[n + 1].node
  {
    InvAlong(ws, acts, n);
    assert Step(ws[n], acts[n], ws[n + 1]);
    assert Avoids(ws[n], c);
  }

  // ---------------------------------------------------- what a whole sweep takes

  // Steps of other apps and of calls that do not hold the bake lock, leaving key f.
  predicate Beside(a: Action, f: Key) {
    || a.ReadGate? || a.LeaveGate? || a.Look? || a.Notice? || a.Unlook?
    || (a.Elsewhere? && f !in a.gone)
  }

  // From world n to world m a sweep goes on, with such steps in between.
  predicate SweepsAlong(acts: seq<Action>, n: nat, m: nat, f: Key)
    requires n <= m <= |acts|
  {
    forall i :: n <= i < m ==> acts[i].SweepOne? || Beside(acts[i], f)
  }

  // And every key the node was asked to delete, it said it had.
  predicate Answered(acts: seq<Action>, n: nat, m: nat)
    requires n <= m <= |acts|
  {
    forall i :: n <= i < m && acts[i].SweepOne? ==> acts[i].answered
  }

  // A sweep works through its queue in order: it takes a key only when it has come to it
  // and neither spares it nor leaves it, and then it does, if the node answers.
  lemma {:induction false} SweepSettles(
      ws: seq<World>, acts: seq<Action>, n: nat, m: nat, f: Key) returns (j: nat)
    requires Run(ws, acts) && n <= m <= |acts| && SweepsAlong(acts, n, m, f)
    requires ws[n].task.Sweeping? && f in ws[n].issued && f in ws[n].node
    ensures f in ws[m].issued && ws[m].task.Sweeping? && ws[m].task.why == ws[n].task.why
    ensures ws[m].task.spare == ws[n].task.spare
    ensures j <= |ws[n].task.queue| && ws[m].task.queue == ws[n].task.queue[j..]
    ensures var t := ws[n].task;
            var reached := f in t.queue[..j] && f !in t.spare && !Untouched(t, f);
            && (f !in ws[m].node ==> reached)
            && (Answered(acts, n, m) ==> (f !in ws[m].node <==> reached))
  {
    if n == m {
      j := 0;
    } else {
      j := SweepSettles(ws, acts, n, m - 1, f);
      assert Step(ws[m - 1], acts[m - 1], ws[m]);
      if acts[m - 1].SweepOne? {
        assert ws[n].task.queue[j..][0] == ws[n].task.queue[j];
        assert ws[n].task.queue[..j + 1] == ws[n].task.queue[..j] + [ws[n].task.queue[j]];
        j := j + 1;
      }
    }
  }

  // A credential file whose key is pending and which a sidecar of its own misnames.
  predicate Strays(w: World, c: Kind, f: Key) {
    f in w.rec.pending && w.On(c).sidecar.Some? && w.On(c).sidecar != Some(f)
  }

  // The unattended sweep takes a file's key only from a file astray when it started, and
  // a whole answered one takes it from every such file.
  lemma OrphanSweepTakesFileKeyIff(
      ws: seq<World>, acts: seq<Action>, n: nat, m: nat, c: Kind, f: Key)
    requires Run(ws, acts) && Inv(ws[0]) && n < m <= |acts|
    requires acts[n] == StartOrphans && SweepsAlong(acts, n + 1, m, f)
    requires ws[n].On(c).file == Some(f) && f != 0 && f in ws[n].node
    ensures f !in ws[m].node ==> Strays(ws[n], c, f)
    ensures ws[m].task.Sweeping?
    ensures Answered(acts, n + 1, m) && ws[m].task.queue == [] ==>
              (f !in ws[m].node <==> Strays(ws[n], c, f))
  {
    InvAlong(ws, acts, n);
    assert Step(ws[n], acts[n], ws[n + 1]);
    OnlyItsOwnSidecarNames(ws[n], c, f);
    var j := SweepSettles(ws, acts, n + 1, m, f);
    WholeQueue(ws[n + 1].task.queue, j, f);
  }

  lemma OnlyItsOwnSidecarNames(w: World, c: Kind, f: Key)
    requires Inv(w) && w.On(c).file == Some(f) && f != 0
    ensures f in w.issued && (f in w.Named() <==> w.On(c).sidecar == Some(f))
    ensures f in w.rec.pending ==> f != w.rec.receive && f != w.rec.spend
  {
    assert OwnedBy(w, c) && OwnedBy(w, c.Other());
  }

  lemma WholeQueue(queue: seq<Key>, j: nat, f: Key)
    requires j <= |queue|
    ensures f in queue[..j] ==> f in queue
    ensures queue[j..] == [] ==> queue[..j] == queue
  {}

  // And so do the sweeps that end a bake, of either credential's file.
  lemma BakeSweepTakesFileKeyIff(
      ws: seq<World>, acts: seq<Action>, n: nat, m: nat, c: Kind, f: Key)
    requires Run(ws, acts) && Inv(ws[0]) && n < m <= |acts|
    requires acts[n] == Commit && SweepsAlong(acts, n + 1, m, f)
    requires ws[n].On(c).file == Some(f) && f != 0 && f in ws[n].node
    ensures f !in ws[m].node ==> Strays(ws[n], c, f)
    ensures ws[m].task.Sweeping?
    ensures Answered(acts, n + 1, m) && ws[m].task.queue == [] ==>
              (f !in ws[m].node <==> Strays(ws[n], c, f))
  {
    InvAlong(ws, acts, n);
    assert Step(ws[n], acts[n], ws[n + 1]);
    OnlyItsOwnSidecarNames(ws[n], c, f);
    BakeSweepReaches(ws[n], c, f);
    var j := SweepSettles(ws, acts, n + 1, m, f);
    WholeQueue(ws[n + 1].task.queue, j, f);
  }

  lemma BakeSweepReaches(w: World, c: Kind, f: Key)
    requires Inv(w) && w.task.Placed? && w.On(c).file == Some(f) && f != 0
    ensures var t := Do(w, Commit).task;
            f in t.queue && f !in t.spare && !Untouched(t, f) <==> Strays(w, c, f)
  {
    OnlyItsOwnSidecarNames(w, c, f);
    assert OwnedBy(w, c) && OwnedBy(w, w.task.kind);
  }

  // The sweeps that end sending take the receive file's key exactly when it is pending and
  // no sidecar names it: RevokeSpend and an accepted external revocation do not stop at a
  // missing receive sidecar, which sweepOrphans does.
  lemma EndingSweepTakesReceiveKeyIff(
      ws: seq<World>, acts: seq<Action>, n: nat, m: nat, f: Key)
    requires Run(ws, acts) && Inv(ws[0]) && n < m <= |acts|
    requires (acts[n].StartLost? || acts[n].RemoveFile?) && SweepsAlong(acts, n + 1, m, f)
    requires ws[n].receive.file == Some(f) && f != 0 && f in ws[n].node
    ensures f !in ws[m].node ==> f in ws[n].rec.pending && ws[n].receive.sidecar != Some(f)
    ensures ws[m].task.Sweeping?
    ensures Answered(acts, n + 1, m) && ws[m].task.queue == [] ==>
              (f !in ws[m].node <==> f in ws[n].rec.pending && ws[n].receive.sidecar != Some(f))
  {
    InvAlong(ws, acts, n);
    assert Step(ws[n], acts[n], ws[n + 1]);
    OnlyItsOwnSidecarNames(ws[n], Receive, f);
    var j := SweepSettles(ws, acts, n + 1, m, f);
    WholeQueue(ws[n + 1].task.queue, j, f);
  }

  // ------------------------------------------------- how a file comes to be astray

  // While no bake has been torn a file is astray only between its own sidecar and its
  // macaroon.
  lemma UntornFilesDoNotStray(ws: seq<World>, acts: seq<Action>, n: nat, c: Kind, f: Key)
    requires Run(ws, acts) && Inv(ws[0]) && n < |ws| && !ws[n].torn
    requires !(ws[n].task.Named? && ws[n].task.kind == c) && ws[n].On(c).file == Some(f)
    ensures !Strays(ws[n], c, f)
  {
    InvAlong(ws, acts, n);
    assert FileNamed(ws[n], c);
  }

  // An install at rest, each file's key recorded.
  predicate AtRest(w: World) {
    && w.task.Idle?
    && (w.receive.file.Some? ==> w.receive.file.value !in w.rec.pending)
    && (w.spend.file.Some? ==> w.spend.file.value !in w.rec.pending)
  }

  // A file whose key is pending was written by a bake that is between its macaroon and its
  // state write, or that stopped there at step k.
  lemma {:induction false} UnrecordedFileWasStopped(
      ws: seq<World>, acts: seq<Action>, n: nat, c: Kind, f: Key) returns (k: nat)
    requires Run(ws, acts) && Inv(ws[0]) && AtRest(ws[0]) && n < |ws|
    requires ws[n].On(c).file == Some(f) && f in ws[n].rec.pending
    ensures (ws[n].task.Placed? && ws[n].task.kind == c && ws[n].task.id == f)
      || (k < n && StoppedAt(ws[k], acts[k], c, f))
  {
    k := 0;
    if n > 0 {
      InvAlong(ws, acts, n - 1);
      assert Step(ws[n - 1], acts[n - 1], ws[n]);
      var u := ws[n - 1];
      if u.On(c).file == Some(f) && f in u.rec.pending {
        k := UnrecordedFileWasStopped(ws, acts, n - 1, c, f);
        if u.task.Placed? && u.task.kind == c && u.task.id == f && (acts[n - 1].Stop? || acts[n - 1].Crash?) {
          k := n - 1;
        }
        PlacedGoesOn(u, acts[n - 1], c, f);
      } else {
        OnlyWritingUnrecords(u, acts[n - 1], c, f);
      }
    }
  }

  // A bake of c stopped after its macaroon, under key f, and before its state write.
  predicate StoppedAt(w: World, a: Action, c: Kind, f: Key) {
    (a.Stop? || a.Crash?) && w.task.Placed? && w.task.kind == c && w.task.id == f
  }

  lemma PlacedGoesOn(w: World, a: Action, c: Kind, f: Key)
    requires Inv(w) && Can(w, a) && w.On(c).file == Some(f) && f in w.rec.pending
    requires w.task.Placed? && w.task.kind == c && w.task.id == f ==> f in Do(w, a).rec.pending
    ensures w.task.Placed? && w.task.kind == c && w.task.id == f && !a.Stop? && !a.Crash? ==>
              Do(w, a).task == w.task
  {}

  // A bake adds its own new id to the pending ones, and its state write the id before it;
  // neither is the key of a file on disk that was not pending already.
  lemma PendingGrowsBeside(w: World, a: Action, c: Kind, f: Key)
    requires Inv(w) && Can(w, a) && (a.StartBake? || a.Commit?)
    requires w.On(c).file == Some(f) && f !in w.rec.pending
    ensures f !in Do(w, a).rec.pending
  {
    assert OwnedBy(w, c);
    if a.Commit? {
      assert OwnedBy(w, w.task.kind) && BakeInv(w);
      CommitNames(w);
    }
  }

  lemma OtherwisePendingShrinks(w: World, a: Action)
    requires Inv(w) && Can(w, a) && !a.StartBake? && !a.Commit?
    ensures forall p <- Do(w, a).rec.pending :: p in w.rec.pending
  {
    if a.Finish? { FinishForgetsTheGone(w); }
  }

  lemma OnlyWritingUnrecords(w: World, a: Action, c: Kind, f: Key)
    requires Inv(w) && Can(w, a) && !(w.On(c).file == Some(f) && f in w.rec.pending)
    requires Do(w, a).On(c).file == Some(f) && f in Do(w, a).rec.pending
    ensures var t := Do(w, a).task; t.Placed? && t.kind == c && t.id == f
  {
    if a.StartBake? || a.Commit? {
      PendingGrowsBeside(w, a, c, f);
    } else {
      OtherwisePendingShrinks(w, a);
    }
  }

  // A tear is a second stop: a bake stopped between its sidecar and its macaroon over a
  // file whose own bake, of the same credential, had stopped at step k after its macaroon
  // and before its state write.
  lemma TearIsASecondStop(ws: seq<World>, acts: seq<Action>, n: nat) returns (k: nat)
    requires Run(ws, acts) && Inv(ws[0]) && AtRest(ws[0]) && n < |acts|
    requires !ws[n].torn && ws[n + 1].torn
    ensures (acts[n].Stop? || acts[n].Crash?) && ws[n].task.Named?
    ensures var c := ws[n].task.kind;
            var s := ws[n].On(c);
            && s.file.Some? && s.file.value in ws[n].rec.pending
            && s.file.value != ws[n].rec.Current(c) && s.sidecar != s.file
            && k < n && StoppedAt(ws[k], acts[k], c, s.file.value)
  {
    InvAlong(ws, acts, n);
    assert Step(ws[n], acts[n], ws[n + 1]);
    var c := ws[n].task.kind;
    assert OwnedBy(ws[n], c);
    k := UnrecordedFileWasStopped(ws, acts, n, c, ws[n].On(c).file.value);
  }

  // A fresh install, the same install after a receive bake that stopped between its
  // macaroon and its state write, and after a second one that stopped between its
  // sidecar and its macaroon.
  const FRESH := World({}, map[], Records(0, 0, [], false), Slot(None, None), Slot(None, None),
                       Idle, 0, NoLook, false)
  const UNRECORDED := FRESH.(node := {1}, issued := map[1 := Receive],
                             rec := Records(0, 0, [1], false), receive := Slot(Some(1), Some(1)))
  const TORN := UNRECORDED.(node := {1, 2}, issued := map[1 := Receive, 2 := Receive],
                            rec := Records(0, 0, [1, 2], false),
                            receive := Slot(Some(1), Some(2)), torn := true)

  lemma Go(ws: seq<World>, acts: seq<Action>, a: Action) returns (vs: seq<World>, more: seq<Action>)
    requires Run(ws, acts) && Can(ws[|acts|], a)
    ensures Run(vs, more) && more == acts + [a] && vs == ws + [Do(ws[|acts|], a)]
  {
    Grow(ws, acts, a);
    vs, more := ws + [Do(ws[|acts|], a)], acts + [a];
  }

  lemma FirstBakeStops() returns (ws: seq<World>, acts: seq<Action>)
    ensures Run(ws, acts) && ws[0] == FRESH && ws[|acts|] == UNRECORDED
  {
    ws, acts := Go([FRESH], [], StartBake(Receive, 1));
    ws, acts := Go(ws, acts, Mint);
    assert ws[2].rec.pending == [1] && ws[2].issued == UNRECORDED.issued && ws[2].node == {1};
    ws, acts := Go(ws, acts, WriteSidecar);
    ws, acts := Go(ws, acts, WriteFile);
    ws, acts := Go(ws, acts, Stop);
  }

  lemma SecondBakeStops(us: seq<World>, bs: seq<Action>) returns (ws: seq<World>, acts: seq<Action>)
    requires Run(us, bs) && us[0] == FRESH && us[|bs|] == UNRECORDED
    ensures Run(ws, acts) && ws[0] == FRESH && ws[|acts|] == TORN
  {
    ws, acts := Go(us, bs, StartBake(Receive, 2));
    ws, acts := Go(ws, acts, Mint);
    ghost var w := ws[|acts|];
    assert w.rec.pending == [1, 2] && w.issued == TORN.issued && w.node == {1, 2};
    ws, acts := Go(ws, acts, WriteSidecar);
    ws, acts := Go(ws, acts, Crash);
  }

  // The hypothesis is needed: from a fresh install, two receive bakes that stop at
  // those two places leave a file whose key the unattended sweep then deletes.
  lemma TornFileIsSwept() returns (ws: seq<World>, acts: seq<Action>, n: nat)
    ensures Run(ws, acts) && Inv(ws[0]) && n < |acts| && acts[n].SweepOne?
    ensures ws[n].task.Sweeping? && ws[n].task.why == Orphans
    ensures ws[n].receive.file == Some(1) && 1 in ws[n].node
    ensures ws[n + 1].receive.file == Some(1) && 1 !in ws[n + 1].node
  {
    ws, acts := FirstBakeStops();
    ws, acts := SecondBakeStops(ws, acts);
    assert TORN.Named() == [2] && [0, 0] + [2] == [0, 0, 2];
    ws, acts := Go(ws, acts, StartOrphans);
    n := |acts|;
    ws, acts := Go(ws, acts, SweepOne(true, true));
  }

  // An install upgraded from before sidecars, whose last receive bake had stopped
  // between its macaroon and its state write: the unattended sweep cannot start, and
  // RevokeSpend's sweep takes the receive credential's key.
  lemma RevokeSpendTakesUnnamedReceiveKey() returns (ws: seq<World>, acts: seq<Action>)
    ensures Run(ws, acts) && Inv(ws[0]) && ws[0].spend.file.None? && !Can(ws[0], StartOrphans)
    ensures ws[0].receive.file == Some(1) && 1 in ws[0].node
    ensures [StartLost] <= acts && ws[|acts|].receive.file == Some(1)
    ensures 1 !in ws[|acts|].node
  {
    var w := UNRECORDED.(receive := Slot(Some(1), None));
    ws, acts := Go([w], [], StartLost);
    ws, acts := Go(ws, acts, SweepOne(true, true));
  }

  // ------------------------------------------------------- revoked stays revoked

  function SpendIds(w: World): set<Key> { set k <- w.issued | w.issued[k] == Spend }

  lemma IssuingAddsOne(w: World, c: Kind, id: Key)
    requires id !in w.issued
    ensures var v := w.(issued := w.issued[id := c]);
            SpendIds(v) == if c == Spend then SpendIds(w) + {id} else SpendIds(w)
  {}

  lemma OneStepWithLatchOff(w: World, a: Action)
    requires Can(w, a) && !w.rec.latch && a != SetLatch(true)
    ensures !Do(w, a).rec.latch
    ensures |SpendIds(Do(w, a))| + Do(w, a).gated <= |SpendIds(w)| + w.gated
    ensures SpendIds(w) <= SpendIds(Do(w, a))
  {
    if a.StartBake? {
      IssuingAddsOne(w, a.kind, a.id);
      assert a.id !in SpendIds(w);
    } else {
      assert Do(w, a).issued == w.issued;
      assert SpendIds(Do(w, a)) == SpendIds(w);
    }
  }

  lemma LatchStaysOff(ws: seq<World>, acts: seq<Action>, n: nat)
    requires Run(ws, acts) && 0 < n < |ws| && !ws[n - 1].rec.latch && acts[n - 1] != SetLatch(true)
    ensures !ws[n].rec.latch && SpendIds(ws[n - 1]) <= SpendIds(ws[n])
    ensures |SpendIds(ws[n])| + ws[n].gated <= |SpendIds(ws[n - 1])| + ws[n - 1].gated
  {
    assert Step(ws[n - 1], acts[n - 1], ws[n]);
    OneStepWithLatchOff(ws[n - 1], acts[n - 1]);
  }

  // From world m to world n no action turns the latch on: no grant was redeemed.
  predicate NoGrant(acts: seq<Action>, m: nat, n: nat)
    requires n <= |acts|
  {
    forall i :: m <= i < n ==> acts[i] != SetLatch(true)
  }

  // While the latch is off and no grant turns it on, every spend key chosen uses up
  // one bake that had passed the permission check before.
  lemma {:induction false} GateBoundsSpendBakes(
      ws: seq<World>, acts: seq<Action>, m: nat, n: nat)
    requires Run(ws, acts) && m <= n < |ws| && !ws[m].rec.latch && NoGrant(acts, m, n)
    ensures !ws[n].rec.latch && SpendIds(ws[m]) <= SpendIds(ws[n])
    ensures |SpendIds(ws[n])| + ws[n].gated <= |SpendIds(ws[m])| + ws[m].gated
  {
    if m < n {
      GateBoundsSpendBakes(ws, acts, m, n - 1);
      LatchStaysOff(ws, acts, n);
    }
  }

  lemma SubsetOfSameSize(a: set<Key>, b: set<Key>)
    requires a <= b && |b| <= |a|
    ensures a == b
  {
    assert |b - a| == |b| - |a|;
  }

  // Revoked stays revoked: after the state write that ends sending, with no spend
  // bake already past the check, no spend key is chosen until a grant is redeemed.
  lemma RevokedStaysRevoked(ws: seq<World>, acts: seq<Action>, m: nat, n: nat)
    requires Run(ws, acts) && m < n < |ws|
    requires acts[m] == Finish && ws[m].task.Sweeping? && ws[m].task.why.Ending?
    requires ws[m].gated == 0 && NoGrant(acts, m + 1, n)
    ensures SpendIds(ws[n]) == SpendIds(ws[m]) && !ws[n].rec.latch
  {
    assert Step(ws[m], acts[m], ws[m + 1]);
    GateBoundsSpendBakes(ws, acts, m + 1, n);
    assert SpendIds(ws[m + 1]) == SpendIds(ws[m]);
    SubsetOfSameSize(SpendIds(ws[m]), SpendIds(ws[n]));
  }

  // And it needs that hypothesis: a bake past the check mints a live spend key
  // after the revocation, with the latch off.
  lemma RacedBakeMints(w: World, id: Key) returns (ws: seq<World>, acts: seq<Action>)
    requires w.task.Idle? && w.gated > 0 && !w.rec.latch && Fresh(w, id)
    ensures Run(ws, acts) && ws[0] == w && NoGrant(acts, 0, |acts|)
    ensures var v := ws[|acts|];
            id in v.node && id in SpendIds(v) && id !in SpendIds(w) && !v.rec.latch
  {
    ws, acts := Go([w], [], StartBake(Spend, id));
    ws, acts := Go(ws, acts, Mint);
  }

  // In every run from here in which no grant is redeemed no spend key is chosen.
  ghost predicate AlwaysRevoked(w: World) {
    forall ws: seq<World>, acts: seq<Action> ::
      Run(ws, acts) && ws[0] == w && NoGrant(acts, 0, |acts|) ==> SpendIds(ws[|acts|]) == SpendIds(w)
  }

  // With the latch off and an id left to choose, revoked stays revoked exactly when no
  // spend bake has passed the permission check and is still to take the lock.
  lemma AlwaysRevokedIff(w: World, id: Key)
    requires w.task.Idle? && !w.rec.latch && Fresh(w, id)
    ensures AlwaysRevoked(w) <==> w.gated == 0
  {
    if w.gated > 0 {
      var ws, acts := RacedBakeMints(w, id);
      assert Run(ws, acts) && NoGrant(acts, 0, |acts|);
    } else {
      forall ws: seq<World>, acts: seq<Action> |
        Run(ws, acts) && ws[0] == w && NoGrant(acts, 0, |acts|)
        ensures SpendIds(ws[|acts|]) == SpendIds(w)
      {
        GateBoundsSpendBakes(ws, acts, 0, |acts|);
        SubsetOfSameSize(SpendIds(w), SpendIds(ws[|acts|]));
      }
    }
  }
}

// The operator ceremony of internal/guard: one-time grants, the three controls they
// may loosen, and every interleaving of the socket's connections at lock grain. The
// controls change only under the bake lock; the grant and the file that shows it
// change only inside one store update.
module Ceremony {
  import opened Wrappers

  datatype Control = Sending | SpendCap | PaymentCap | Unknown(name: string)

  // A change carries a value, never a direction.
  datatype Change = Change(control: Control, on: bool, msat: int) {
    // A control this guard has, and no negative cap.
    predicate Valid() { !control.Unknown? && (control.Sending? || msat >= 0) }
  }

  datatype Controls = Controls(latch: bool, window: int, payment: int) {
    // An unknown control loosens.
    predicate Loosens(c: Change) {
      match c.control
      case Sending => c.on && !latch
      case SpendCap => c.msat > window
      case PaymentCap => c.msat > payment
      case Unknown(_) => true
    }

    predicate AlreadyHas(c: Change) {
      match c.control
      case Sending => latch == c.on
      case SpendCap => window == c.msat
      case PaymentCap => payment == c.msat
      case Unknown(_) => false
    }

    // The per-payment cap may not come to exceed the window cap.
    predicate CapPairAllows(c: Change) {
      match c.control
      case SpendCap => payment <= c.msat
      case PaymentCap => c.msat <= window
      case _ => true
    }

    function Apply(c: Change): Controls {
      match c.control
      case Sending => this.(latch := c.on)
      case SpendCap => this.(window := c.msat)
      case PaymentCap => this.(payment := c.msat)
      case Unknown(_) => this
    }

    // Some control stands further in the direction a compromised server wants.
    predicate LooserThan(old_: Controls) {
      (latch && !old_.latch) || window > old_.window || payment > old_.payment
    }
  }

  // The guard's own questions about a change, answered by what it would do: it loosens when
  // some control would stand looser, it is already had when nothing would move, and the cap
  // pair allows it when the pair would still be in order. A control this guard does not
  // know loosens and is never already had.
  lemma QuestionsAreAboutTheEffect(k: Controls, c: Change)
    ensures c.control.Unknown? ==> k.Loosens(c) && !k.AlreadyHas(c) && !c.Valid()
    ensures !c.control.Unknown? ==> (k.Loosens(c) <==> k.Apply(c).LooserThan(k))
    ensures !c.control.Unknown? ==> (k.AlreadyHas(c) <==> k.Apply(c) == k)
    ensures k.payment <= k.window ==> (k.CapPairAllows(c) <==> k.Apply(c).payment <= k.Apply(c).window)
  {}

  const TTL := 600
  const MAX_ATTEMPTS := 3

  datatype Grant = Grant(serial: nat, change: Change, code: string, expires: int, attempts: nat) {
    predicate Expired(now: int) { now >= expires }
  }

  // What the operator's file says: the guard's sentence for a change, and a code.
  datatype Shown = Shown(change: Change, code: string)

  function ShownOf(g: Option<Grant>): Option<Shown> {
    if g.None? then None else Some(Shown(g.value.change, g.value.code))
  }

  // ------------------------------------------------------------------ the code

  predicate IsSpace(c: char) { c == ' ' || 9 <= c as int <= 13 }

  function TrimLeft(s: string): string {
    if s != [] && IsSpace(s[0]) then TrimLeft(s[1..]) else s
  }

  function TrimRight(s: string): string {
    if s != [] && IsSpace(s[|s| - 1]) then TrimRight(s[..|s| - 1]) else s
  }

  function Upper(c: char): char {
    if 'a' <= c <= 'z' then (c as int - 32) as char else c
  }

  function Bare(s: string): string {
    if s == [] then [] else (if s[0] == '-' then [] else [Upper(s[0])]) + Bare(s[1..])
  }

  // Case, the grouping dash and surrounding space are presentation.
  function Normalise(s: string): string { Bare(TrimRight(TrimLeft(s))) }

  predicate Matches(g: Grant, code: string) { Normalise(g.code) == Normalise(code) }

  // Of an unexpired grant: the right code for its change is honoured, another change ends
  // it, the first two wrong codes leave it standing and the third ends it.
  lemma FirstTwoWrongCodesAreForgiven(g: Grant, change: Change, code: string, at: int)
    ensures Judge(Some(g), change, code, at) == Ends(Consumed) <==>
              at < g.expires && g.change == change && Matches(g, code)
    ensures Judge(Some(g), change, code, at) == WrongCode <==>
              at < g.expires && g.change == change && !Matches(g, code) && g.attempts <= 1
    ensures Judge(Some(g), change, code, at) == Ends(OfferedElsewhere) <==> at < g.expires && g.change != change
    ensures Judge(Some(g), change, code, at) == Ends(Lapsed) <==> at >= g.expires
    ensures Judge(None, change, code, at) == NoGrant
  {}

  // ---------------------------------------------------------------- the machine

  // How an issued grant ended.
  datatype Fate = Consumed | Lapsed | OfferedElsewhere | TooManyWrong | Superseded

  datatype Verdict = NoGrant | WrongCode | Ends(fate: Fate)

  // redeem's judgement of the grant stored under the lock; `at` is the clock as the
  // call read it.
  function Judge(g: Option<Grant>, change: Change, code: string, at: int): Verdict {
    if g.None? then NoGrant
    else if g.value.Expired(at) then Ends(Lapsed)
    else if g.value.change != change then Ends(OfferedElsewhere)
    else if Matches(g.value, code) then Ends(Consumed)
    else if g.value.attempts + 1 < MAX_ATTEMPTS then WrongCode
    else Ends(TooManyWrong)
  }

  // The connection holding the bake lock: a loosening still to be redeemed, or a
  // change about to be committed, with the grant it was redeemed against if any.
  datatype Holder =
    | Free
    | Redeeming(change: Change, code: string, at: int)
    | Committing(change: Change, spent: Option<nat>)

  // A request that passed its checks on the controls it loaded, with the clock it read.
  datatype Request = Request(change: Change, at: int)

  // `issued` numbers the grants ever stored and `ended` says how each of them ended.
  // `faulty` records that a write or a removal failed, or was cut short by a crash.
  datatype World = World(
    controls: Controls, grant: Option<Grant>, file: Option<Shown>, now: int,
    holder: Holder, asking: multiset<Request>, issued: nat, ended: map<nat, Fate>, faulty: bool)

  datatype Action =
    | Tick(now: int)
    | Ask(change: Change)
    | Install(request: Request, code: string, fileOk: bool, rowOk: bool)
    | Drop(request: Request)
    | Sweep(at: int, fileOk: bool, rowOk: bool)
    | Begin(change: Change, code: string)
    | ReadClock
    | Redeem(fileOk: bool, rowOk: bool)
    | Commit(rowOk: bool)
    | EndSending
    | Crash

  predicate Can(w: World, a: Action) {
    match a
    case Tick(now) => w.now <= now
    case Ask(c) => c.Valid() && w.controls.Loosens(c) && w.controls.CapPairAllows(c)
    case Install(r, _, _, _) => r in w.asking
    case Drop(r) => r in w.asking
    case Sweep(at, _, _) => at <= w.now && w.grant.Some? && w.grant.value.Expired(at)
    case Begin(c, _) =>
      w.holder.Free? && c.Valid() && !w.controls.AlreadyHas(c) && w.controls.CapPairAllows(c)
    case ReadClock => w.holder.Redeeming?
    case Redeem(_, _) => w.holder.Redeeming?
    case Commit(_) => w.holder.Committing?
    case EndSending => w.holder.Free?
    case Crash => true
  }

  // The stored grant ends: the file goes before the row is saved.
  function End(w: World, fate: Fate, fileOk: bool, rowOk: bool): World
    requires w.grant.Some?
  {
    w.(file := if fileOk then None else w.file,
       grant := if rowOk then None else w.grant,
       ended := if rowOk then w.ended[w.grant.value.serial := fate] else w.ended,
       faulty := w.faulty || !fileOk || !rowOk)
  }

  function DoInstall(w: World, r: Request, code: string, fileOk: bool, rowOk: bool): World {
    var u := w.(asking := w.asking - multiset{r}, faulty := w.faulty || !fileOk || !rowOk);
    if !fileOk then u
    else
      var v := u.(file := Some(Shown(r.change, code)));
      if !rowOk then v
      else
        v.(grant := Some(Grant(w.issued, r.change, code, r.at + TTL, 0)),
           issued := w.issued + 1,
           ended := if w.grant.None? then w.ended
                    else w.ended[w.grant.value.serial :=
                           if w.grant.value.Expired(r.at) then Lapsed else Superseded])
  }

  function DoRedeem(w: World, fileOk: bool, rowOk: bool): World
    requires w.holder.Redeeming?
  {
    var h := w.holder;
    match Judge(w.grant, h.change, h.code, h.at)
    case NoGrant => w.(holder := Free)
    case WrongCode =>
      w.(grant := if rowOk then Some(w.grant.value.(attempts := w.grant.value.attempts + 1))
                  else w.grant,
         holder := Free, faulty := w.faulty || !rowOk)
    case Ends(fate) =>
      End(w, fate, fileOk, rowOk).(
        holder := if fate == Consumed && rowOk then Committing(h.change, Some(w.grant.value.serial))
                  else Free)
  }

  function Do(w: World, a: Action): World
    requires Can(w, a)
  {
    match a
    case Tick(now) => w.(now := now)
    case Ask(c) => w.(asking := w.asking + multiset{Request(c, w.now)})
    case Install(r, code, fileOk, rowOk) => DoInstall(w, r, code, fileOk, rowOk)
    case Drop(r) => w.(asking := w.asking - multiset{r})
    case Sweep(_, fileOk, rowOk) => End(w, Lapsed, fileOk, rowOk)
    case Begin(c, code) =>
      w.(holder := if w.controls.Loosens(c) then Redeeming(c, code, w.now) else Committing(c, None))
    case ReadClock => w.(holder := w.holder.(at := w.now))
    case Redeem(fileOk, rowOk) => DoRedeem(w, fileOk, rowOk)
    case Commit(rowOk) =>
      w.(controls := if rowOk then w.controls.Apply(w.holder.change) else w.controls, holder := Free)
    case EndSending => w.(controls := w.controls.(latch := false))
    case Crash => w.(holder := Free, asking := multiset{})
  }

  predicate Step(u: World, a: Action, v: World) { Can(u, a) && v == Do(u, a) }

  predicate Run(ws: seq<World>, acts: seq<Action>) {
    |ws| == |acts| + 1 && forall i :: 0 <= i < |acts| ==> Step(ws[i], acts[i], ws[i + 1])
  }

  // ---------------------------------------------------------------- invariants

  // Each grant ever stored is the one stored now or has ended, never both.
  predicate GrantsAccounted(w: World) {
    && (w.grant.Some? ==> w.grant.value.attempts < MAX_ATTEMPTS)
    && (w.grant.Some? ==> w.grant.value.serial < w.issued && w.grant.value.serial !in w.ended)
    && (forall s :: s in w.ended ==> s < w.issued)
    && (forall s :: 0 <= s < w.issued ==> s in w.ended || w.grant.Some?)
    && (forall s :: 0 <= s < w.issued && s !in w.ended ==> w.grant.value.serial == s)
  }

  predicate HolderChecked(w: World) {
    match w.holder
    case Free => true
    case Redeeming(c, _, at) => c.Valid() && w.controls.CapPairAllows(c) && at <= w.now
    case Committing(c, spent) =>
      && c.Valid() && w.controls.CapPairAllows(c)
      && (spent.None? ==> !w.controls.Loosens(c))
      && (spent.Some? ==> spent.value in w.ended && w.ended[spent.value] == Consumed)
  }

  predicate Inv(w: World) {
    && GrantsAccounted(w) && HolderChecked(w)
    && w.controls.payment <= w.controls.window
    && (!w.faulty ==> w.file == ShownOf(w.grant))
  }

  lemma InstallKeepsInv(w: World, a: Action)
    requires Inv(w) && Can(w, a) && a.Install?
    ensures Inv(Do(w, a))
  {}

  lemma EndKeepsAccounts(w: World, fate: Fate, fileOk: bool, rowOk: bool)
    requires Inv(w) && w.grant.Some?
    ensures var v := End(w, fate, fileOk, rowOk);
            GrantsAccounted(v) && (!v.faulty ==> v.file == ShownOf(v.grant))
  {}

  lemma RedeemKeepsInv(w: World, a: Action)
    requires Inv(w) && Can(w, a) && a.Redeem?
    ensures Inv(Do(w, a))
  {
    var h := w.holder;
    var verdict := Judge(w.grant, h.change, h.code, h.at);
    if verdict.Ends? {
      EndKeepsAccounts(w, verdict.fate, a.fileOk, a.rowOk);
    }
  }

  lemma StepKeepsInv(w: World, a: Action)
    requires Inv(w) && Can(w, a)
    ensures Inv(Do(w, a))
  {
    if a.Install? {
      InstallKeepsInv(w, a);
    } else if a.Redeem? {
      RedeemKeepsInv(w, a);
    } else if a.Sweep? {
      EndKeepsAccounts(w, Lapsed, a.fileOk, a.rowOk);
    }
  }

  lemma {:induction false} InvAlong(ws: seq<World>, acts: seq<Action>, n: nat)
    requires Run(ws, acts) && Inv(ws[0]) && n < |ws|
    ensures Inv(ws[n])
  {
    if n > 0 {
      InvAlong(ws, acts, n - 1);
      assert Step(ws[n - 1], acts[n - 1], ws[n]);
      StepKeepsInv(ws[n - 1], acts[n - 1]);
    }
  }

  lemma Grow(ws: seq<World>, acts: seq<Action>, a: Action)
    requires Run(ws, acts) && Can(ws[|acts|], a)
    ensures Run(ws + [Do(ws[|acts|], a)], acts + [a])
  {
    var vs, more := ws + [Do(ws[|acts|], a)], acts + [a];
    forall i | 0 <= i < |more| ensures Step(vs[i], more[i], vs[i + 1]) {
      assert i < |acts| ==> Step(ws[i], acts[i], ws[i + 1]);
    }
  }

  // ------------------------------------------------------------ over whole runs

  // The step at which a change about to be committed was redeemed, in the same call.
  lemma {:induction false} RedeemedInThisCall(ws: seq<World>, acts: seq<Action>, n: nat)
    returns (k: nat)
    requires Run(ws, acts) && ws[0].holder.Free? && n < |ws|
    requires ws[n].holder.Committing? && ws[n].holder.spent.Some?
    ensures k < n && acts[k].Redeem? && acts[k].rowOk && ws[k].holder.Redeeming?
    ensures forall j :: k < j <= n ==> ws[j].holder == ws[n].holder
    ensures var h := ws[k].holder;
            && h.change == ws[n].holder.change && ws[k].grant.Some?
            && ws[k].grant.value.serial == ws[n].holder.spent.value
            && Judge(ws[k].grant, h.change, h.code, h.at) == Ends(Consumed)
  {
    assert Step(ws[n - 1], acts[n - 1], ws[n]);
    if acts[n - 1].Redeem? {
      k := n - 1;
    } else {
      k := RedeemedInThisCall(ws, acts, n - 1);
    }
  }

  // Every loosening spends its own grant: the step that moves a control in the loose
  // direction commits exactly the change of a stored grant that the same call found
  // unexpired, matched by the code it was offered, and consumed.
  lemma EveryLooseningSpendsAGrant(ws: seq<World>, acts: seq<Action>, n: nat)
    returns (k: nat, g: Grant)
    requires Run(ws, acts) && Inv(ws[0]) && ws[0].holder.Free? && n < |acts|
    requires ws[n + 1].controls.LooserThan(ws[n].controls)
    ensures acts[n] == Commit(true) && ws[n + 1].controls == ws[n].controls.Apply(g.change)
    ensures ws[n].holder == Committing(g.change, Some(g.serial))
    ensures k < n && acts[k].Redeem? && forall j :: k < j <= n ==> ws[j].holder == ws[n].holder
    ensures ws[k].grant == Some(g) && ws[k + 1].grant.None?
    ensures g.serial !in ws[k].ended && g.serial in ws[k + 1].ended
    ensures ws[k].holder.Redeeming? && ws[k].holder.at <= ws[k].now
    ensures !g.Expired(ws[k].holder.at) && Matches(g, ws[k].holder.code)
  {
    InvAlong(ws, acts, n);
    assert Step(ws[n], acts[n], ws[n + 1]);
    k := RedeemedInThisCall(ws, acts, n);
    g := ws[k].grant.value;
    InvAlong(ws, acts, k);
    assert Step(ws[k], acts[k], ws[k + 1]);
  }

  // Every commit that is saved sets the control its change names to the change's value and
  // leaves the other two; and but for the end of sending no other step moves a control.
  lemma CommitSetsTheControl(ws: seq<World>, acts: seq<Action>, n: nat)
    requires Run(ws, acts) && Inv(ws[0]) && n < |acts|
    ensures acts[n] == Commit(true) ==>
              ws[n].holder.Committing? && var c, k, l := ws[n].holder.change, ws[n].controls, ws[n + 1].controls;
              && c.Valid() && c.control in {Sending, SpendCap, PaymentCap}
              && l.latch == (if c.control == Sending then c.on else k.latch)
              && l.window == (if c.control == SpendCap then c.msat else k.window)
              && l.payment == (if c.control == PaymentCap then c.msat else k.payment)
    ensures acts[n] == EndSending ==>
              ws[n + 1].controls == Controls(false, ws[n].controls.window, ws[n].controls.payment)
    ensures acts[n] != Commit(true) && acts[n] != EndSending ==> ws[n + 1].controls == ws[n].controls
  {
    InvAlong(ws, acts, n);
    assert Step(ws[n], acts[n], ws[n + 1]);
  }

  lemma FateOutlivesStep(w: World, a: Action, s: nat)
    requires Inv(w) && Can(w, a) && s in w.ended
    ensures s in Do(w, a).ended && Do(w, a).ended[s] == w.ended[s]
  {}

  // What each fate says of the grant and of the step that ended it.
  predicate FateIsTrue(fate: Fate, g: Grant, a: Action, h: Holder) {
    match fate
    case Lapsed =>
      || (a.Sweep? && g.expires <= a.at) || (a.Install? && g.expires <= a.request.at)
      || (a.Redeem? && h.Redeeming? && g.expires <= h.at)
    case Superseded => a.Install? && a.request.at < g.expires
    case Consumed =>
      a.Redeem? && h.Redeeming? && h.at < g.expires && g.change == h.change && Matches(g, h.code)
    case OfferedElsewhere => a.Redeem? && h.Redeeming? && h.at < g.expires && g.change != h.change
    case TooManyWrong =>
      && a.Redeem? && h.Redeeming? && h.at < g.expires && g.change == h.change
      && !Matches(g, h.code) && g.attempts == 2
  }

  lemma FateIsTrueAtOnce(w: World, a: Action, s: nat)
    requires Inv(w) && Can(w, a) && s !in w.ended && s in Do(w, a).ended
    ensures w.grant.Some? && w.grant.value.serial == s
    ensures FateIsTrue(Do(w, a).ended[s], w.grant.value, a, w.holder)
  {}

  lemma FatesAreTrue(ws: seq<World>, acts: seq<Action>, n: nat, s: nat)
    requires Run(ws, acts) && Inv(ws[0]) && n < |acts|
    requires s !in ws[n].ended && s in ws[n + 1].ended
    ensures ws[n].grant.Some? && ws[n].grant.value.serial == s
    ensures FateIsTrue(ws[n + 1].ended[s], ws[n].grant.value, acts[n], ws[n].holder)
  {
    InvAlong(ws, acts, n);
    assert Step(ws[n], acts[n], ws[n + 1]);
    FateIsTrueAtOnce(ws[n], acts[n], s);
  }

  lemma FateOutlivesOne(ws: seq<World>, acts: seq<Action>, n: nat, s: nat)
    requires Run(ws, acts) && Inv(ws[0]) && 0 < n < |ws| && s in ws[n - 1].ended
    ensures s in ws[n].ended && ws[n].ended[s] == ws[n - 1].ended[s]
  {
    InvAlong(ws, acts, n - 1);
    assert Step(ws[n - 1], acts[n - 1], ws[n]);
    FateOutlivesStep(ws[n - 1], acts[n - 1], s);
  }

  // A grant that ended stays ended, for the reason it ended, and is not stored again.
  lemma {:induction false} FateIsFinal(
      ws: seq<World>, acts: seq<Action>, m: nat, n: nat, s: nat)
    requires Run(ws, acts) && Inv(ws[0]) && m <= n < |ws| && s in ws[m].ended
    ensures s in ws[n].ended && ws[n].ended[s] == ws[m].ended[s]
    ensures ws[n].grant.Some? ==> ws[n].grant.value.serial != s
  {
    InvAlong(ws, acts, n);
    if m < n {
      FateIsFinal(ws, acts, m, n - 1, s);
      FateOutlivesOne(ws, acts, n, s);
    }
  }

  // No grant backs two loosenings.
  lemma NoGrantBacksTwoLoosenings(ws: seq<World>, acts: seq<Action>, m: nat, n: nat)
    requires Run(ws, acts) && Inv(ws[0]) && ws[0].holder.Free? && m < n < |acts|
    requires ws[m + 1].controls.LooserThan(ws[m].controls)
    requires ws[n + 1].controls.LooserThan(ws[n].controls)
    ensures ws[m].holder.Committing? && ws[n].holder.Committing?
    ensures ws[m].holder.spent.Some? && ws[n].holder.spent.Some?
    ensures ws[m].holder.spent != ws[n].holder.spent
  {
    var km, gm := EveryLooseningSpendsAGrant(ws, acts, m);
    var kn, gn := EveryLooseningSpendsAGrant(ws, acts, n);
    assert Step(ws[m], acts[m], ws[m + 1]);
    assert ws[m + 1].holder.Free?;
    assert m < kn;
    FateIsFinal(ws, acts, km + 1, kn, gm.serial);
  }

  // At most one grant is stored, every other grant ever issued has ended, and only
  // grants that were issued have.
  lemma GrantsAreConserved(ws: seq<World>, acts: seq<Action>, n: nat, s: nat)
    requires Run(ws, acts) && Inv(ws[0]) && n < |ws|
    ensures var stored := ws[n].grant.Some? && ws[n].grant.value.serial == s;
            (s < ws[n].issued <==> stored || s in ws[n].ended) && !(stored && s in ws[n].ended)
  {
    InvAlong(ws, acts, n);
  }

  // This step records a wrong code against grant s, which survives it.
  predicate WrongCodeFor(w: World, a: Action, s: nat) {
    && a.Redeem? && a.rowOk && w.holder.Redeeming? && w.grant.Some? && w.grant.value.serial == s
    && Judge(w.grant, w.holder.change, w.holder.code, w.holder.at) == WrongCode
  }

  // How many of the first n steps did.
  function Survived(ws: seq<World>, acts: seq<Action>, n: nat, s: nat): nat
    requires Run(ws, acts) && n < |ws|
  {
    if n == 0 then 0
    else
      var before := Survived(ws, acts, n - 1, s);
      if WrongCodeFor(ws[n - 1], acts[n - 1], s) then before + 1 else before
  }

  predicate Tally(w: World, s: nat, count: nat) {
    && count < MAX_ATTEMPTS
    && (w.issued <= s ==> count == 0)
    && (w.grant.Some? && w.grant.value.serial == s ==> count == w.grant.value.attempts)
  }

  lemma TallyStep(w: World, a: Action, v: World, s: nat, count: nat)
    requires Inv(w) && Step(w, a, v) && Tally(w, s, count)
    ensures Tally(v, s, if WrongCodeFor(w, a, s) then count + 1 else count)
  {}

  lemma TallyAt(ws: seq<World>, acts: seq<Action>, n: nat, s: nat)
    requires Run(ws, acts) && Inv(ws[0]) && 0 < n < |ws|
    requires Tally(ws[n - 1], s, Survived(ws, acts, n - 1, s))
    ensures Tally(ws[n], s, Survived(ws, acts, n, s))
  {
    InvAlong(ws, acts, n - 1);
    assert Step(ws[n - 1], acts[n - 1], ws[n]);
    TallyStep(ws[n - 1], acts[n - 1], ws[n], s, Survived(ws, acts, n - 1, s));
  }

  // A grant survives at most two wrong codes: the attempts on its row are the wrong
  // codes recorded against it, and the third ends it.
  lemma {:induction false} AtMostTwoWrongCodes(ws: seq<World>, acts: seq<Action>, n: nat, s: nat)
    requires Run(ws, acts) && Inv(ws[0]) && ws[0].issued <= s && n < |ws|
    ensures Tally(ws[n], s, Survived(ws, acts, n, s)) && Survived(ws, acts, n, s) <= 2
  {
    if n > 0 {
      AtMostTwoWrongCodes(ws, acts, n - 1, s);
      TallyAt(ws, acts, n, s);
    }
  }

  // The per-payment cap never exceeds the window cap.
  lemma CapPairHolds(ws: seq<World>, acts: seq<Action>, n: nat)
    requires Run(ws, acts) && Inv(ws[0]) && n < |ws|
    ensures ws[n].controls.payment <= ws[n].controls.window
  {
    InvAlong(ws, acts, n);
  }

  predicate WritesWhole(a: Action) {
    && (a.Install? || a.Sweep? || a.Redeem? ==> a.fileOk && a.rowOk)
  }

  // The operator's file and the stored grant agree, both ways, while every write and
  // removal is made whole; stopping the process between them does no harm.
  lemma {:induction false} FileAgreesWithRow(ws: seq<World>, acts: seq<Action>, n: nat)
    requires Run(ws, acts) && Inv(ws[0]) && !ws[0].faulty && n < |ws|
    requires forall i :: 0 <= i < n ==> WritesWhole(acts[i])
    ensures !ws[n].faulty && ws[n].file == ShownOf(ws[n].grant)
  {
    InvAlong(ws, acts, n);
    if n > 0 {
      FileAgreesWithRow(ws, acts, n - 1);
      assert Step(ws[n - 1], acts[n - 1], ws[n]) && WritesWhole(acts[n - 1]);
    }
  }

  // A write cut short after its file half leaves a file with no grant behind it only
  // when it was installing over nothing. Cut while ending a grant, it leaves a live
  // grant with no file, which operator.go:648-656 says the order rules out.
  lemma CutWriteLeaves(w: World, a: Action)
    requires Inv(w) && !w.faulty && Can(w, a)
    requires (a.Install? || a.Sweep? || a.Redeem?) && a.fileOk && !a.rowOk
    requires a.Redeem? ==> Judge(w.grant, w.holder.change, w.holder.code, w.holder.at).Ends?
    ensures var v := Do(w, a);
            && v.grant == w.grant
            && (v.file.Some? && v.grant.None? <==> a.Install? && w.grant.None?)
            && (v.file.None? && v.grant.Some? <==> !a.Install?)
  {}
}

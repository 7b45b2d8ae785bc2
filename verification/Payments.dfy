// An outbound payment: reserve, mark, send, close, and the resolver that finishes what a
// crash or a broken stream left open. One reservation against a node that may lose its
// records, with the process free to die between any two steps.
module Payments {
  import opened Wrappers
  import opened Grpc

  // What became of a payment at the node. Never: the node has not initiated it.
  datatype Fate = Never | InFlight | Failed | Paid(fee: nat) {
    predicate Terminal() { Failed? || Paid? }
  }

  // ---------------------------------------------------------------------- the node

  // `prior` is what an earlier attempt at the same invoice left there, `fate` what this
  // attempt has come to, `air` a request of this attempt the node may still act on.
  datatype Node = Node(prior: Fate, fate: Fate, air: bool, forgotten: bool) {
    // What the node answers about the payment's hash.
    function Record(): Fate {
      if forgotten then Never else if fate.Never? then prior else fate
    }

    // The node was not reached by this attempt and cannot be any more.
    predicate NeverWill() { fate.Never? && !air }
  }

  datatype NodeAct = Initiate | Finish(outcome: Fate) | Refuse | Forget

  predicate NodeCan(n: Node, a: NodeAct) {
    match a
    case Initiate => n.air && n.fate.Never? && !n.Record().Paid?
    case Finish(r) => n.fate.InFlight? && r.Terminal()
    case Refuse => n.air
    case Forget => true
  }

  function NodeDo(n: Node, a: NodeAct): Node
    requires NodeCan(n, a)
  {
    match a
    case Initiate => n.(fate := InFlight, air := false, forgotten := false)
    case Finish(r) => n.(fate := r)
    case Refuse => n.(air := false)
    case Forget => n.(forgotten := true)
  }

  // --------------------------------------------------------------------- the books

  // A settled row is booked at a fee within the reserve; what the route cost above it is
  // an adjustment of its own.
  datatype Row = Absent | Pending | Settled(fee: nat, excess: nat) | Reversed {
    function Cost(): nat
      requires Settled?
    {
      fee + excess
    }
  }

  // What the reservation took, and whether the payment's hash can be read.
  datatype Bill = Bill(amount: nat, reserve: nat, hashed: bool)

  // The reservation's row, the wallet's balance entries for it in total, and what was
  // added to its connection's spend counter since the charge.
  datatype Books = Books(
    row: Row, marked: bool, attempts: nat, named: bool, asserted: bool, ledger: int,
    corrections: seq<int>)

  const MAX_RESOLVE_ATTEMPTS := 5

  // A store write may fail, and a failed one may still have been made.
  datatype Write = Ok | Errored(wrote: bool) {
    predicate Wrote() { Ok? || wrote }
  }

  // A route dearer than the reserve settles at the reserve, the excess as an adjustment.
  function Booked(bill: Bill, fee: nat): Row {
    if fee > bill.reserve then Settled(bill.reserve, fee - bill.reserve) else Settled(fee, 0)
  }

  // The store closes a pending row once; a row already closed is left alone.
  function Closed(bill: Bill, b: Books, result: Fate, write: Write): Books {
    if !b.row.Pending? || !write.Wrote() then b
    else if result.Paid? then
      var row := Booked(bill, result.fee);
      b.(row := row, ledger := b.ledger + (bill.reserve - row.fee) - row.excess)
    else b.(row := Reversed, ledger := b.ledger + bill.amount + bill.reserve)
  }

  // BudgetCorrection. The counter was charged amount and reserve: a settled payment
  // exchanges the reserve for its fee, any other end takes the whole charge off.
  function Correction(bill: Bill, result: Fate): int {
    if result.Paid? then result.fee - bill.reserve else -(bill.amount + bill.reserve)
  }

  function Corrected(bill: Bill, b: Books, result: Fate, ok: bool): Books {
    if !ok || Correction(bill, result) == 0 then b
    else b.(corrections := b.corrections + [Correction(bill, result)])
  }

  // --------------------------------------------------------------------- the payer

  // Where the call that makes the payment has got to. Correcting is the ladder's turn to
  // put the connection's budget right; Over is a call that returned or died.
  datatype Pc =
    | Idle | Reserved | Marked | Sending | Asking | Clearing
    | Closing(result: Fate) | Correcting(result: Fate) | Over

  // What payInvoice comes back with; Ended also when the end could not be booked.
  datatype Answer = NotDispatched | Unclear | NothingSent | Ended(result: Fate)

  datatype SendError = Status(code: Code) | ContextEnded

  // IsTransportOrCallerFailure: a failure that says nothing about how far the node got.
  predicate IsTransportOrCallerFailure(e: SendError) {
    || e.ContextEnded?
    || e.code in {Code.Canceled, Code.DeadlineExceeded, Code.Unavailable, Code.Internal,
                  Code.ResourceExhausted, Code.PermissionDenied}
  }

  // What the payer hears on an open stream. `own` says whether the node's handler really
  // answered; the payer sees only the error.
  datatype Heard = Result(result: Fate) | Error(e: SendError, own: bool)

  datatype Verdict = Has | HasNot | NoAnswer

  datatype PayerAct =
    | Reserve(ok: bool) | Mark(write: Write) | Open(ok: bool) | Hear(heard: Heard)
    | Check(verdict: Verdict) | Clear(write: Write) | CloseLive(write: Write)
    | CorrectLive(ok: bool)

  // ------------------------------------------------------------------ the resolver

  // Where one resolver pass has got to with this row, and what it reported in the end.
  datatype Pass =
    | Tracking(dispatched: bool) | Returning | Booking(result: Fate) | Counting | Naming
    | Adjusting(result: Fate) | Finished(resolved: bool)

  datatype Tracked = Found(result: Fate) | NoRecord | NoWord

  datatype PassAct =
    | Track(tracked: Tracked) | Return(write: Write) | Book(write: Write, reset: bool)
    | Count(ok: bool) | Name(ok: bool) | Correct(ok: bool)

  // --------------------------------------------------------------------- the world

  // The faults the promises below have to name.
  //   misread: a stream that broke was taken for the handler's own answer
  //   pruned:  the node lost this payment's record before the payer had asked about it
  //   earlier: the resolver was answered from the record of an earlier attempt
  //   stale:   and this attempt's request was still on its way to the node
  //   overlap: a resolver pass read the row while the call was still making the payment
  datatype Faults = Faults(misread: bool, pruned: bool, earlier: bool, stale: bool, overlap: bool) {
    predicate Honest() { !misread && !pruned }
  }

  datatype World = World(
    bill: Bill, books: Books, pc: Pc, told: Option<Answer>, passes: seq<Pass>, node: Node,
    faults: Faults)

  datatype Action =
    | Pay(p: PayerAct) | AtNode(n: NodeAct) | Begin | Resolve(i: nat, r: PassAct)
    | Assert(settled: bool) | Crash

  predicate PayerCan(w: World, a: PayerAct) {
    match a
    case Reserve(_) => w.pc.Idle?
    case Mark(_) => w.pc.Reserved?
    case Open(_) => w.pc.Marked?
    case Hear(Result(r)) => w.pc.Sending? && r == w.node.fate && r.Terminal()
    case Hear(Error(_, own)) => w.pc.Sending? && (own ==> !w.node.air)
    case Check(v) =>
      && w.pc.Asking? && (v.HasNot? ==> w.bill.hashed && w.node.Record().Never?)
      && (v.Has? ==> w.bill.hashed && !w.node.Record().Never?)
    case Clear(_) => w.pc.Clearing?
    case CloseLive(_) => w.pc.Closing?
    case CorrectLive(_) => w.pc.Correcting?
  }

  function HearDo(w: World, h: Heard): World {
    match h
    case Result(r) => w.(pc := Closing(r))
    case Error(e, own) =>
      if IsTransportOrCallerFailure(e) then w.(pc := Over, told := Some(Unclear))
      else w.(pc := Asking, faults := w.faults.(misread := w.faults.misread || !own))
  }

  function PayerDo(w: World, a: PayerAct): World
    requires PayerCan(w, a)
  {
    match a
    case Reserve(ok) =>
      if !ok then w.(pc := Correcting(Failed), told := Some(NotDispatched))
      else w.(pc := Reserved,
        books := w.books.(row := Pending, ledger := -(w.bill.amount + w.bill.reserve)))
    case Mark(write) =>
      var m := w.(books := w.books.(marked := w.books.marked || write.Wrote()));
      if write.Ok? then m.(pc := Marked) else m.(pc := Over, told := Some(Unclear))
    case Open(ok) =>
      if ok then w.(pc := Sending, node := w.node.(air := true)) else w.(pc := Clearing)
    case Hear(h) => HearDo(w, h)
    case Check(v) =>
      if v.HasNot? then w.(pc := Clearing) else w.(pc := Over, told := Some(Unclear))
    case Clear(write) =>
      w.(books := w.books.(marked := w.books.marked && !write.Wrote()),
         told := Some(NothingSent), pc := Correcting(Failed))
    case CloseLive(write) =>
      w.(books := Closed(w.bill, w.books, w.pc.result, write), told := Some(Ended(w.pc.result)),
         pc := if write.Ok? then Correcting(w.pc.result) else Over)
    case CorrectLive(ok) =>
      w.(books := Corrected(w.bill, w.books, w.pc.result, ok), pc := Over)
  }

  predicate PassCan(w: World, p: Pass, a: PassAct) {
    match a
    case Track(v) =>
      && p.Tracking? && (v.NoRecord? ==> w.node.Record().Never?)
      && (v.Found? ==> v.result == w.node.Record() && v.result.Terminal())
    case Return(_) => p.Returning?
    case Book(_, _) => p.Booking?
    case Count(_) => p.Counting?
    case Name(_) => p.Naming?
    case Correct(_) => p.Adjusting?
  }

  function PassNext(w: World, p: Pass, a: PassAct): Pass
    requires PassCan(w, p, a)
  {
    match a
    case Track(NoRecord) => if p.dispatched then Naming else Returning
    case Track(NoWord) => Counting
    case Track(Found(r)) => Booking(r)
    case Return(write) => Finished(write.Ok?)
    case Book(write, _) =>
      if write.Errored? then Counting
      else if w.books.row.Pending? then Adjusting(p.result) else Finished(true)
    case Count(ok) =>
      if ok && w.books.row.Pending? && w.books.attempts + 1 >= MAX_RESOLVE_ATTEMPTS
      then Naming else Finished(false)
    case Name(_) => Finished(false)
    case Correct(_) => Finished(true)
  }

  function PassBooks(w: World, p: Pass, a: PassAct): Books
    requires PassCan(w, p, a)
  {
    var b := w.books;
    match a
    case Track(_) => b
    case Return(write) => Closed(w.bill, b, Failed, write)
    case Book(write, reset) =>
      var c := Closed(w.bill, b, p.result, write);
      if write.Ok? && reset then c.(attempts := 0) else c
    case Count(ok) => if ok && b.row.Pending? then b.(attempts := b.attempts + 1) else b
    case Name(ok) => b.(named := b.named || (ok && b.row.Pending?))
    case Correct(ok) => Corrected(w.bill, b, p.result, ok)
  }

  function PassFaults(w: World, a: PassAct): Faults {
    if a.Track? && a.tracked.Found? && w.node.fate.Never? then
      w.faults.(earlier := true, stale := w.faults.stale || w.node.air)
    else w.faults
  }

  predicate Can(w: World, a: Action) {
    match a
    case Pay(p) => PayerCan(w, p)
    case AtNode(n) => NodeCan(w.node, n)
    case Begin => w.books.row.Pending?
    case Resolve(i, r) => i < |w.passes| && PassCan(w, w.passes[i], r)
    case Assert(_) => w.books.row.Pending? && w.books.named
    case Crash => true
  }

  // The record of this payment going before the payer has asked about it.
  predicate Prunes(w: World, n: NodeAct) {
    n.Forget? && (w.pc.Sending? || w.pc.Asking?) && !w.node.fate.Never?
  }

  function Do(w: World, a: Action): World
    requires Can(w, a)
  {
    match a
    case Pay(p) => PayerDo(w, p)
    case AtNode(n) =>
      w.(node := NodeDo(w.node, n), faults := w.faults.(pruned := w.faults.pruned || Prunes(w, n)))
    case Begin =>
      w.(passes := w.passes + [if w.bill.hashed then Tracking(w.books.marked) else Naming],
         faults := w.faults.(overlap := w.faults.overlap || !w.pc.Over?))
    case Resolve(i, r) =>
      var p := w.passes[i];
      w.(books := PassBooks(w, p, r), passes := w.passes[i := PassNext(w, p, r)],
         faults := PassFaults(w, r))
    case Assert(settled) =>
      var result := if settled then Paid(w.bill.reserve) else Failed;
      w.(books := Closed(w.bill, w.books, result, Ok).(asserted := true))
    case Crash => w.(pc := Over, passes := seq(|w.passes|, _ => Finished(false)))
  }

  ghost predicate Step(w: World, a: Action, v: World) { Can(w, a) && v == Do(w, a) }

  ghost predicate Run(ws: seq<World>, acts: seq<Action>) {
    |ws| == |acts| + 1 && forall n :: 0 <= n < |acts| ==> Step(ws[n], acts[n], ws[n + 1])
  }

  // A payment nobody has asked for yet, at a node that may know an earlier, finished
  // attempt at the same invoice.
  predicate Fresh(w: World) {
    && w.books == Books(Absent, false, 0, false, false, 0, [])
    && w.pc.Idle? && w.told.None? && w.passes == []
    && !w.node.prior.InFlight? && w.node.fate.Never? && !w.node.air && !w.node.forgotten
    && w.faults == Faults(false, false, false, false, false)
  }

  // -------------------------------------------------------------------- invariants

  predicate Live(pc: Pc) { !pc.Over? && !pc.Idle? }

  // The payer's own progress, and what the node can have seen at each point of it.
  predicate PayerOk(pc: Pc, told: Option<Answer>, marked: bool, n: Node, f: Faults) {
    && !n.prior.InFlight?
    && (n.air ==> n.fate.Never?)
    && (told.Some? ==> pc.Correcting? || pc.Over?)
    && (pc.Idle? || pc.Reserved? || pc.Marked? ==> n.NeverWill())
    && (pc.Marked? || pc.Sending? || pc.Asking? ==> marked)
    && (pc.Asking? && !f.misread ==> !n.air)
    && ((pc.Sending? || pc.Asking?) && !n.fate.Never? && !f.pruned ==> !n.forgotten)
    && (pc.Clearing? && f.Honest() ==> n.NeverWill())
    && (told == Some(NothingSent) && f.Honest() ==> n.NeverWill())
    && (f.pruned ==> n.forgotten && !n.fate.Never?)
    && (pc.Closing? ==> pc.result == n.fate && n.fate.Terminal())
    && (!marked && f.Honest() ==> n.NeverWill())
  }

  predicate PayerFine(w: World) { PayerOk(w.pc, w.told, w.books.marked, w.node, w.faults) }

  lemma NodeKeepsPayer(w: World, a: NodeAct)
    requires PayerFine(w) && NodeCan(w.node, a)
    ensures PayerFine(Do(w, AtNode(a)))
  {}

  lemma PayerKeepsPayer(w: World, a: PayerAct)
    requires PayerFine(w) && PayerCan(w, a)
    ensures PayerFine(PayerDo(w, a))
  {}

  lemma PassKeepsPayer(w: World, i: nat, a: PassAct)
    requires PayerFine(w) && Can(w, Resolve(i, a))
    ensures PayerFine(Do(w, Resolve(i, a)))
  {}

  // No resolver pass has touched a row whose call is still running.
  predicate Untouched(w: World) {
    w.passes == [] && !w.books.named && !w.books.asserted && w.books.corrections == []
  }

  predicate Alone(w: World) {
    && (w.pc.Idle? ==> Untouched(w) && w.books.row.Absent?)
    && (w.books.row.Absent? ==> !w.books.marked && (w.pc.Idle? || w.pc.Correcting? || w.pc.Over?))
    && (!w.faults.overlap && Live(w.pc) ==> Untouched(w) && (w.books.row.Pending? || w.pc.Correcting?))
  }

  lemma PayerKeepsAlone(w: World, a: PayerAct)
    requires Alone(w) && PayerCan(w, a)
    ensures Alone(PayerDo(w, a))
  {}

  lemma PassKeepsAlone(w: World, i: nat, a: PassAct)
    requires Alone(w) && Can(w, Resolve(i, a))
    ensures Alone(Do(w, Resolve(i, a)))
  {}

  // Nothing has gone wrong that could reverse a payment which settles. An earlier record
  // can only do so when that attempt failed.
  predicate Trusts(n: Node, f: Faults) {
    f.Honest() && !f.overlap && (n.prior.Failed? ==> !f.stale)
  }

  // A result the node gave: this attempt's, or an earlier attempt's.
  predicate FromNode(n: Node, f: Faults, r: Fate) {
    && (r == n.fate || r == n.prior)
    && (!f.earlier ==> r == n.fate)
    && (r.Failed? && Trusts(n, f) ==> n.fate.Failed? || n.NeverWill())
  }

  // What the wallet's ceiling is down by.
  function Owed(bill: Bill, row: Row): int {
    match row
    case Absent => 0
    case Pending => -(bill.amount + bill.reserve)
    case Settled(fee, excess) => -(bill.amount + fee + excess)
    case Reversed => 0
  }

  // A row the code closed says what the node said.
  predicate RowOk(b: Books, n: Node, f: Faults) {
    && (b.row.Settled? && !b.asserted ==> FromNode(n, f, Paid(b.row.Cost())))
    && (b.row.Reversed? && !b.asserted && Trusts(n, f) ==> n.fate.Failed? || n.NeverWill())
  }

  predicate RowFine(w: World) {
    && RowOk(w.books, w.node, w.faults) && w.books.ledger == Owed(w.bill, w.books.row)
    && (w.books.asserted ==> !w.books.row.Pending? && !w.books.row.Absent?)
    && (w.books.row.Settled? ==> w.books.row == Booked(w.bill, w.books.row.Cost()))
  }

  predicate PassOk(w: World, p: Pass) {
    && (!w.faults.overlap && !p.Finished? ==> w.pc.Over?)
    && (!w.faults.overlap && p.Tracking? ==> p.dispatched == w.books.marked)
    && (!w.faults.overlap && p.Returning? ==> !w.books.marked)
    && (p.Booking? || p.Adjusting? ==> p.result.Terminal())
    && (p.Booking? ==> FromNode(w.node, w.faults, p.result))
    && (p.Tracking? || p.Booking? ==> w.bill.hashed)
    && (p.Booking? && Exact(w.faults) ==> w.told != Some(NothingSent))
  }

  predicate PassesOk(w: World) { forall p <- w.passes :: PassOk(w, p) }

  lemma NodeKeepsFromNode(n: Node, f: Faults, r: Fate, a: NodeAct, g: Faults)
    requires FromNode(n, f, r) && NodeCan(n, a) && r.Terminal()
    requires g == f || g == f.(pruned := true)
    ensures FromNode(NodeDo(n, a), g, r)
  {}

  lemma NodeKeepsRow(w: World, a: NodeAct)
    requires RowFine(w) && PayerFine(w) && NodeCan(w.node, a)
    ensures RowFine(Do(w, AtNode(a)))
  {
    var v := Do(w, AtNode(a));
    if w.books.row.Settled? && !w.books.asserted {
      NodeKeepsFromNode(w.node, w.faults, Paid(w.books.row.Cost()), a, v.faults);
    }
  }

  lemma ClosingKeepsRow(w: World, r: Fate, write: Write, c: Books)
    requires RowFine(w) && r.Terminal() && c == Closed(w.bill, w.books, r, write)
    requires r.Paid? ==> FromNode(w.node, w.faults, r)
    requires r.Failed? && Trusts(w.node, w.faults) ==> w.node.fate.Failed? || w.node.NeverWill()
    ensures RowOk(c, w.node, w.faults) && c.ledger == Owed(w.bill, c.row)
    ensures c.row.Settled? ==> c.row == Booked(w.bill, c.row.Cost())
    ensures c.asserted == w.books.asserted && (!w.books.row.Pending? ==> c.row == w.books.row)
  {}

  lemma PayerKeepsRow(w: World, a: PayerAct)
    requires RowFine(w) && PayerFine(w) && Alone(w) && PayerCan(w, a)
    ensures RowFine(PayerDo(w, a))
  {
    if a.CloseLive? {
      ClosingKeepsRow(w, w.pc.result, a.write, PayerDo(w, a).books);
    }
  }

  lemma PassKeepsRow(w: World, i: nat, a: PassAct)
    requires RowFine(w) && PayerFine(w) && Can(w, Resolve(i, a)) && PassOk(w, w.passes[i])
    ensures RowFine(Do(w, Resolve(i, a)))
  {
    if a.Return? {
      ClosingKeepsRow(w, Failed, a.write, Closed(w.bill, w.books, Failed, a.write));
    } else if a.Book? {
      var r := w.passes[i].result;
      ClosingKeepsRow(w, r, a.write, Closed(w.bill, w.books, r, a.write));
    }
  }

  lemma NodeKeepsPass(w: World, a: NodeAct, p: Pass)
    requires PassOk(w, p) && PayerFine(w) && NodeCan(w.node, a)
    ensures PassOk(Do(w, AtNode(a)), p)
  {
    if p.Booking? {
      NodeKeepsFromNode(w.node, w.faults, p.result, a, Do(w, AtNode(a)).faults);
    }
  }

  lemma PayerKeepsPass(w: World, a: PayerAct, p: Pass)
    requires PassOk(w, p) && PayerCan(w, a) && p in w.passes && Alone(w)
    ensures PassOk(PayerDo(w, a), p)
  {}

  // The pass a step moves, and one it leaves alone.
  lemma PassMoves(w: World, i: nat, a: PassAct)
    requires Can(w, Resolve(i, a)) && PassOk(w, w.passes[i]) && PayerFine(w)
    ensures PassOk(Do(w, Resolve(i, a)), PassNext(w, w.passes[i], a))
  {}

  lemma PassStays(w: World, i: nat, a: PassAct, p: Pass)
    requires Can(w, Resolve(i, a)) && PassOk(w, p) && PayerFine(w)
    ensures PassOk(Do(w, Resolve(i, a)), p)
  {}

  // ------------------------------------------------- one correction for one reservation

  // What the row's end calls for. A row a person closed tells nothing about the payment.
  function Due(b: Books): Fate {
    if b.row.Settled? && !b.asserted then Paid(b.row.Cost()) else Failed
  }

  predicate Exact(f: Faults) { !f.misread && !f.earlier && !f.overlap }

  predicate NoneAdjusting(ps: seq<Pass>) { forall p <- ps :: !p.Adjusting? }

  predicate OneAdjusting(ps: seq<Pass>) {
    forall i, j :: 0 <= i < j < |ps| ==> !(ps[i].Adjusting? && ps[j].Adjusting?)
  }

  // Whoever may still correct, or has: nobody else can come to.
  predicate Taken(w: World) { w.books.corrections != [] || w.pc.Correcting? || !NoneAdjusting(w.passes) }

  predicate Once(w: World) {
    && (w.books.corrections == [] || w.books.corrections == [Correction(w.bill, Due(w.books))])
    && (w.books.corrections != [] ==> !w.pc.Correcting? && NoneAdjusting(w.passes))
    && OneAdjusting(w.passes)
    && (w.pc.Correcting? ==> w.pc.result == Due(w.books))
    && (forall p <- w.passes :: p.Adjusting? ==> p.result == Due(w.books))
    && (Taken(w) ==> !w.books.row.Pending? || w.told == Some(NothingSent))
  }

  predicate OnceFine(w: World) {
    && (w.faults.stale ==> w.faults.earlier) && (w.faults.earlier ==> w.bill.hashed)
    && (Exact(w.faults) ==> Once(w))
  }

  lemma NodeKeepsOnce(w: World, a: NodeAct)
    requires OnceFine(w) && NodeCan(w.node, a)
    ensures OnceFine(Do(w, AtNode(a)))
  {}

  lemma PayerKeepsOnce(w: World, a: PayerAct)
    requires OnceFine(w) && Alone(w) && RowFine(w) && PayerFine(w) && PayerCan(w, a)
    ensures OnceFine(PayerDo(w, a))
  {}

  // Booking an answer at a pending row, nobody else has taken the correction or can.
  lemma BookingFindsItFree(w: World, p: Pass)
    requires OnceFine(w) && PayerFine(w) && Exact(w.faults) && PassOk(w, p) && p.Booking?
    requires w.books.row.Pending?
    ensures !Taken(w)
  {}

  lemma PassKeepsDue(w: World, i: nat, a: PassAct)
    requires OnceFine(w) && RowFine(w) && PayerFine(w) && Exact(PassFaults(w, a))
    requires Can(w, Resolve(i, a)) && PassOk(w, w.passes[i])
    ensures Taken(w) ==> Due(PassBooks(w, w.passes[i], a)) == Due(w.books)
  {
    if a.Book? && w.books.row.Pending? {
      BookingFindsItFree(w, w.passes[i]);
    }
  }

  // The pass that starts to correct is the only one, and it corrects what is due.
  lemma BookKeepsOnce(w: World, i: nat, a: PassAct)
    requires OnceFine(w) && RowFine(w) && PayerFine(w) && Alone(w) && a.Book?
    requires Can(w, Resolve(i, a)) && PassOk(w, w.passes[i])
    ensures OnceFine(Do(w, Resolve(i, a)))
  {
    var v := Do(w, Resolve(i, a));
    if Exact(v.faults) {
      PassKeepsDue(w, i, a);
      if w.books.row.Pending? { BookingFindsItFree(w, w.passes[i]); }
      assert forall p <- w.passes :: p.Adjusting? ==> Taken(w);
      forall p | p in v.passes && p.Adjusting? ensures p.result == Due(v.books) {
        assert p in w.passes || p == PassNext(w, w.passes[i], a);
      }
    }
  }

  lemma PassKeepsOnce(w: World, i: nat, a: PassAct)
    requires OnceFine(w) && RowFine(w) && PayerFine(w) && Alone(w)
    requires Can(w, Resolve(i, a)) && PassOk(w, w.passes[i])
    ensures OnceFine(Do(w, Resolve(i, a)))
  {
    var v := Do(w, Resolve(i, a));
    if a.Book? {
      BookKeepsOnce(w, i, a);
    } else if Exact(v.faults) {
      PassKeepsDue(w, i, a);
      assert w.passes[i] in w.passes && !PassNext(w, w.passes[i], a).Adjusting?;
      assert forall p <- v.passes :: p.Adjusting? ==> p in w.passes && Taken(w);
    }
  }

  // ------------------------------------------------------------- every run keeps them

  predicate Inv(w: World) {
    PayerFine(w) && Alone(w) && RowFine(w) && PassesOk(w) && OnceFine(w)
  }

  lemma FreshIsGood(w: World)
    requires Fresh(w)
    ensures Inv(w)
  {}

  lemma PayStep(w: World, a: PayerAct)
    requires Inv(w) && PayerCan(w, a)
    ensures Inv(PayerDo(w, a))
  {
    PayerKeepsPayer(w, a);
    PayerKeepsAlone(w, a);
    PayerKeepsRow(w, a);
    PayerKeepsOnce(w, a);
    forall p | p in w.passes ensures PassOk(PayerDo(w, a), p) { PayerKeepsPass(w, a, p); }
  }

  lemma NodeStep(w: World, a: NodeAct)
    requires Inv(w) && NodeCan(w.node, a)
    ensures Inv(Do(w, AtNode(a)))
  {
    NodeKeepsPayer(w, a);
    NodeKeepsRow(w, a);
    NodeKeepsOnce(w, a);
    forall p | p in w.passes ensures PassOk(Do(w, AtNode(a)), p) { NodeKeepsPass(w, a, p); }
  }

  lemma ResolveStep(w: World, i: nat, a: PassAct)
    requires Inv(w) && Can(w, Resolve(i, a))
    ensures Inv(Do(w, Resolve(i, a)))
  {
    assert w.passes[i] in w.passes;
    PassKeepsPayer(w, i, a);
    PassKeepsAlone(w, i, a);
    PassKeepsRow(w, i, a);
    PassKeepsOnce(w, i, a);
    PassMoves(w, i, a);
    forall p | p in w.passes ensures PassOk(Do(w, Resolve(i, a)), p) { PassStays(w, i, a, p); }
  }

  lemma BeginStep(w: World)
    requires Inv(w) && Can(w, Begin)
    ensures Inv(Do(w, Begin))
  {
    var v := Do(w, Begin);
    forall p | p in v.passes ensures PassOk(v, p) {
      if p in w.passes { assert PassOk(w, p); }
    }
    assert !NoneAdjusting(v.passes) ==> !NoneAdjusting(w.passes);
  }

  lemma AssertStep(w: World, settled: bool)
    requires Inv(w) && Can(w, Assert(settled))
    ensures Inv(Do(w, Assert(settled)))
  {
    var v := Do(w, Assert(settled));
    forall p | p in v.passes ensures PassOk(v, p) { assert PassOk(w, p); }
  }

  lemma CrashStep(w: World)
    requires Inv(w)
    ensures Inv(Do(w, Crash))
  {}

  lemma InvStep(w: World, a: Action)
    requires Inv(w) && Can(w, a)
    ensures Inv(Do(w, a))
  {
    match a
    case Pay(p) => PayStep(w, p);
    case AtNode(n) => NodeStep(w, n);
    case Begin => BeginStep(w);
    case Resolve(i, r) => ResolveStep(w, i, r);
    case Assert(s) => AssertStep(w, s);
    case Crash => CrashStep(w);
  }

  lemma {:induction false} InvAlong(ws: seq<World>, acts: seq<Action>, n: nat)
    requires Run(ws, acts) && Fresh(ws[0]) && n <= |acts|
    ensures Inv(ws[n])
  {
    if n == 0 {
      FreshIsGood(ws[0]);
    } else {
      InvAlong(ws, acts, n - 1);
      assert Step(ws[n - 1], acts[n - 1], ws[n]);
      InvStep(ws[n - 1], acts[n - 1]);
    }
  }

  lemma Grow(ws: seq<World>, acts: seq<Action>, a: Action)
    requires Run(ws, acts) && Can(ws[|acts|], a)
    ensures Run(ws + [Do(ws[|acts|], a)], acts + [a])
  {
    var vs, more := ws + [Do(ws[|acts|], a)], acts + [a];
    forall i | 0 <= i < |more| ensures Step(vs[i], more[i], vs[i + 1]) {
      assert i < |acts| ==> Step(ws[i], acts[i], ws[i + 1]);
    }
  }

  // ------------------------------------------------------------------ the promises

  // A row the code reversed belongs to a payment the node reported failed, or never
  // initiated and never will.
  predicate ReversedRightly(w: World) {
    w.books.row.Reversed? && !w.books.asserted ==> w.node.fate.Failed? || w.node.NeverWill()
  }

  // A row the code settled carries what this payment cost.
  predicate SettledRightly(w: World) {
    w.books.row.Settled? && !w.books.asserted ==> w.node.fate == Paid(w.books.row.Cost())
  }

  function Total(cs: seq<int>): int {
    if cs == [] then 0 else Total(cs[..|cs| - 1]) + cs[|cs| - 1]
  }

  lemma TotalOfOne(c: int)
    ensures Total([c]) == c
  {
    assert [c][..0] == [];
  }

  // What the connection's spend counter stands at for this payment: the charge it was let
  // in with, and what was put to it since.
  function Counter(w: World): int { w.bill.amount + w.bill.reserve + Total(w.books.corrections) }

  // The counter has come to what was spent: amount and fee by a row the code settled, and
  // nothing by any other end.
  predicate CounterNets(w: World) {
    Counter(w) == match w.books.row
      case Settled(fee, excess) => if w.books.asserted then 0 else w.bill.amount + fee + excess
      case _ => 0
  }

  // The budget is corrected not at all, or once and so that the counter nets.
  predicate CorrectedRightly(w: World) {
    w.books.corrections == [] || (|w.books.corrections| == 1 && CounterNets(w))
  }

  // An earlier attempt at the invoice, which the resolver can be answered about.
  predicate TriedBefore(w: World) { w.bill.hashed && w.node.prior.Terminal() }

  lemma {:induction false} PriorStays(ws: seq<World>, acts: seq<Action>, n: nat)
    requires Run(ws, acts) && n <= |acts|
    ensures ws[n].node.prior == ws[0].node.prior && ws[n].bill == ws[0].bill
  {
    if n > 0 {
      PriorStays(ws, acts, n - 1);
      assert Step(ws[n - 1], acts[n - 1], ws[n]);
    }
  }

  // No settled payment is reversed, in a run without the three faults and where no record
  // of a failed earlier attempt answered while the request was still on its way.
  lemma NoSettledPaymentIsReversed(ws: seq<World>, acts: seq<Action>, n: nat)
    requires Run(ws, acts) && Fresh(ws[0]) && n <= |acts| && Trusts(ws[n].node, ws[n].faults)
    ensures ReversedRightly(ws[n])
  {
    InvAlong(ws, acts, n);
  }

  // A settled row carries what the node says the payment cost, whatever faults the run
  // met, split at the reserve; and it is this attempt's cost unless an earlier attempt's
  // record answered.
  lemma SettledRowsCarryTheNodesFee(ws: seq<World>, acts: seq<Action>, n: nat)
    requires Run(ws, acts) && Fresh(ws[0]) && n <= |acts|
    ensures var w := ws[n];
            w.books.row.Settled? && !w.books.asserted ==>
              && (w.node.fate == Paid(w.books.row.Cost()) || w.node.prior == Paid(w.books.row.Cost()))
              && w.books.row.fee <= w.bill.reserve
              && (w.books.row.excess > 0 ==> w.books.row.fee == w.bill.reserve)
    ensures !ws[n].faults.earlier ==> SettledRightly(ws[n])
  {
    InvAlong(ws, acts, n);
  }

  // "Nothing was sent", once told, stays true: the node never initiates this payment.
  lemma NothingSentIsTheTruth(ws: seq<World>, acts: seq<Action>, n: nat)
    requires Run(ws, acts) && Fresh(ws[0]) && n <= |acts|
    requires ws[n].told == Some(NothingSent) && ws[n].faults.Honest()
    ensures ws[n].node.NeverWill()
  {
    InvAlong(ws, acts, n);
  }

  // Over every pass and crash, and though the node lose any record at any time, the
  // connection's budget is corrected at most once and rightly.
  lemma BudgetIsCorrectedAtMostOnce(ws: seq<World>, acts: seq<Action>, n: nat)
    requires Run(ws, acts) && Fresh(ws[0]) && n <= |acts| && Exact(ws[n].faults)
    ensures CorrectedRightly(ws[n])
  {
    InvAlong(ws, acts, n);
    if ws[n].books.corrections != [] { DueNets(ws[n]); }
  }

  lemma DueNets(w: World)
    requires w.books.corrections == [Correction(w.bill, Due(w.books))]
    ensures CounterNets(w)
  {
    TotalOfOne(Correction(w.bill, Due(w.books)));
  }

  // Once corrected, the connection's counter holds what the node says the payment cost, or
  // nothing; and nothing is only right: the payment failed or is never made.
  lemma TheCounterNets(ws: seq<World>, acts: seq<Action>, n: nat)
    requires Run(ws, acts) && Fresh(ws[0]) && n <= |acts| && Exact(ws[n].faults)
    requires ws[n].books.corrections != []
    ensures var w := ws[n];
            && (w.books.row.Settled? && !w.books.asserted ==>
                  w.node.fate.Paid? && Counter(w) == w.bill.amount + w.node.fate.fee)
            && (!w.books.row.Settled? || w.books.asserted ==> Counter(w) == 0)
            && (!w.books.row.Settled? && !w.books.asserted && w.faults.Honest() ==>
                  w.node.fate.Failed? || w.node.NeverWill())
  {
    InvAlong(ws, acts, n);
    BudgetIsCorrectedAtMostOnce(ws, acts, n);
    SettledRowsCarryTheNodesFee(ws, acts, n);
    if ws[n].faults.Honest() { NoSettledPaymentIsReversed(ws, acts, n); }
  }

  // A first attempt at its invoice hears of no earlier one.
  lemma {:induction false} FirstAttemptHearsOfNoOther(ws: seq<World>, acts: seq<Action>, n: nat)
    requires Run(ws, acts) && Fresh(ws[0]) && n <= |acts| && !TriedBefore(ws[0])
    ensures !ws[n].faults.earlier && !ws[n].faults.stale
  {
    if n > 0 {
      FirstAttemptHearsOfNoOther(ws, acts, n - 1);
      InvAlong(ws, acts, n);
      PriorStays(ws, acts, n - 1);
      assert Step(ws[n - 1], acts[n - 1], ws[n]);
    }
  }

  // Of the errors a stream ends in, exactly these six codes and an end that is no status
  // say nothing of how far the node got. They leave the payment unclear; after any other
  // the payer goes on to ask whether the node has the payment.
  lemma OnlyOtherErrorsAreAskedAbout(w: World, e: SendError, own: bool)
    requires PayerCan(w, Hear(Error(e, own)))
    ensures var v := PayerDo(w, Hear(Error(e, own)));
            if e.Status? && e.code != Code.Canceled && e.code != Code.DeadlineExceeded
               && e.code != Code.Unavailable && e.code != Code.Internal
               && e.code != Code.ResourceExhausted && e.code != Code.PermissionDenied
            then v.pc.Asking? && v.told == w.told
            else v.pc.Over? && v.told == Some(Unclear)
  {}

  // And nobody is told that nothing was sent but after such an error, or when the request
  // never left.
  lemma {:induction false} ToldNothingAfter(ws: seq<World>, acts: seq<Action>, n: nat) returns (k: nat)
    requires Run(ws, acts) && Fresh(ws[0]) && n <= |acts|
    requires ws[n].pc.Asking? || ws[n].pc.Clearing? || ws[n].told == Some(NothingSent)
    ensures k < n
    ensures acts[k] == Pay(Open(false)) ||
            (acts[k].Pay? && acts[k].p.Hear? && acts[k].p.heard.Error?
             && acts[k].p.heard.e.Status? && acts[k].p.heard.e.code !in
                  {Code.Canceled, Code.DeadlineExceeded, Code.Unavailable, Code.Internal,
                   Code.ResourceExhausted, Code.PermissionDenied})
  {
    assert Step(ws[n - 1], acts[n - 1], ws[n]);
    var before := ws[n - 1];
    if before.pc.Asking? || before.pc.Clearing? || before.told == Some(NothingSent) {
      k := ToldNothingAfter(ws, acts, n - 1);
    } else {
      k := n - 1;
    }
  }

  // The wallet's entries for the reservation come to what the payment cost.
  lemma TheLedgerNets(ws: seq<World>, acts: seq<Action>, n: nat)
    requires Run(ws, acts) && Fresh(ws[0]) && n <= |acts|
    ensures ws[n].books.ledger == Owed(ws[n].bill, ws[n].books.row)
    ensures var b := ws[n].books;
            && (b.row.Absent? || b.row.Reversed? ==> b.ledger == 0)
            && (b.row.Pending? ==> b.ledger == -(ws[n].bill.amount + ws[n].bill.reserve))
            && (b.row.Settled? ==> b.ledger == -(ws[n].bill.amount + b.row.fee + b.row.excess))
  {
    InvAlong(ws, acts, n);
  }

  // The resolver's not-found reversal never meets a row marked as handed to the node.
  lemma NotFoundNeverReversesADispatchedRow(ws: seq<World>, acts: seq<Action>, n: nat)
    requires Run(ws, acts) && Fresh(ws[0]) && n < |acts| && !ws[n].faults.overlap
    requires acts[n].Resolve? && acts[n].r.Return?
    ensures !ws[n].books.marked && (ws[n].faults.Honest() ==> ws[n].node.NeverWill())
  {
    InvAlong(ws, acts, n);
    assert Step(ws[n], acts[n], ws[n + 1]);
    assert PassOk(ws[n], ws[n].passes[acts[n].i]);
  }

  // A closed row stays as it was closed, and no balance entry follows.
  lemma {:induction false} RowIsFinal(ws: seq<World>, acts: seq<Action>, n: nat, m: nat)
    requires Run(ws, acts) && Fresh(ws[0]) && n <= m <= |acts|
    requires ws[n].books.row.Settled? || ws[n].books.row.Reversed?
    ensures ws[m].books.row == ws[n].books.row && ws[m].books.ledger == ws[n].books.ledger
  {
    if n < m {
      RowIsFinal(ws, acts, n, m - 1);
      InvAlong(ws, acts, m - 1);
      assert Step(ws[m - 1], acts[m - 1], ws[m]);
      ClosedStays(ws[m - 1], acts[m - 1]);
    }
  }

  lemma ClosedStays(w: World, a: Action)
    requires Inv(w) && Can(w, a) && (w.books.row.Settled? || w.books.row.Reversed?)
    ensures Do(w, a).books.row == w.books.row && Do(w, a).books.ledger == w.books.ledger
  {}

  // ------------------------------------------------------- exactly when they are kept

  // Every run from here, of any length, in which no error is misread, no record pruned
  // early and no pass overlaps the call.
  ghost predicate AlwaysReversesRightly(w: World) {
    forall ws: seq<World>, acts: seq<Action> :: Run(ws, acts) && ws[0] == w ==>
      (var v := ws[|acts|]; v.faults.Honest() && !v.faults.overlap ==> ReversedRightly(v))
  }

  // Every run from here, with any faults.
  ghost predicate AlwaysSettlesRightly(w: World) {
    forall ws: seq<World>, acts: seq<Action> :: Run(ws, acts) && ws[0] == w ==> SettledRightly(ws[|acts|])
  }

  // Every run from here in which no error is misread and no pass overlaps the call.
  ghost predicate AlwaysCorrectsRightly(w: World) {
    forall ws: seq<World>, acts: seq<Action> :: Run(ws, acts) && ws[0] == w ==>
      (var v := ws[|acts|]; !v.faults.misread && !v.faults.overlap ==> CorrectedRightly(v))
  }

  // No settled payment is ever reversed exactly when the node holds no failed attempt at
  // the invoice from before.
  lemma ReversesRightlyIff(w: World)
    requires Fresh(w)
    ensures AlwaysReversesRightly(w) <==> !(TriedBefore(w) && w.node.prior.Failed?)
  {
    if TriedBefore(w) && w.node.prior.Failed? {
      var ws, acts := StaleRecordReversesAPayment(w, 1);
      assert Run(ws, acts);
    } else {
      forall ws: seq<World>, acts: seq<Action> | Run(ws, acts) && ws[0] == w
        ensures var v := ws[|acts|]; v.faults.Honest() && !v.faults.overlap ==> ReversedRightly(v)
      {
        ReversesRightlyAt(ws, acts);
      }
    }
  }

  lemma ReversesRightlyAt(ws: seq<World>, acts: seq<Action>)
    requires Run(ws, acts) && Fresh(ws[0]) && !(TriedBefore(ws[0]) && ws[0].node.prior.Failed?)
    ensures var v := ws[|acts|]; v.faults.Honest() && !v.faults.overlap ==> ReversedRightly(v)
  {
    var v := ws[|acts|];
    PriorStays(ws, acts, |acts|);
    InvAlong(ws, acts, |acts|);
    if Trusts(v.node, v.faults) {
      NoSettledPaymentIsReversed(ws, acts, |acts|);
    }
  }

  // Every settled row carries what this payment cost, whatever goes wrong, exactly when
  // the node holds no payment of the invoice from before.
  lemma SettlesRightlyIff(w: World)
    requires Fresh(w)
    ensures AlwaysSettlesRightly(w) <==> !(TriedBefore(w) && w.node.prior.Paid?)
  {
    if TriedBefore(w) && w.node.prior.Paid? {
      var ws, acts := EarlierPaymentIsBookedAgain(w);
      assert Run(ws, acts);
    } else {
      forall ws: seq<World>, acts: seq<Action> | Run(ws, acts) && ws[0] == w ensures SettledRightly(ws[|acts|]) {
        PriorStays(ws, acts, |acts|);
        InvAlong(ws, acts, |acts|);
        SettledRowsCarryTheNodesFee(ws, acts, |acts|);
      }
    }
  }

  // The budget is corrected at most once, and rightly, exactly when the node holds no
  // attempt at the invoice from before. The wallet reserves no payment of nothing.
  lemma CorrectsRightlyIff(w: World)
    requires Fresh(w) && w.bill.amount > 0
    ensures AlwaysCorrectsRightly(w) <==> !TriedBefore(w)
  {
    if TriedBefore(w) {
      var ws, acts := RetryIsRefundedTwice(w);
      assert Run(ws, acts);
    } else {
      forall ws: seq<World>, acts: seq<Action> | Run(ws, acts) && ws[0] == w
        ensures var v := ws[|acts|]; !v.faults.misread && !v.faults.overlap ==> CorrectedRightly(v)
      {
        FirstAttemptHearsOfNoOther(ws, acts, |acts|);
        if Exact(ws[|acts|].faults) {
          BudgetIsCorrectedAtMostOnce(ws, acts, |acts|);
        }
      }
    }
  }

  // ------------------------------------------------------------- the runs that fail

  lemma Go(us: seq<World>, bs: seq<Action>, a: Action) returns (ws: seq<World>, acts: seq<Action>)
    requires Run(us, bs) && Can(us[|bs|], a)
    ensures Run(ws, acts) && ws[0] == us[0] && ws[|acts|] == Do(us[|bs|], a)
  {
    Grow(us, bs, a);
    ws, acts := us + [Do(us[|bs|], a)], bs + [a];
  }

  // The books of a payment reserved and marked, or marked and cleared again.
  function Held(bill: Bill, marked: bool): Books {
    Books(Pending, marked, 0, false, false, -(bill.amount + bill.reserve), [])
  }

  lemma UpToMarked(us: seq<World>, bs: seq<Action>) returns (ws: seq<World>, acts: seq<Action>)
    requires Run(us, bs) && us[|bs|].pc.Idle? && us[|bs|].books == Books(Absent, false, 0, false, false, 0, [])
    ensures Run(ws, acts) && ws[0] == us[0]
    ensures ws[|acts|] == us[|bs|].(pc := Marked, books := Held(us[|bs|].bill, true))
  {
    ws, acts := Go(us, bs, Pay(Reserve(true)));
    ws, acts := Go(ws, acts, Pay(Mark(Ok)));
  }

  // The node makes the payment it was handed.
  lemma Pays(us: seq<World>, bs: seq<Action>, fee: nat) returns (ws: seq<World>, acts: seq<Action>)
    requires Run(us, bs) && us[|bs|].node.fate.InFlight? && !Prunes(us[|bs|], Finish(Paid(fee)))
    ensures Run(ws, acts) && ws[0] == us[0]
    ensures ws[|acts|] == us[|bs|].(node := us[|bs|].node.(fate := Paid(fee)))
  {
    ws, acts := Go(us, bs, AtNode(Finish(Paid(fee))));
  }

  // One pass over the only row, from an answer with a terminal result to its end.
  lemma OnePass(us: seq<World>, bs: seq<Action>, r: Fate) returns (ws: seq<World>, acts: seq<Action>)
    requires Run(us, bs)
    requires var w := us[|bs|]; w.books.row.Pending? && w.bill.hashed && w.passes == []
    requires r.Terminal() && us[|bs|].node.Record() == r
    ensures Run(ws, acts) && ws[0] == us[0]
    ensures var w, v := us[|bs|], ws[|acts|];
            && v.node == w.node && v.pc == w.pc && v.told == w.told && v.bill == w.bill
            && v.books == Corrected(w.bill, Closed(w.bill, w.books, r, Ok).(attempts := 0), r, true)
            && v.faults == w.faults.(
              overlap := w.faults.overlap || !w.pc.Over?,
              earlier := w.faults.earlier || w.node.fate.Never?,
              stale := w.faults.stale || (w.node.fate.Never? && w.node.air))
  {
    ws, acts := Go(us, bs, Begin);
    ws, acts := Go(ws, acts, Resolve(0, Track(Found(r))));
    ws, acts := Go(ws, acts, Resolve(0, Book(Ok, true)));
    ws, acts := Go(ws, acts, Resolve(0, Correct(true)));
  }

  // One pass that meets an unmarked row and no record.
  lemma OneReversal(us: seq<World>, bs: seq<Action>) returns (ws: seq<World>, acts: seq<Action>)
    requires Run(us, bs)
    requires var w := us[|bs|];
             && w.books.row.Pending? && w.bill.hashed && w.passes == [] && w.pc.Over?
             && !w.books.marked && w.node.Record().Never?
    ensures Run(ws, acts) && ws[0] == us[0]
    ensures var w := us[|bs|];
            ws[|acts|] == w.(books := Closed(w.bill, w.books, Failed, Ok), passes := [Finished(true)])
  {
    ws, acts := Go(us, bs, Begin);
    ws, acts := Go(ws, acts, Resolve(0, Track(NoRecord)));
    ws, acts := Go(ws, acts, Resolve(0, Return(Ok)));
  }

  // An invoice whose first attempt failed is tried again, the stream breaks, and the
  // resolver hears of the first attempt while the request is still on its way.
  lemma StaleRecordReversesAPayment(w: World, fee: nat) returns (ws: seq<World>, acts: seq<Action>)
    requires Fresh(w) && w.bill.hashed && w.node.prior.Failed?
    ensures Run(ws, acts) && ws[0] == w
    ensures var v := ws[|acts|];
            && v.books.row.Reversed? && !v.books.asserted && v.node.fate == Paid(fee)
            && v.faults == Faults(false, false, true, true, false)
  {
    ws, acts := UpToMarked([w], []);
    ws, acts := Go(ws, acts, Pay(Open(true)));
    ws, acts := Go(ws, acts, Pay(Hear(Error(Status(Unavailable), false))));
    ws, acts := OnePass(ws, acts, Failed);
    ws, acts := Go(ws, acts, AtNode(Initiate));
    ws, acts := Pays(ws, acts, fee);
  }

  // The same retry finding no connection to the node: the ladder gives the budget back,
  // and the resolver, answered from the first attempt's record, corrects it again.
  lemma RetryIsRefundedTwice(w: World) returns (ws: seq<World>, acts: seq<Action>)
    requires Fresh(w) && TriedBefore(w) && w.bill.amount > 0
    ensures Run(ws, acts) && ws[0] == w && !CorrectedRightly(ws[|acts|])
    ensures ws[|acts|].books.corrections == [Correction(w.bill, Failed)] +
              if Correction(w.bill, w.node.prior) == 0 then [] else [Correction(w.bill, w.node.prior)]
    ensures ws[|acts|].faults == Faults(false, false, true, false, false)
  {
    ws, acts := UpToMarked([w], []);
    ws, acts := Go(ws, acts, Pay(Open(false)));
    ws, acts := Go(ws, acts, Pay(Clear(Ok)));
    ws, acts := Go(ws, acts, Pay(CorrectLive(true)));
    assert ws[|acts|].books.corrections == [Correction(w.bill, Failed)];
    ws, acts := OnePass(ws, acts, w.node.prior);
    TotalOfOne(Correction(w.bill, Failed));
  }

  // A payment in flight past the resolver's cutoff: both calls hear that it settled,
  // and both correct the budget.
  lemma OverlapCorrectsTwice(w: World, fee: nat) returns (ws: seq<World>, acts: seq<Action>)
    requires Fresh(w) && w.bill.hashed && !w.node.prior.Paid? && fee != w.bill.reserve
    ensures Run(ws, acts) && ws[0] == w
    ensures var v, c := ws[|acts|], Correction(w.bill, Paid(fee));
            && v.books.row == Booked(w.bill, fee) && v.books.corrections == [c, c]
            && v.faults == Faults(false, false, false, false, true)
  {
    var c := Correction(w.bill, Paid(fee));
    ws, acts := UpToMarked([w], []);
    ws, acts := Go(ws, acts, Pay(Open(true)));
    ws, acts := Go(ws, acts, AtNode(Initiate));
    ws, acts := Pays(ws, acts, fee);
    ws, acts := OnePass(ws, acts, Paid(fee));
    assert ws[|acts|].books.corrections == [c];
    ws, acts := Go(ws, acts, Pay(Hear(Result(Paid(fee)))));
    ws, acts := Go(ws, acts, Pay(CloseLive(Ok)));
    ws, acts := Go(ws, acts, Pay(CorrectLive(true)));
    assert [c] + [c] == [c, c];
  }

  // A payer told that nothing was sent, its marker cleared and its budget given back.
  lemma ToldNothing(us: seq<World>, bs: seq<Action>) returns (ws: seq<World>, acts: seq<Action>)
    requires Run(us, bs) && us[|bs|].pc.Asking? && us[|bs|].bill.hashed
    requires us[|bs|].node.Record().Never? && us[|bs|].books == Held(us[|bs|].bill, true)
    ensures Run(ws, acts) && ws[0] == us[0]
    ensures var w := us[|bs|];
            ws[|acts|] == w.(pc := Over, told := Some(NothingSent),
              books := Corrected(w.bill, Held(w.bill, false), Failed, true))
  {
    ws, acts := Go(us, bs, Pay(Check(HasNot)));
    ws, acts := Go(ws, acts, Pay(Clear(Ok)));
    ws, acts := Go(ws, acts, Pay(CorrectLive(true)));
  }

  // An error no rule over codes can tell from the handler's own: the payer asks before the
  // node has written the payment down, is told that nothing was sent, the resolver
  // reverses the row, and the node goes on to pay. Any payment can meet it.
  lemma MisreadErrorIsToldAsNothingSent(w: World, fee: nat)
    returns (ws: seq<World>, acts: seq<Action>)
    requires Fresh(w) && w.bill.hashed
    ensures Run(ws, acts) && ws[0] == w
    ensures var v := ws[|acts|];
            && v.told == Some(NothingSent) && !ReversedRightly(v) && v.node.fate == Paid(fee)
            && v.faults == Faults(true, false, false, false, false)
  {
    ws, acts := Go([w], [], AtNode(Forget));
    ws, acts := UpToMarked(ws, acts);
    ws, acts := Go(ws, acts, Pay(Open(true)));
    ws, acts := Go(ws, acts, Pay(Hear(Error(Status(Unknown), false))));
    ws, acts := ToldNothing(ws, acts);
    ws, acts := OneReversal(ws, acts);
    ws, acts := Go(ws, acts, AtNode(Initiate));
    ws, acts := Pays(ws, acts, fee);
  }

  // And when the resolver gets to the row after the node has paid, both correct the budget.
  lemma MisreadErrorCorrectsTwice(w: World, fee: nat) returns (ws: seq<World>, acts: seq<Action>)
    requires Fresh(w) && w.bill.hashed && w.bill.amount > 0
    ensures Run(ws, acts) && ws[0] == w && !CorrectedRightly(ws[|acts|])
    ensures ws[|acts|].faults == Faults(true, false, false, false, false)
  {
    ws, acts := Go([w], [], AtNode(Forget));
    ws, acts := UpToMarked(ws, acts);
    ws, acts := Go(ws, acts, Pay(Open(true)));
    ws, acts := Go(ws, acts, Pay(Hear(Error(Status(Unknown), false))));
    ws, acts := ToldNothing(ws, acts);
    ws, acts := Go(ws, acts, AtNode(Initiate));
    ws, acts := Pays(ws, acts, fee);
    assert ws[|acts|].books.corrections == [Correction(w.bill, Failed)];
    ws, acts := OnePass(ws, acts, Paid(fee));
    TotalOfOne(Correction(w.bill, Failed));
  }

  // A record deleted between the handler's error and the question about it ends the same
  // way.
  lemma PrunedRecordIsToldAsNothingSent(w: World, fee: nat)
    returns (ws: seq<World>, acts: seq<Action>)
    requires Fresh(w) && w.bill.hashed && !w.node.prior.Paid?
    ensures Run(ws, acts) && ws[0] == w
    ensures var v := ws[|acts|];
            && v.told == Some(NothingSent) && !ReversedRightly(v) && v.node.fate == Paid(fee)
            && v.faults == Faults(false, true, false, false, false)
  {
    ws, acts := UpToMarked([w], []);
    ws, acts := Go(ws, acts, Pay(Open(true)));
    ws, acts := Go(ws, acts, AtNode(Initiate));
    ws, acts := Go(ws, acts, Pay(Hear(Error(Status(AlreadyExists), true))));
    ws, acts := Go(ws, acts, AtNode(Forget));
    ws, acts := ToldNothing(ws, acts);
    ws, acts := OneReversal(ws, acts);
    ws, acts := Pays(ws, acts, fee);
  }

  // A pass that read the row before it was marked, and reverses it after it was sent.
  lemma OverlapReversesAPayment(w: World, fee: nat) returns (ws: seq<World>, acts: seq<Action>)
    requires Fresh(w) && w.bill.hashed
    ensures Run(ws, acts) && ws[0] == w
    ensures var v := ws[|acts|];
            && !ReversedRightly(v) && v.node.fate == Paid(fee)
            && v.faults == Faults(false, false, false, false, true)
  {
    ws, acts := Go([w], [], AtNode(Forget));
    ws, acts := Go(ws, acts, Pay(Reserve(true)));
    ws, acts := Go(ws, acts, Begin);
    ws, acts := Go(ws, acts, Resolve(0, Track(NoRecord)));
    ws, acts := Go(ws, acts, Pay(Mark(Ok)));
    ws, acts := Go(ws, acts, Pay(Open(true)));
    ws, acts := Go(ws, acts, AtNode(Initiate));
    ws, acts := Go(ws, acts, Resolve(0, Return(Ok)));
    ws, acts := Pays(ws, acts, fee);
  }

  // An invoice already paid, asked for again: the node refuses, and the resolver books
  // the first payment's settlement on the second reservation.
  lemma EarlierPaymentIsBookedAgain(w: World) returns (ws: seq<World>, acts: seq<Action>)
    requires Fresh(w) && w.bill.hashed && w.node.prior.Paid?
    ensures Run(ws, acts) && ws[0] == w && !SettledRightly(ws[|acts|])
    ensures var v := ws[|acts|];
            && v.books.row == Booked(w.bill, w.node.prior.fee) && v.node.NeverWill()
            && v.books.ledger == -(w.bill.amount + w.node.prior.fee)
            && v.faults == Faults(false, false, true, false, false)
  {
    ws, acts := UpToMarked([w], []);
    ws, acts := Go(ws, acts, Pay(Open(true)));
    ws, acts := Go(ws, acts, AtNode(Refuse));
    ws, acts := Go(ws, acts, Pay(Hear(Error(Status(AlreadyExists), true))));
    ws, acts := Go(ws, acts, Pay(Check(Has)));
    ws, acts := OnePass(ws, acts, w.node.prior);
  }
}

// The payment path as the program runs it, over one reservation's rows in the store:
// payInvoice, the resolver and the loop over what an earlier run left open. The node moves
// on its own between any two statements. Every method is proved to be a run of the
// payment's machine, whose promises therefore hold of it.
module PaymentDesk {
  import opened Wrappers
  import opened Grpc
  import opened Payments

  // ------------------------------------------------------- reading a payment stream

  // One receive on a payment stream; the end of the sequence is the end of the stream.
  datatype Update = Says(fate: Fate) | Breaks(e: SendError)

  datatype Consumed = Terminal(result: Fate) | Missing | Stopped(e: SendError)

  const NOT_FOUND := Breaks(Status(Code.NotFound))

  // A stream that ends, or an error that is no status, reads as code Unknown.
  const ENDED := Stopped(Status(Code.Unknown))

  // What the stream comes to: read on past every update of a payment still in flight.
  function Outcome(updates: seq<Update>): Consumed {
    if updates == [] then ENDED
    else if Goes(updates[0]) then Outcome(updates[1..])
    else Decided(updates[0])
  }

  predicate Goes(u: Update) { u.Says? && !u.fate.Terminal() }

  // The node's NotFound is the one error that says there is no record.
  function Decided(u: Update): Consumed {
    if u.Says? then Terminal(u.fate) else if u == NOT_FOUND then Missing else Stopped(u.e)
  }

  // The first update that is terminal or an error decides, whatever follows it: an end is
  // the end, NotFound alone means no record, and any other error is no answer.
  lemma {:induction false} FirstWordDecides(updates: seq<Update>, k: nat)
    requires k < |updates| && forall i :: 0 <= i < k ==> Goes(updates[i])
    ensures forall fee :: updates[k] == Says(Paid(fee)) ==> Outcome(updates) == Terminal(Paid(fee))
    ensures updates[k] == Says(Failed) ==> Outcome(updates) == Terminal(Failed)
    ensures updates[k] == Breaks(Status(Code.NotFound)) ==> Outcome(updates) == Missing
    ensures updates[k].Breaks? && updates[k].e != Status(Code.NotFound) ==>
              Outcome(updates) == Stopped(updates[k].e)
    ensures Goes(updates[k]) <==> updates[k] == Says(InFlight) || updates[k] == Says(Never)
  {
    if k > 0 {
      FirstWordDecides(updates[1..], k - 1);
    }
  }

  // A stream that ends with the payment in flight is an error, not an answer.
  lemma {:induction false} AnUnfinishedStreamIsAnError(updates: seq<Update>)
    requires forall u <- updates :: Goes(u)
    ensures Outcome(updates) == Stopped(Status(Code.Unknown))
  {
    if updates != [] {
      assert updates[0] in updates && forall u <- updates[1..] :: u in updates;
      AnUnfinishedStreamIsAnError(updates[1..]);
    }
  }

  // consume, to the payment's terminal update.
  method Consume(updates: seq<Update>) returns (r: Consumed)
    ensures r == Outcome(updates)
  {
    var i := 0;
    while i < |updates|
      invariant i <= |updates| && Outcome(updates) == Outcome(updates[i..])
    {
      assert updates[i..][1..] == updates[i + 1..] && updates[i..][0] == updates[i];
      if updates[i].Breaks? {
        if updates[i] == NOT_FOUND { return Missing; }
        return Stopped(updates[i].e);
      }
      if updates[i].fate.Terminal() { return Terminal(updates[i].fate); }
      i := i + 1;
    }
    r := ENDED;
  }

  // What a node can say of a payment that has come to this: that it is in flight, as long
  // as there is a payment at all, and how it ended.
  predicate Truthful(updates: seq<Update>, fate: Fate) {
    forall u <- updates :: u.Says? ==> !fate.Never? && (u.fate.Terminal() ==> u.fate == fate)
  }

  // And when it is asked about a hash: that there is no such payment.
  predicate OnRecord(updates: seq<Update>, record: Fate) {
    Truthful(updates, record) && (NOT_FOUND in updates ==> record.Never?)
  }

  // The end consume comes to is the node's, and so is the absence of a record.
  lemma {:induction false} OutcomeIsTheNodes(updates: seq<Update>, fate: Fate)
    requires Truthful(updates, fate)
    ensures Outcome(updates).Terminal? ==> Outcome(updates).result == fate && fate.Terminal()
    ensures OnRecord(updates, fate) && Outcome(updates).Missing? ==> fate.Never?
  {
    if updates != [] {
      assert updates[0] in updates && forall u <- updates[1..] :: u in updates;
      OutcomeIsTheNodes(updates[1..], fate);
    }
  }

  // HasPayment reads one message, where consume reads to the end of the payment: it never
  // waits for a payment in flight, and never disagrees with the node or with consume.
  method HasPayment(updates: seq<Update>) returns (r: Verdict)
    ensures forall record: Fate :: OnRecord(updates, record) ==>
      (r.Has? ==> !record.Never?) && (r.HasNot? ==> record.Never?)
    ensures updates != [] && Goes(updates[0]) ==> r.Has?
    ensures Outcome(updates).Terminal? ==> r.Has?
    ensures r.HasNot? ==> Outcome(updates).Missing?
    ensures r.NoAnswer? ==> Outcome(updates).Stopped?
  {
    if updates == [] { return NoAnswer; }
    assert updates[0] in updates;
    if updates[0].Says? { return Has; }
    r := if updates[0] == NOT_FOUND then HasNot else NoAnswer;
  }

  // A stream about a payment that has come to this, as far as it is received; to its end
  // if nothing breaks it.
  method Received(fate: Fate, asked: bool, works: bool) returns (updates: seq<Update>)
    ensures Truthful(updates, fate) && (asked ==> OnRecord(updates, fate))
    ensures works && fate.Terminal() ==> Outcome(updates) == Terminal(fate)
    ensures works && asked && fate.Never? ==> updates == [NOT_FOUND]
  {
    updates := [];
    var more: nat := *;
    while more > 0 && !fate.Never?
      invariant forall u <- updates :: u == Says(InFlight) && !fate.Never?
      invariant forall i :: 0 <= i < |updates| ==> updates[i] == Says(InFlight)
      invariant fate.Never? ==> updates == []
      decreases more
    {
      updates := updates + [Says(InFlight)];
      more := more - 1;
    }
    var ended: bool, broke: bool, e: SendError := *, *, *;
    if (works || ended) && fate.Terminal() {
      FirstWordDecides(updates + [Says(fate)], |updates|);
      updates := updates + [Says(fate)];
    } else if works && asked && fate.Never? {
      updates := updates + [NOT_FOUND];
    } else if broke && (Breaks(e) != NOT_FOUND || !asked || fate.Never?) {
      updates := updates + [Breaks(e)];
    }
  }

  class Reservation {
    const bill: Bill
    // What the store holds for this reservation and its connection.
    var books: Books
    // The node's side, which no statement of the program sets.
    var node: Node

    ghost var past: seq<World>
    ghost var acts: seq<Action>
    ghost var w: World

    ghost predicate History()
      reads this`past, this`acts, this`w
    {
      Run(past, acts) && Fresh(past[0]) && w == past[|acts|] && w.bill == bill
    }

    ghost predicate Valid()
      reads this
    {
      History() && w.books == books && w.node == node
    }

    // The same call at the same point, however the node has moved.
    twostate predicate Waited()
      reads this
    {
      && Valid() && books == old(books) && w.pc == old(w.pc) && w.told == old(w.told)
      && w.passes == old(w.passes) && (old(node).NeverWill() ==> node.NeverWill())
      && Kept(old(w.faults), w.faults) && old(acts) <= acts
    }

    // The request has gone to the node in a step since the n-th.
    ghost predicate HandedOver(n: nat)
      reads this`acts
    {
      exists k :: n <= k < |acts| && acts[k] == Pay(Open(true))
    }

    constructor (bill: Bill, prior: Fate)
      requires !prior.InFlight?
      ensures Valid() && w.pc.Idle? && this.bill == bill && node.prior == prior
    {
      this.bill := bill;
      books, node := Books(Absent, false, 0, false, false, 0, []), Node(prior, Never, false, false);
      w := World(bill, Books(Absent, false, 0, false, false, 0, []), Idle, None, [],
                 Node(prior, Never, false, false), Faults(false, false, false, false, false));
      new;
      past, acts := [w], [];
    }

    ghost method Take(a: Action)
      requires History() && Can(w, a)
      modifies this`past, this`acts, this`w
      ensures History() && w == Do(old(w), a)
      ensures old(acts) <= acts && |old(acts)| < |acts| && acts[|old(acts)|] == a
    {
      Grow(past, acts, a);
      w := Do(w, a);
      past, acts := past + [w], acts + [a];
    }

    // One move of the node, or none.
    method NodeMove()
      requires Valid()
      modifies this
      ensures Waited()
    {
      var fee: nat, start: bool, refuse: bool, forget: bool := *, *, *, *;
      var a := if start then Initiate else if refuse then Refuse
               else if forget then Forget else Finish(if fee == 0 then Failed else Paid(fee - 1));
      if NodeCan(node, a) {
        node := NodeDo(node, a);
        Take(AtNode(a));
      }
    }

    method NodeMoves()
      requires Valid()
      modifies this
      ensures Waited()
    {
      var more: nat := *;
      while more > 0
        invariant Waited()
      {
        NodeMove();
        more := more - 1;
      }
    }

    // Whether a call to the store or the node does what it is asked. An operation called
    // with `works` meets no failure.
    method Lucky(works: bool) returns (ok: bool)
      ensures works ==> ok
    {
      ok := *;
      ok := ok || works;
    }

    method StoreWrite(works: bool) returns (write: Write)
      ensures works ==> write.Ok?
    {
      var ok: bool, wrote: bool := *, *;
      write := if ok || works then Ok else Errored(wrote);
    }

    // ---------------------------------------------------------- making the payment

    // closeReservation: the same decision for the live call and the resolver. `closed`
    // is whether this call is the one that closed the row.
    method CloseReservation(result: Fate, works: bool)
      returns (closed: bool, failed: bool, ghost write: Write)
      requires result.Terminal()
      modifies this`books
      ensures books == Closed(bill, old(books), result, write)
      ensures failed <==> write.Errored?
      ensures closed <==> write.Ok? && old(books).row.Pending?
      ensures closed ==> BookedAs(result)
      ensures works ==> !failed
    {
      var done := StoreWrite(works);
      write := done;
      failed, closed := done.Errored?, done.Ok? && books.row.Pending?;
      books := Closed(bill, books, result, done);
    }

    method Reserve(works: bool) returns (ok: bool)
      requires Valid() && w.pc.Idle?
      modifies this
      ensures Valid() && w.faults == old(w.faults) && (works ==> ok) && old(acts) <= acts
      ensures books.corrections == old(books).corrections
      ensures ok ==> w.pc.Reserved? && books.row.Pending?
      ensures !ok ==> w.pc == Correcting(Failed) && w.told == Some(NotDispatched) && books == old(books)
    {
      ok := Lucky(works);
      if ok {
        books := books.(row := Pending, ledger := -(bill.amount + bill.reserve));
      }
      Take(Pay(Payments.Reserve(ok)));
    }

    method MarkDispatched(works: bool) returns (ok: bool)
      requires Valid() && w.pc.Reserved? && books.row.Pending?
      modifies this
      ensures Valid() && w.faults == old(w.faults) && books.row.Pending? && (works ==> ok) && old(acts) <= acts
      ensures books.corrections == old(books).corrections && (ok ==> w.pc.Marked? && books.marked)
      ensures !ok ==> w.pc.Over? && w.told == Some(Unclear)
    {
      var write := StoreWrite(works);
      books := books.(marked := books.marked || write.Wrote());
      Take(Pay(Mark(write)));
      ok := write.Ok?;
    }

    // SendPayment, to its terminal update or its error. None is a request that never left.
    method SendPayment(works: bool) returns (heard: Option<Heard>)
      requires Valid() && w.pc.Marked? && books.row.Pending?
      modifies this
      ensures Valid() && books == old(books) && Kept(old(w.faults), w.faults)
      ensures heard.None? ==> w.pc.Clearing? && node == old(node)
      ensures works ==> heard.Some? && HandedOver(|old(acts)|)
      ensures old(acts) <= acts
      ensures works && node.fate.Terminal() ==> heard == Some(Result(node.fate))
      ensures heard.Some? && heard.value.Result? ==>
                w.pc == Closing(heard.value.result) && heard.value.result.Terminal()
      ensures heard.Some? && heard.value.Error? && IsTransportOrCallerFailure(heard.value.e) ==>
                w.pc.Over? && w.told == Some(Unclear)
      ensures heard.Some? && heard.value.Error? && !IsTransportOrCallerFailure(heard.value.e) ==>
                w.pc.Asking?
    {
      var streamed := Lucky(works);
      if streamed { node := node.(air := true); }
      Take(Pay(Open(streamed)));
      assert acts[|old(acts)|] == Pay(Open(streamed));
      heard := None;
      if streamed {
        NodeMoves();
        var h := Listen(works);
        heard := Some(h);
        Take(Pay(Hear(h)));
        assert acts[|old(acts)|] == Pay(Open(true));
      }
    }

    // What consume makes of the stream, and whether the node's handler answered: it did
    // only if it is done with the request.
    method Listen(works: bool) returns (h: Heard)
      requires Valid() && w.pc.Sending?
      ensures Can(w, Pay(Hear(h)))
      ensures works && node.fate.Terminal() ==> h == Result(node.fate)
    {
      var own: bool := *;
      own := own && !node.air;
      var updates := Received(node.fate, false, works);
      OutcomeIsTheNodes(updates, node.fate);
      var c := Consume(updates);
      if c.Terminal? {
        h := Result(c.result);
      } else {
        h := Error(if c.Missing? then Status(Code.NotFound) else c.e, own);
      }
    }

    // neverInitiated: true only when the node says it has no such payment.
    method NeverInitiated(works: bool) returns (never: bool)
      requires Valid() && w.pc.Asking? && books.row.Pending?
      modifies this
      ensures Valid() && books == old(books) && Kept(old(w.faults), w.faults)
      ensures old(acts) <= acts && (never ==> node.Record().Never?)
      ensures works && bill.hashed && node.Record().Never? ==> never
      ensures never ==> bill.hashed && w.pc.Clearing?
      ensures !never ==> w.pc.Over? && w.told == Some(Unclear)
    {
      NodeMoves();
      var streamed := Lucky(works);
      var v := NoAnswer;
      if bill.hashed && streamed {
        var updates := Received(node.Record(), true, works);
        v := HasPayment(updates);
        assert OnRecord(updates, node.Record());
      }
      Take(Pay(Check(v)));
      never := v.HasNot?;
    }

    method ClearDispatched(works: bool)
      requires Valid() && w.pc.Clearing? && books.row.Pending?
      modifies this
      ensures Valid() && w.faults == old(w.faults) && node == old(node) && books.row.Pending?
      ensures w.pc == Correcting(Failed) && w.told == Some(NothingSent)
      ensures books.corrections == old(books).corrections && (works ==> !books.marked)
      ensures old(acts) <= acts
    {
      var write := StoreWrite(works);
      books := books.(marked := books.marked && !write.Wrote());
      Take(Pay(Clear(write)));
    }

    // The row after a call that was answered: settled at the fee, what is above the reserve
    // apart, or reversed.
    predicate BookedAs(result: Fate)
      reads this
    {
      if result.Paid? then
        && books.row.Settled? && books.row.fee + books.row.excess == result.fee
        && books.row.fee <= bill.reserve && (books.row.excess > 0 ==> books.row.fee == bill.reserve)
      else books.row.Reversed?
    }

    method CloseAnswered(result: Fate, works: bool) returns (booked: bool)
      requires Valid() && w.pc == Closing(result) && result.Terminal() && books.row.Pending?
      modifies this
      ensures Valid() && w.faults == old(w.faults) && node == old(node)
      ensures w.told == Some(Answer.Ended(result)) && books.corrections == old(books).corrections
      ensures booked ==> BookedAs(result) && w.pc == Correcting(result)
      ensures !booked ==> w.pc.Over?
      ensures works ==> booked
      ensures old(acts) <= acts
    {
      var _, failed, write := CloseReservation(result, works);
      booked := !failed;
      Take(Pay(CloseLive(write)));
    }

    // payInvoice: reserve, mark, send, and close on the node's answer.
    method PayInvoice(works: bool) returns (answer: Answer, booked: bool)
      requires Valid() && w.pc.Idle?
      modifies this
      ensures Valid() && w.told == Some(answer) && Kept(old(w.faults), w.faults)
      ensures books.corrections == old(books).corrections
      ensures answer.NotDispatched? ==> books == old(books)
      ensures answer.Unclear? || answer.NothingSent? ==> books.row.Pending?
      ensures answer.NothingSent? && w.faults.Honest() ==> node.NeverWill()
      ensures answer.Ended? ==> answer.result.Terminal() && (booked ==> BookedAs(answer.result))
      ensures answer.Ended? ==> answer.result == node.fate
      ensures answer.NotDispatched? || answer.NothingSent? ==> w.pc == Correcting(Failed)
      ensures answer.Ended? && booked ==> w.pc == Correcting(answer.result)
      ensures answer.Unclear? || (answer.Ended? && !booked) ==> w.pc.Over?
      ensures works ==> !answer.NotDispatched? && (answer.Ended? ==> booked) && HandedOver(|old(acts)|)
      ensures works && answer.NothingSent? ==> !books.marked
    {
      booked := false;
      var reserved := Reserve(works);
      if !reserved { return NotDispatched, false; }
      var marked := MarkDispatched(works);
      if !marked { return Unclear, false; }
      answer, booked := Dispatch(works);
    }

    // The counter moved by exactly what this end calls for, and at most one entry for it.
    predicate Corrects(before: seq<int>, result: Fate)
      reads this`books
    {
      && before <= books.corrections && |books.corrections| <= |before| + 1
      && Total(books.corrections) - Total(before) ==
           if result.Paid? then result.fee - bill.reserve else -(bill.amount + bill.reserve)
    }

    method Dispatch(works: bool) returns (answer: Answer, booked: bool)
      requires Valid() && w.pc.Marked? && books.row.Pending?
      modifies this
      ensures Valid() && w.told == Some(answer) && Kept(old(w.faults), w.faults)
      ensures !answer.NotDispatched? && books.corrections == old(books).corrections
      ensures answer.Unclear? || answer.NothingSent? ==> books.row.Pending?
      ensures answer.NothingSent? && w.faults.Honest() ==> node.NeverWill()
      ensures answer.Ended? ==> answer.result.Terminal() && (booked ==> BookedAs(answer.result))
      ensures answer.Ended? ==> answer.result == node.fate
      ensures answer.NothingSent? ==> w.pc == Correcting(Failed)
      ensures answer.Ended? && booked ==> w.pc == Correcting(answer.result)
      ensures !answer.NothingSent? && !(answer.Ended? && booked) ==> w.pc.Over?
      ensures old(acts) <= acts && (works && answer.Ended? ==> booked)
      ensures works ==> HandedOver(|old(acts)|)
      ensures works && answer.NothingSent? ==> !books.marked
    {
      booked := false;
      var heard := SendPayment(works);
      if heard.Some? && heard.value.Result? {
        answer := Answer.Ended(heard.value.result);
        InvAlong(past, acts, |acts|);
        booked := CloseAnswered(heard.value.result, works);
      } else {
        var never := heard.None?;
        if heard.Some? && !IsTransportOrCallerFailure(heard.value.e) {
          never := NeverInitiated(works);
        }
        answer := Unclear;
        if never {
          ClearDispatched(works);
          InvAlong(past, acts, |acts|);
          answer := NothingSent;
        }
      }
    }

    // The ladder's turn: the whole reservation back for a payment that was refused, never
    // left or failed, the unused part of the fee for one that settled.
    method CorrectBudget(result: Fate, works: bool)
      requires Valid() && w.pc == Correcting(result)
      modifies this
      ensures Valid() && w.pc.Over? && w.told == old(w.told) && w.faults == old(w.faults)
      ensures node == old(node) && books.row == old(books).row
      ensures Corrects(old(books).corrections, result) || (!works && books.corrections == old(books).corrections)
    {
      var ok := Lucky(works);
      CorrectedMoves(bill, books, result);
      books := Corrected(bill, books, result, ok);
      Take(Pay(CorrectLive(ok)));
    }

    // A wallet app's payment, to the answer it is given. The connection's counter is charged
    // amount and reserve, and once corrected it holds what was spent.
    method PayForClient(works: bool) returns (answer: Answer)
      requires Valid() && w.pc.Idle?
      modifies this
      ensures Valid() && w.pc.Over? && w.told == Some(answer) && Kept(old(w.faults), w.faults)
      ensures answer.NothingSent? && w.faults.Honest() ==> node.NeverWill()
      ensures answer.Ended? ==> answer.result == node.fate && node.fate.Terminal()
      ensures !answer.Ended? ==> books.row.Absent? || books.row.Pending?
      ensures Exact(w.faults) ==> CorrectedRightly(w)
      ensures answer.Unclear? ==> books.corrections == []
      ensures (works && !answer.Unclear?) || books.corrections != [] ==>
                bill.amount + bill.reserve + Total(books.corrections) ==
                  if answer.Ended? && answer.result.Paid? then bill.amount + answer.result.fee else 0
    {
      InvAlong(past, acts, |acts|);
      var booked;
      answer, booked := PayInvoice(works);
      if answer.NotDispatched? || answer.NothingSent? {
        CorrectBudget(Failed, works);
      } else if answer.Ended? && booked {
        CorrectBudget(answer.result, works);
      }
      InvAlong(past, acts, |acts|);
    }

    // --------------------------------------------------- what an earlier run left open

    // The pass under way, which is the last one begun.
    ghost function Here(): nat
      reads this`w
      requires w.passes != []
    {
      |w.passes| - 1
    }

    ghost predicate On(p: Pass)
      reads this
    {
      Valid() && w.pc.Over? && w.passes != [] && w.passes[Here()] == p
    }

    method NameRow(works: bool) returns (ghost written: bool)
      requires On(Naming)
      modifies this
      ensures On(Finished(false)) && Here() == old(Here())
      ensures w.faults == old(w.faults) && node == old(node) && (works ==> written)
      ensures books ==
        old(books).(named := old(books).named || (written && books.row.Pending?))
    {
      var ok := Lucky(works);
      books := books.(named := books.named || (ok && books.row.Pending?));
      Take(Resolve(Here(), Name(ok)));
      written := ok;
    }

    // countAttempt: the fifth failed pass in a row names the row for the operator, if the
    // store notes the pass and writes the name.
    method CountAttempt(works: bool) returns (ghost noted: bool, ghost written: bool)
      requires On(Counting)
      modifies this
      ensures On(Finished(false)) && Here() == old(Here())
      ensures w.faults == old(w.faults) && node == old(node) && (works ==> noted)
      ensures books == old(books).(named := books.named, attempts := books.attempts)
      ensures books.attempts == old(books).attempts + if noted && books.row.Pending? then 1 else 0
      ensures books.named == (old(books).named || (noted && written
                && books.row.Pending? && books.attempts >= 5))
      ensures works && books.row.Pending? && books.attempts >= 5 ==> books.named
    {
      var ok := Lucky(works);
      noted, written := ok, false;
      var counted := ok && books.row.Pending?;
      if counted {
        books := books.(attempts := books.attempts + 1);
      }
      Take(Resolve(Here(), Count(ok)));
      if counted && books.attempts >= MAX_RESOLVE_ATTEMPTS {
        written := NameRow(works);
      }
    }

    // The node asked about the payment's hash, with the marker as the pass read it.
    method TrackPayment(dispatched: bool, works: bool) returns (v: Tracked)
      requires On(Tracking(dispatched))
      modifies this
      ensures w.passes != [] && Here() == old(Here()) && books == old(books)
      ensures w.faults.overlap == old(w.faults).overlap
      ensures v.Found? ==> v.result == node.Record() && v.result.Terminal() && On(Booking(v.result))
      ensures v.NoRecord? ==> node.Record().Never? && On(if dispatched then Naming else Returning)
      ensures v.NoWord? ==> On(Counting) && (works ==> node.Record().InFlight?)
    {
      NodeMoves();
      var streamed := Lucky(works);
      v := NoWord;
      if streamed {
        var updates := Received(node.Record(), true, works);
        OutcomeIsTheNodes(updates, node.Record());
        var c := Consume(updates);
        v := if c.Terminal? then Found(c.result) else if c.Missing? then NoRecord else NoWord;
      }
      Take(Resolve(Here(), Track(v)));
    }

    method ReturnUnsent(works: bool) returns (ok: bool)
      requires On(Returning)
      modifies this
      ensures On(Finished(ok)) && Here() == old(Here()) && (works ==> ok)
      ensures w.faults == old(w.faults) && node == old(node)
      ensures books == old(books).(row := books.row, ledger := books.ledger)
      ensures old(books).row.Pending? ==> (books.row.Pending? || books.row.Reversed?)
      ensures ok && old(books).row.Pending? ==> books.row.Reversed?
    {
      var _, failed, write := CloseReservation(Failed, works);
      ok := !failed;
      Take(Resolve(Here(), Return(write)));
    }

    // A terminal answer booked: only the call that closed the row goes on to correct.
    method BookResult(result: Fate, works: bool) returns (ok: bool)
      requires On(Booking(result)) && result.Terminal() && books.row.Pending?
      modifies this
      ensures On(Finished(ok)) && Here() == old(Here()) && (works ==> ok)
      ensures w.faults == old(w.faults) && node == old(node)
      ensures books.row.Pending? || BookedAs(result)
      ensures ok ==> BookedAs(result)
      ensures books.marked == old(books).marked
      ensures (ok && Corrects(old(books).corrections, result))
        || (!works && books.corrections == old(books).corrections)
    {
      var closed, failed := BookNow(result, works);
      ok := !failed;
      if failed {
        var _, _ := CountAttempt(works);
      } else if closed {
        CorrectConnectionBudget(result, works);
      }
    }

    // closeReservation for the resolver, which forgets the failed passes once it is done.
    method BookNow(result: Fate, works: bool) returns (closed: bool, failed: bool)
      requires On(Booking(result)) && result.Terminal() && books.row.Pending?
      modifies this
      ensures w.passes != [] && Here() == old(Here()) && (works ==> !failed)
      ensures w.faults == old(w.faults) && node == old(node) && closed == !failed
      ensures failed ==> On(Counting) && (books.row.Pending? || BookedAs(result))
      ensures !failed ==> On(Adjusting(result)) && BookedAs(result)
      ensures books.marked == old(books).marked && books.corrections == old(books).corrections
    {
      ghost var write;
      closed, failed, write := CloseReservation(result, works);
      var reset := Lucky(works);
      if !failed && reset { books := books.(attempts := 0); }
      Take(Resolve(Here(), Book(write, reset)));
    }

    method CorrectConnectionBudget(result: Fate, works: bool)
      requires On(Adjusting(result))
      modifies this
      ensures On(Finished(true)) && Here() == old(Here())
      ensures w.faults == old(w.faults) && node == old(node)
      ensures books == old(books).(corrections := books.corrections)
      ensures Corrects(old(books).corrections, result) || (!works && books.corrections == old(books).corrections)
    {
      var ok := Lucky(works);
      CorrectedMoves(bill, books, result);
      books := Corrected(bill, books, result, ok);
      Take(Resolve(Here(), Correct(ok)));
    }

    // What one pass may do to a row: settle it at the node's fee, reverse it on the node's
    // word or because it was never handed over, or leave it pending.
    ghost predicate Resolved(was: World)
      reads this
    {
      && Valid() && w.pc.Over? && w.faults.overlap == was.faults.overlap
      && (books.row.Settled? ==> bill.hashed && node.Record() == Paid(books.row.Cost()))
      && (books.row.Reversed? ==> bill.hashed && (node.Record().Failed? || node.Record().Never?))
      && (books.row.Reversed? && node.Record().Never? ==> !was.books.marked)
      && !books.row.Absent?
      && (books.row.Pending? ==> books.corrections == was.books.corrections)
      && (books.corrections == was.books.corrections
          || Corrects(was.books.corrections, if books.row.Settled? then Paid(books.row.Cost()) else Failed))
    }

    // What one pass comes to when nothing fails: the node's end booked, nothing but the
    // marker to go by acted on or named, and a payment still in flight noted.
    ghost predicate Served(was: World, ok: bool)
      reads this
    {
      var record := node.Record();
      && (bill.hashed && record.Terminal() ==> ok && BookedAs(record) && Corrects(was.books.corrections, record))
      && (bill.hashed && record.Never? && !was.books.marked ==> ok && books.row.Reversed?)
      && (bill.hashed && record.Never? && was.books.marked ==> !ok && books.row.Pending? && books.named)
      && (bill.hashed && record.InFlight? ==>
            !ok && books.row.Pending? && books.attempts == was.books.attempts + 1)
      && (!bill.hashed ==> !ok && books.row.Pending? && books.named)
    }

    // One more pass has been made over the row, to its end, and this is what it reported.
    ghost predicate OnePassMade(was: World, ok: bool)
      reads this
    {
      |w.passes| == |was.passes| + 1 && w.passes[|w.passes| - 1] == Finished(ok)
    }

    // All that a pass over the row did.
    ghost predicate Attempted(was: World, ok: bool, works: bool)
      reads this
    {
      Resolved(was) && OnePassMade(was, ok) && (ok ==> !books.row.Pending?) && (works ==> Served(was, ok))
    }

    method ResolveOne(works: bool) returns (ok: bool)
      requires Valid() && w.pc.Over? && books.row.Pending?
      modifies this
      ensures Attempted(old(w), ok, works)
      ensures Exact(w.faults) ==> CorrectedRightly(w)
    {
      Take(Begin);
      ok := false;
      if !bill.hashed {
        var _ := NameRow(works);
      } else {
        ok := ResolveByHash(books.marked, works);
      }
      if Exact(w.faults) { BudgetIsCorrectedAtMostOnce(past, acts, |acts|); }
    }

    method ResolveByHash(dispatched: bool, works: bool) returns (ok: bool)
      requires On(Tracking(dispatched)) && dispatched == books.marked
      requires bill.hashed && books.row.Pending?
      modifies this
      ensures Resolved(old(w)) && On(Finished(ok)) && Here() == old(Here()) && (ok ==> !books.row.Pending?)
      ensures works ==> Served(old(w), ok)
    {
      var v := TrackPayment(dispatched, works);
      ok := false;
      if v.Found? {
        ok := BookResult(v.result, works);
      } else if v.NoWord? {
        var _, _ := CountAttempt(works);
      } else if dispatched {
        var _ := NameRow(works);
      } else {
        ok := ReturnUnsent(works);
      }
    }
  }

  // Faults that have not cleared, the resolver's own kept as they were.
  predicate Kept(f: Faults, g: Faults) {
    && (f.misread ==> g.misread) && (f.pruned ==> g.pruned)
    && f.earlier == g.earlier && f.stale == g.stale && f.overlap == g.overlap
  }

  lemma CorrectedMoves(bill: Bill, b: Books, result: Fate)
    ensures var c := Corrected(bill, b, result, true).corrections;
            && b.corrections <= c && |c| <= |b.corrections| + 1
            && Total(c) - Total(b.corrections) ==
                 if result.Paid? then result.fee - bill.reserve else -(bill.amount + bill.reserve)
  {
    var c := Corrected(bill, b, result, true).corrections;
    if |c| > |b.corrections| { assert c[..|c| - 1] == b.corrections; }
  }

  // How many of the passes reported failure.
  function Failures(oks: seq<bool>): nat {
    if oks == [] then 0 else Failures(oks[..|oks| - 1]) + if oks[|oks| - 1] then 0 else 1
  }

  lemma {:induction false} NoFailures(oks: seq<bool>)
    ensures Failures(oks) == 0 <==> forall i :: 0 <= i < |oks| ==> oks[i]
  {
    if oks != [] {
      var most, last := oks[..|oks| - 1], oks[|oks| - 1];
      NoFailures(most);
      assert oks == most + [last];
    }
  }

  // resolvePendingPayments: every row is attempted, whatever became of the others, and
  // each is left as one pass leaves it. What is counted is the passes that report failure.
  method ResolvePendingPayments(rows: seq<Reservation>, works: bool)
    returns (unresolved: nat, ghost oks: seq<bool>)
    requires forall i, j :: 0 <= i < j < |rows| ==> rows[i] != rows[j]
    requires forall r <- rows :: r.Valid() && r.w.pc.Over? && r.books.row.Pending?
    modifies rows
    ensures |oks| == |rows| && unresolved == Failures(oks)
    ensures forall i :: 0 <= i < |rows| ==> rows[i].Attempted(old(rows[i].w), oks[i], works)
    ensures unresolved == 0 ==> forall r <- rows :: !r.books.row.Pending?
  {
    unresolved, oks := 0, [];
    for i := 0 to |rows|
      invariant |oks| == i && unresolved == Failures(oks)
      invariant forall j :: 0 <= j < i ==> rows[j].Attempted(old(rows[j].w), oks[j], works)
      invariant forall j :: i <= j < |rows| ==> unchanged(rows[j])
    {
      var ok := rows[i].ResolveOne(works);
      assert (oks + [ok])[..i] == oks;
      oks := oks + [ok];
      if !ok { unresolved := unresolved + 1; }
    }
    NoFailures(oks);
  }
}

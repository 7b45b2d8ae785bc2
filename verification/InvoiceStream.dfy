// The one invoice subscription: where it resumes, what its handler has done, how long it
// waits to try again, and the state it leaves on the Node page.
module InvoiceStream {
  import opened Int64
  import opened Wrappers
  import opened Grpc
  import opened Relink

  // ------------------------------------------------------------------- the backoff

  function Doubled(delay: nat, attempt: nat): nat {
    if attempt == 0 then delay else 2 * Doubled(delay, attempt - 1)
  }

  lemma {:induction false} DoubledGrows(delay: nat, m: nat, n: nat)
    requires m <= n
    ensures Doubled(delay, m) <= Doubled(delay, n)
  {
    if m < n { DoubledGrows(delay, m, n - 1); }
  }

  // What the wait is meant to be: the minimum doubled once an attempt, up to the maximum.
  function Backoff(attempt: nat, minDelay: nat, maxDelay: nat): nat {
    if Doubled(minDelay, attempt) >= maxDelay && attempt > 0 then maxDelay
    else Doubled(minDelay, attempt)
  }

  // backoffDelay, whose loop stops at the maximum: the doubling never leaves the machine's
  // range, however many attempts there have been.
  method BackoffDelay(attempt: int, minDelay: int64, maxDelay: int64) returns (delay: int64)
    requires 0 < minDelay <= maxDelay <= MAX64 / 2
    ensures delay == Backoff(if attempt <= 0 then 0 else attempt, minDelay, maxDelay)
    ensures minDelay <= delay <= maxDelay
  {
    if attempt <= 0 { return minDelay; }
    delay := minDelay;
    for i := 0 to attempt
      invariant delay == Doubled(minDelay, i) && minDelay <= delay <= maxDelay
      invariant i > 0 ==> delay < maxDelay
    {
      delay := Wrap(delay * 2);
      if delay >= maxDelay {
        DoubledGrows(minDelay, i + 1, attempt);
        return maxDelay;
      }
    }
  }

  // A maximum past half the range: doubling wraps below zero and the wait is no wait.
  lemma DoublingPastTheRangeWraps()
    ensures var delay: int64 := 0x4000_0000_0000_0000; Wrap(delay * 2) < 0
  {}

  // -------------------------------------------------------------- the resume point

  // The node's settlements carry a settle index that only grows, from 1.
  predicate Growing(settled: seq<nat>) {
    && (forall i :: 0 <= i < |settled| ==> settled[i] >= 1)
    && forall i, j :: 0 <= i < j < |settled| ==> settled[i] < settled[j]
  }

  // What a subscription at `last` brings: every settlement with a greater index.
  function Delivered(settled: seq<nat>, last: nat): seq<nat> {
    if settled == [] then [] else
      (if settled[0] > last then [settled[0]] else []) + Delivered(settled[1..], last)
  }

  // The index of the n-th settlement: what is stored once n have been handled.
  function IndexOf(settled: seq<nat>, n: nat): nat
    requires n <= |settled|
  {
    if n == 0 then 0 else settled[n - 1]
  }

  lemma {:induction false} AllDelivered(settled: seq<nat>, last: nat)
    requires forall s <- settled :: s > last
    ensures Delivered(settled, last) == settled
  {
    if settled != [] {
      assert settled[0] in settled && settled == [settled[0]] + settled[1..];
      assert forall s <- settled[1..] :: s in settled;
      AllDelivered(settled[1..], last);
    }
  }

  // A subscription at the stored index resumes at the first settlement not handled.
  lemma {:induction false} ResumesWhereItStopped(settled: seq<nat>, n: nat)
    requires Growing(settled) && n <= |settled|
    ensures Delivered(settled, IndexOf(settled, n)) == settled[n..]
  {
    if n == 0 {
      AllDelivered(settled, 0);
    } else {
      ResumesAfter(settled, n, settled[n - 1]);
    }
  }

  lemma {:induction false} ResumesAfter(settled: seq<nat>, n: nat, last: nat)
    requires Growing(settled) && n <= |settled|
    requires forall i :: 0 <= i < |settled| ==> (settled[i] > last <==> i >= n)
    ensures Delivered(settled, last) == settled[n..]
  {
    if n == 0 {
      AllDelivered(settled, last);
    } else {
      assert settled[1..][n - 1..] == settled[n..];
      ResumesAfter(settled[1..], n - 1, last);
    }
  }

  // Subscribing one past the stored index would lose a settlement.
  lemma OnePastSkips(settled: seq<nat>, n: nat)
    requires Growing(settled) && n < |settled| && settled[n] == IndexOf(settled, n) + 1
    ensures settled[n] !in Delivered(settled, IndexOf(settled, n) + 1)
  {
    DeliveredAreLater(settled, settled[n]);
  }

  lemma {:induction false} DeliveredAreLater(settled: seq<nat>, last: nat)
    ensures forall s <- Delivered(settled, last) :: s > last
  {
    if settled != [] { DeliveredAreLater(settled[1..], last); }
  }

  // How many messages of a stream are settlements.
  function Settlements(messages: seq<bool>): nat {
    if messages == [] then 0 else
      Settlements(messages[..|messages| - 1]) + if messages[|messages| - 1] then 1 else 0
  }

  function AllSettlements(streams: seq<seq<bool>>): nat {
    if streams == [] then 0 else
      AllSettlements(streams[..|streams| - 1]) + Settlements(streams[|streams| - 1])
  }

  datatype Failure = Node | Ours

  // One wait between two streams, and whether the one before it worked.
  datatype Waited = Waited(worked: bool, counted: nat, suspected: bool, delay: int64)

  class Receiver {
    // The node's settlements so far.
    var settled: seq<nat>
    // The store: the resume point, and the settlements the idempotent handler has posted.
    var resume: nat
    var posted: seq<nat>
    // The client.
    var state: State
    var suspected: bool
    var running: bool
    const minBackoff: int64
    const maxBackoff: int64

    // How many settlements the stored resume point covers, and how many have had their
    // handler return without error.
    ghost var covered: nat
    ghost var done: nat
    ghost var past: seq<World>
    ghost var acts: seq<Action>
    ghost var w: World

    ghost predicate Resumable()
      reads this`settled, this`resume, this`posted, this`covered, this`done
    {
      && Growing(settled) && covered <= done <= |posted| <= covered + 1
      && |posted| <= |settled| && posted == settled[..|posted|]
      && resume == IndexOf(settled, covered)
    }

    ghost predicate History()
      reads this`past, this`acts, this`w
    {
      Run(past, acts) && Fresh(past[0]) && w == past[|acts|]
    }

    ghost predicate Valid()
      reads this
    {
      && Resumable() && History() && w.state == state && w.suspected == suspected
      && w.judged.None? && 0 < minBackoff <= maxBackoff <= MAX64 / 2
    }

    constructor (state: State, minBackoff: int64, maxBackoff: int64)
      requires state.NotLinked? || state.Connecting?
      requires 0 < minBackoff <= maxBackoff <= MAX64 / 2
      ensures Valid() && resume == 0 && posted == [] && settled == []
    {
      this.state, this.minBackoff, this.maxBackoff := state, minBackoff, maxBackoff;
      settled, resume, posted, suspected, running := [], 0, [], false, false;
      covered, done := 0, 0;
      w := World(state, false, None, []);
      new;
      past, acts := [w], [];
    }

    // No settlement is passed: everything at or below the resume point was handled, and
    // the handler's effects are the node's settlements, each once and in order.
    lemma NoSettlementIsPassed(i: nat)
      requires Valid() && i < |settled| && settled[i] <= resume
      ensures i < done && i < |posted| && posted[i] == settled[i]
    {
      assert i < covered;
    }

    lemma EachOnceAndInOrder()
      requires Valid()
      ensures posted <= settled && forall i :: 0 <= i < |settled| && settled[i] <= resume ==> i < |posted|
      ensures forall i, j :: 0 <= i < |settled| && 0 <= j < |posted| ==>
        (posted[j] == settled[i] <==> i == j)
    {
      assert forall j :: 0 <= j < |posted| ==> posted[j] == settled[j];
    }

    ghost method Take(a: Action)
      requires History() && Can(w, a)
      modifies this`past, this`acts, this`w
      ensures History() && w == Do(old(w), a)
    {
      Grow(past, acts, a);
      w := Do(w, a);
      past, acts := past + [w], acts + [a];
    }

    // Calls made for requests, at any moment: they move the state and nothing else.
    method Requests()
      requires Resumable() && History() && w.state == state && w.suspected == suspected
      modifies this`state, this`past, this`acts, this`w
      ensures Resumable() && History() && w.state == state && w.suspected == suspected
      ensures w.outcomes == old(w.outcomes) && w.judged.None? == old(w.judged).None?
      ensures w.judged.Some? ==> w.judged.value.to == old(w.judged).value.to
    {
      var more: nat := *;
      while more > 0
        invariant Resumable() && History() && w.state == state && w.suspected == suspected
        invariant w.outcomes == old(w.outcomes) && w.judged.None? == old(w.judged).None?
        invariant w.judged.Some? ==> w.judged.value.to == old(w.judged).value.to
      {
        var r: Request := *;
        ObserveRequest(r);
        more := more - 1;
      }
    }

    // The outcome of one call made for a request: an answer means ready, no credential not
    // linked, and a dial ends only that.
    method ObserveRequest(r: Request)
      requires Resumable() && History() && w.state == state && w.suspected == suspected
      modifies this`state, this`past, this`acts, this`w
      ensures Resumable() && History() && w.state == state && w.suspected == suspected
      ensures w.outcomes == old(w.outcomes) && w.judged.None? == old(w.judged).None?
      ensures w.judged.Some? ==> w.judged.value.to == old(w.judged).value.to
      ensures r.Answered? ==> state.Ready?
      ensures r.Absent? ==> state.NotLinked?
      ensures r.Dialled? ==> state == if old(state).NotLinked? then Connecting else old(state)
      ensures r.OtherError? ==> state == old(state)
    {
      state := RequestState(state, r);
      Take(OnRequest(r));
    }

    // The arms in the outcome's own terms: an open stream, no credential, a verdict, an error
    // that is no refusal, a refusal that confirms, one that is to be confirmed, and one that
    // says nothing yet.
    predicate JudgedAs(o: Outcome, was: bool, to: Option<State>)
      requires o.Stream?
      reads this`state, this`suspected
    {
      if o.e.NoError? then to == Some(Ready) && !suspected
      else if o.e.NoCredential? || !o.readable then to == Some(NotLinked) && !suspected
      else if o.e in {Status(Code.Unauthenticated), Status(Code.PermissionDenied)} then
        to == Some(State.Relink) && !suspected
      else if o.e !in {Status(Code.Unknown), Status(Code.Aborted), Status(Code.Internal), Status(Code.DataLoss)} then
        to == None && !suspected
      else if o.delivered || !o.admits then to == Some(Connecting) && !suspected
      else if was || state.Relink? then to == Some(State.Relink) && !suspected
      else to == Some(Connecting) && suspected
    }

    // recordState with relinkState, up to the state it would record: the suspicion is
    // taken, and set again only by a refusal that needs a second.
    method JudgeOutcome(o: Outcome) returns (to: Option<State>)
      requires o.Stream?
      modifies this`suspected
      ensures var before := World(state, old(suspected), None, []);
              to == Verdicts(before, o) && suspected == Suspects(before, o)
      ensures JudgedAs(o, old(suspected), to)
    {
      var was := suspected;
      suspected := false;
      if o.e.NoError? {
        to := Some(Ready);
      } else if Missing(o) {
        to := Some(NotLinked);
      } else if IsAuthFailure(o.e) {
        to := Some(Relink);
      } else if !IsCredentialRejected(o.e) {
        to := None;
      } else {
        to := Some(Connecting);
        if !o.delivered && o.admits {
          if was || state.Relink? { to := Some(Relink); } else { suspected := true; }
        }
      }
    }

    // observeStream: the outcome judged, and its state recorded over whatever requests
    // have made of it meanwhile.
    method ObserveStream(o: Outcome)
      requires Valid() && o.Stream?
      modifies this`state, this`suspected, this`past, this`acts, this`w
      ensures Valid() && w.outcomes == old(w.outcomes) + [o]
      ensures suspected ==> AdmittedRefusal(o)
      ensures Verdict(o) ==> state.Relink?
    {
      var to := JudgeOutcome(o);
      Take(Judge(o));
      Requests();
      if to.Some? { state := to.value; }
      Take(Record);
    }

    // The handler: a settlement already posted is not posted again, and an error may come
    // after the posting as well as before it.
    method Handle(index: nat, works: bool) returns (ok: bool)
      requires Resumable() && covered < |settled| && index == settled[covered]
      modifies this`posted, this`done
      ensures Resumable() && done == old(done) + (if ok && old(done) == covered then 1 else 0)
      ensures posted == old(posted) || posted == old(posted) + [index]
      ensures ok ==> done == covered + 1 && index in posted
      ensures works ==> ok
    {
      ok := *;
      ok := ok || works;
      var made: bool := *;
      if (ok || made) && index !in posted {
        assert |posted| == covered;
        posted := posted + [index];
      }
      if ok {
        assert |posted| == covered + 1;
        done := covered + 1;
      }
    }

    // SetLastSettleIndex, which may fail.
    method Persist(index: nat, works: bool) returns (ok: bool)
      requires Resumable() && covered < done && index == settled[covered]
      modifies this`resume, this`covered
      ensures Resumable() && covered == if ok then old(covered) + 1 else old(covered)
      ensures resume == if ok then index else old(resume)
      ensures works ==> ok
    {
      ok := *;
      ok := ok || works;
      if ok {
        resume := index;
        covered := covered + 1;
      }
    }

    // The node settles more invoices.
    method NodeSettles()
      requires Resumable()
      modifies this`settled
      ensures Resumable() && old(settled) <= settled
    {
      var more: nat, step: nat := *, *;
      if more > 0 && step > 0 {
        settled := settled + [(if settled == [] then 0 else settled[|settled| - 1]) + step];
      }
    }

    // One settlement delivered: handled, then its index stored. False ends the stream.
    method Settle(index: nat, works: bool) returns (ok: bool)
      requires Resumable() && covered < |settled| && index == settled[covered]
      modifies this`posted, this`done, this`resume, this`covered
      ensures Resumable() && old(posted) <= posted
      ensures covered == if ok then old(covered) + 1 else old(covered)
      ensures ok ==> index in posted && resume == index
      ensures !ok ==> resume == old(resume)
      ensures works ==> ok
    {
      ok := Handle(index, works);
      if ok {
        ok := Persist(index, works);
      }
    }

    // The next settlement a stream opened at `last` brings, if there is one: `next` have
    // come before it, and `base` were covered when it was opened. It is handled and its
    // index stored before the stream goes on.
    method Deliver(last: nat, next: nat, ghost base: nat, works: bool) returns (ok: bool, count: nat)
      requires Resumable() && covered == base + next && last == IndexOf(settled, base)
      modifies this`posted, this`done, this`resume, this`covered
      ensures Resumable() && old(posted) <= posted
      ensures covered == base + count
      ensures base + next >= |settled| ==> ok && count == next && posted == old(posted)
      ensures base + next < |settled| ==> count == if ok then next + 1 else next
      ensures ok && base + next < |settled| ==>
                settled[base + next] in posted && resume == settled[base + next]
      ensures works ==> ok
    {
      ok, count := true, next;
      ResumesWhereItStopped(settled, base);
      var brought := Delivered(settled, last);
      if next < |brought| {
        assert brought[next] == settled[covered];
        ok := Settle(brought[next], works);
        count := if ok then next + 1 else next;
      }
    }

    // One message of an open stream, a settlement or any other invoice update.
    method Message(settlement: bool, last: nat, next: nat, ghost base: nat, works: bool)
      returns (ok: bool, count: nat)
      requires Valid() && covered == base + next && last == IndexOf(settled, base)
      modifies this`settled, this`posted, this`done, this`resume, this`covered
      modifies this`state, this`suspected, this`past, this`acts, this`w
      ensures Valid() && old(posted) <= posted && old(settled) <= settled
      ensures covered == base + count && next <= count && last == IndexOf(settled, base)
      ensures !settlement ==> ok && posted == old(posted) && resume == old(resume)
      ensures settlement && base + next < |settled| ==> count == if ok then next + 1 else next
      ensures settlement && base + next < |settled| && ok ==>
                settled[base + next] in posted && resume == settled[base + next]
      ensures works ==> ok
    {
      NodeSettles();
      ObserveStream(Stream(NoError, true, true, true));
      ok, count := true, next;
      if settlement {
        ok, count := Deliver(last, next, base, works);
      }
    }

    method NodeError(delivered: bool) returns (o: Outcome)
      ensures o.Stream? && !o.e.NoError? && o.delivered == delivered
    {
      var e: CallError, readable: bool, admits: bool := *, *, *;
      o := Stream(if e.NoError? then Unreached else e, readable, delivered, admits);
    }

    // streamOnce: read the resume point, subscribe there, and pump the stream until the
    // node or this process ends it. `messages` says of each message it brings before then
    // whether it is a settlement.
    method StreamOnce(messages: seq<bool>, works: bool) returns (received: bool, failure: Failure)
      requires Valid()
      modifies this`settled, this`posted, this`done, this`resume, this`covered
      modifies this`state, this`suspected, this`past, this`acts, this`w
      ensures Valid() && old(posted) <= posted && old(settled) <= settled
      ensures old(resume) <= resume && old(covered) <= covered
      ensures failure.Node? && suspected ==> !received
      ensures works ==> failure.Node? && (received <==> messages != [])
      ensures works ==> covered >= |old(settled)| || covered >= old(covered) + Settlements(messages)
    {
      var readable: bool, connected: bool := *, *;
      received, failure := false, Ours;
      if readable || works {
        var ok := true;
        if connected || works {
          received, ok := Pump(messages, works);
        }
        if ok {
          var o := NodeError(received);
          ObserveStream(o);
          failure := Node;
        }
      }
    }

    // The messages of one stream, opened at the resume point. False is a failure of this
    // process's own.
    method Pump(messages: seq<bool>, works: bool) returns (received: bool, ok: bool)
      requires Valid()
      modifies this`settled, this`posted, this`done, this`resume, this`covered
      modifies this`state, this`suspected, this`past, this`acts, this`w
      ensures Valid() && old(posted) <= posted && old(settled) <= settled
      ensures old(resume) <= resume && old(covered) <= covered
      ensures works ==> ok && (received <==> messages != [])
      ensures works ==> covered >= |old(settled)| || covered >= old(covered) + Settlements(messages)
    {
      received, ok := false, true;
      ghost var base := covered;
      var last, next, i := resume, 0, 0;
      while ok && i < |messages|
        invariant Valid() && old(posted) <= posted && old(settled) <= settled
        invariant covered == base + next && last == IndexOf(settled, base)
        invariant i <= |messages| && (works ==> ok) && (received <==> i > 0)
        invariant works ==> covered >= |old(settled)| || next >= Settlements(messages[..i])
        decreases |messages| - i
      {
        assert messages[..i + 1][..i] == messages[..i];
        ok, next := Message(messages[i], last, next, base, works);
        received, i := true, i + 1;
      }
      assert messages[..|messages|] == messages;
    }

    // After a stream has ended: an attempt that worked starts the count again, a failure
    // of this process's own ends a suspicion, and a suspicion shortens the wait.
    method Wait(attempt: nat, received: bool, longUp: bool, failure: Failure)
      returns (counted: nat, delay: int64)
      requires Valid()
      modifies this`suspected, this`past, this`acts, this`w
      ensures Valid() && counted == (if received || longUp then 0 else attempt)
      ensures suspected == (old(suspected) && !failure.Ours?)
      ensures suspected ==> delay == minBackoff
      ensures !suspected ==> delay == Backoff(counted, minBackoff, maxBackoff)
    {
      counted := if received || longUp then 0 else attempt;
      if failure.Ours? {
        suspected := false;
        Take(Local);
      }
      delay := BackoffDelay(counted, minBackoff, maxBackoff);
      if suspected { delay := minBackoff; }
    }

    // One stream and the wait after it.
    method StreamAndWait(attempt: nat, messages: seq<bool>, works: bool)
      returns (next: nat, ghost waited: Waited)
      requires Valid()
      modifies this`settled, this`posted, this`done, this`resume, this`covered
      modifies this`state, this`suspected, this`past, this`acts, this`w
      ensures Valid() && old(posted) <= posted && old(settled) <= settled && old(resume) <= resume
      ensures next == waited.counted + 1 && WaitedRight(waited, attempt)
      ensures works && messages != [] ==> waited.worked
      ensures old(covered) <= covered
      ensures works ==> covered >= |old(settled)| || covered >= old(covered) + Settlements(messages)
    {
      var longUp: bool := *;
      var received, failure := StreamOnce(messages, works);
      var counted, delay := Wait(attempt, received, longUp, failure);
      waited := Waited(received || longUp, counted, suspected, delay);
      next := counted + 1;
    }

    // RunInvoiceStream: one stream at a time for the life of the process, reopened for as
    // long as it lives.
    // `streams` is what each brings.
    method RunInvoiceStream(streams: seq<seq<bool>>, works: bool)
      returns (ran: bool, ghost waits: seq<Waited>)
      requires Valid()
      modifies this
      ensures Valid() && old(posted) <= posted && old(resume) <= resume
      ensures ran ==> |waits| == |streams| && Counted(waits)
      ensures ran && works ==> forall i :: 0 <= i < |streams| && streams[i] != [] ==> waits[i].worked
      ensures ran && works ==> covered >= |old(settled)| || covered >= old(covered) + AllSettlements(streams)
      ensures ran <==> !old(running)
      ensures !ran ==> posted == old(posted) && resume == old(resume) && running
      ensures ran ==> !running
    {
      if running { return false, []; }
      running, waits := true, [];
      var attempt := 0;
      for i := 0 to |streams|
        invariant Valid() && old(posted) <= posted && old(settled) <= settled
        invariant old(resume) <= resume && running && |waits| == i && Counted(waits)
        invariant attempt == if i == 0 then 0 else waits[i - 1].counted + 1
        invariant works ==> forall j :: 0 <= j < i && streams[j] != [] ==> waits[j].worked
        invariant works ==> covered >= |old(settled)| || covered >= old(covered) + AllSettlements(streams[..i])
      {
        assert streams[..i + 1][..i] == streams[..i];
        ghost var waited;
        attempt, waited := StreamAndWait(attempt, streams[i], works);
        waits := waits + [waited];
      }
      assert streams[..|streams|] == streams;
      running := false;
      ran := true;
    }

    // Each wait is after as many failures in a row as there have been, a stream that worked
    // starting the count again, and as long as they call for.
    ghost predicate Counted(waits: seq<Waited>)
      requires 0 < minBackoff <= maxBackoff
    {
      forall i :: 0 <= i < |waits| ==> WaitedRight(waits[i], if i == 0 then 0 else waits[i - 1].counted + 1)
    }

    ghost predicate WaitedRight(waited: Waited, attempt: nat)
      requires 0 < minBackoff <= maxBackoff
    {
      && waited.counted == (if waited.worked then 0 else attempt)
      && waited.delay == if waited.suspected then minBackoff else Backoff(waited.counted, minBackoff, maxBackoff)
    }

    // A new process over the same store.
    method Restart(readable: bool)
      requires Valid()
      modifies this
      ensures Valid() && !running && !suspected && posted == old(posted) && resume == old(resume)
      ensures state == if readable then Connecting else NotLinked
    {
      state, suspected, running := if readable then Connecting else NotLinked, false, false;
      w := World(state, false, None, []);
      past, acts := [w], [];
    }
  }
}

// The guard's hard spend cap: pricing an intercepted payment in 64-bit arithmetic,
// the rolling window of recorded attempts, and the refund of an observed failure.
module SpendCap {
  import opened Int64
  import opened Wrappers

  // ------------------------------------------------------------------- pricing

  const MAX_COUNTABLE: int64 := 0x4000_0000_0000_0000

  // The fields of a SendPaymentRequest that name money, and whether it carries an invoice.
  datatype Request = Request(
    amtMsat: int64, amt: int64, feeLimitMsat: int64, feeLimitSat: int64, hasInvoice: bool)

  predicate CountableSats(sats: int64) { 0 <= sats <= MAX_COUNTABLE / 1000 }

  // The true cost of a request in unbounded arithmetic. `invoice` is the amount the
  // node reads from the invoice, zero when it names none.
  function RequestedMsat(r: Request): int { if r.amtMsat != 0 then r.amtMsat else r.amt * 1000 }

  function AmountMsat(r: Request, invoice: Option<int64>): int {
    if r.hasInvoice && invoice.Some? && invoice.value > 0 then invoice.value else RequestedMsat(r)
  }

  function FeeMsat(r: Request): int {
    if r.feeLimitMsat != 0 then r.feeLimitMsat else r.feeLimitSat * 1000
  }

  predicate Countable(r: Request, invoice: Option<int64>) {
    && (r.amtMsat == 0 ==> CountableSats(r.amt))
    && (r.hasInvoice ==> invoice.Some?)
    && (r.feeLimitMsat == 0 ==> CountableSats(r.feeLimitSat))
    && AmountMsat(r, invoice) > 0 && FeeMsat(r) >= 0
    && AmountMsat(r, invoice) + FeeMsat(r) <= MAX_COUNTABLE
  }

  // priceAttempt: a price exactly when the request can be counted, and then the amount the
  // invoice names, or else the request, plus the fee limit, each in msat or in satoshis.
  method PriceAttempt(r: Request, invoice: Option<int64>) returns (cost: Option<int64>)
    ensures cost.Some? <==> Countable(r, invoice)
    ensures cost.Some? ==> cost.value == AmountMsat(r, invoice) + FeeMsat(r)
    ensures cost.Some? ==> 1 <= cost.value <= 0x4000_0000_0000_0000
    ensures cost.Some? ==>
              cost.value == (if r.hasInvoice && invoice.value > 0 then invoice.value
                             else if r.amtMsat != 0 then r.amtMsat else 1000 * r.amt)
                            + if r.feeLimitMsat != 0 then r.feeLimitMsat else 1000 * r.feeLimitSat
  {
    var amount := r.amtMsat;
    if amount == 0 {
      if !CountableSats(r.amt) { return None; }
      amount := Wrap(r.amt * 1000);
    }
    if r.hasInvoice {
      if invoice.None? { return None; }
      if invoice.value > 0 { amount := invoice.value; }
    }
    var fee := r.feeLimitMsat;
    if fee == 0 {
      if !CountableSats(r.feeLimitSat) { return None; }
      fee := Wrap(r.feeLimitSat * 1000);
    }
    if amount <= 0 { return None; }
    if fee < 0 || amount > Wrap(MAX_COUNTABLE - fee) { return None; }
    return Some(Wrap(amount + fee));
  }

  // In the fields themselves: what cannot be counted is a figure past the bound, a fee limit
  // below zero, no amount above zero, an invoice that cannot be read, or a satoshi figure
  // that is to be multiplied (also when the invoice overrides it) and is out of range.
  lemma CountableIff(r: Request, invoice: Option<int64>)
    ensures Countable(r, invoice) <==>
      && (r.hasInvoice ==> invoice.Some?)
      && (r.amtMsat == 0 ==> 0 <= 1000 * r.amt <= 0x4000_0000_0000_0000)
      && (r.feeLimitMsat == 0 ==> 0 <= 1000 * r.feeLimitSat <= 0x4000_0000_0000_0000)
      && var amount := if r.hasInvoice && invoice.value > 0 then invoice.value
                       else if r.amtMsat != 0 then r.amtMsat else 1000 * r.amt;
         var fee := if r.feeLimitMsat != 0 then r.feeLimitMsat else 1000 * r.feeLimitSat;
         0 < amount && 0 <= fee && amount + fee <= 0x4000_0000_0000_0000
  {}

  // Without the check before the multiply, a satoshi figure wraps to a small price.
  lemma UncheckedSatsWrap()
    ensures var sats: int64 := 18446744073709552; Wrap(sats * 1000) == 384 < sats * 1000
  {}

  // ---------------------------------------------------------------- the window

  const WINDOW := 24 * 3600

  // An attempt's key: this run of the guard, the middleware stream it arrived on, and
  // the node's own number for the request within that stream.
  datatype Key = Key(nonce: nat, session: nat, request: nat)

  datatype Attempt = Attempt(key: Key, at: int, msat: int64)

  function Within(s: seq<Attempt>, cutoff: int): seq<Attempt> {
    if s == [] then [] else (if s[0].at > cutoff then [s[0]] else []) + Within(s[1..], cutoff)
  }

  function Sum(s: seq<Attempt>): int { if s == [] then 0 else s[0].msat + Sum(s[1..]) }

  predicate Priced(s: seq<Attempt>) { forall a <- s :: a.msat >= 1 }

  lemma {:induction false} WithinOfSum(s: seq<Attempt>, t: seq<Attempt>, cutoff: int)
    ensures Within(s + t, cutoff) == Within(s, cutoff) + Within(t, cutoff)
  {
    if s == [] {
      assert s + t == t;
    } else {
      WithinOfSum(s[1..], t, cutoff);
      assert (s + t)[1..] == s[1..] + t && (s + t)[0] == s[0];
      var head := if s[0].at > cutoff then [s[0]] else [];
      assert head + (Within(s[1..], cutoff) + Within(t, cutoff))
          == (head + Within(s[1..], cutoff)) + Within(t, cutoff);
    }
  }

  lemma {:induction false} SumOfSum(s: seq<Attempt>, t: seq<Attempt>)
    ensures Sum(s + t) == Sum(s) + Sum(t)
  {
    if s == [] {
      assert s + t == t;
    } else {
      SumOfSum(s[1..], t);
      assert (s + t)[1..] == s[1..] + t && (s + t)[0] == s[0];
    }
  }

  lemma {:induction false} WithinIsNoMore(s: seq<Attempt>, cutoff: int)
    requires Priced(s)
    ensures 0 <= Sum(Within(s, cutoff)) <= Sum(s)
    ensures Priced(Within(s, cutoff)) && |Within(s, cutoff)| <= |s|
  {
    if s != [] {
      WithinIsNoMore(s[1..], cutoff);
      var w := Within(s[1..], cutoff);
      assert s[0] in s && [] + w == w && ([s[0]] + w)[1..] == w;
    }
  }

  // Pruning again with a later cutoff is pruning once.
  lemma {:induction false} WithinTwice(s: seq<Attempt>, early: int, late: int)
    requires early <= late
    ensures Within(Within(s, early), late) == Within(s, late)
  {
    if s != [] {
      WithinTwice(s[1..], early, late);
      var w := Within(s[1..], early);
      assert [] + w == w && ([s[0]] + w)[1..] == w;
    }
  }

  lemma StepOfWindow(s: seq<Attempt>, i: nat, cutoff: int)
    requires i < |s| && Priced(s)
    ensures Within(s[..i + 1], cutoff) ==
            Within(s[..i], cutoff) + if s[i].at > cutoff then [s[i]] else []
    ensures Sum(Within(s[..i], cutoff) + [s[i]]) == Sum(Within(s[..i], cutoff)) + s[i].msat
    ensures s[i].at > cutoff ==> Sum(Within(s[..i], cutoff)) + s[i].msat <= Sum(s)
    ensures 0 <= Sum(Within(s[..i], cutoff))
  {
    assert s[..i + 1] == s[..i] + [s[i]] && s == s[..i + 1] + s[i + 1..];
    WithinOfSum(s[..i], [s[i]], cutoff);
    SumOfSum(Within(s[..i], cutoff), [s[i]]);
    SumOfSum(s[..i + 1], s[i + 1..]);
    WithinIsNoMore(s[..i], cutoff);
    WithinIsNoMore(s[..i + 1], cutoff);
    WithinIsNoMore(s[i + 1..], cutoff);
  }

  // spendWindowUsed: the records inside the window and their sum, which does not wrap.
  method SpendWindowUsed(attempts: seq<Attempt>, now: int)
    returns (used: int64, kept: seq<Attempt>)
    requires Priced(attempts) && Sum(attempts) <= MAX64
    ensures kept == Within(attempts, now - WINDOW) && used == Sum(kept)
  {
    used, kept := 0, [];
    for i := 0 to |attempts|
      invariant kept == Within(attempts[..i], now - WINDOW) && used == Sum(kept)
    {
      StepOfWindow(attempts, i, now - WINDOW);
      if attempts[i].at > now - WINDOW {
        kept := kept + [attempts[i]];
        used := Wrap(used + attempts[i].msat);
      }
    }
    assert attempts[..|attempts|] == attempts;
  }

  // The comparison with the cap is the true one exactly when the sum fits the machine;
  // past that it lets the payment through.
  lemma ComparisonIsTrueIff(used: int64, cost: int64, cap: int64)
    requires 0 <= used <= cap && 1 <= cost <= MAX_COUNTABLE
    ensures (Wrap(used + cost) > cap <==> used + cost > cap) <==> used + cost <= MAX64
  {}

  // ------------------------------------------------------------------- the ledger

  // One admitted attempt, the window cap in force when it was admitted, and whether a
  // failure reported under its key gave it back.
  datatype Admission = Admission(attempt: Attempt, cap: int64, refunded: bool)

  function Live(log: seq<Admission>): seq<Attempt> {
    if log == [] then [] else
      (if log[0].refunded then [] else [log[0].attempt]) + Live(log[1..])
  }

  // What was admitted in (from, to] and not given back.
  function Spent(log: seq<Admission>, from: int, to: int): int {
    if log == [] then 0 else
      (if !log[0].refunded && from < log[0].attempt.at <= to then log[0].attempt.msat else 0)
      + Spent(log[1..], from, to)
  }

  predicate Ordered(log: seq<Admission>) {
    forall i, j :: 0 <= i < j < |log| ==> log[i].attempt.at <= log[j].attempt.at
  }

  predicate AllPriced(log: seq<Admission>) { forall e <- log :: e.attempt.msat >= 1 }

  // Each admission fitted the cap it was admitted under, counting the day before it.
  predicate Fits(log: seq<Admission>, i: nat)
    requires i < |log|
  {
    var at := log[i].attempt.at;
    Spent(log[..i + 1], at - WINDOW, at) <= log[i].cap
  }

  ghost predicate Ledger(log: seq<Admission>) {
    Ordered(log) && AllPriced(log) && forall i :: 0 <= i < |log| ==> Fits(log, i)
  }

  lemma {:induction false} SpentOfSum(s: seq<Admission>, t: seq<Admission>, from: int, to: int)
    ensures Spent(s + t, from, to) == Spent(s, from, to) + Spent(t, from, to)
  {
    if s == [] {
      assert s + t == t;
    } else {
      SpentOfSum(s[1..], t, from, to);
      assert (s + t)[1..] == s[1..] + t && (s + t)[0] == s[0];
    }
  }

  lemma {:induction false} LiveOfSum(s: seq<Admission>, t: seq<Admission>)
    ensures Live(s + t) == Live(s) + Live(t)
  {
    if s == [] {
      assert s + t == t;
    } else {
      LiveOfSum(s[1..], t);
      assert (s + t)[1..] == s[1..] + t && (s + t)[0] == s[0];
      var head := if s[0].refunded then [] else [s[0].attempt];
      assert head + (Live(s[1..]) + Live(t)) == (head + Live(s[1..])) + Live(t);
    }
  }

  // The records the guard still holds add up to what was spent.
  lemma {:induction false} SpentIsHeld(log: seq<Admission>, from: int, to: int)
    requires forall e <- log :: e.attempt.at <= to
    ensures Spent(log, from, to) == Sum(Within(Live(log), from))
  {
    if log != [] {
      SpentIsHeld(log[1..], from, to);
      assert log[0] in log;
      var l := Live(log[1..]);
      assert [] + l == l && ([log[0].attempt] + l)[1..] == l;
      var w := Within(l, from);
      assert [] + w == w && ([log[0].attempt] + w)[1..] == w;
    }
  }

  // A wider interval holds no less.
  lemma {:induction false} SpentGrows(log: seq<Admission>, from: int, to: int, f: int, t: int)
    requires AllPriced(log) && f <= from && to <= t
    ensures 0 <= Spent(log, from, to) <= Spent(log, f, t)
  {
    if log != [] {
      assert log[0] in log;
      SpentGrows(log[1..], from, to, f, t);
    }
  }

  lemma {:induction false} NothingSpentAfter(log: seq<Admission>, from: int, to: int)
    requires forall e <- log :: e.attempt.at > to
    ensures Spent(log, from, to) == 0
  {
    if log != [] {
      assert log[0] in log;
      NothingSpentAfter(log[1..], from, to);
    }
  }

  // The rolling cap, at every instant: whatever was admitted in the day that ends at t
  // and not given back is within the window cap in force at the last admission
  // up to t.
  lemma RollingCap(log: seq<Admission>, t: int, last: nat)
    requires Ledger(log)
    requires last < |log| && log[last].attempt.at <= t
    requires last + 1 < |log| ==> log[last + 1].attempt.at > t
    ensures Spent(log, t - WINDOW, t) <= log[last].cap
  {
    var before, at := log[..last + 1], log[last].attempt.at;
    LaterOnesDoNotCount(log, t - WINDOW, t, last + 1);
    assert forall e <- before :: e in log && e.attempt.at <= at;
    SpentUpTo(before, t - WINDOW, at, t);
    SpentGrows(before, t - WINDOW, at, at - WINDOW, at);
    assert Fits(log, last);
  }

  lemma LaterOnesDoNotCount(log: seq<Admission>, from: int, to: int, n: nat)
    requires Ordered(log) && n <= |log| && (n < |log| ==> log[n].attempt.at > to)
    ensures Spent(log, from, to) == Spent(log[..n], from, to)
  {
    assert log == log[..n] + log[n..];
    SpentOfSum(log[..n], log[n..], from, to);
    NothingSpentAfter(log[n..], from, to);
  }

  lemma {:induction false} SpentUpTo(log: seq<Admission>, from: int, to: int, t: int)
    requires to <= t && forall e <- log :: e.attempt.at <= to
    ensures Spent(log, from, t) == Spent(log, from, to)
  {
    if log != [] {
      assert log[0] in log;
      SpentUpTo(log[1..], from, to, t);
    }
  }

  lemma NothingBeforeTheFirst(log: seq<Admission>, t: int)
    requires Ordered(log) && (log != [] ==> log[0].attempt.at > t)
    ensures Spent(log, t - WINDOW, t) == 0
  {
    NothingSpentAfter(log, t - WINDOW, t);
  }

  // --------------------------------------------------------------------- refunds

  // One record of this key gone, the first.
  function WithoutFirst(s: seq<Attempt>, key: Key): seq<Attempt> {
    if s == [] then [] else if s[0].key == key then s[1..] else [s[0]] + WithoutFirst(s[1..], key)
  }

  // The same in the ledger: the first admission still held under this key is given back.
  function Refund(log: seq<Admission>, cutoff: int, key: Key): (r: seq<Admission>)
    ensures |r| == |log|
    ensures forall i :: 0 <= i < |log| ==>
      r[i] == log[i] || (r[i] == log[i].(refunded := true) && log[i].attempt.key == key)
  {
    if log == [] then [] else
      var e := log[0];
      if !e.refunded && e.attempt.at > cutoff && e.attempt.key == key
      then [e.(refunded := true)] + log[1..]
      else [e] + Refund(log[1..], cutoff, key)
  }

  // Keys of two runs of the guard, or of two streams.
  predicate Elsewhere(a: Key, b: Key) { a.nonce != b.nonce || a.session != b.session }

  // A failure gives back at most one admission, and none made by an earlier run of the
  // guard or on an earlier stream.
  lemma {:induction false} GivesBackAtMostOne(
    log: seq<Admission>, cutoff: int, key: Key, i: nat, j: nat)
    requires i < j < |log|
    ensures Refund(log, cutoff, key)[i] == log[i] || Refund(log, cutoff, key)[j] == log[j]
    ensures forall k :: 0 <= k < |log| && Elsewhere(log[k].attempt.key, key) ==>
      Refund(log, cutoff, key)[k] == log[k]
  {
    if i > 0 {
      GivesBackAtMostOne(log[1..], cutoff, key, i - 1, j - 1);
    }
  }

  predicate HeldUnder(e: Admission, cutoff: int, key: Key) {
    !e.refunded && e.attempt.at > cutoff && e.attempt.key == key
  }

  predicate NoneHeld(log: seq<Admission>, n: nat, cutoff: int, key: Key)
    requires n <= |log|
  {
    forall j :: 0 <= j < n ==> !HeldUnder(log[j], cutoff, key)
  }

  lemma NoneHeldPeels(log: seq<Admission>, n: nat, cutoff: int, key: Key)
    requires 0 < n <= |log|
    ensures NoneHeld(log, n, cutoff, key) <==>
            !HeldUnder(log[0], cutoff, key) && NoneHeld(log[1..], n - 1, cutoff, key)
  {
    assert forall j :: 1 <= j < n ==> log[j] == log[1..][j - 1];
    assert forall j :: 0 <= j < n - 1 ==> log[1..][j] == log[j + 1];
  }

  // Whatever numbers repeat, a failure reported under a key gives back exactly the first
  // admission still held under it. So the admission that failed is the one given back
  // exactly when it is held and none before it is under the same number.
  lemma {:induction false} GivesBackThisOneIff(log: seq<Admission>, cutoff: int, key: Key, i: nat)
    requires i < |log|
    ensures Refund(log, cutoff, key)[i] != log[i] <==>
            HeldUnder(log[i], cutoff, key) && NoneHeld(log, i, cutoff, key)
  {
    if i > 0 {
      NoneHeldPeels(log, i, cutoff, key);
      if HeldUnder(log[0], cutoff, key) {
        assert Refund(log, cutoff, key)[i] == log[i];
      } else {
        GivesBackThisOneIff(log[1..], cutoff, key, i - 1);
        assert Refund(log, cutoff, key)[i] == Refund(log[1..], cutoff, key)[i - 1];
      }
    }
  }

  // While no request number repeats on a stream, a failure gives back the admission that
  // failed, whenever it is still held, and a key in the ledger is one admission's alone.
  predicate OneNumberEach(log: seq<Admission>) {
    forall i, j :: 0 <= i < j < |log| ==> log[i].attempt.key != log[j].attempt.key
  }

  lemma TheFailedOneIsGivenBack(log: seq<Admission>, cutoff: int, i: nat)
    requires OneNumberEach(log) && i < |log|
    ensures var e := log[i];
            var r := Refund(log, cutoff, e.attempt.key);
            && (HeldUnder(e, cutoff, e.attempt.key) ==> r == log[i := e.(refunded := true)])
            && (!HeldUnder(e, cutoff, e.attempt.key) ==> r == log)
  {
    forall j | 0 <= j < |log| ensures
      Refund(log, cutoff, log[i].attempt.key)[j] != log[j] <==> j == i && HeldUnder(log[i], cutoff, log[i].attempt.key)
    {
      GivesBackThisOneIff(log, cutoff, log[i].attempt.key, j);
    }
  }

  // Every admission given back had a failure reported under its key.
  predicate AllReported(log: seq<Admission>, failed: set<Key>) {
    forall e <- log :: e.refunded ==> e.attempt.key in failed
  }

  // What was admitted in (from, to] under keys no failure was reported for.
  function NeverFailed(log: seq<Admission>, failed: set<Key>, from: int, to: int): int {
    if log == [] then 0 else
      (if log[0].attempt.key !in failed && from < log[0].attempt.at <= to then log[0].attempt.msat else 0)
      + NeverFailed(log[1..], failed, from, to)
  }

  lemma {:induction false} NeverFailedIsSpent(
    log: seq<Admission>, failed: set<Key>, from: int, to: int)
    requires AllPriced(log) && AllReported(log, failed)
    ensures NeverFailed(log, failed, from, to) <= Spent(log, from, to)
  {
    if log != [] {
      assert log[0] in log;
      NeverFailedIsSpent(log[1..], failed, from, to);
    }
  }

  lemma RefundIsReported(log: seq<Admission>, cutoff: int, key: Key, failed: set<Key>)
    requires AllReported(log, failed) && key in failed
    ensures AllReported(Refund(log, cutoff, key), failed)
  {
    var r := Refund(log, cutoff, key);
    forall i | 0 <= i < |r| && r[i].refunded ensures r[i].attempt.key in failed {
      assert log[i] in log;
    }
  }

  lemma {:induction false} RefundIsWithoutFirst(log: seq<Admission>, cutoff: int, key: Key)
    ensures Within(Live(Refund(log, cutoff, key)), cutoff)
         == WithoutFirst(Within(Live(log), cutoff), key)
  {
    if log != [] {
      RefundIsWithoutFirst(log[1..], cutoff, key);
      var r, e := Refund(log, cutoff, key), log[0];
      PeelHeld(log, cutoff);
      PeelHeld(r, cutoff);
      var w := Within(Live(log[1..]), cutoff);
      assert [] + w == w && ([e.attempt] + w)[1..] == w;
      if !e.refunded && e.attempt.at > cutoff && e.attempt.key == key {
        assert r[1..] == log[1..];
      } else {
        assert r[1..] == Refund(log[1..], cutoff, key);
        assert [] + WithoutFirst(w, key) == WithoutFirst(w, key);
      }
    }
  }

  lemma PeelHeld(log: seq<Admission>, cutoff: int)
    requires log != []
    ensures Within(Live(log), cutoff) ==
            (if !log[0].refunded && log[0].attempt.at > cutoff then [log[0].attempt] else [])
            + Within(Live(log[1..]), cutoff)
  {
    var l := Live(log[1..]);
    assert [] + l == l && ([log[0].attempt] + l)[1..] == l;
  }

  // Giving records back only ever lowers what was spent.
  lemma {:induction false} RefundsLower(now: seq<Admission>, log: seq<Admission>, from: int, to: int)
    requires AllPriced(log) && |now| == |log|
    requires forall i :: 0 <= i < |log| ==> now[i] == log[i] || now[i] == log[i].(refunded := true)
    ensures Spent(now, from, to) <= Spent(log, from, to)
  {
    if log != [] {
      assert log[0] in log && (now[0] == log[0] || now[0] == log[0].(refunded := true));
      RefundsLower(now[1..], log[1..], from, to);
    }
  }

  lemma RefundFits(log: seq<Admission>, cutoff: int, key: Key, i: nat)
    requires AllPriced(log) && i < |log| && Fits(log, i)
    ensures Fits(Refund(log, cutoff, key), i)
  {
    var r, at := Refund(log, cutoff, key), log[i].attempt.at;
    assert r[i].attempt == log[i].attempt && r[i].cap == log[i].cap;
    RefundsLower(r[..i + 1], log[..i + 1], at - WINDOW, at);
  }

  lemma RefundKeepsLedger(log: seq<Admission>, cutoff: int, key: Key)
    requires Ledger(log)
    ensures Ledger(Refund(log, cutoff, key))
  {
    var r := Refund(log, cutoff, key);
    assert forall i :: 0 <= i < |log| ==> r[i].attempt == log[i].attempt && log[i] in log;
    forall i | 0 <= i < |r| ensures Fits(r, i) { RefundFits(log, cutoff, key, i); }
  }

  lemma {:induction false} WithoutFirstIsNoMore(s: seq<Attempt>, key: Key)
    requires Priced(s)
    ensures Priced(WithoutFirst(s, key)) && Sum(WithoutFirst(s, key)) <= Sum(s)
    ensures |s| - 1 <= |WithoutFirst(s, key)| <= |s|
  {
    if s != [] {
      assert s[0] in s;
      if s[0].key != key {
        WithoutFirstIsNoMore(s[1..], key);
        assert ([s[0]] + WithoutFirst(s[1..], key))[1..] == WithoutFirst(s[1..], key);
      }
    }
  }

  lemma NewestFits(log: seq<Admission>, e: Admission, from: int)
    requires AllPriced(log) && !e.refunded
    requires forall x <- log :: x.attempt.at <= e.attempt.at
    requires from <= e.attempt.at - WINDOW
    ensures Spent(log + [e], e.attempt.at - WINDOW, e.attempt.at)
         <= Sum(Within(Live(log), from)) + e.attempt.msat
  {
    var at := e.attempt.at;
    SpentOfSum(log, [e], at - WINDOW, at);
    assert Spent([e], at - WINDOW, at) == e.attempt.msat;
    SpentIsHeld(log, from, at);
    SpentGrows(log, at - WINDOW, at, from, at);
  }

  lemma {:induction false} WithoutFirstOfSum(s: seq<Attempt>, a: Attempt, key: Key)
    requires exists x <- s :: x.key == key
    ensures WithoutFirst(s + [a], key) == WithoutFirst(s, key) + [a]
  {
    assert (s + [a])[0] == s[0] && (s + [a])[1..] == s[1..] + [a];
    if s[0].key != key {
      assert s == [s[0]] + s[1..];
      WithoutFirstOfSum(s[1..], a, key);
    }
  }

  lemma {:induction false} WithoutTheLast(s: seq<Attempt>, a: Attempt, key: Key)
    requires a.key == key && forall x <- s :: x.key != key
    ensures WithoutFirst(s + [a], key) == s
  {
    if s == [] {
      assert s + [a] == [a];
    } else {
      assert (s + [a])[0] == s[0] && (s + [a])[1..] == s[1..] + [a] && s == [s[0]] + s[1..];
      WithoutTheLast(s[1..], a, key);
    }
  }

  lemma {:induction false} WithoutNone(s: seq<Attempt>, key: Key)
    requires forall x <- s :: x.key != key
    ensures WithoutFirst(s, key) == s
  {
    if s != [] {
      WithoutNone(s[1..], key);
      assert s == [s[0]] + s[1..];
    }
  }

  // The record of an admission that fits keeps the ledger.
  lemma AdmissionKeepsLedger(log: seq<Admission>, e: Admission, from: int)
    requires Ledger(log) && e.attempt.msat >= 1 && !e.refunded
    requires forall x <- log :: x.attempt.at <= e.attempt.at
    requires from <= e.attempt.at - WINDOW
    requires Sum(Within(Live(log), from)) + e.attempt.msat <= e.cap
    ensures Ledger(log + [e])
  {
    var l := log + [e];
    NewestFits(log, e, from);
    assert l[..|l|] == l && Fits(l, |log|);
    forall i | 0 <= i < |log| ensures Fits(l, i) {
      assert l[..i + 1] == log[..i + 1] && Fits(log, i) && l[i] == log[i];
    }
    OrderedMore(log, e);
  }

  lemma OrderedMore(log: seq<Admission>, e: Admission)
    requires Ordered(log) && AllPriced(log) && e.attempt.msat >= 1
    requires forall x <- log :: x.attempt.at <= e.attempt.at
    ensures Ordered(log + [e]) && AllPriced(log + [e])
  {}

  // ------------------------------------------------------------- the guard's window

  // The records the guard keeps are the ledger's, less what was given back and what had
  // left the window at the last pruning.
  ghost predicate Holds(attempts: seq<Attempt>, log: seq<Admission>, pruned: int) {
    attempts == Within(Live(log), pruned)
  }

  // One more record, saved with what the pruning at `at - WINDOW` kept.
  lemma HoldsOneMore(s: seq<Attempt>, log: seq<Admission>, pruned: int, cutoff: int, e: Admission)
    requires Holds(s, log, pruned) && pruned <= cutoff && e.attempt.at > cutoff && !e.refunded
    ensures Holds(Within(s, cutoff) + [e.attempt], log + [e], cutoff)
  {
    WithinTwice(Live(log), pruned, cutoff);
    LiveOfSum(log, [e]);
    assert Live([e]) == [e.attempt];
    WithinOfSum(Live(log), [e.attempt], cutoff);
    assert Within([e.attempt], cutoff) == [e.attempt];
  }

  // What the guard keeps agrees with a ledger in which every admission fitted, and what was
  // given back was reported failed.
  ghost predicate Sound(
    attempts: seq<Attempt>, log: seq<Admission>, pruned: int, failed: set<Key>)
  {
    Ledger(log) && Holds(attempts, log, pruned) && Priced(attempts) && AllReported(log, failed)
  }

  // A record that fits, saved with what the pruning kept.
  lemma RecordIsSound(
    s: seq<Attempt>, log: seq<Admission>, pruned: int, cutoff: int, e: Admission)
    requires Ledger(log) && Holds(s, log, pruned) && Priced(s) && pruned <= cutoff
    requires forall x <- log :: x.attempt.at <= e.attempt.at
    requires e.attempt.msat >= 1 && !e.refunded && cutoff <= e.attempt.at - WINDOW
    requires Sum(Within(s, cutoff)) + e.attempt.msat <= e.cap
    ensures Ledger(log + [e]) && Holds(Within(s, cutoff) + [e.attempt], log + [e], cutoff)
    ensures Priced(Within(s, cutoff) + [e.attempt])
    ensures Sum(Within(s, cutoff) + [e.attempt]) <= e.cap
  {
    HoldsOneMore(s, log, pruned, cutoff, e);
    WithinTwice(Live(log), pruned, cutoff);
    AdmissionKeepsLedger(log, e, cutoff);
    WithinIsNoMore(s, cutoff);
    SumOfSum(Within(s, cutoff), [e.attempt]);
  }

  lemma HoldsOneLess(s: seq<Attempt>, log: seq<Admission>, pruned: int, cutoff: int, key: Key)
    requires Holds(s, log, pruned) && pruned <= cutoff
    ensures Holds(WithoutFirst(Within(s, cutoff), key), Refund(log, cutoff, key), cutoff)
  {
    WithinTwice(Live(log), pruned, cutoff);
    RefundIsWithoutFirst(log, cutoff, key);
  }

  // Every admission was made by now, by this run of the guard or an earlier one.
  predicate Past(log: seq<Admission>, now: int, nonce: nat) {
    forall e <- log :: e.attempt.at <= now && e.attempt.key.nonce <= nonce
  }

  lemma RefundIsPast(log: seq<Admission>, cutoff: int, key: Key, now: int, nonce: nat)
    requires Past(log, now, nonce)
    ensures Past(Refund(log, cutoff, key), now, nonce)
  {
    var r := Refund(log, cutoff, key);
    forall i | 0 <= i < |r| ensures r[i].attempt.at <= now && r[i].attempt.key.nonce <= nonce {
      assert log[i] in log;
    }
  }

  lemma RecordIsPast(log: seq<Admission>, e: Admission, now: int, nonce: nat, failed: set<Key>)
    requires Past(log, now, nonce) && e.attempt.at <= now && e.attempt.key.nonce <= nonce
    requires AllReported(log, failed) && !e.refunded
    ensures Past(log + [e], now, nonce) && AllReported(log + [e], failed)
  {}

  // A record given back, in the ledger and in what the pruning kept.
  lemma RefundIsSound(
    s: seq<Attempt>, log: seq<Admission>, pruned: int, cutoff: int, key: Key, failed: set<Key>)
    requires Sound(s, log, pruned, failed) && pruned <= cutoff && key in failed
    ensures var left, r := WithoutFirst(Within(s, cutoff), key), Refund(log, cutoff, key);
            && Sound(left, r, cutoff, failed) && Sum(left) <= Sum(s) && |left| <= |s|
  {
    HoldsOneLess(s, log, pruned, cutoff, key);
    RefundKeepsLedger(log, cutoff, key);
    RefundIsReported(log, cutoff, key, failed);
    WithinIsNoMore(s, cutoff);
    WithoutFirstIsNoMore(Within(s, cutoff), key);
  }

  datatype Status = InFlight | Succeeded | Failed

  class Cap {
    // The state file's half: the recorded attempts and the two caps. A call that is given
    // `works` finds every save made.
    var attempts: seq<Attempt>
    var maxPayment: int64
    var maxSpend: int64
    // This process's nonce, the middleware stream it is on, and its clock.
    var nonce: nat
    var session: nat
    var now: int
    const maxWindowAttempts: nat

    // Every attempt ever admitted, and the latest cutoff a saved pruning used.
    ghost var log: seq<Admission>
    ghost var pruned: int
    // The keys a response reported a failed payment under.
    ghost var failed: set<Key>

    ghost predicate Valid()
      reads this
    {
      && Sound(attempts, log, pruned, failed) && Past(log, now, nonce) && pruned <= now - WINDOW
      && Sum(attempts) < MAX_COUNTABLE && |attempts| <= maxWindowAttempts
      && maxSpend < MAX_COUNTABLE
    }

    constructor (maxPayment: int64, maxSpend: int64, maxWindowAttempts: nat)
      requires maxSpend < MAX_COUNTABLE
      ensures Valid() && log == []
    {
      this.attempts, this.maxPayment, this.maxSpend := [], maxPayment, maxSpend;
      this.nonce, this.session, this.now := 0, 0, 0;
      this.maxWindowAttempts := maxWindowAttempts;
      this.log, this.pruned, this.failed := [], -WINDOW, {};
    }

    // The rolling cap over what the node did: at every instant, the payments admitted in
    // the day that ends then, less those the node reported failed, are within the window
    // cap in force at the last admission.
    lemma NeverFailedIsCapped(t: int, last: nat)
      requires Valid() && last < |log| && log[last].attempt.at <= t
      requires last + 1 < |log| ==> log[last + 1].attempt.at > t
      ensures NeverFailed(log, failed, t - WINDOW, t) <= log[last].cap
    {
      NeverFailedIsSpent(log, failed, t - WINDOW, t);
      RollingCap(log, t, last);
    }

    // The clock as read now; it never goes back.
    method Clock() returns (t: int)
      requires Valid()
      modifies this`now
      ensures Valid() && old(now) <= t == now
    {
      t := *;
      if t < now { t := now; }
      now := t;
    }

    // Whether the window as read at t has room for this cost.
    predicate Fitting(t: int, cost: int64)
      reads this
    {
      && cost <= maxPayment && |Within(attempts, t - WINDOW)| < maxWindowAttempts
      && Sum(Within(attempts, t - WINDOW)) + cost <= maxSpend
    }

    function Entry(request: nat, cost: int64): Admission
      reads this
    {
      Admission(Attempt(Key(nonce, session, request), now, cost), maxSpend, false)
    }

    // A payment of this cost is within both caps, the day's records before it counted, and
    // is recorded under this run, this stream and this request.
    predicate AdmittedAt(before: seq<Attempt>, t: int, request: nat, cost: int)
      reads this
    {
      && 1 <= cost <= maxPayment && Sum(Within(before, t - 24 * 3600)) + cost <= maxSpend
      && attempts == Within(before, t - 24 * 3600) + [Attempt(Key(nonce, session, request), now, cost)]
    }

    // The decision, in the order of the source's arms and in the machine's arithmetic.
    method Decide(t: int, cost: int64) returns (fits: bool, kept: seq<Attempt>)
      requires Valid() && 1 <= cost <= MAX_COUNTABLE
      ensures fits <==> Fitting(t, cost)
      ensures kept == Within(attempts, t - WINDOW)
    {
      var used;
      used, kept := SpendWindowUsed(attempts, t);
      WithinIsNoMore(attempts, t - WINDOW);
      fits := cost <= maxPayment && |kept| < maxWindowAttempts && Wrap(used + cost) <= maxSpend;
    }

    // The store update of InterceptRequest: decide and record in one write.
    method CountAttempt(cost: int64, request: nat, works: bool)
      returns (allowed: bool, saved: bool, t: int)
      requires Valid() && 1 <= cost <= MAX_COUNTABLE
      modifies this`attempts, this`now, this`log, this`pruned
      ensures Valid() && old(now) <= t <= now && (works ==> saved)
      ensures allowed <==> saved && old(Fitting(t, cost))
      ensures !allowed ==> log == old(log) && attempts == old(attempts)
      ensures allowed ==>
                && attempts == Within(old(attempts), t - WINDOW) + [Entry(request, cost).attempt]
                && log == old(log) + [Entry(request, cost)]
                && AdmittedAt(old(attempts), t, request, cost)
    {
      t := Clock();
      saved := *;
      saved := saved || works;
      var fits, kept := Decide(t, cost);
      allowed := fits && saved;
      if allowed {
        var at := Clock();
        Record(kept, Attempt(Key(nonce, session, request), at, cost), t - WINDOW);
      }
    }

    method Record(kept: seq<Attempt>, a: Attempt, cutoff: int)
      requires Valid() && kept == Within(attempts, cutoff) && pruned <= cutoff <= now - WINDOW
      requires a.at == now && a.msat >= 1 && a.key.nonce == nonce
      requires |kept| < maxWindowAttempts && Sum(kept) + a.msat <= maxSpend
      modifies this`attempts, this`log, this`pruned
      ensures Valid() && attempts == kept + [a] && log == old(log) + [Admission(a, maxSpend, false)]
    {
      RecordIsSound(attempts, log, pruned, cutoff, Admission(a, maxSpend, false));
      RecordIsPast(log, Admission(a, maxSpend, false), now, nonce, failed);
      ghost var e := Admission(a, maxSpend, false);
      attempts := kept + [a];
      log := log + [e];
      pruned := cutoff;
    }

    // InterceptRequest: a payment request the guard cannot read or price is refused, and
    // a method that moves no money is let through. Only an admission changes a record. The
    // amount the invoice names, or else the request, and the fee limit are what is admitted.
    method InterceptRequest(
      isSend: bool, read: Option<Request>, invoice: Option<int64>, request: nat, works: bool)
      returns (allowed: bool, saved: bool, t: int)
      requires Valid()
      modifies this`attempts, this`now, this`log, this`pruned
      ensures Valid() && old(now) <= t <= now
      ensures !isSend ==> allowed
      ensures isSend && allowed ==> read.Some? && Countable(read.value, invoice)
      ensures works && isSend && read.Some? && Countable(read.value, invoice) ==> saved
      ensures isSend && read.Some? && Countable(read.value, invoice) ==>
                (var cost := AmountMsat(read.value, invoice) + FeeMsat(read.value);
                && (allowed <==> saved && old(Fitting(t, cost)))
                && (allowed ==> log == old(log) + [Entry(request, cost)]))
      ensures isSend && allowed ==>
                var r := read.value;
                var amount := if r.hasInvoice && invoice.value > 0 then invoice.value
                              else if r.amtMsat != 0 then r.amtMsat else 1000 * r.amt;
                var fee := if r.feeLimitMsat != 0 then r.feeLimitMsat else 1000 * r.feeLimitSat;
                AdmittedAt(old(attempts), t, request, amount + fee)
      ensures works && isSend && read.Some? && Countable(read.value, invoice) ==>
                var cost := AmountMsat(read.value, invoice) + FeeMsat(read.value);
                var kept := Within(old(attempts), t - 24 * 3600);
                (allowed <==> cost <= maxPayment && |kept| < maxWindowAttempts && Sum(kept) + cost <= maxSpend)
      ensures !(isSend && allowed) ==> log == old(log) && attempts == old(attempts)
    {
      allowed, saved, t := !isSend, false, now;
      if isSend && read.Some? {
        var cost := PriceAttempt(read.value, invoice);
        if cost.Some? {
          allowed, saved, t := CountAttempt(cost.value, request, works);
        }
      }
    }

    // The loop of ObserveResponse. No record is worth nothing, so its test that nothing
    // has been given back yet is a test for the first record of this key.
    method RemoveOne(kept: seq<Attempt>, key: Key) returns (remaining: seq<Attempt>, refunded: int64)
      requires Priced(kept)
      ensures remaining == WithoutFirst(kept, key)
      ensures refunded == 0 <==> forall a <- kept :: a.key != key
      ensures refunded != 0 ==> exists a <- kept :: a.key == key && a.msat == refunded
    {
      remaining, refunded := [], 0;
      for i := 0 to |kept|
        invariant refunded >= 0
        invariant refunded == 0 ==> remaining == kept[..i] && forall a <- kept[..i] :: a.key != key
        invariant refunded > 0 ==> remaining == WithoutFirst(kept[..i], key)
        invariant refunded > 0 ==> exists a <- kept[..i] :: a.key == key && a.msat == refunded
      {
        assert kept[..i + 1] == kept[..i] + [kept[i]] && kept[i] in kept;
        if kept[i].key == key && refunded == 0 {
          WithoutTheLast(kept[..i], kept[i], key);
          refunded := kept[i].msat;
        } else {
          if refunded > 0 { WithoutFirstOfSum(kept[..i], kept[i], key); }
          remaining := remaining + [kept[i]];
        }
      }
      assert kept[..|kept|] == kept;
      if refunded == 0 {
        WithoutNone(kept, key);
      }
    }

    // ObserveResponse: only a FAILED payment gives a record back, at most one, and only
    // one this run of the guard recorded on this stream for this request.
    method ObserveResponse(
      isSend: bool, isError: bool, status: Option<Status>, request: nat, works: bool)
      returns (saved: bool, t: int)
      requires Valid()
      modifies this`attempts, this`now, this`log, this`pruned, this`failed
      ensures Valid() && old(now) <= t <= now
      ensures saved ==> isSend && !isError && status == Some(Failed)
      ensures works && isSend && !isError && status == Some(Failed) ==> saved
      ensures failed == old(failed)
        + if isSend && !isError && status == Some(Failed) then {Key(nonce, session, request)} else {}
      ensures GaveBack(Key(nonce, session, request), t, saved)
    {
      saved, t := false, now;
      if isSend && !isError && status == Some(Failed) {
        failed := failed + {Key(nonce, session, request)};
        saved, t := ReturnFailed(Key(nonce, session, request), works);
      }
    }

    // One record of this key given back, in the ledger and the state file, or nothing.
    twostate predicate GaveBack(key: Key, t: int, saved: bool)
      reads this
    {
      && log == (if saved then Refund(old(log), t - WINDOW, key) else old(log))
      && attempts == if saved then WithoutFirst(Within(old(attempts), t - WINDOW), key) else old(attempts)
    }

    method ReturnFailed(key: Key, works: bool) returns (saved: bool, t: int)
      requires Valid() && key in failed
      modifies this`attempts, this`now, this`log, this`pruned
      ensures Valid() && old(now) <= t <= now && GaveBack(key, t, saved) && (works ==> saved)
    {
      t := Clock();
      saved := *;
      saved := saved || works;
      var remaining := Remaining(t, key);
      if saved { GiveBack(remaining, key, t - WINDOW); }
    }

    method Remaining(t: int, key: Key) returns (remaining: seq<Attempt>)
      requires Valid()
      ensures remaining == WithoutFirst(Within(attempts, t - WINDOW), key)
    {
      var _, kept := SpendWindowUsed(attempts, t);
      WithinIsNoMore(attempts, t - WINDOW);
      var refunded;
      remaining, refunded := RemoveOne(kept, key);
    }

    method GiveBack(remaining: seq<Attempt>, key: Key, cutoff: int)
      requires Valid() && key in failed && pruned <= cutoff <= now - WINDOW
      requires remaining == WithoutFirst(Within(attempts, cutoff), key)
      modifies this`attempts, this`log, this`pruned
      ensures Valid() && attempts == remaining && log == Refund(old(log), cutoff, key)
    {
      RefundIsSound(attempts, log, pruned, cutoff, key, failed);
      RefundIsPast(log, cutoff, key, now, nonce);
      attempts := remaining;
      log := Refund(log, cutoff, key);
      pruned := cutoff;
    }

    // An operator's change of the caps.
    method SetCaps(maxPayment: int64, maxSpend: int64)
      requires Valid() && maxSpend < MAX_COUNTABLE
      modifies this`maxPayment, this`maxSpend
      ensures Valid() && this.maxPayment == maxPayment && this.maxSpend == maxSpend
    {
      this.maxPayment, this.maxSpend := maxPayment, maxSpend;
    }

    // LND restarted, or the middleware stream broke and was registered again.
    method NewStream()
      requires Valid()
      modifies this`session
      ensures Valid() && session == old(session) + 1
    {
      session := session + 1;
    }

    // The guard restarted: a nonce no record carries.
    method Restart()
      requires Valid()
      modifies this`session, this`nonce
      ensures Valid() && nonce > old(nonce) && forall e <- log :: e.attempt.key.nonce != nonce
    {
      session, nonce := 0, nonce + 1;
    }
  }
}

// The two-window limiter: per-key slices of timestamps, compacted in place and swept, that
// answer as counting over every hit ever admitted would.
module RateLimit {
  import opened Wrappers

  const MINUTE := 60
  const HOUR := 3600
  const SWEEP_INTERVAL := 60

  // ------------------------------------------------------------- the full history

  datatype Hit = Hit(key: string, at: int)

  function Times(log: seq<Hit>, key: string): seq<int> {
    if log == [] then [] else
      Times(log[..|log| - 1], key) + if log[|log| - 1].key == key then [log[|log| - 1].at] else []
  }

  function After(ts: seq<int>, t: int): seq<int> {
    if ts == [] then [] else
      After(ts[..|ts| - 1], t) + if ts[|ts| - 1] > t then [ts[|ts| - 1]] else []
  }

  // How many hits of this key were admitted after t.
  function CountAfter(log: seq<Hit>, key: string, t: int): nat { |After(Times(log, key), t)| }

  // The same, said of the history itself: the places of the hits.
  function HitsAfter(log: seq<Hit>, key: string, t: int): set<nat> {
    set i: nat | i < |log| && log[i].key == key && log[i].at > t
  }

  lemma {:induction false} CountAfterCounts(log: seq<Hit>, key: string, t: int)
    ensures CountAfter(log, key, t) == |HitsAfter(log, key, t)|
  {
    if log != [] {
      var n := |log| - 1;
      CountAfterCounts(log[..n], key, t);
      assert log == log[..n] + [log[n]];
      var here := if log[n].key == key && log[n].at > t then {n} else {};
      assert HitsAfter(log, key, t) == HitsAfter(log[..n], key, t) + here;
      TimesOfOne(log[..n], log[n], key);
      if log[n].key == key { AfterOne(Times(log[..n], key), log[n].at, t); }
      assert Times(log[..n], key) + [] == Times(log[..n], key);
      assert After(Times(log[..n], key), t) + [] == After(Times(log[..n], key), t);
    }
  }

  predicate Sorted(ts: seq<int>) { forall i, j :: 0 <= i < j < |ts| ==> ts[i] <= ts[j] }

  lemma TimesOfOne(log: seq<Hit>, h: Hit, key: string)
    ensures Times(log + [h], key) == Times(log, key) + if h.key == key then [h.at] else []
  {
    assert (log + [h])[..|log|] == log;
  }

  lemma TimesElsewhere(log: seq<Hit>, h: Hit, key: string)
    requires h.key != key
    ensures Times(log + [h], key) == Times(log, key)
  {
    TimesOfOne(log, h, key);
    assert Times(log, key) + [] == Times(log, key);
  }

  lemma AfterOne(ts: seq<int>, x: int, t: int)
    ensures After(ts + [x], t) == After(ts, t) + if x > t then [x] else []
  {
    assert (ts + [x])[..|ts|] == ts;
  }

  lemma AfterNext(ts: seq<int>, i: nat, t: int)
    requires i < |ts|
    ensures After(ts[..i + 1], t) == After(ts[..i], t) + if ts[i] > t then [ts[i]] else []
  {
    assert ts[..i + 1] == ts[..i] + [ts[i]];
    AfterOne(ts[..i], ts[i], t);
  }

  lemma {:induction false} AfterOfSum(a: seq<int>, b: seq<int>, t: int)
    ensures After(a + b, t) == After(a, t) + After(b, t)
  {
    if b == [] {
      assert a + b == a;
    } else {
      var most, last := b[..|b| - 1], b[|b| - 1];
      assert (a + b)[..|a + b| - 1] == a + most && (a + b)[|a + b| - 1] == last;
      AfterOfSum(a, most, t);
    }
  }

  // Nothing counts once the newest hit has left the window, and something does until then.
  lemma {:induction false} NothingAfterIff(ts: seq<int>, t: int)
    requires Sorted(ts)
    ensures After(ts, t) == [] <==> ts == [] || ts[|ts| - 1] <= t
  {
    if ts != [] { NothingAfterIff(ts[..|ts| - 1], t); }
  }

  // Of hits in order, the later ones are the last ones.
  predicate LastOnes(later: seq<int>, ts: seq<int>, t: int) {
    var n := |later|;
    n <= |ts| && later == ts[|ts| - n..] && (n < |ts| ==> ts[|ts| - n - 1] <= t)
  }

  lemma OneMoreLater(later: seq<int>, most: seq<int>, last: int, t: int)
    requires LastOnes(later, most, t)
    ensures LastOnes(later + [last], most + [last], t)
  {}

  lemma NoneLater(ts: seq<int>, t: int)
    requires ts == [] || ts[|ts| - 1] <= t
    ensures LastOnes([], ts, t)
  {}

  lemma LastOfTheLastOnes(later: seq<int>, ts: seq<int>, t: int)
    requires LastOnes(later, ts, t) && later != []
    ensures later[|later| - 1] == ts[|ts| - 1]
  {}

  lemma MostAreSorted(most: seq<int>, last: int)
    requires Sorted(most + [last])
    ensures Sorted(most)
  {
    assert forall i :: 0 <= i < |most| ==> (most + [last])[i] == most[i];
  }

  lemma {:induction false} AfterIsSuffix(ts: seq<int>, t: int)
    requires Sorted(ts)
    ensures LastOnes(After(ts, t), ts, t)
  {
    if ts != [] {
      var most, last := ts[..|ts| - 1], ts[|ts| - 1];
      assert ts == most + [last];
      if last > t {
        MostAreSorted(most, last);
        AfterIsSuffix(most, t);
        OneMoreLater(After(most, t), most, last, t);
      } else {
        NothingAfterIff(ts, t);
        NoneLater(ts, t);
      }
    }
  }

  // The history is in the order of the clock, which has come to `now`.
  predicate InOrder(log: seq<Hit>, now: int) {
    && (forall i, j :: 0 <= i < j < |log| ==> log[i].at <= log[j].at)
    && forall i :: 0 <= i < |log| ==> log[i].at <= now
  }

  lemma {:induction false} TimesAreSorted(log: seq<Hit>, key: string, now: int)
    requires InOrder(log, now)
    ensures Sorted(Times(log, key)) && forall x <- Times(log, key) :: x <= now
  {
    if log != [] {
      var most, last := log[..|log| - 1], log[|log| - 1];
      TimesAreSorted(most, key, last.at);
      var r := Times(most, key);
      forall i | 0 <= i < |r| ensures r[i] <= last.at { assert r[i] in r; }
    }
  }

  // ----------------------------------------------------- a bucket and its history

  // How many of the key's hits its bucket no longer holds.
  function Dropped(bucket: seq<int>, ts: seq<int>): int { |ts| - |bucket| }

  // The bucket is the end of its key's history, and what it has dropped is an hour old.
  predicate Agree(bucket: seq<int>, ts: seq<int>, now: int) {
    var d := Dropped(bucket, ts);
    && d >= 0 && bucket == ts[d..] && (d > 0 ==> ts[d - 1] <= now - HOUR)
  }

  // What a bucket counts from t on is what its history does, exactly when the last hit it
  // dropped is not later than t.
  lemma CountsAgreeIff(bucket: seq<int>, ts: seq<int>, now: int, t: int)
    requires Agree(bucket, ts, now) && Sorted(ts)
    ensures var d := Dropped(bucket, ts);
            After(bucket, t) == After(ts, t) <==> d == 0 || ts[d - 1] <= t
    ensures |After(bucket, t)| == |After(ts, t)| <==> After(bucket, t) == After(ts, t)
  {
    var d := Dropped(bucket, ts);
    assert ts == ts[..d] + bucket;
    AfterOfSum(ts[..d], bucket, t);
    NothingAfterIff(ts[..d], t);
    assert [] + After(bucket, t) == After(bucket, t);
  }

  lemma SweptAgrees(bucket: seq<int>, ts: seq<int>, now: int)
    requires Agree(bucket, ts, now) && (bucket != [] ==> bucket[|bucket| - 1] <= now - HOUR)
    ensures Agree([], ts, now)
  {
    assert ts[|ts|..] == [];
  }

  lemma EndOfAnEnd(ts: seq<int>, d: nat, n: nat)
    requires d <= |ts| && n <= |ts| - d
    ensures ts[d..][|ts| - d - n..] == ts[|ts| - n..]
  {}

  lemma EndIsSorted(bucket: seq<int>, ts: seq<int>, now: int)
    requires Agree(bucket, ts, now) && Sorted(ts)
    ensures Sorted(bucket)
  {}

  // An end of an end of the history is an end of it.
  lemma EndAgrees(end: seq<int>, bucket: seq<int>, ts: seq<int>, now: int, cutoff: int)
    requires Agree(bucket, ts, now) && LastOnes(end, bucket, cutoff) && cutoff <= now - HOUR
    ensures Agree(end, ts, now)
  {
    EndOfAnEnd(ts, Dropped(bucket, ts), |end|);
  }

  lemma PrunedAgrees(bucket: seq<int>, ts: seq<int>, now: int, cutoff: int)
    requires Agree(bucket, ts, now) && Sorted(bucket) && cutoff <= now - HOUR
    ensures var r := After(bucket, cutoff);
            && Agree(r, ts, now) && |r| <= |bucket|
            && (r != [] ==> r[|r| - 1] == bucket[|bucket| - 1])
  {
    AfterIsSuffix(bucket, cutoff);
    EndAgrees(After(bucket, cutoff), bucket, ts, now, cutoff);
    if After(bucket, cutoff) != [] { LastOfTheLastOnes(After(bucket, cutoff), bucket, cutoff); }
  }

  lemma AdmittedAgrees(bucket: seq<int>, ts: seq<int>, now: int)
    requires Agree(bucket, ts, now)
    ensures Agree(bucket + [now], ts + [now], now)
  {
    var d := Dropped(bucket, ts);
    assert ts[d..] + [now] == (ts + [now])[d..];
  }

  // -------------------------------------------------------------- all the buckets

  // What the limiter holds, by key. No bucket it keeps is empty.
  type View = map<string, seq<int>>

  function Content(view: View, key: string): seq<int> { if key in view then view[key] else [] }

  function Put(view: View, key: string, bucket: seq<int>): View {
    if bucket == [] then view - {key} else view[key := bucket]
  }

  ghost predicate Agreed(view: View, log: seq<Hit>, now: int) {
    InOrder(log, now) && forall key :: Agree(Content(view, key), Times(log, key), now)
  }

  // Every bucket ends later than t.
  predicate AllNewer(view: View, t: int) {
    forall k :: k in view ==> view[k] != [] && view[k][|view[k]| - 1] > t
  }

  // The sweep has been round within its interval, and left nothing an hour old.
  predicate Swept(view: View, swept: Option<int>, now: int) {
    && swept.Some? && now - SWEEP_INTERVAL < swept.value <= now
    && AllNewer(view, swept.value - HOUR)
  }

  function SweptAt(view: View, now: int): View {
    map k | k in view && view[k] != [] && view[k][|view[k]| - 1] > now - HOUR :: view[k]
  }

  // As far as the keys still to visit, the sweep is done.
  ghost predicate SweptBut(view: View, was: View, keys: set<string>, now: int) {
    && view.Keys <= was.Keys
    && (forall k :: k in view ==> view[k] == was[k])
    && (forall k :: k in keys ==> k in view)
    && forall k :: k in was && k !in keys ==> (k in view <==> k in SweptAt(was, now))
  }

  lemma SweepOne(view: View, was: View, keys: set<string>, now: int, k: string)
    requires SweptBut(view, was, keys, now) && k in keys && view[k] != []
    ensures SweptBut(if view[k][|view[k]| - 1] <= now - HOUR then view - {k} else view, was, keys - {k}, now)
  {}

  lemma AgreedLater(view: View, log: seq<Hit>, before: int, now: int)
    requires Agreed(view, log, before) && before <= now
    ensures Agreed(view, log, now)
  {}

  lemma SweepKeepsAgreed(view: View, log: seq<Hit>, now: int)
    requires Agreed(view, log, now)
    ensures Agreed(SweptAt(view, now), log, now) && Swept(SweptAt(view, now), Some(now), now)
  {
    forall key ensures Agree(Content(SweptAt(view, now), key), Times(log, key), now) {
      assert Agree(Content(view, key), Times(log, key), now);
      if key in view && key !in SweptAt(view, now) {
        SweptAgrees(view[key], Times(log, key), now);
      }
    }
  }

  // One bucket put in place of another.
  lemma PutKeepsAgreed(view: View, log: seq<Hit>, now: int, key: string, bucket: seq<int>)
    requires Agreed(view, log, now) && Agree(bucket, Times(log, key), now)
    ensures Agreed(Put(view, key, bucket), log, now)
  {
    var v := Put(view, key, bucket);
    forall k ensures Agree(Content(v, k), Times(log, k), now) {
      assert k == key ==> Content(v, k) == bucket;
      assert k != key ==> Content(v, k) == Content(view, k);
    }
  }

  lemma PutKeepsNewer(view: View, t: int, key: string, bucket: seq<int>)
    requires AllNewer(view, t) && (bucket != [] ==> bucket[|bucket| - 1] > t)
    ensures AllNewer(Put(view, key, bucket), t)
  {}

  lemma PrunedIsNewer(view: View, t: int, key: string, bucket: seq<int>)
    requires AllNewer(view, t) && |bucket| <= |Content(view, key)|
    requires bucket != [] ==> bucket[|bucket| - 1] == Content(view, key)[|Content(view, key)| - 1]
    ensures AllNewer(Put(view, key, bucket), t)
  {
    PutKeepsNewer(view, t, key, bucket);
  }

  lemma BucketIsSorted(view: View, log: seq<Hit>, now: int, key: string)
    requires Agreed(view, log, now)
    ensures Agree(Content(view, key), Times(log, key), now) && Sorted(Content(view, key))
  {
    TimesAreSorted(log, key, now);
    EndIsSorted(Content(view, key), Times(log, key), now);
  }

  lemma PruneKeepsAgreed(
    view: View, log: seq<Hit>, swept: Option<int>, now: int, key: string, cutoff: int)
    requires Agreed(view, log, now) && Swept(view, swept, now) && cutoff <= now - HOUR
    ensures var v := Put(view, key, After(Content(view, key), cutoff));
            Agreed(v, log, now) && Swept(v, swept, now)
  {
    BucketIsSorted(view, log, now, key);
    PrunedAgrees(Content(view, key), Times(log, key), now, cutoff);
    PutKeepsAgreed(view, log, now, key, After(Content(view, key), cutoff));
    PrunedIsNewer(view, swept.value - HOUR, key, After(Content(view, key), cutoff));
  }

  lemma AdmissionKeepsOrder(log: seq<Hit>, h: Hit)
    requires InOrder(log, h.at)
    ensures InOrder(log + [h], h.at)
  {}

  lemma LoggedStaysAgreed(view: View, log: seq<Hit>, now: int, h: Hit, k: string)
    requires Agreed(view, log, now) && h.key != k
    ensures Agree(Content(view, k), Times(log + [h], k), now)
  {
    TimesElsewhere(log, h, k);
  }

  lemma AdmissionKeepsAgreed(
    view: View, log: seq<Hit>, swept: Option<int>, now: int, key: string)
    requires Agreed(view, log, now) && Swept(view, swept, now)
    ensures var v := view[key := Content(view, key) + [now]];
            Agreed(v, log + [Hit(key, now)], now) && Swept(v, swept, now)
  {
    var v, h := view[key := Content(view, key) + [now]], Hit(key, now);
    AdmissionKeepsOrder(log, h);
    AdmittedAgrees(Content(view, key), Times(log, key), now);
    TimesOfOne(log, h, key);
    forall k ensures Agree(Content(v, k), Times(log + [h], k), now) {
      if k != key {
        LoggedStaysAgreed(view, log, now, h, k);
        assert Content(v, k) == Content(view, k);
      }
    }
    PutKeepsNewer(view, swept.value - HOUR, key, Content(view, key) + [now]);
  }

  // What the buckets count from t on, and when it is what the whole history does.
  lemma AgreedCounts(view: View, log: seq<Hit>, now: int, key: string, t: int)
    requires Agreed(view, log, now)
    ensures var ts := Times(log, key);
            var d := Dropped(Content(view, key), ts);
            && 0 <= d && Content(view, key) == ts[d..] && (d > 0 ==> ts[d - 1] <= now - HOUR)
            && (|After(Content(view, key), t)| == CountAfter(log, key, t) <==> d == 0 || ts[d - 1] <= t)
  {
    assert Agree(Content(view, key), Times(log, key), now);
    TimesAreSorted(log, key, now);
    CountsAgreeIff(Content(view, key), Times(log, key), now, t);
  }

  // ---------------------------------------------------------------- the limiter

  // A slice: the first `len` elements of a buffer that may have room for more.
  datatype Slice = Slice(buf: array<int>, len: nat)

  // Keep the timestamps inside the hour at the front of the same buffer.
  method Compact(s: Slice, hourAgo: int, minuteAgo: int) returns (kept: nat, lastMinute: nat)
    requires s.len <= s.buf.Length && hourAgo <= minuteAgo
    modifies s.buf
    ensures kept <= s.len && s.buf[..kept] == After(old(s.buf[..s.len]), hourAgo)
    ensures lastMinute == |After(old(s.buf[..s.len]), minuteAgo)|
  {
    kept, lastMinute := 0, 0;
    ghost var was := s.buf[..s.len];
    for i := 0 to s.len
      invariant kept <= i && s.buf[..kept] == After(was[..i], hourAgo)
      invariant lastMinute == |After(was[..i], minuteAgo)|
      invariant forall j :: i <= j < s.len ==> s.buf[j] == was[j]
    {
      var at := s.buf[i];
      AfterNext(was, i, hourAgo);
      AfterNext(was, i, minuteAgo);
      ghost var front := s.buf[..kept];
      if at > hourAgo {
        s.buf[kept] := at;
        assert s.buf[..kept + 1] == front + [at];
        kept := kept + 1;
        if at > minuteAgo { lastMinute := lastMinute + 1; }
      }
    }
    assert was[..s.len] == was;
  }

  // append: in place while there is room, into a larger buffer otherwise.
  method Append(s: Slice, at: int) returns (t: Slice)
    requires s.len <= s.buf.Length
    modifies s.buf
    ensures t.len == s.len + 1 <= t.buf.Length && (t.buf == s.buf || fresh(t.buf))
    ensures t.buf[..t.len] == old(s.buf[..s.len]) + [at]
  {
    var buf := s.buf;
    if s.len == buf.Length {
      buf := new int[2 * s.len + 1];
      for i := 0 to s.len
        invariant buf[..i] == s.buf[..i] && s.buf[..] == old(s.buf[..])
        invariant fresh(buf)
      {
        buf[i] := s.buf[i];
        assert buf[..i + 1] == buf[..i] + [s.buf[i]];
      }
    }
    ghost var front := buf[..s.len];
    buf[s.len] := at;
    assert buf[..s.len + 1] == front + [at];
    t := Slice(buf, s.len + 1);
  }

  class Limiter {
    var hits: map<string, Slice>
    var swept: Option<int>

    // What the buckets hold, every hit ever admitted, and the time of the latest call.
    ghost var held: View
    ghost var log: seq<Hit>
    ghost var latest: Option<int>

    ghost function Buffers(): set<object>
      reads this`hits
    {
      set k | k in hits :: hits[k].buf
    }

    ghost predicate Apart()
      reads this`hits
    {
      && (forall k :: k in hits ==> 0 < hits[k].len <= hits[k].buf.Length)
      && forall j, k :: j in hits && k in hits && j != k ==> hits[j].buf != hits[k].buf
    }

    // The slice as it stands holds exactly these timestamps.
    ghost predicate Spells(s: Slice, ts: seq<int>)
      reads s.buf
    {
      s.len <= s.buf.Length && s.buf[..s.len] == ts
    }

    // The buckets lie apart, and `held` is what they hold.
    ghost predicate Tied()
      reads this`hits, this`held, Buffers()
    {
      && Apart() && held.Keys == hits.Keys
      && forall k :: k in hits ==> Spells(hits[k], held[k])
    }

    ghost predicate Valid()
      reads this, Buffers()
    {
      && Tied()
      && (latest.None? ==> held == map[] && swept.None? && log == [])
      && (latest.Some? ==> Agreed(held, log, latest.value) && Swept(held, swept, latest.value))
    }

    constructor ()
      ensures Valid() && log == [] && latest.None?
    {
      hits, swept, held, log, latest := map[], None, map[], [], None;
    }

    // Every bucket kept has a hit newer than 61 minutes before the latest call.
    lemma BucketsAreAlive(key: string)
      requires Valid() && key in hits
      ensures latest.Some?
      ensures exists i :: 0 <= i < hits[key].len && hits[key].buf[i] > latest.value - 3660
    {
      var newest := hits[key].len - 1;
      assert HOUR + SWEEP_INTERVAL == 3660;
      assert Spells(hits[key], held[key]);
      assert held[key][newest] == hits[key].buf[newest];
    }

    // What the key's bucket holds of a window that begins at t.
    ghost function Counted(key: string, t: int): nat
      reads this`held
    {
      |After(Content(held, key), t)|
    }

    // A call whose clock is behind the latest call's counts the key's hits but those its
    // bucket has dropped, all of them at least an hour older than the latest call; which is
    // what the whole history counts exactly when the last of those is out of the window too.
    lemma WhatALateCallCounts(key: string, now: int, window: nat)
      requires Valid() && latest.Some? && now < latest.value
      ensures var ts, t := Times(log, key), now - window;
              var d := Dropped(Content(held, key), ts);
              && 0 <= d && Content(held, key) == ts[d..]
              && (d > 0 ==> ts[d - 1] <= latest.value - HOUR)
              && (Counted(key, t) == CountAfter(log, key, t) <==> d == 0 || ts[d - 1] <= t)
    {
      AgreedCounts(held, log, latest.value, key, now - window);
    }

    // sweep: at most once an interval, every bucket whose newest hit is an hour old goes.
    method Sweep(now: int)
      requires Tied()
      modifies this`hits, this`swept, this`held
      ensures Tied() && Buffers() <= old(Buffers())
      ensures old(swept).Some? && now - old(swept).value < SWEEP_INTERVAL ==>
                held == old(held) && swept == old(swept)
      ensures !(old(swept).Some? && now - old(swept).value < SWEEP_INTERVAL) ==>
                swept == Some(now) && held == SweptAt(old(held), now)
    {
      if swept.None? || now - swept.value >= SWEEP_INTERVAL {
        swept := Some(now);
        SweepAll(now);
      }
    }

    method SweepAll(now: int)
      requires Tied()
      modifies this`hits, this`held
      ensures Tied() && Buffers() <= old(Buffers())
      ensures held == SweptAt(old(held), now)
    {
      var keys := hits.Keys;
      while keys != {}
        invariant Tied() && keys <= hits.Keys && Buffers() <= old(Buffers())
        invariant SweptBut(held, old(held), keys, now)
        decreases |keys|
      {
        var k :| k in keys;
        Visit(k, old(held), keys, now);
        keys := keys - {k};
      }
    }

    method Visit(k: string, ghost was: View, ghost keys: set<string>, now: int)
      requires Tied() && k in keys && SweptBut(held, was, keys, now)
      modifies this`hits, this`held
      ensures Tied() && SweptBut(held, was, keys - {k}, now) && Buffers() <= old(Buffers())
    {
      assert Spells(hits[k], held[k]);
      assert held[k][|held[k]| - 1] == hits[k].buf[hits[k].len - 1];
      SweepOne(held, was, keys, now, k);
      if hits[k].buf[hits[k].len - 1] <= now - HOUR {
        Drop(k);
      }
    }

    method Drop(key: string)
      requires Apart() && TiedBut(key)
      modifies this`hits, this`held
      ensures Tied() && held == old(held) - {key} && hits == old(hits) - {key}
    {
      hits, held := hits - {key}, held - {key};
    }

    // A key's new slice, in a buffer no other key uses.
    method Install(key: string, s: Slice, ghost bucket: seq<int>)
      requires Apart() && TiedBut(key) && Alone(key, s) && s.len > 0 && Spells(s, bucket)
      modifies this`hits, this`held
      ensures Tied() && held == old(held)[key := bucket] && hits == old(hits)[key := s]
    {
      hits, held := hits[key := s], held[key := bucket];
    }

    // The buckets are tied to `held` but for the key's.
    ghost predicate TiedBut(key: string)
      reads this`hits, this`held, Buffers()
    {
      && (forall k :: k in held && k != key ==> k in hits)
      && forall k :: k in hits && k != key ==> k in held && Spells(hits[k], held[k])
    }

    // No other key uses the slice's buffer.
    ghost predicate Alone(key: string, s: Slice)
      reads this`hits
    {
      forall k :: k in hits && k != key ==> hits[k].buf != s.buf
    }

    // The slice is the key's bucket, or an empty one of its own.
    ghost predicate Holds(key: string, s: Slice)
      reads this`hits, this`held, s.buf
    {
      Spells(s, Content(held, key)) && (key in hits ==> hits[key] == s) && Alone(key, s)
    }

    // The key's bucket compacted where it lies; it goes from the map when nothing is left.
    // A key with no bucket has an empty slice of its own.
    method Prune(key: string, now: int) returns (s: Slice, lastMinute: nat)
      requires Tied()
      modifies this`hits, this`held, Buffers()
      ensures Tied() && Buffers() <= old(Buffers())
      ensures Holds(key, s) && (s.buf in old(Buffers()) || fresh(s.buf))
      ensures held == Put(old(held), key, After(Content(old(held), key), now - HOUR))
      ensures s.len == old(Counted(key, now - HOUR))
      ensures lastMinute == old(Counted(key, now - MINUTE))
    {
      if key in hits {
        s, lastMinute := PruneBucket(key, now);
      } else {
        var none := new int[0];
        s, lastMinute := Slice(none, 0), 0;
        assert held - {key} == held;
      }
    }

    method PruneBucket(key: string, now: int) returns (s: Slice, lastMinute: nat)
      requires Tied() && key in hits
      modifies this`hits, this`held, Buffers()
      ensures Tied() && Buffers() <= old(Buffers()) && Holds(key, s) && s.buf in old(Buffers())
      ensures held == Put(old(held), key, After(old(held)[key], now - HOUR))
      ensures s.len == |After(old(held)[key], now - HOUR)|
      ensures lastMinute == |After(old(held)[key], now - MINUTE)|
    {
      s, lastMinute := CompactBucket(key, now);
      if s.len == 0 {
        Drop(key);
      } else {
        Install(key, s, After(held[key], now - HOUR));
      }
    }

    method CompactBucket(key: string, now: int) returns (s: Slice, lastMinute: nat)
      requires Tied() && key in hits
      modifies hits[key].buf
      ensures TiedBut(key) && s.buf == hits[key].buf
      ensures Spells(s, After(held[key], now - HOUR))
      ensures lastMinute == |After(held[key], now - MINUTE)|
    {
      assert Spells(hits[key], held[key]);
      var kept;
      kept, lastMinute := Compact(hits[key], now - HOUR, now - MINUTE);
      s := Slice(hits[key].buf, kept);
      forall k | k in hits && k != key ensures Spells(hits[k], held[k]) {
        assert old(Spells(hits[k], held[k]));
      }
    }

    // The hit appended to the key's slice, in place or in a larger buffer.
    method Admit(key: string, s: Slice, now: int)
      requires Tied() && Holds(key, s)
      modifies this`hits, this`held, this`log, s.buf
      ensures Tied() && log == old(log) + [Hit(key, now)]
      ensures held == old(held)[key := Content(old(held), key) + [now]]
    {
      var t := AppendApart(key, s, now);
      Install(key, t, Content(held, key) + [now]);
      log := log + [Hit(key, now)];
    }

    method AppendApart(key: string, s: Slice, now: int) returns (t: Slice)
      requires Tied() && Holds(key, s)
      modifies s.buf
      ensures TiedBut(key) && Alone(key, t) && t.len > 0 && Spells(t, Content(held, key) + [now])
    {
      t := Append(s, now);
      forall k | k in hits && k != key ensures Spells(hits[k], held[k]) {
        assert old(Spells(hits[k], held[k]));
      }
    }

    // The moment a call is judged as of: its own, or the latest call's if its clock is
    // behind that.
    ghost function Edge(now: int): int
      reads this`latest
    {
      if latest.Some? && now < latest.value then latest.value else now
    }

    // The sweep every call begins with. A call whose clock is behind sweeps nothing.
    method Arrive(now: int)
      requires Valid()
      modifies this`hits, this`swept, this`held, this`latest
      ensures Valid() && latest == Some(old(Edge(now))) && Buffers() <= old(Buffers())
      ensures now < latest.value ==> held == old(held)
    {
      ghost var edge := Edge(now);
      if latest.Some? { AgreedLater(held, log, latest.value, edge); }
      if now == edge { SweepKeepsAgreed(held, log, now); }
      latest := Some(edge);
      Sweep(now);
    }

    // At the latest call's time a bucket has room exactly when the whole history has.
    lemma BucketsTellTheHistory(key: string, now: int, perMinute: int, perHour: int)
      requires Valid() && latest == Some(now)
      ensures BucketHasRoom(key, now, perMinute, perHour) == HistoryHasRoom(key, now, perMinute, perHour)
    {
      AgreedCounts(held, log, now, key, now - HOUR);
      AgreedCounts(held, log, now, key, now - MINUTE);
      CountAfterCounts(log, key, now - HOUR);
      CountAfterCounts(log, key, now - MINUTE);
    }

    method Consider(key: string, now: int) returns (s: Slice, lastMinute: nat)
      requires Valid() && latest.Some? && now <= latest.value
      modifies this`hits, this`held, Buffers()
      ensures Valid() && Holds(key, s) && (s.buf in old(Buffers()) || fresh(s.buf))
      ensures s.len == old(Counted(key, now - HOUR))
      ensures lastMinute == old(Counted(key, now - MINUTE))
    {
      ghost var pruned := Put(held, key, After(Content(held, key), now - HOUR));
      PruneKeepsAgreed(held, log, swept, latest.value, key, now - HOUR);
      s, lastMinute := Prune(key, now);
      assert held == pruned;
    }

    // Both windows have room, by the key's bucket and by every hit ever admitted.
    ghost predicate BucketHasRoom(key: string, now: int, perMinute: int, perHour: int)
      reads this`held
    {
      Counted(key, now - MINUTE) < perMinute && Counted(key, now - HOUR) < perHour
    }

    ghost predicate HistoryHasRoom(key: string, now: int, perMinute: int, perHour: int)
      reads this`log
    {
      |HitsAfter(log, key, now - 60)| < perMinute && |HitsAfter(log, key, now - 3600)| < perHour
    }

    method Begin(key: string, now: int, ghost perMinute: int, ghost perHour: int)
      requires Valid()
      modifies this`hits, this`swept, this`held, this`latest
      ensures Valid() && latest == Some(old(Edge(now))) && Buffers() <= old(Buffers())
      ensures now == latest.value ==>
        BucketHasRoom(key, now, perMinute, perHour) == old(HistoryHasRoom(key, now, perMinute, perHour))
      ensures now < latest.value ==>
        BucketHasRoom(key, now, perMinute, perHour) == old(BucketHasRoom(key, now, perMinute, perHour))
    {
      Arrive(now);
      if now == latest.value { BucketsTellTheHistory(key, now, perMinute, perHour); }
    }

    method Judge(key: string, now: int, perMinute: int, perHour: int) returns (s: Slice, ok: bool)
      requires Valid() && latest.Some? && now <= latest.value
      modifies this`hits, this`held, Buffers()
      ensures Valid() && Holds(key, s) && (s.buf in old(Buffers()) || fresh(s.buf))
      ensures ok == old(BucketHasRoom(key, now, perMinute, perHour))
    {
      var lastMinute;
      s, lastMinute := Consider(key, now);
      ok := !(lastMinute >= perMinute || s.len >= perHour);
    }

    // Room found, the hit is admitted.
    method Settle(key: string, s: Slice, now: int, ok: bool)
      requires Valid() && Holds(key, s) && latest.Some? && now <= latest.value
      modifies this`hits, this`held, this`log, s.buf
      ensures log == old(log) + if ok then [Hit(key, now)] else []
      ensures now == latest.value || !ok ==> Valid()
    {
      if ok {
        if now == latest.value { AdmissionKeepsAgreed(held, log, swept, now, key); }
        Admit(key, s, now);
      }
    }

    // AllowKey: admitted exactly when the key's bucket leaves room in both windows, whatever
    // limits are in force now; and while clocks do not go back that is exactly when counting
    // every hit ever admitted does.
    method AllowKey(key: string, now: int, perMinute: int, perHour: int) returns (ok: bool)
      requires Valid()
      modifies this, Buffers()
      ensures latest == Some(old(Edge(now))) && log == old(log) + if ok then [Hit(key, now)] else []
      ensures now == latest.value ==> ok == old(HistoryHasRoom(key, now, perMinute, perHour))
      ensures now < latest.value ==> ok == old(BucketHasRoom(key, now, perMinute, perHour))
      ensures now == latest.value || !ok ==> Valid()
    {
      Begin(key, now, perMinute, perHour);
      var s;
      s, ok := Judge(key, now, perMinute, perHour);
      Settle(key, s, now, ok);
    }
  }
}

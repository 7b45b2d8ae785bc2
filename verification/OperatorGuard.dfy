// The ceremony as the guard's methods perform it: each store update is one atomic
// body, other connections may run between two of them, and every method is proved
// to be a run of the ceremony's machine.
module OperatorGuard {
  import opened Wrappers
  import opened Ceremony

  datatype Answer = Applied | Nothing | Refused | Failed

  // Crockford base32: no I, L, O or U.
  const ALPHABET := "0123456789ABCDEFGHJKMNPQRSTVWXYZ"

  predicate IsSymbol(c: char) {
    '0' <= c <= '9' || ('A' <= c <= 'Z' && c != 'I' && c != 'L' && c != 'O' && c != 'U')
  }

  lemma AlphabetIsSymbols(i: nat)
    requires i < |ALPHABET|
    ensures IsSymbol(ALPHABET[i])
  {}

  predicate IsSymbols(s: string) { |s| == 8 && forall c <- s :: IsSymbol(c) }

  // A code as the operator's file shows it: eight symbols, a dash between the fours.
  predicate IsCode(code: string) {
    |code| == 9 && code[4] == '-' && IsSymbols(code[..4] + code[5..])
  }

  // No two of its 32 places hold the same symbol, so that a symbol is drawn by 8 of the 256
  // bytes and by no others.
  lemma AlphabetHasNoRepeats(i: nat, j: nat)
    requires i < 32 && j < 32
    ensures |ALPHABET| == 32 && (ALPHABET[i] == ALPHABET[j] <==> i == j)
  {
    if i < j { AlphabetAscends(i, j); }
    if j < i { AlphabetAscends(j, i); }
  }

  lemma {:induction false} AlphabetAscends(i: nat, j: nat)
    requires i < j < 32
    ensures |ALPHABET| == 32 && ALPHABET[i] < ALPHABET[j]
  {
    AlphabetStep(j - 1);
    if i < j - 1 { AlphabetAscends(i, j - 1); }
  }

  lemma AlphabetStep(i: nat)
    requires i < 31
    ensures |ALPHABET| == 32 && ALPHABET[i] < ALPHABET[i + 1]
  {}

  // newCode, by rejection sampling over random bytes: of this alphabet none is rejected, and
  // eight bytes say the eight symbols.
  method NewCode(random: seq<nat>) returns (code: string)
    requires |random| == 8 && forall b <- random :: b < 256
    ensures IsCode(code) && Draws(random, code)
  {
    var out, limit, i := "", 256 / |ALPHABET| * |ALPHABET|, 0;
    while |out| < 8
      invariant |out| == i <= 8 && forall j :: 0 <= j < i ==> IsSymbol(out[j])
      invariant forall j :: 0 <= j < i ==> out[j] == ALPHABET[random[j] % 32]
      decreases 8 - i
    {
      var b := random[i];
      assert b in random && |ALPHABET| == 32;
      if b < limit {
        AlphabetIsSymbols(b % |ALPHABET|);
        out := out + [ALPHABET[b % |ALPHABET|]];
      }
      i := i + 1;
    }
    code := out[..4] + "-" + out[4..];
    assert code[..4] + code[5..] == out;
  }

  // The symbols of the code are the ones these bytes draw.
  predicate Draws(random: seq<nat>, code: string) {
    |random| == 8 && |code| == 9 &&
    forall j :: 0 <= j < 8 ==> (code[..4] + code[5..])[j] == ALPHABET[random[j] % 32]
  }

  // What an operator may type for eight symbols: any case, dashes anywhere.
  predicate Spells(s: string, symbols: string) {
    if s == "" then symbols == ""
    else if s[0] == '-' then Spells(s[1..], symbols)
    else symbols != "" && SameLetter(s[0], symbols[0]) && Spells(s[1..], symbols[1..])
  }

  // The symbol itself, or its small letter.
  predicate SameLetter(c: char, symbol: char) {
    c == symbol || ('A' <= symbol <= 'Z' && c as int - 'a' as int == symbol as int - 'A' as int)
  }

  predicate AreSpaces(s: string) {
    forall i :: 0 <= i < |s| ==> s[i] == ' ' || 9 <= s[i] as int <= 13
  }

  lemma {:induction false} SpellingIsBare(s: string, symbols: string)
    requires Spells(s, symbols) && forall c <- symbols :: IsSymbol(c)
    ensures Bare(s) == symbols && forall c <- s :: !IsSpace(c)
  {
    if s != "" {
      assert s == [s[0]] + s[1..];
      if s[0] == '-' {
        SpellingIsBare(s[1..], symbols);
      } else {
        assert symbols == [symbols[0]] + symbols[1..] && IsSymbol(symbols[0]);
        SpellingIsBare(s[1..], symbols[1..]);
      }
    }
  }

  lemma {:induction false} LeadingSpaceGoes(lead: string, s: string)
    requires AreSpaces(lead)
    ensures TrimLeft(lead + s) == TrimLeft(s)
  {
    if lead == "" {
      assert lead + s == s;
    } else {
      assert (lead + s)[0] == lead[0] && (lead + s)[1..] == lead[1..] + s;
      LeadingSpaceGoes(lead[1..], s);
    }
  }

  lemma {:induction false} TrailingSpaceGoes(s: string, trail: string)
    requires AreSpaces(trail)
    ensures TrimRight(s + trail) == TrimRight(s)
  {
    if trail == "" {
      assert s + trail == s;
    } else {
      var n := |trail| - 1;
      assert (s + trail)[|s| + n] == trail[n] && (s + trail)[..|s| + n] == s + trail[..n];
      TrailingSpaceGoes(s, trail[..n]);
    }
  }

  lemma SpellingIsNormal(lead: string, s: string, trail: string, symbols: string)
    requires AreSpaces(lead) && AreSpaces(trail) && Spells(s, symbols)
    requires symbols != "" && forall c <- symbols :: IsSymbol(c)
    ensures Normalise(lead + s + trail) == symbols
  {
    SpellingIsBare(s, symbols);
    assert s != "" && !IsSpace(s[0]) && !IsSpace(s[|s| - 1]);
    assert lead + s + trail == lead + (s + trail);
    LeadingSpaceGoes(lead, s + trail);
    assert (s + trail)[0] == s[0];
    TrailingSpaceGoes(s, trail);
  }

  // The code as it is shown is one way to spell it.
  lemma ShownSpells(code: string)
    requires IsCode(code)
    ensures Spells(code, code[..4] + code[5..])
  {
    var symbols := code[..4] + code[5..];
    assert symbols[..4] == code[..4] && symbols[4..] == code[5..];
    SymbolsSpellThemselves(code[5..]);
    assert code[4..][0] == '-' && code[4..][1..] == code[5..];
    SpellsOn(code[..4], code[4..], symbols[4..]);
    assert code == code[..4] + code[4..] && symbols == code[..4] + symbols[4..];
  }

  lemma {:induction false} SymbolsSpellThemselves(s: string)
    requires forall c <- s :: IsSymbol(c)
    ensures Spells(s, s)
  {
    if s != "" {
      assert s == [s[0]] + s[1..] && IsSymbol(s[0]);
      SymbolsSpellThemselves(s[1..]);
    }
  }

  lemma {:induction false} SpellsOn(front: string, s: string, symbols: string)
    requires Spells(s, symbols) && forall c <- front :: IsSymbol(c)
    ensures Spells(front + s, front + symbols)
  {
    if front == "" {
      assert front + s == s && front + symbols == symbols;
    } else {
      assert IsSymbol(front[0]);
      assert (front + s)[0] == front[0] && (front + s)[1..] == front[1..] + s;
      assert (front + symbols)[0] == front[0] && (front + symbols)[1..] == front[1..] + symbols;
      SpellsOn(front[1..], s, symbols);
    }
  }

  // Typed in any case, with its dash or any other or none, between any white space, a code
  // redeems exactly the grant whose eight symbols it spells.
  lemma CodeSpellsOneGrant(g: Grant, lead: string, s: string, trail: string, symbols: string)
    requires IsCode(g.code) && IsSymbols(symbols) && Spells(s, symbols)
    requires AreSpaces(lead) && AreSpaces(trail)
    ensures Matches(g, lead + s + trail) <==> symbols == g.code[..4] + g.code[5..]
  {
    ShownSpells(g.code);
    SpellingIsNormal("", g.code, "", g.code[..4] + g.code[5..]);
    assert "" + g.code + "" == g.code;
    SpellingIsNormal(lead, s, trail, symbols);
  }

  class Operator {
    var controls: Controls
    var grant: Option<Grant>
    var file: Option<Shown>
    var now: int
    // How many grants were ever stored; the program numbers nothing.
    var issued: nat

    ghost var past: seq<World>
    ghost var acts: seq<Action>
    ghost var w: World

    ghost predicate History()
      reads this`past, this`acts, this`w
    {
      Run(past, acts) && Inv(past[0]) && past[0].holder.Free? && w == past[|acts|]
    }

    ghost predicate Valid()
      reads this
    {
      && History() && w.controls == controls && w.grant == grant && w.file == file
      && w.now == now && w.issued == issued
    }

    constructor (controls: Controls)
      requires controls.payment <= controls.window
      ensures Valid() && w.holder.Free? && this.controls == controls && grant.None?
    {
      this.controls, this.grant, this.file := controls, None, None;
      this.now, this.issued := 0, 0;
      var start := World(controls, None, None, 0, Free, multiset{}, 0, map[], false);
      past, acts, w := [start], [], start;
    }

    ghost method Take(a: Action)
      requires History() && Can(w, a)
      modifies this`past, this`acts, this`w
      ensures History() && w == Do(old(w), a)
      ensures acts == old(acts) + [a] && past == old(past) + [w]
    {
      Grow(past, acts, a);
      w := Do(w, a);
      past, acts := past + [w], acts + [a];
    }

    // Whether a write or a removal is made. An operation called with `works` meets no
    // failure, whatever other connections do meanwhile.
    method Lucky(works: bool) returns (ok: bool)
      ensures works ==> ok
    {
      ok := *;
      ok := ok || works;
    }

    // The holder of the bake lock keeps it and the controls stay as they are,
    // whatever the other connections do.
    twostate predicate OthersOnly()
      reads this
    {
      && Valid() && old(acts) <= acts && old(past) <= past
      && controls == old(controls) && w.holder == old(w.holder)
      && old(now) <= now
    }

    // One step of another connection, or of the clock.
    method Other(request: Request, code: string)
      requires Valid()
      modifies this
      ensures OthersOnly()
    {
      var later: int := *;
      if later > now { now := later; }
      Take(Tick(now));
      var sweep, ask: bool := *, *;
      if sweep {
        SweepExpired(false);
      } else if ask && request.change.Valid() && controls.Loosens(request.change)
                && controls.CapPairAllows(request.change) {
        var asked := Request(request.change, now);
        Take(Ask(request.change));
        var _ := WriteGrant(asked, code, false);
      }
    }

    // Any number of them.
    method Others()
      requires Valid()
      modifies this
      ensures OthersOnly()
    {
      var steps: nat := *;
      while steps > 0
        invariant OthersOnly()
      {
        var change: Change, code: string := *, *;
        Other(Request(change, now), code);
        steps := steps - 1;
      }
    }

    // ------------------------------------------------------- one store update each

    // RequestAuthorisation's closure: the operator's file first, then the row, which
    // is where the grant it displaces ends.
    method WriteGrant(asked: Request, code: string, works: bool) returns (ok: bool)
      requires Valid() && asked in w.asking
      modifies this
      ensures OthersOnly() && now == old(now)
      ensures if ok then grant == Some(Grant(old(issued), asked.change, code, asked.at + TTL, 0))
              else grant == old(grant)
      ensures ok ==> file == ShownOf(grant)
      ensures issued == old(issued) + (if ok then 1 else 0) && (works ==> ok)
      ensures file == old(file) || file == Some(Shown(asked.change, code))
      ensures grant != old(grant) ==> file == Some(Shown(asked.change, code))
    {
      var fileOk := Lucky(works);
      if !fileOk {
        Take(Install(asked, code, false, false));
        return false;
      }
      file := Some(Shown(asked.change, code));
      ok := Lucky(works);
      if ok {
        grant := Some(Grant(issued, asked.change, code, asked.at + TTL, 0));
        issued := issued + 1;
      }
      Take(Install(asked, code, true, ok));
    }

    // sweepExpired: the grant stored under the lock goes if it has timed out.
    method SweepExpired(works: bool)
      requires Valid()
      modifies this
      ensures OthersOnly() && now == old(now) && issued == old(issued)
      ensures file == old(file) || (file.None? && old(grant).Some? && old(grant).value.expires <= now)
      ensures grant == old(grant) ||
              (grant.None? && old(grant).Some? && old(grant).value.Expired(now))
      ensures works && old(grant).Some? && old(grant).value.expires <= now ==> grant.None? && file.None?
    {
      if grant.None? || !grant.value.Expired(now) { return; }
      var fileOk := Lucky(works);
      var rowOk := Lucky(works);
      if fileOk { file := None; }
      if rowOk { grant := None; }
      Take(Sweep(now, fileOk, rowOk));
    }

    // redeem's closure, on the grant stored then; `at` is the clock as the call read
    // it before the lock.
    method RedeemStored(change: Change, code: string, at: int, works: bool)
      returns (verdict: Verdict, ok: bool)
      requires Valid() && w.holder == Redeeming(change, code, at)
      modifies this
      ensures Valid() && old(acts) <= acts && old(past) <= past
      ensures controls == old(controls) && now == old(now)
      ensures verdict == Judge(old(grant), change, code, at)
      ensures verdict == Ends(Consumed) <==>
                && old(grant).Some? && at < old(grant).value.expires && old(grant).value.change == change
                && Matches(old(grant).value, code)
      ensures grant == old(grant) || verdict == WrongCode || (verdict.Ends? && grant.None?)
      ensures file == old(file) || (file.None? && verdict.Ends?)
      ensures ok ==> verdict == Ends(Consumed) && grant.None?
      ensures ok ==> w.holder == Committing(change, Some(old(grant).value.serial))
      ensures !ok ==> w.holder.Free?
      ensures works && verdict == Ends(Consumed) ==> ok
      ensures works && verdict.Ends? ==> grant.None? && file.None?
      ensures works && verdict == WrongCode ==> grant != old(grant)
      ensures verdict == WrongCode && grant != old(grant) ==>
                grant == Some(old(grant).value.(attempts := old(grant).value.attempts + 1))
      ensures |acts| == |old(acts)| + 1 && acts[|old(acts)|].Redeem?
      ensures past[|old(acts)|] == old(w)
    {
      verdict, ok := Judge(grant, change, code, at), false;
      var fileOk := Lucky(works);
      var rowOk := Lucky(works);
      if verdict.WrongCode? && rowOk {
        grant := Some(grant.value.(attempts := grant.value.attempts + 1));
      }
      if verdict.Ends? {
        if fileOk { file := None; }
        if rowOk { grant := None; }
        ok := verdict.fate == Consumed && rowOk;
      }
      Take(Redeem(fileOk, rowOk));
    }

    // ------------------------------------------------------------ the operations

    // A fresh grant for this change: good for ten minutes from now, no wrong code against it.
    ghost predicate Issued(change: Change, serial: nat)
      reads this
    {
      && grant.Some? && grant.value.change == change && IsCode(grant.value.code)
      && grant.value.expires == now + 600 && grant.value.attempts == 0
      && grant.value.serial == serial && issued == serial + 1
    }

    method RequestAuthorisation(change: Change, random: seq<nat>, works: bool) returns (r: Answer)
      requires Valid() && w.holder.Free?
      requires |random| == 8 && forall b <- random :: b < 256
      modifies this
      ensures OthersOnly()
      ensures r == Refused <==> !(change.Valid() && old(controls).Apply(change).LooserThan(old(controls))
                                  && old(controls).CapPairAllows(change))
      ensures r == Applied || r == Refused || (r == Failed && !works)
      ensures r == Applied ==> Issued(change, old(issued)) && Draws(random, grant.value.code)
      ensures r == Applied ==> file == ShownOf(grant)
      ensures works && r == Refused && change.Valid() && old(grant).Some? && old(grant).value.expires <= now ==>
                grant.None? && file.None?
      ensures r != Applied ==> grant == old(grant) || (grant.None? && old(grant).value.Expired(now))
    {
      if !change.Valid() { return Refused; }
      QuestionsAreAboutTheEffect(controls, change);
      SweepExpired(works);
      if !controls.Loosens(change) || !controls.CapPairAllows(change) { return Refused; }
      var asked := Request(change, now);
      Take(Ask(change));
      var code := NewCode(random);
      var ok := WriteGrant(asked, code, works);
      r := if ok then Applied else Failed;
    }

    // A grant for exactly this change, matched by this code, is what step k consumed.
    ghost predicate ConsumedAt(k: nat, change: Change, code: string)
      reads this
    {
      && k < |acts| && k < |past| && acts[k].Redeem? && past[k].grant.Some?
      && past[k].grant.value.change == change && Matches(past[k].grant.value, code)
      && past[k].holder.Redeeming? && !past[k].grant.value.Expired(past[k].holder.at)
    }

    // No grant stood at step k, or it had lapsed, was for another change or had another code.
    ghost predicate NotConsumedAt(k: nat, change: Change, code: string)
      reads this
    {
      && k < |acts| && k < |past| && acts[k].Redeem? && past[k].holder.Redeeming?
      && (past[k].grant.Some? ==>
            || past[k].grant.value.expires <= past[k].holder.at
            || past[k].grant.value.change != change || !Matches(past[k].grant.value, code))
    }

    // The control the change names holds its value, the other two what they held before.
    ghost predicate Sets(change: Change, before: Controls)
      reads this`controls
    {
      && (change.control == Sending ==> controls == Controls(change.on, before.window, before.payment))
      && (change.control == SpendCap ==> controls == Controls(before.latch, change.msat, before.payment))
      && (change.control == PaymentCap ==> controls == Controls(before.latch, before.window, change.msat))
      && !change.control.Unknown?
    }

    // ApplyChange, the one site that changes an operator control, under the bake lock.
    // A loosening was let through by the grant that step k of this call consumed.
    method ApplyChange(change: Change, code: string, works: bool) returns (r: Answer, ghost k: nat)
      requires Valid() && w.holder.Free?
      modifies this
      ensures Valid() && w.holder.Free? && old(acts) <= acts && old(past) <= past
      ensures controls == if r == Applied then old(controls).Apply(change) else old(controls)
      ensures r == Applied ==> Sets(change, old(controls))
      ensures r == Nothing <==> change.Valid() && old(controls).AlreadyHas(change)
      ensures r == Nothing ==> Sets(change, controls)
      ensures r == Applied ==> change.Valid() && old(controls).CapPairAllows(change)
      ensures r == Applied ==> controls.payment <= controls.window
      ensures r == Refused && change.Valid() && old(controls).CapPairAllows(change) ==>
                old(controls).Apply(change).LooserThan(old(controls))
      ensures r == Applied && old(controls).Loosens(change) ==>
                |old(acts)| <= k && ConsumedAt(k, change, code)
      ensures works ==> r != Failed
      ensures works && r == Refused && change.Valid() && old(controls).CapPairAllows(change) ==>
                |old(acts)| <= k && NotConsumedAt(k, change, code)
    {
      k := 0;
      if !change.Valid() { return Refused, 0; }
      if controls.AlreadyHas(change) { return Nothing, 0; }
      if !controls.CapPairAllows(change) { return Refused, 0; }
      QuestionsAreAboutTheEffect(controls, change);
      r, k := ApplyUnderLock(change, code, works);
      InvAlong(past, acts, |acts|);
    }

    method ApplyUnderLock(change: Change, code: string, works: bool) returns (r: Answer, ghost k: nat)
      requires Valid() && w.holder.Free? && change.Valid()
      requires !controls.AlreadyHas(change) && controls.CapPairAllows(change)
      modifies this
      ensures Valid() && w.holder.Free? && old(acts) <= acts && old(past) <= past
      ensures controls == if r == Applied then old(controls).Apply(change) else old(controls)
      ensures r != Nothing && (r == Refused ==> old(controls).Loosens(change))
      ensures r == Applied && old(controls).Loosens(change) ==>
                |old(acts)| <= k && ConsumedAt(k, change, code)
      ensures works ==> r != Failed
      ensures works && r == Refused ==> |old(acts)| <= k && NotConsumedAt(k, change, code)
    {
      Take(Begin(change, code));
      k := 0;
      if controls.Loosens(change) {
        var ok;
        ok, k := Redeemed(change, code, works);
        if !ok { return Refused, k; }
      }
      r := CommitAfterOthers(change, works);
    }

    // redeem, from the clock it reads to the verdict it saves.
    method Redeemed(change: Change, code: string, works: bool) returns (ok: bool, ghost k: nat)
      requires Valid() && w.holder.Redeeming? && w.holder.change == change && w.holder.code == code
      modifies this
      ensures Valid() && old(acts) <= acts && old(past) <= past && controls == old(controls)
      ensures ok ==> w.holder.Committing? && w.holder.change == change
      ensures ok ==> |old(acts)| <= k && ConsumedAt(k, change, code)
      ensures works && !ok ==> |old(acts)| <= k && NotConsumedAt(k, change, code)
      ensures !ok ==> w.holder.Free?
    {
      Others();
      Take(ReadClock);
      var verdict;
      verdict, ok := RedeemAfterOthers(change, code, now, works);
      k := |acts| - 1;
    }

    method RedeemAfterOthers(change: Change, code: string, at: int, works: bool)
      returns (verdict: Verdict, ok: bool)
      requires Valid() && w.holder == Redeeming(change, code, at)
      modifies this
      ensures Valid() && old(acts) <= acts && old(past) <= past && controls == old(controls)
      ensures ok ==> w.holder.Committing? && w.holder.change == change
      ensures ok ==> |old(acts)| <= |acts| - 1 && ConsumedAt(|acts| - 1, change, code)
      ensures works && !ok ==> |old(acts)| <= |acts| - 1 && NotConsumedAt(|acts| - 1, change, code)
      ensures !ok ==> w.holder.Free?
    {
      Others();
      verdict, ok := RedeemStored(change, code, at, works);
    }

    // commitChange, other connections having run since the change was let through.
    method CommitAfterOthers(change: Change, works: bool) returns (r: Answer)
      requires Valid() && w.holder.Committing? && w.holder.change == change
      modifies this
      ensures Valid() && w.holder.Free? && old(acts) <= acts && old(past) <= past
      ensures r == Applied || (r == Failed && !works)
      ensures controls == if r == Applied then old(controls).Apply(change) else old(controls)
    {
      Others();
      var saved := Lucky(works);
      if saved { controls := controls.Apply(change); }
      Take(Commit(saved));
      r := if saved then Applied else Failed;
    }
  }
}

/**
 * The prototype's estimates, labels, choices and edits in their own terms: sizes in virtual
 * bytes, mixtures of labels, what a binding fixes, and which coins an edit reaches.
 */
module PaymentLaws {
  import opened Wrappers
  import opened Planner
  import opened Selector
  import opened Payments

  // ---- Sizes ----

  /** The estimate in virtual bytes, before it is rounded up: overhead, inputs, the recipient and the change. */
  function Exact(required: nat, count: nat, change: bool, consolidate: bool): real {
    var own := if required == 2 then 43.0 else 31.0;
    10.5 + (if required == 2 then 105.0 else 68.25) * count as real + (if consolidate then own else 31.0) + (if change then own else 0.0)
  }

  lemma SizeIsEstimate(w: Wallet, count: nat, change: bool, consolidate: bool)
    ensures var size := VirtualBytes(w, count, change, consolidate) as real;
      Exact(w.required, count, change, consolidate) <= size < Exact(w.required, count, change, consolidate) + 1.0
  {
    var own := if w.required == 2 then 43 else 31;
    var quarters := 42 + (if w.required == 2 then 420 else 273) * count + 4 * (if consolidate then own else 31) + 4 * (if change then own else 0);
    assert 4.0 * Exact(w.required, count, change, consolidate) == quarters as real;
    var size := VirtualBytes(w, count, change, consolidate);
    assert 4 * size >= quarters > 4 * size - 4;
  }

  /** An accepted quote pays its rate for its size and gives a leftover to the fee only when it is no change. */
  lemma QuoteIsFair(w: Wallet, coins: seq<Coin>, o: Options, q: Quote)
    requires QuoteOk(w, coins, o, q)
    ensures q.fee == q.vbytes * o.rate + q.remainder
    ensures q.vbytes == VirtualBytes(w, |coins|, q.change > 0, o.mode.Consolidate? && q.change == 0)
  {
    hide VirtualBytes, Total, Mixed;
  }

  /** When an estimate succeeds, in plain numbers. */
  lemma CoversInNumbers(w: Wallet, count: nat, total: int, o: Options)
    ensures Covers(w, count, total, o) <==>
      var least := VirtualBytes(w, count, false, o.mode.Consolidate?) * o.rate;
      && 1 <= o.rate <= 1000 && 1 <= count <= 100 && 0 <= total <= 2_100_000_000_000_000 && (o.mode.Consolidate? ==> count >= 2)
      && (if o.max || o.mode.Consolidate? then total - least >= 1000
          else 1000 <= o.amount <= 2_100_000_000_000_000 && total >= o.amount + least)
  {
    hide VirtualBytes;
  }

  // ---- Coins and labels ----

  lemma AvailableIsExact(w: Wallet, c: Coin)
    ensures multiset(Available(w))[c] ==
      if !w.imported && !c.spent && c.confirmed && !c.frozen && c.id !in w.reserved then multiset(w.coins)[c] else 0
  {
    FilterCounts(w.coins, c => Usable(w, c), c);
  }

  ghost predicate AllLabelled(coins: seq<Coin>, tag: string) {
    tag != "" && forall i :: 0 <= i < |coins| ==> Trim(coins[i].tag) == tag
  }

  /** Coins are mixed unless there is one of them, or all carry one and the same label. */
  lemma MixedIsExact(coins: seq<Coin>)
    ensures Mixed(coins) <==> |coins| > 1 && !exists tag :: AllLabelled(coins, tag)
  {
    hide Trim;
    if |coins| > 1 && !Mixed(coins) {
      forall i | 0 <= i < |coins| ensures Trim(coins[i].tag) == Trim(coins[0].tag) {
        assert i > 0 ==> GroupKey(coins[0]) == GroupKey(coins[i]);
      }
      assert AllLabelled(coins, Trim(coins[0].tag));
    }
  }

  /** Where no single coin pays, the choice is unmixed if any candidate is, then of fewest inputs, then of least total. */
  lemma ChoiceIsLeast(w: Wallet, o: Options, q: Quote)
    requires Choice(w, o).Some? && FirstSingle(w, SmallestFirst(w, Available(w)), o).None?
    requires q in Candidates(w, Orders(w, SmallestFirst(w, Available(w))), o)
    ensures var best := Choice(w, o).value;
      && (best.mixed ==> q.mixed)
      && (best.mixed == q.mixed ==> |best.inputs| <= |q.inputs|)
      && (best.mixed == q.mixed && |best.inputs| == |q.inputs| ==> best.inputTotal <= q.inputTotal)
  {
    var candidates := Candidates(w, Orders(w, SmallestFirst(w, Available(w))), o);
    var i :| 0 <= i < |candidates| && candidates[i] == q;
    assert !Better(candidates[i], Best(candidates));
    hide Candidates, Orders, SmallestFirst, Available, FirstSingle, Best;
  }

  // ---- Drafts ----

  ghost predicate IsRecipient(s: string, first: char, rest: string) {
    && s == "demo:" + [first] + rest && IsAlphanumeric(first) && 2 <= |rest| <= 96
    && forall i :: 0 <= i < |rest| ==>
         IsAlphanumeric(rest[i]) || rest[i] == '_' || rest[i] == '/' || rest[i] == ':' || rest[i] == '.' || rest[i] == '-'
  }

  /** The prefix, a letter or digit, and 2 to 96 more characters of a fixed alphabet. */
  lemma RecipientIsExact(s: string)
    ensures ValidRecipient(s) <==> exists first, rest :: IsRecipient(s, first, rest)
  {
    if ValidRecipient(s) {
      assert s == "demo:" + [s[5]] + s[6..];
      assert IsRecipient(s, s[5], s[6..]);
    }
    if first, rest :| IsRecipient(s, first, rest) {
      assert s[..5] == "demo:" && s[5] == first && s[6..] == rest;
      assert forall i :: 6 <= i < |s| ==> s[i] == rest[i - 6];
    }
  }

  /** What one binding fixes: a draft with the same binding spends the same coins to the same places for the same amounts. */
  lemma BindingBinds(wallet: string, other: string, a: Draft, b: Draft)
    requires BindingOf(wallet, a) == BindingOf(other, b)
    ensures wallet == other && a.id == b.id && a.mode == b.mode && a.to == b.to && a.changeAddress == b.changeAddress
    ensures a.amount == b.amount && a.fee == b.fee && a.change == b.change && a.rate == b.rate
    ensures |a.inputs| == |b.inputs| && forall i :: 0 <= i < |a.inputs| ==>
      && a.inputs[i].id == b.inputs[i].id && a.inputs[i].sats == b.inputs[i].sats
      && a.inputs[i].txid == b.inputs[i].txid && a.inputs[i].vout == b.inputs[i].vout
  {
    var x, y := BindingOf(wallet, a).inputs, BindingOf(other, b).inputs;
    assert x == y;
    forall i | 0 <= i < |a.inputs|
      ensures && a.inputs[i].id == b.inputs[i].id && a.inputs[i].sats == b.inputs[i].sats
              && a.inputs[i].txid == b.inputs[i].txid && a.inputs[i].vout == b.inputs[i].vout
    {
      assert x[i] == y[i];
    }
  }

  // ---- Edits ----

  /** The coin is one of those named, and only its label changes. */
  lemma RelabellingIsExact(coins: seq<Coin>, ids: seq<string>, tag: string, k: nat)
    requires k < |coins|
    ensures |Relabelled(coins, ids, tag)| == |coins|
    ensures Relabelled(coins, ids, tag)[k] == if coins[k].id in ids then coins[k].(tag := tag) else coins[k]
  {
  }

  lemma TogglingIsExact(coins: seq<Coin>, id: string, k: nat)
    requires k < |coins|
    ensures |Frozen(coins, id)| == |coins| && Frozen(coins, id)[k] == coins[k].(frozen := coins[k].frozen != (coins[k].id == id))
  {
  }

  /** Every selected coin that no draft reserves is frozen; nothing is unfrozen. */
  lemma {:induction false} FreezingIsExact(coins: seq<Coin>, ids: seq<string>, reserved: set<string>, k: nat)
    requires k < |coins|
    ensures |FrozenAll(coins, ids, reserved)| == |coins|
    ensures FrozenAll(coins, ids, reserved)[k] ==
      coins[k].(frozen := coins[k].frozen || (coins[k].id in ids && coins[k].id !in reserved))
  {
    if ids != [] {
      FreezingIsExact(coins, ids[..|ids| - 1], reserved, k);
      assert ids == ids[..|ids| - 1] + [ids[|ids| - 1]];
    }
  }

  lemma ConfirmingIsExact(coins: seq<Coin>, k: nat)
    requires k < |coins|
    ensures |AllConfirmed(coins)| == |coins|
    ensures AllConfirmed(coins)[k] == coins[k].(confirmed := coins[k].confirmed || !coins[k].spent)
  {
  }

  /** Change `i` is the last that names this coin. */
  ghost predicate IsLast(changes: seq<Change>, i: nat, id: string) {
    i < |changes| && changes[i].id == id && forall j :: i < j < |changes| ==> changes[j].id != id
  }

  /** The last change of a coin decides its label and freeze. */
  lemma {:induction false} ImportIsExact(coins: seq<Coin>, changes: seq<Change>, k: nat, i: nat)
    requires k < |coins| && IsLast(changes, i, coins[k].id)
    ensures |Imported(coins, changes)| == |coins|
    ensures Imported(coins, changes)[k] == coins[k].(tag := changes[i].tag, frozen := changes[i].frozen)
  {
    var shorter := changes[..|changes| - 1];
    ImportedIds(coins, shorter, k);
    if i < |changes| - 1 {
      assert IsLast(shorter, i, coins[k].id);
      ImportIsExact(coins, shorter, k, i);
    }
  }

  /** A coin that no change names is as it was. */
  lemma {:induction false} UnnamedIsKept(coins: seq<Coin>, changes: seq<Change>, k: nat)
    requires k < |coins| && forall i :: 0 <= i < |changes| ==> changes[i].id != coins[k].id
    ensures |Imported(coins, changes)| == |coins| && Imported(coins, changes)[k] == coins[k]
  {
    if changes != [] {
      UnnamedIsKept(coins, changes[..|changes| - 1], k);
    }
  }

  lemma {:induction false} ImportedIds(coins: seq<Coin>, changes: seq<Change>, k: nat)
    requires k < |coins|
    ensures |Imported(coins, changes)| == |coins|
    ensures var after := Imported(coins, changes)[k]; after == coins[k].(tag := after.tag, frozen := after.frozen)
  {
    if changes != [] {
      ImportedIds(coins, changes[..|changes| - 1], k);
    }
  }

  /** What comes back is one unconfirmed, unfrozen coin of the consolidated amount or of the change, or nothing. */
  lemma ReturnIsExact(d: Draft, id: string, txid: string)
    requires 0 <= d.amount && 0 <= d.change
    ensures var back := Returned(d, id, txid);
      && |back| == (if d.mode.Consolidate? || d.change > 0 then 1 else 0)
      && forall i :: 0 <= i < |back| ==>
           && back[i].id == id && back[i].txid == txid && !back[i].spent && !back[i].frozen && !back[i].confirmed
           && back[i].sats == (if d.mode.Consolidate? then d.amount else d.change)
           && (d.mode.Consolidate? ==> back[i].tag == d.tag && back[i].vout == 0)
           && (d.mode.Send? ==> |back[i].tag| <= 255 && back[i].tag <= "Change · " + (if d.tag == "" then "Payment" else d.tag) && back[i].vout == 1)
  {
  }
}

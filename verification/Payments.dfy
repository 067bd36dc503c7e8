/**
 * A wallet's coins and its one payment draft, as the prototype changes them in place: every
 * draft it creates passes its own validation and keeps passing it until broadcast or discard.
 */
module Payments {
  import opened Wrappers
  import opened Planner
  import opened Selector
  import Texts

  datatype Binding = Binding(
    draft: string, wallet: string, mode: Mode, inputs: seq<(string, string, nat, nat)>, to: string, amount: int, fee: int,
    change: int, changeAddress: string, rate: int)

  datatype Draft = Draft(
    id: string, inputs: seq<Coin>, amount: int, fee: int, change: int, rate: int, mode: Mode, to: string, tag: string,
    changeAddress: string, binding: Binding)

  datatype Form = Form(
    to: string, amount: int, rate: int, selected: Option<seq<string>>, mode: Mode, max: bool, tag: string, privacyAck: bool)

  /** One staged change of a label file, with the values its preview showed. */
  datatype Change = Change(id: string, before: string, beforeFrozen: bool, tag: string, frozen: bool)

  // ---- Text rules ----

  predicate IsAlphanumeric(c: char) {
    'a' <= c <= 'z' || 'A' <= c <= 'Z' || '0' <= c <= '9'
  }

  predicate StartsWith(s: string, prefix: string) {
    |prefix| <= |s| && s[..|prefix|] == prefix
  }

  predicate ValidRecipient(s: string) {
    && StartsWith(s, "demo:") && 8 <= |s| <= 102 && IsAlphanumeric(s[5])
    && forall i | 6 <= i < |s| :: IsAlphanumeric(s[i]) || s[i] in "_/:.-"
  }

  predicate LabelOk(s: string) {
    |s| <= 255 && forall i | 0 <= i < |s| :: s[i] >= ' ' || s[i] == '\t'
  }

  function ChangePrefix(wallet: string): string {
    "demo:" + wallet + "/change/"
  }

  function BindingOf(wallet: string, d: Draft): Binding {
    Binding(d.id, wallet, d.mode,
            seq(|d.inputs|, i requires 0 <= i < |d.inputs| => (d.inputs[i].id, d.inputs[i].txid, d.inputs[i].vout, d.inputs[i].sats)),
            d.to, d.amount, d.fee, d.change, d.changeAddress, d.rate)
  }

  function Ids(coins: seq<Coin>): seq<string> {
    seq(|coins|, i requires 0 <= i < |coins| => coins[i].id)
  }

  // ---- What a valid draft is ----

  /** Usable apart from being reserved by the draft itself. */
  predicate Spendable(w: Wallet, c: Coin) {
    !w.imported && !c.spent && c.confirmed && !c.frozen
  }

  predicate SameCoin(a: Coin, b: Coin) {
    a.id == b.id && a.txid == b.txid && a.vout == b.vout && a.sats == b.sats
  }

  ghost predicate InputsHold(w: Wallet, inputs: seq<Coin>) {
    && inputs != [] && DistinctIds(Ids(inputs))
    && forall i :: 0 <= i < |inputs| ==>
         var found := Find(w.coins, inputs[i].id);
         found.Some? && Spendable(w, found.value) && SameCoin(found.value, inputs[i])
  }

  function Recheck(d: Draft): Options {
    Options(d.amount, d.rate, d.mode == Consolidate, d.mode)
  }

  /** The recomputed estimate gives the draft's own numbers. */
  ghost predicate AmountsHold(w: Wallet, d: Draft) {
    && Covers(w, |d.inputs|, Total(d.inputs), Recheck(d))
    && exists q :: QuoteOk(w, d.inputs, Recheck(d), q) && q.fee == d.fee && q.change == d.change && q.amount == d.amount
  }

  predicate AddressesHold(wallet: string, d: Draft) {
    && ValidRecipient(d.to)
    && (d.mode == Consolidate ==> StartsWith(d.to, ChangePrefix(wallet)) && d.change == 0)
    && (d.change != 0 ==> StartsWith(d.changeAddress, ChangePrefix(wallet)))
  }

  ghost predicate DraftOk(w: Wallet, wallet: string, d: Draft) {
    InputsHold(w, d.inputs) && AmountsHold(w, d) && AddressesHold(wallet, d) && d.binding == BindingOf(wallet, d)
  }

  /**
   * A quote re-checked as the draft states it: a maximum send becomes an ordinary send of
   * that amount, which leaves no room for change and gives the same fee.
   */
  lemma RecheckAgrees(w: Wallet, o: Options, q: Quote, d: Draft)
    requires Covers(w, |q.inputs|, Total(q.inputs), o) && QuoteOk(w, q.inputs, o, q)
    requires d.inputs == q.inputs && d.amount == q.amount && d.fee == q.fee && d.change == q.change
    requires d.rate == o.rate && d.mode == o.mode
    ensures AmountsHold(w, d)
  {
    FeesArePositive(w, |q.inputs|, o);
    hide Total, Mixed, VirtualBytes;
    assert MinimumFee(w, |q.inputs|, Recheck(d)) == MinimumFee(w, |q.inputs|, o);
    assert ChangeFee(w, |q.inputs|, Recheck(d)) == ChangeFee(w, |q.inputs|, o);
    assert QuoteOk(w, d.inputs, Recheck(d), q);
  }

  // ---- Coins under edits ----

  ghost predicate UniqueIds(coins: seq<Coin>) {
    forall i, j :: 0 <= i < j < |coins| ==> coins[i].id != coins[j].id
  }

  function Unspent(coins: seq<Coin>): nat {
    if coins == [] then 0
    else Unspent(coins[..|coins| - 1]) + if coins[|coins| - 1].spent then 0 else coins[|coins| - 1].sats
  }

  lemma UnspentGrows(coins: seq<Coin>, c: Coin)
    ensures Unspent(coins + [c]) == Unspent(coins) + if c.spent then 0 else c.sats
  {
    assert (coins + [c])[..|coins|] == coins;
  }

  lemma {:induction false} UnspentSame(before: seq<Coin>, after: seq<Coin>)
    requires |before| == |after|
    requires forall i :: 0 <= i < |before| ==> after[i].spent == before[i].spent && after[i].sats == before[i].sats
    ensures Unspent(after) == Unspent(before)
  {
    if before != [] {
      UnspentSame(before[..|before| - 1], after[..|after| - 1]);
    }
  }

  lemma {:induction false} FindIndex(coins: seq<Coin>, i: nat)
    requires UniqueIds(coins) && i < |coins|
    ensures Find(coins, coins[i].id) == Some(coins[i])
  {
    if i > 0 {
      assert coins[0].id != coins[i].id;
      FindIndex(coins[1..], i - 1);
    }
  }

  /** Labels may change; a reserved coin stays spendable, and no coin changes what it is. */
  ghost predicate Unnoticed(before: seq<Coin>, after: seq<Coin>, reserved: set<string>) {
    && |before| == |after|
    && forall i :: 0 <= i < |before| ==>
         && SameCoin(after[i], before[i]) && after[i].spent == before[i].spent
         && (before[i].id in reserved && before[i].confirmed && !before[i].frozen ==> after[i].confirmed && !after[i].frozen)
  }

  lemma EditKeepsDraft(before: Wallet, after: Wallet, wallet: string, d: Draft)
    requires DraftOk(before, wallet, d) && UniqueIds(before.coins)
    requires after.required == before.required && after.imported == before.imported
    requires Unnoticed(before.coins, after.coins, set i | 0 <= i < |d.inputs| :: d.inputs[i].id)
    ensures DraftOk(after, wallet, d) && UniqueIds(after.coins) && Unspent(after.coins) == Unspent(before.coins)
  {
    hide AmountsHold, AddressesHold, BindingOf;
    assert AmountsHold(after, d) by { SamePolicyHolds(before, after, d); }
    forall i | 0 <= i < |d.inputs|
      ensures var found := Find(after.coins, d.inputs[i].id);
        found.Some? && Spendable(after, found.value) && SameCoin(found.value, d.inputs[i])
    {
      var found := Find(before.coins, d.inputs[i].id).value;
      var k :| 0 <= k < |before.coins| && before.coins[k] == found;
      FindIndex(after.coins, k);
    }
    UnspentSame(before.coins, after.coins);
  }

  lemma SamePolicyHolds(before: Wallet, after: Wallet, d: Draft)
    requires AmountsHold(before, d) && after.required == before.required
    ensures AmountsHold(after, d)
  {
    var q :| QuoteOk(before, d.inputs, Recheck(d), q) && q.fee == d.fee && q.change == d.change && q.amount == d.amount;
    hide Total, Mixed;
    assert QuoteOk(after, d.inputs, Recheck(d), q);
  }

  // ---- Spending ----

  function MarkSpent(coins: seq<Coin>, id: string): seq<Coin> {
    seq(|coins|, i requires 0 <= i < |coins| => if coins[i].id == id then coins[i].(spent := true) else coins[i])
  }

  lemma {:induction false} MarkSpentAbsent(coins: seq<Coin>, id: string)
    requires forall i :: 0 <= i < |coins| ==> coins[i].id != id
    ensures MarkSpent(coins, id) == coins
  {
  }

  lemma {:induction false} MarkSpentTotal(coins: seq<Coin>, id: string)
    requires UniqueIds(coins) && Find(coins, id).Some? && !Find(coins, id).value.spent
    ensures Unspent(MarkSpent(coins, id)) == Unspent(coins) - Find(coins, id).value.sats
  {
    var n := |coins| - 1;
    var i :| 0 <= i < |coins| && coins[i] == Find(coins, id).value;
    FindIndex(coins, i);
    assert MarkSpent(coins, id)[..n] == MarkSpent(coins[..n], id);
    if i == n {
      MarkSpentAbsent(coins[..n], id);
    } else {
      FindIndex(coins[..n], i);
      MarkSpentTotal(coins[..n], id);
    }
  }

  lemma MarkSpentFinds(coins: seq<Coin>, id: string, other: string)
    requires UniqueIds(coins) && other != id && Find(coins, other).Some?
    ensures Find(MarkSpent(coins, id), other) == Find(coins, other)
    ensures UniqueIds(MarkSpent(coins, id))
  {
    var k :| 0 <= k < |coins| && coins[k] == Find(coins, other).value;
    FindIndex(MarkSpent(coins, id), k);
  }

  // ---- Selections ----

  lemma UniqueCount(coins: seq<Coin>, c: Coin)
    requires UniqueIds(coins)
    ensures multiset(coins)[c] <= 1
  {
    if multiset(coins)[c] > 0 {
      var k :| 0 <= k < |coins| && coins[k] == c;
      WithoutCounts(coins, k);
      var others := Without(coins, k);
      assert forall j :: 0 <= j < |others| ==> others[j].id != c.id;
      assert c !in others;
      assert multiset(others)[c] == 0;
    }
  }

  /** An automatic selection never names a coin twice, and names only usable ones. */
  lemma SelectionHolds(w: Wallet, inputs: seq<Coin>)
    requires UniqueIds(w.coins) && Selection(w, inputs) && inputs != []
    ensures InputsHold(w, inputs)
  {
    forall i | 0 <= i < |inputs|
      ensures inputs[i] in w.coins && Usable(w, inputs[i]) && Find(w.coins, inputs[i].id) == Some(inputs[i])
    {
      assert inputs[i] in multiset(inputs) && inputs[i] in multiset(Available(w));
      FilterCounts(w.coins, c => Usable(w, c), inputs[i]);
      assert inputs[i] in multiset(w.coins);
      var k :| 0 <= k < |w.coins| && w.coins[k] == inputs[i];
      FindIndex(w.coins, k);
    }
    forall i, j | 0 <= i < j < |inputs| ensures inputs[i].id != inputs[j].id {
      TwiceCounts(inputs, i, j);
      FilterCounts(w.coins, c => Usable(w, c), inputs[i]);
      UniqueCount(w.coins, inputs[i]);
      assert multiset(inputs)[inputs[i]] <= multiset(Available(w))[inputs[i]];
      assert inputs[i] != inputs[j];
      assert Find(w.coins, inputs[i].id) == Some(inputs[i]) && Find(w.coins, inputs[j].id) == Some(inputs[j]);
    }
  }

  lemma TwiceCounts(coins: seq<Coin>, i: nat, j: nat)
    requires i < j < |coins|
    ensures coins[i] == coins[j] ==> multiset(coins)[coins[i]] >= 2
  {
    assert coins == coins[..i] + [coins[i]] + coins[i + 1..j] + [coins[j]] + coins[j + 1..];
  }

  lemma NamedHolds(w: Wallet, ids: seq<string>, inputs: seq<Coin>)
    requires DistinctIds(ids) && Named(w, ids, inputs) && inputs != []
    ensures InputsHold(w, inputs)
  {
    assert forall i :: 0 <= i < |inputs| ==> Find(w.coins, ids[i]) == Some(inputs[i]) && inputs[i].id == ids[i];
  }

  // ---- The wallet ----

  class DemoWallet {
    const id: string
    const required: nat
    const imported: bool
    const collate: (string, string) -> bool
    var coins: seq<Coin>
    var draft: Option<Draft>
    var balance: int
    var changeIndex: nat
    var nextId: nat

    constructor (id: string, required: nat, coins: seq<Coin>, collate: (string, string) -> bool)
      requires UniqueIds(coins)
      requires Unused(coins, 1)
      ensures Valid() && this.coins == coins && draft.None?
    {
      this.id, this.required, this.imported, this.collate := id, required, false, collate;
      this.coins, draft, balance, changeIndex, nextId := coins, None, Unspent(coins), 1, 1;
    }

    function Reserved(): set<string>
      reads this
    {
      if draft.None? then {} else set i | 0 <= i < |draft.value.inputs| :: draft.value.inputs[i].id
    }

    function View(): Wallet
      reads this
    {
      Wallet(required, imported, coins, Reserved(), collate)
    }

    /** The balance is the unspent total, ids are never reused, and the draft would still pass validation. */
    ghost predicate Valid()
      reads this
    {
      && balance == Unspent(coins)
      && UniqueIds(coins)
      && Unused(coins, nextId)
      && (draft.Some? ==> DraftOk(View(), id, draft.value))
    }

    method ValidateDraft(d: Draft) returns (ok: bool)
      ensures ok <==> DraftOk(View(), id, d)
    {
      hide QuoteOk, Covers, AddressesHold, BindingOf, Spendable;
      if d.inputs == [] || exists i, j | 0 <= i < j < |d.inputs| :: Ids(d.inputs)[i] == Ids(d.inputs)[j] {
        return false;
      }
      for i := 0 to |d.inputs|
        invariant forall j :: 0 <= j < i ==>
          var found := Find(coins, d.inputs[j].id);
          found.Some? && Spendable(View(), found.value) && SameCoin(found.value, d.inputs[j])
      {
        var found := Find(coins, d.inputs[i].id);
        if found.None? || !Spendable(View(), found.value) || !SameCoin(found.value, d.inputs[i]) {
          return false;
        }
      }
      assert InputsHold(View(), d.inputs);
      var p := Estimate(View(), d.inputs, Recheck(d));
      if p.Err? {
        return false;
      }
      forall q | QuoteOk(View(), d.inputs, Recheck(d), q) ensures q == p.value {
        QuotesAgree(View(), d.inputs, Recheck(d), q, p.value);
      }
      if p.value.fee != d.fee || p.value.change != d.change || p.value.amount != d.amount {
        return false;
      }
      ok := AddressesHold(id, d) && d.binding == BindingOf(id, d);
    }

    /** The form passes its checks and has a plan, and what needs consent has it. */
    method ValidateForm(form: Form) returns (r: Option<Quote>)
      ensures r.Some? <==> Startable(View(), id, changeIndex, form)
      ensures r.Some? ==>
        && Planned(View(), form.selected, Asked(form), r.value) && QuoteOk(View(), r.value.inputs, Asked(form), r.value)
        && Consented(form, r.value) && ValidRecipient(Destination(id, changeIndex, form))
    {
      hide QuoteOk, Covers, ValidRecipient, LabelOk, Planned, Mixed, Consented;
      if !ValidRecipient(Destination(id, changeIndex, form)) || !LabelOk(form.tag)
         || (form.mode.Consolidate? && Planner.Trim(form.tag) == "") {
        return None;
      }
      var o := Asked(form);
      var p := Plan(View(), form.selected, o);
      if p.Err? {
        return None;
      }
      OnlyPlan(View(), form.selected, o, p.value);
      if NeedsAcknowledgment(form, p.value) && !form.privacyAck {
        return None;
      }
      ConsentIsGiven(View(), form, p.value);
      r := Some(p.value);
    }

    /** The form is validated, planned and turned into the wallet's draft; a change address is given out once. */
    method StartSigning(form: Form) returns (ok: bool)
      requires Valid()
      modifies this`draft, this`changeIndex, this`nextId
      ensures Valid() && (if ok then draft.Some? && Carries(draft.value, form) else draft == old(draft))
      ensures ok <==> old(draft).None? && Startable(old(View()), id, old(changeIndex), form)
      ensures ok ==> exists q ::
        && Planned(old(View()), form.selected, Asked(form), q) && MadeFrom(draft.value, id, old(nextId), old(changeIndex), form, q)
        && Consented(form, q)
      ensures !ok ==> changeIndex == old(changeIndex) && nextId == old(nextId)
      ensures ok ==> nextId == old(nextId) + 1
      ensures ok ==> changeIndex == old(changeIndex) + if draft.value.change != 0 || form.mode.Consolidate? then 1 else 0
    {
      hide QuoteOk, Covers, ValidRecipient, LabelOk, Planned, Mixed, DraftOk, UniqueIds, Carries, Unused, Startable, Consented;
      var p := ValidateForm(form);
      if p.None? || draft.Some? {
        return false;
      }
      var q := p.value;
      var made := DraftOf(id, "demo-payment-" + Texts.Decimal(nextId), q, Destination(id, changeIndex, form), Planner.Trim(form.tag),
                          if q.change != 0 then OwnAddress(id, changeIndex) else "");
      OwnAddressHolds(id, changeIndex);
      QuoteModes(View(), Asked(form), q);
      CreatedIsOk(View(), id, form, Asked(form), q, made);
      assert MadeFrom(made, id, nextId, changeIndex, form, q);
      if q.change != 0 || form.mode.Consolidate? {
        changeIndex := changeIndex + 1;
      }
      Adopt(made);
      ok := true;
    }

    /** A valid draft becomes the wallet's, under the number that it was given. */
    method Adopt(made: Draft)
      requires Valid() && draft.None? && DraftOk(View(), id, made)
      modifies this`draft, this`nextId
      ensures Valid() && draft == Some(made) && nextId == old(nextId) + 1
    {
      hide DraftOk, UniqueIds, Unused;
      ghost var before := View();
      nextId := nextId + 1;
      draft := Some(made);
      ReservationIsNoObstacle(before, View(), id, made);
      NextIdUnused(coins, nextId - 1);
    }

    /** Every edit below changes coins only in ways the draft cannot see. */
    twostate lemma EditsKeepValid()
      requires old(Valid()) && draft == old(draft) && nextId == old(nextId) && balance == old(balance)
      requires Unnoticed(old(coins), coins, Reserved())
      ensures Valid()
    {
      if draft.Some? {
        EditKeepsDraft(old(View()), View(), id, draft.value);
      } else {
        UnspentSame(old(coins), coins);
      }
    }

    method SetCoinLabel(ids: seq<string>, value: string) returns (ok: bool)
      requires Valid()
      modifies this`coins
      ensures Valid()
      ensures ok <==> LabelOk(value)
      ensures coins == if ok then Relabelled(old(coins), ids, Planner.Trim(value)) else old(coins)
    {
      hide LabelOk;
      ok := LabelOk(value);
      if ok {
        coins := Relabelled(coins, ids, Planner.Trim(value));
        EditsKeepValid();
      }
    }

    /** Freezing is offered only for coins that no draft reserves. */
    method ToggleFreeze(coin: string)
      requires Valid()
      modifies this`coins
      ensures Valid()
      ensures coins == if coin in Reserved() then old(coins) else Frozen(old(coins), coin)
    {
      if coin !in Reserved() {
        coins := Frozen(coins, coin);
        EditsKeepValid();
      }
    }

    method FreezeSelected(ids: seq<string>)
      requires Valid()
      modifies this`coins
      ensures Valid() && coins == FrozenAll(old(coins), ids, Reserved())
    {
      for i := 0 to |ids|
        invariant coins == FrozenAll(old(coins), ids[..i], Reserved())
      {
        assert ids[..i + 1][..i] == ids[..i];
        if ids[i] !in Reserved() {
          coins := FrozenOn(coins, ids[i]);
        }
      }
      assert ids[..|ids|] == ids;
      FreezingIsUnnoticed(coins, old(coins), ids, Reserved());
      EditsKeepValid();
    }

    method ConfirmPending()
      requires Valid()
      modifies this`coins
      ensures Valid() && coins == AllConfirmed(old(coins))
    {
      coins := AllConfirmed(coins);
      EditsKeepValid();
    }

    /** The whole staged import is checked before anything is written. */
    method ApplyLabelImport(changes: seq<Change>) returns (ok: bool)
      requires Valid()
      modifies this`coins
      ensures Valid()
      ensures ok <==> forall i :: 0 <= i < |changes| ==> Current(View(), old(coins), changes[i])
      ensures coins == if ok then Imported(old(coins), changes) else old(coins)
    {
      for i := 0 to |changes|
        invariant forall j :: 0 <= j < i ==> Current(View(), coins, changes[j])
      {
        if !Current(View(), coins, changes[i]) {
          return false;
        }
      }
      ghost var before, reserved := View(), Reserved();
      ImportIsUnnoticed(before, changes, reserved);
      for i := 0 to |changes|
        invariant coins == Imported(old(coins), changes[..i]) && coins == Imported(old(coins), changes[..i])
      {
        assert changes[..i + 1][..i] == changes[..i];
        coins := Changed(coins, changes[i]);
      }
      assert changes[..|changes|] == changes;
      assert Reserved() == reserved;
      EditsKeepValid();
      ok := true;
    }

    method Discard()
      requires Valid()
      modifies this`draft
      ensures Valid() && draft.None?
    {
      draft := None;
    }

    /** Only a draft that still validates is broadcast; the balance falls by exactly what left the wallet. */
    method Broadcast(ready: bool, txid: string) returns (ok: bool)
      requires Valid() && draft.Some?
      modifies this`coins, this`draft, this`balance, this`nextId
      ensures Valid()
      ensures ok <==> ready
      ensures !ok ==> draft == old(draft) && coins == old(coins) && balance == old(balance)
      ensures ok ==> draft.None?
      ensures ok ==> balance == old(balance) - old(draft).value.fee - SentAway(old(draft).value)
      ensures ok ==> coins == SpentAll(old(coins), Ids(old(draft).value.inputs)) + Returned(old(draft).value, MadeId(old(nextId)), txid)
    {
      hide DraftOk, UniqueIds, Unused;
      var d := draft.value;
      if !ready {
        return false;
      }
      var valid := ValidateDraft(d);
      if !valid {
        return false;
      }
      ghost var before := View();
      SpendInputs(d);
      AmountsAccount(before, id, d);
      draft := None;
      SameIdsUnused(before.coins, coins, nextId);
      ghost var spent := coins;
      var back := Returned(d, MadeId(nextId), txid);
      if back != [] {
        Append(back[0]);
      }
      assert coins == spent + back;
      balance := Unspent(coins);
      ok := true;
    }

    method SpendInputs(d: Draft)
      requires UniqueIds(coins) && DraftOk(View(), id, d)
      modifies this`coins
      ensures UniqueIds(coins) && Unspent(coins) == Unspent(old(coins)) - Total(d.inputs)
      ensures coins == SpentAll(old(coins), Ids(d.inputs))
    {
      hide Spending, DraftOk, UniqueIds;
      SpendingBegins(View(), d);
      ghost var before := View();
      for i := 0 to |d.inputs|
        invariant Spending(before, coins, d, i)
      {
        SpendingStep(before, coins, id, d, i);
        coins := MarkSpent(coins, d.inputs[i].id);
      }
      SpendingEnds(before, coins, d);
    }

    method Append(coin: Coin)
      requires UniqueIds(coins) && coin.id == MadeId(nextId) && !coin.spent
      requires Unused(coins, nextId)
      modifies this`coins, this`nextId
      ensures UniqueIds(coins) && Unspent(coins) == Unspent(old(coins)) + coin.sats
      ensures nextId == old(nextId) + 1 && Unused(coins, nextId) && coins == old(coins) + [coin]
    {
      hide UniqueIds, Unused, Unspent, MadeId;
      UnspentGrows(coins, coin);
      AppendedIsUnique(coins, coin, nextId);
      coins := coins + [coin];
      nextId := nextId + 1;
    }
  }

  /** No coin carries an id that the counter has yet to give out. */
  ghost predicate Unused(coins: seq<Coin>, next: nat) {
    forall i, n: nat :: 0 <= i < |coins| && next <= n ==> coins[i].id != MadeId(n)
  }

  lemma AppendedIsUnique(coins: seq<Coin>, coin: Coin, next: nat)
    requires UniqueIds(coins) && Unused(coins, next) && coin.id == MadeId(next)
    ensures UniqueIds(coins + [coin]) && Unused(coins + [coin], next + 1)
  {
    hide MadeId;
    var longer := coins + [coin];
    forall i, n: nat | 0 <= i < |longer| && next + 1 <= n ensures longer[i].id != MadeId(n) {
      MadeIdsDiffer(next, n);
      assert i < |coins| ==> coins[i].id != MadeId(n);
    }
  }

  lemma SameIdsUnused(before: seq<Coin>, after: seq<Coin>, next: nat)
    requires Unused(before, next) && |after| == |before| && forall k :: 0 <= k < |before| ==> after[k].id == before[k].id
    ensures Unused(after, next)
  {
    hide MadeId;
    forall i, n: nat | 0 <= i < |after| && next <= n ensures after[i].id != MadeId(n) {
      assert before[i].id != MadeId(n);
    }
  }

  function SentAway(d: Draft): int {
    if d.mode.Send? then d.amount else 0
  }

  function FrozenOn(coins: seq<Coin>, id: string): seq<Coin> {
    seq(|coins|, k requires 0 <= k < |coins| => if coins[k].id == id then coins[k].(frozen := true) else coins[k])
  }

  function FrozenAll(coins: seq<Coin>, ids: seq<string>, reserved: set<string>): seq<Coin> {
    if ids == [] then coins
    else
      var before, last := FrozenAll(coins, ids[..|ids| - 1], reserved), ids[|ids| - 1];
      if last in reserved then before else FrozenOn(before, last)
  }

  lemma {:induction false} FreezingIsUnnoticed(after: seq<Coin>, coins: seq<Coin>, ids: seq<string>, reserved: set<string>)
    requires after == FrozenAll(coins, ids, reserved)
    ensures Unnoticed(coins, after, reserved)
    decreases |ids|
  {
    if ids != [] {
      FreezingIsUnnoticed(FrozenAll(coins, ids[..|ids| - 1], reserved), coins, ids[..|ids| - 1], reserved);
    }
  }

  function AllConfirmed(coins: seq<Coin>): seq<Coin> {
    seq(|coins|, k requires 0 <= k < |coins| => if coins[k].spent then coins[k] else coins[k].(confirmed := true))
  }

  function Asked(form: Form): Options {
    Options(form.amount, form.rate, form.max, form.mode)
  }

  function OwnAddress(wallet: string, index: nat): string {
    ChangePrefix(wallet) + Texts.Decimal(index)
  }

  function Destination(wallet: string, index: nat, form: Form): string {
    Planner.Trim(if form.mode.Consolidate? then OwnAddress(wallet, index) else form.to)
  }

  predicate NeedsAcknowledgment(form: Form, q: Quote) {
    form.mode.Consolidate? || q.mixed || q.remainder > 0
  }

  /** What happens without consent merges no coins, mixes no labels and gives nothing extra to the fee. */
  ghost predicate Consented(form: Form, q: Quote) {
    form.privacyAck || (form.mode.Send? && !q.mixed && q.remainder == 0)
  }

  lemma ConsentIsGiven(w: Wallet, form: Form, q: Quote)
    requires QuoteOk(w, q.inputs, Asked(form), q) && (NeedsAcknowledgment(form, q) ==> form.privacyAck)
    ensures Consented(form, q)
  {
    hide Mixed, VirtualBytes, Total;
  }

  /** The form passes every check, its plan exists, and what needs consent has it. */
  ghost predicate Startable(w: Wallet, wallet: string, index: nat, form: Form) {
    && ValidRecipient(Destination(wallet, index, form)) && LabelOk(form.tag)
    && (form.mode.Consolidate? ==> Planner.Trim(form.tag) != "")
    && exists q :: Planned(w, form.selected, Asked(form), q) && (NeedsAcknowledgment(form, q) ==> form.privacyAck)
  }

  lemma OnlyPlan(w: Wallet, selected: Option<seq<string>>, o: Options, q: Quote)
    requires Planned(w, selected, o, q)
    ensures forall other :: Planned(w, selected, o, other) ==> other == q
  {
    hide Planned;
    forall other | Planned(w, selected, o, other) ensures other == q {
      PlannedIsUnique(w, selected, o, q, other);
    }
  }

  /** The draft is the plan's own numbers, bound to its destination. */
  ghost predicate MadeFrom(d: Draft, wallet: string, next: nat, index: nat, form: Form, q: Quote) {
    d == DraftOf(wallet, "demo-payment-" + Texts.Decimal(next), q, Destination(wallet, index, form), Planner.Trim(form.tag),
                 if q.change != 0 then OwnAddress(wallet, index) else "")
  }

  lemma NextIdUnused(coins: seq<Coin>, next: nat)
    requires Unused(coins, next)
    ensures Unused(coins, next + 1)
  {
    hide MadeId;
  }

  function DraftOf(wallet: string, id: string, q: Quote, to: string, tag: string, changeAddress: string): Draft {
    var unbound := Draft(id, q.inputs, q.amount, q.fee, q.change, q.rate, q.mode, to, tag, changeAddress,
                         Binding("", "", Send, [], "", 0, 0, 0, "", 0));
    unbound.(binding := BindingOf(wallet, unbound))
  }

  /** The draft is what the form asked for, and its numbers account for every satoshi of its inputs. */
  ghost predicate Carries(d: Draft, form: Form) {
    && d.mode == form.mode && d.rate == form.rate
    && (form.mode.Send? && !form.max ==> d.amount == form.amount)
    && (form.selected.Some? ==> Ids(d.inputs) == form.selected.value)
    && Total(d.inputs) == d.amount + d.fee + d.change
  }

  lemma OwnAddressHolds(wallet: string, index: nat)
    ensures var own := ChangePrefix(wallet) + Texts.Decimal(index);
      Planner.Trim(own) == own && StartsWith(own, ChangePrefix(wallet))
  {
    hide Texts.Value;
    var own := ChangePrefix(wallet) + Texts.Decimal(index);
    assert own[0] == 'd';
    assert own[|own| - 1] == Texts.Decimal(index)[|Texts.Decimal(index)| - 1];
    assert Texts.IsDigit(own[|own| - 1]);
  }

  lemma QuoteModes(w: Wallet, o: Options, q: Quote)
    requires QuoteOk(w, q.inputs, o, q)
    ensures q.mode == o.mode && q.rate == o.rate && (o.mode.Consolidate? ==> q.change == 0)
    ensures (o.mode.Send? && !o.max ==> q.amount == o.amount) && Total(q.inputs) == q.amount + q.fee + q.change
  {
    hide Mixed, VirtualBytes, Total;
  }

  lemma CreatedIsOk(w: Wallet, wallet: string, form: Form, o: Options, q: Quote, d: Draft)
    requires UniqueIds(w.coins) && QuoteOk(w, q.inputs, o, q) && Planned(w, form.selected, o, q) && o == Asked(form)
    requires d == DraftOf(wallet, d.id, q, d.to, d.tag, d.changeAddress) && ValidRecipient(d.to)
    requires form.mode.Consolidate? ==> StartsWith(d.to, ChangePrefix(wallet))
    requires q.change != 0 ==> StartsWith(d.changeAddress, ChangePrefix(wallet))
    ensures DraftOk(w, wallet, d) && Carries(d, form)
  {
    PlannedIsSelection(w, form.selected, o, q);
    hide Mixed, VirtualBytes, Total, Selection, UniqueIds, InputsHold, Usable, Choice, SmallestFirst, Quoted;
    QuoteModes(w, o, q);
    RecheckAgrees(w, o, q, d);
    assert q.inputs != [];
    if form.selected.Some? {
      NamedHolds(w, form.selected.value, q.inputs);
      assert Ids(d.inputs) == form.selected.value;
    } else {
      SelectionHolds(w, q.inputs);
    }
    assert BindingOf(wallet, d) == BindingOf(wallet, d.(binding := Binding("", "", Send, [], "", 0, 0, 0, "", 0)));
  }

  lemma PlannedIsSelection(w: Wallet, selected: Option<seq<string>>, o: Options, q: Quote)
    requires Planned(w, selected, o, q)
    ensures selected.None? ==> Selection(w, q.inputs)
  {
    hide Covers, Quoted, Available, Choice;
    if selected.None? {
      if o.max || o.mode.Consolidate? {
        SortedAvailable(w);
      } else {
        ChoiceCanPay(w, o);
      }
    }
  }

  /** Validation ignores the draft's own reservation. */
  lemma ReservationIsNoObstacle(before: Wallet, after: Wallet, wallet: string, d: Draft)
    requires DraftOk(before, wallet, d) && after == before.(reserved := after.reserved)
    ensures DraftOk(after, wallet, d)
  {
    hide AddressesHold, BindingOf, AmountsHold;
    assert AmountsHold(after, d) by { SamePolicyHolds(before, after, d); }
  }

  function Relabelled(coins: seq<Coin>, ids: seq<string>, tag: string): seq<Coin> {
    seq(|coins|, k requires 0 <= k < |coins| => if coins[k].id in ids then coins[k].(tag := tag) else coins[k])
  }

  function Frozen(coins: seq<Coin>, id: string): seq<Coin> {
    seq(|coins|, k requires 0 <= k < |coins| => if coins[k].id == id then coins[k].(frozen := !coins[k].frozen) else coins[k])
  }

  /** The preview is still what the coin shows, and no reserved coin would change its freeze. */
  predicate Current(w: Wallet, coins: seq<Coin>, change: Change) {
    var target := Find(coins, change.id);
    && target.Some? && target.value.tag == change.before && target.value.frozen == change.beforeFrozen
    && (change.frozen != change.beforeFrozen ==> change.id !in w.reserved)
  }

  function Changed(coins: seq<Coin>, change: Change): seq<Coin> {
    seq(|coins|, k requires 0 <= k < |coins| =>
      if coins[k].id == change.id then coins[k].(tag := change.tag, frozen := change.frozen) else coins[k])
  }

  function Imported(coins: seq<Coin>, changes: seq<Change>): seq<Coin> {
    if changes == [] then coins else Changed(Imported(coins, changes[..|changes| - 1]), changes[|changes| - 1])
  }

  /** A reserved coin keeps the freeze its preview showed, whatever repeats the file holds. */
  lemma {:induction false} ImportIsUnnoticed(w: Wallet, changes: seq<Change>, reserved: set<string>)
    requires UniqueIds(w.coins) && w.reserved == reserved
    requires forall i :: 0 <= i < |changes| ==> Current(w, w.coins, changes[i])
    ensures Unnoticed(w.coins, Imported(w.coins, changes), reserved)
    ensures forall k :: 0 <= k < |w.coins| && w.coins[k].id in reserved ==>
      Imported(w.coins, changes)[k].frozen == w.coins[k].frozen
  {
    if changes != [] {
      var shorter, last := changes[..|changes| - 1], changes[|changes| - 1];
      ImportIsUnnoticed(w, shorter, reserved);
      assert Current(w, w.coins, last);
      forall k | 0 <= k < |w.coins| && w.coins[k].id == last.id ensures w.coins[k].frozen == last.beforeFrozen {
        FindIndex(w.coins, k);
      }
    }
  }

  /** Every coin that the payment spends is marked, and no other. */
  function SpentAll(coins: seq<Coin>, ids: seq<string>): seq<Coin> {
    seq(|coins|, k requires 0 <= k < |coins| => if coins[k].id in ids then coins[k].(spent := true) else coins[k])
  }

  lemma SpentOneMore(coins: seq<Coin>, ids: seq<string>, i: nat)
    requires i < |ids|
    ensures MarkSpent(SpentAll(coins, ids[..i]), ids[i]) == SpentAll(coins, ids[..i + 1])
  {
    assert ids[..i + 1] == ids[..i] + [ids[i]];
  }

  /** The first `i` inputs are spent; every other input is as it was. */
  ghost predicate Spending(before: Wallet, now: seq<Coin>, d: Draft, i: nat) {
    && i <= |d.inputs| && UniqueIds(now)
    && Unspent(now) == Unspent(before.coins) - Total(d.inputs[..i])
    && now == SpentAll(before.coins, Ids(d.inputs)[..i])
    && forall j :: i <= j < |d.inputs| ==> Find(now, d.inputs[j].id) == Find(before.coins, d.inputs[j].id)
  }

  lemma SpendingBegins(before: Wallet, d: Draft)
    requires UniqueIds(before.coins)
    ensures Spending(before, before.coins, d, 0)
  {
    assert SpentAll(before.coins, []) == before.coins;
  }

  lemma SpendingStep(before: Wallet, now: seq<Coin>, wallet: string, d: Draft, i: nat)
    requires DraftOk(before, wallet, d) && i < |d.inputs| && Spending(before, now, d, i)
    ensures Spending(before, MarkSpent(now, d.inputs[i].id), d, i + 1)
  {
    hide AmountsHold, AddressesHold, BindingOf, UniqueIds, Unspent, SpentAll, MarkSpent;
    var coin := d.inputs[i].id;
    assert Ids(d.inputs)[i] == coin;
    assert Find(now, coin).Some? && !Find(now, coin).value.spent && Find(now, coin).value.sats == d.inputs[i].sats;
    MarkSpentTotal(now, coin);
    MarkSpentUnique(now, coin);
    SpentOneMore(before.coins, Ids(d.inputs), i);
    assert d.inputs[..i + 1][..i] == d.inputs[..i];
    forall j | i < j < |d.inputs| ensures Find(MarkSpent(now, coin), d.inputs[j].id) == Find(before.coins, d.inputs[j].id) {
      assert Ids(d.inputs)[i] != Ids(d.inputs)[j];
      MarkSpentFinds(now, coin, d.inputs[j].id);
    }
  }

  lemma SpendingEnds(before: Wallet, now: seq<Coin>, d: Draft)
    requires Spending(before, now, d, |d.inputs|)
    ensures UniqueIds(now) && Unspent(now) == Unspent(before.coins) - Total(d.inputs)
    ensures now == SpentAll(before.coins, Ids(d.inputs))
  {
    hide UniqueIds, Unspent, SpentAll;
    assert d.inputs[..|d.inputs|] == d.inputs && Ids(d.inputs)[..|d.inputs|] == Ids(d.inputs);
  }

  /** What comes back to the wallet: the consolidated coin, or change, unconfirmed; or nothing. */
  function Returned(d: Draft, id: string, txid: string): seq<Coin>
    requires 0 <= d.amount && 0 <= d.change
  {
    if d.mode.Consolidate? then [Coin(id, txid, 0, d.amount, d.tag, false, false, false)]
    else if d.change != 0 then
      [Coin(id, txid, 1, d.change, Clip("Change · " + if d.tag == "" then "Payment" else d.tag), false, false, false)]
    else []
  }

  lemma MarkSpentUnique(coins: seq<Coin>, id: string)
    requires UniqueIds(coins)
    ensures UniqueIds(MarkSpent(coins, id))
  {
  }

  /** What a valid draft's numbers add up to. */
  lemma AmountsAccount(w: Wallet, wallet: string, d: Draft)
    requires DraftOk(w, wallet, d)
    ensures Total(d.inputs) == d.amount + d.fee + d.change && 0 <= d.amount && 0 <= d.change
    ensures d.mode.Consolidate? ==> d.change == 0
  {
    hide InputsHold, BindingOf, ValidRecipient, Mixed, Total, VirtualBytes;
    var q :| QuoteOk(w, d.inputs, Recheck(d), q) && q.fee == d.fee && q.change == d.change && q.amount == d.amount;
  }

  lemma MadeIdsDiffer(a: nat, b: nat)
    requires a != b
    ensures MadeId(a) != MadeId(b)
  {
    hide Texts.Decimal;
    assert MadeId(a)[2..] == Texts.Decimal(a) && MadeId(b)[2..] == Texts.Decimal(b);
    if Texts.Decimal(a) == Texts.Decimal(b) {
      Texts.DecimalInjective(a, b);
    }
  }

  function Clip(s: string): string {
    if |s| <= 255 then s else s[..255]
  }

  /** Ids given out by the wallet's own counter. */
  function MadeId(n: nat): string {
    "c-" + Texts.Decimal(n)
  }
}

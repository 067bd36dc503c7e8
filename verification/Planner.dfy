/**
 * Coin planning in whole satoshis: size and fee estimates, change, and the automatic
 * selection that prefers one coin, then one label, then a mixture.
 */
module Planner {
  import opened Wrappers
  import Texts

  const MAX_MONEY: int := 2_100_000_000_000_000
  const MIN_OUTPUT: int := 1000
  const MAX_INPUTS: nat := 100

  datatype Coin = Coin(
    id: string, txid: string, vout: nat, sats: nat, tag: string, spent: bool, frozen: bool, confirmed: bool)

  datatype Mode = Send | Consolidate
  datatype Options = Options(amount: int, rate: int, max: bool, mode: Mode)

  /** `required` is the number of signatures: two for the 2-of-3 policy. `collate` is the locale's order of ids. */
  datatype Wallet = Wallet(
    required: nat, imported: bool, coins: seq<Coin>, reserved: set<string>, collate: (string, string) -> bool)

  datatype Quote = Quote(
    inputs: seq<Coin>, inputTotal: int, amount: int, fee: int, change: int, remainder: int, vbytes: int, rate: int,
    mode: Mode, mixed: bool)

  datatype PlanError =
    | NotConnected | Duplicates | Unusable | BadRate | NoCoins | TooMany | OutOfRange | NeedTwo | AmountTooSmall
    | Short(shortfall: int, fee: int) | BelowFloor(shortfall: int, fee: int)

  // ---- Coins and labels ----

  predicate Usable(w: Wallet, c: Coin) {
    !w.imported && !c.spent && c.confirmed && !c.frozen && c.id !in w.reserved
  }

  function Filter(coins: seq<Coin>, keep: Coin -> bool): seq<Coin> {
    if coins == [] then []
    else (if keep(coins[0]) then [coins[0]] else []) + Filter(coins[1..], keep)
  }

  lemma {:induction false} FilterCounts(coins: seq<Coin>, keep: Coin -> bool, c: Coin)
    ensures multiset(Filter(coins, keep))[c] == if keep(c) then multiset(coins)[c] else 0
  {
    if coins != [] {
      assert coins == [coins[0]] + coins[1..];
      FilterCounts(coins[1..], keep, c);
    }
  }

  lemma {:induction false} FilterGrows(coins: seq<Coin>, keep: Coin -> bool, c: Coin)
    ensures Filter(coins + [c], keep) == Filter(coins, keep) + if keep(c) then [c] else []
  {
    if coins == [] {
      assert [] + [c] == [c] && [c][1..] == [];
    } else {
      FilterGrows(coins[1..], keep, c);
      assert (coins + [c])[1..] == coins[1..] + [c];
    }
  }

  lemma {:induction false} FilterMembers(coins: seq<Coin>, keep: Coin -> bool)
    ensures forall c :: c in Filter(coins, keep) <==> c in coins && keep(c)
  {
    if coins != [] {
      FilterMembers(coins[1..], keep);
      assert forall c :: c in coins <==> c == coins[0] || c in coins[1..];
    }
  }

  function Available(w: Wallet): seq<Coin> {
    Filter(w.coins, c => Usable(w, c))
  }

  function Total(coins: seq<Coin>): nat {
    if coins == [] then 0 else Total(coins[..|coins| - 1]) + coins[|coins| - 1].sats
  }

  predicate IsSpace(c: char) {
    || '\t' <= c <= '\r' || c == ' ' || c == '\U{a0}' || c == '\U{1680}' || '\U{2000}' <= c <= '\U{200a}'
    || c == '\U{2028}' || c == '\U{2029}' || c == '\U{202f}' || c == '\U{205f}' || c == '\U{3000}' || c == '\U{feff}'
  }

  function Trim(s: string): string {
    Texts.Trim(s, IsSpace)
  }

  /** The grouping key of a coin; a label that spells another coin's placeholder collides with it. */
  function GroupKey(c: Coin): string {
    if Trim(c.tag) != "" then Trim(c.tag) else "unlabeled:" + c.id
  }

  predicate Mixed(coins: seq<Coin>) {
    && |coins| > 1
    && (|| (exists i | 0 <= i < |coins| :: Trim(coins[i].tag) == "")
        || (exists i, j | 0 <= i < j < |coins| :: GroupKey(coins[i]) != GroupKey(coins[j])))
  }

  // ---- Estimates ----

  /** Virtual bytes, computed in quarters: 10.5 of overhead, 68.25 or 105 per input, whole-byte outputs. */
  function VirtualBytes(w: Wallet, count: nat, change: bool, consolidate: bool): int {
    var own := if w.required == 2 then 43 else 31;
    var quarters := 42 + (if w.required == 2 then 420 else 273) * count
      + 4 * (if consolidate then own else 31) + 4 * (if change then own else 0);
    (quarters + 3) / 4
  }

  predicate ValidRate(rate: int) {
    1 <= rate <= 1000
  }

  predicate InRange(sats: int) {
    0 <= sats <= MAX_MONEY
  }

  function MinimumFee(w: Wallet, count: nat, o: Options): int {
    VirtualBytes(w, count, false, o.mode.Consolidate?) * o.rate
  }

  function ChangeFee(w: Wallet, count: nat, o: Options): int {
    VirtualBytes(w, count, true, false) * o.rate
  }

  /** Everything a quote must satisfy, said without the order in which it is computed. */
  ghost predicate QuoteOk(w: Wallet, coins: seq<Coin>, o: Options, q: Quote) {
    var least := MinimumFee(w, |coins|, o);
    && q.inputs == coins && q.inputTotal == Total(coins) && q.rate == o.rate && q.mode == o.mode && q.mixed == Mixed(coins)
    && q.inputTotal == q.amount + q.fee + q.change && q.fee == least + q.remainder + ExtraForChange(w, |coins|, o, q)
    && MIN_OUTPUT <= q.amount <= MAX_MONEY && 0 <= q.remainder
    && (q.change == 0 || (q.change >= MIN_OUTPUT && q.remainder == 0))
    && q.vbytes == VirtualBytes(w, |coins|, q.change != 0, o.mode.Consolidate?)
    && (o.max || o.mode.Consolidate? ==> q.change == 0 && q.remainder == 0)
    && (!o.max && o.mode.Send? ==> q.amount == o.amount)
    && (!o.max && o.mode.Send? ==> (q.change != 0 <==> Total(coins) - o.amount - ChangeFee(w, |coins|, o) >= MIN_OUTPUT))
  }

  function ExtraForChange(w: Wallet, count: nat, o: Options, q: Quote): int {
    if q.change == 0 then 0 else ChangeFee(w, count, o) - MinimumFee(w, count, o)
  }

  /** When an estimate succeeds: never about which coins, only how many and how much. */
  predicate Covers(w: Wallet, count: nat, total: int, o: Options) {
    && ValidRate(o.rate) && 1 <= count <= MAX_INPUTS && InRange(total)
    && (o.mode.Consolidate? ==> count >= 2)
    && (if o.max || o.mode.Consolidate? then total - MinimumFee(w, count, o) >= MIN_OUTPUT
        else MIN_OUTPUT <= o.amount <= MAX_MONEY && total >= o.amount + MinimumFee(w, count, o))
  }

  /** The one quote that satisfies that, as a value. */
  function Quoted(w: Wallet, coins: seq<Coin>, o: Options): Quote {
    var total, least := Total(coins), MinimumFee(w, |coins|, o);
    var size := VirtualBytes(w, |coins|, false, o.mode.Consolidate?);
    if o.max || o.mode.Consolidate? then
      Quote(coins, total, total - least, least, 0, 0, size, o.rate, o.mode, Mixed(coins))
    else if total - o.amount - ChangeFee(w, |coins|, o) >= MIN_OUTPUT then
      var fee := ChangeFee(w, |coins|, o);
      Quote(coins, total, o.amount, fee, total - o.amount - fee, 0, VirtualBytes(w, |coins|, true, false), o.rate, o.mode,
            Mixed(coins))
    else Quote(coins, total, o.amount, total - o.amount, 0, total - o.amount - least, size, o.rate, o.mode, Mixed(coins))
  }

  lemma QuotedIsOk(w: Wallet, coins: seq<Coin>, o: Options)
    requires Covers(w, |coins|, Total(coins), o)
    ensures QuoteOk(w, coins, o, Quoted(w, coins, o))
  {
    FeesArePositive(w, |coins|, o);
    hide Total, Mixed, VirtualBytes;
  }

  lemma QuotesAgree(w: Wallet, coins: seq<Coin>, o: Options, a: Quote, b: Quote)
    requires QuoteOk(w, coins, o, a) && QuoteOk(w, coins, o, b)
    ensures a == b
  {
    hide Total, Mixed, VirtualBytes;
  }

  method Estimate(w: Wallet, coins: seq<Coin>, o: Options) returns (r: Result<Quote, PlanError>)
    ensures r.Ok? <==> Covers(w, |coins|, Total(coins), o)
    ensures r.Ok? ==> QuoteOk(w, coins, o, r.value) && r.value == Quoted(w, coins, o)
    ensures r.Err? && r.error.Short? ==> r.error.shortfall > 0 && r.error.fee == MinimumFee(w, |coins|, o)
    ensures r.Err? && r.error.Short? ==> Total(coins) + r.error.shortfall == o.amount + r.error.fee
  {
    var inputTotal := Total(coins);
    var consolidate := o.mode.Consolidate?;
    if !ValidRate(o.rate) {
      return Err(BadRate);
    }
    if coins == [] {
      return Err(NoCoins);
    }
    if |coins| > MAX_INPUTS {
      return Err(TooMany);
    }
    if !InRange(inputTotal) {
      return Err(OutOfRange);
    }
    if consolidate && |coins| < 2 {
      return Err(NeedTwo);
    }
    var size := VirtualBytes(w, |coins|, false, consolidate);
    var minimumFee := size * o.rate;
    var amount, fee, change, remainder := o.amount, minimumFee, 0, 0;
    FeesArePositive(w, |coins|, o);
    if o.max || consolidate {
      amount := inputTotal - fee;
    } else {
      if !InRange(amount) || amount < MIN_OUTPUT {
        return Err(AmountTooSmall);
      }
      var changeSize := VirtualBytes(w, |coins|, true, false);
      var changeFee := changeSize * o.rate;
      if inputTotal - amount - changeFee >= MIN_OUTPUT {
        size, fee := changeSize, changeFee;
        change := inputTotal - amount - fee;
      } else if inputTotal - amount >= minimumFee {
        fee := inputTotal - amount;
        remainder := fee - minimumFee;
      } else {
        return Err(Short(amount + minimumFee - inputTotal, minimumFee));
      }
    }
    if !InRange(amount) || amount < MIN_OUTPUT {
      return Err(BelowFloor(MIN_OUTPUT - amount, fee));
    }
    r := Ok(Quote(coins, inputTotal, amount, fee, change, remainder, size, o.rate, o.mode, Mixed(coins)));
  }

  lemma FeesArePositive(w: Wallet, count: nat, o: Options)
    requires ValidRate(o.rate)
    ensures 0 < VirtualBytes(w, count, false, o.mode.Consolidate?)
    ensures 0 < MinimumFee(w, count, o)
    ensures o.mode.Send? ==> MinimumFee(w, count, o) < ChangeFee(w, count, o)
  {
    var least, more := VirtualBytes(w, count, false, o.mode.Consolidate?), VirtualBytes(w, count, true, false);
    assert 0 < least && (o.mode.Send? ==> least < more);
    hide VirtualBytes;
    ScaledUp(0, least, o.rate);
    if o.mode.Send? {
      ScaledUp(least, more, o.rate);
    }
  }

  lemma ScaledUp(a: int, b: int, rate: int)
    requires a < b && rate > 0
    ensures a * rate < b * rate
  {
    assert (b - a) * rate > 0;
  }

  // ---- Sorting and domination ----

  ghost predicate Descending(coins: seq<Coin>) {
    forall i, j :: 0 <= i < j < |coins| ==> coins[i].sats >= coins[j].sats
  }

  /** By value in the given direction, and by id among equals. */
  predicate Precedes(a: Coin, b: Coin, down: bool, collate: (string, string) -> bool) {
    if a.sats == b.sats then collate(a.id, b.id) else if down then a.sats > b.sats else a.sats < b.sats
  }

  ghost predicate IsCollation(collate: (string, string) -> bool) {
    && (forall a, b :: collate(a, b) || collate(b, a))
    && (forall a, b, c :: collate(a, b) && collate(b, c) ==> collate(a, c))
  }

  ghost predicate Ordered(coins: seq<Coin>, down: bool, collate: (string, string) -> bool) {
    forall i, j :: 0 <= i < j < |coins| ==> Precedes(coins[i], coins[j], down, collate)
  }

  /** Ordered by value alone, whatever the ids. */
  ghost predicate ByValue(coins: seq<Coin>, down: bool) {
    forall i, j :: 0 <= i < j < |coins| ==> if down then coins[i].sats >= coins[j].sats else coins[i].sats <= coins[j].sats
  }

  function InsertCoin(c: Coin, sorted: seq<Coin>, down: bool, collate: (string, string) -> bool): seq<Coin> {
    if sorted == [] || Precedes(c, sorted[0], down, collate) then [c] + sorted
    else [sorted[0]] + InsertCoin(c, sorted[1..], down, collate)
  }

  function Sorted(coins: seq<Coin>, down: bool, collate: (string, string) -> bool): seq<Coin> {
    if coins == [] then [] else InsertCoin(coins[0], Sorted(coins[1..], down, collate), down, collate)
  }

  function LargestFirst(w: Wallet, coins: seq<Coin>): seq<Coin> {
    Sorted(coins, true, w.collate)
  }

  function SmallestFirst(w: Wallet, coins: seq<Coin>): seq<Coin> {
    Sorted(coins, false, w.collate)
  }

  lemma {:induction false} InsertCoinKeeps(c: Coin, sorted: seq<Coin>, down: bool, collate: (string, string) -> bool)
    ensures multiset(InsertCoin(c, sorted, down, collate)) == multiset(sorted) + multiset{c}
    ensures forall d :: d in InsertCoin(c, sorted, down, collate) ==> d == c || d in sorted
  {
    if sorted != [] && !Precedes(c, sorted[0], down, collate) {
      InsertCoinKeeps(c, sorted[1..], down, collate);
      assert sorted == [sorted[0]] + sorted[1..];
    }
  }

  lemma {:induction false} InsertByValue(c: Coin, sorted: seq<Coin>, down: bool, collate: (string, string) -> bool)
    requires ByValue(sorted, down)
    ensures ByValue(InsertCoin(c, sorted, down, collate), down)
  {
    if sorted != [] && !Precedes(c, sorted[0], down, collate) {
      InsertByValue(c, sorted[1..], down, collate);
      InsertCoinKeeps(c, sorted[1..], down, collate);
      var rest := InsertCoin(c, sorted[1..], down, collate);
      assert forall j :: 0 <= j < |rest| ==> rest[j] in rest;
    }
  }

  lemma {:induction false} InsertOrdered(c: Coin, sorted: seq<Coin>, down: bool, collate: (string, string) -> bool)
    requires IsCollation(collate) && Ordered(sorted, down, collate)
    ensures Ordered(InsertCoin(c, sorted, down, collate), down, collate)
  {
    if sorted != [] && !Precedes(c, sorted[0], down, collate) {
      InsertOrdered(c, sorted[1..], down, collate);
      InsertCoinKeeps(c, sorted[1..], down, collate);
      var rest := InsertCoin(c, sorted[1..], down, collate);
      forall j | 0 <= j < |rest| ensures Precedes(sorted[0], rest[j], down, collate) {
        assert rest[j] in rest;
      }
    } else {
      forall j | 0 <= j < |sorted| ensures Precedes(c, sorted[j], down, collate) {
        FirstPrecedes(c, sorted, sorted[j], down, collate);
      }
    }
  }

  lemma {:induction false} SortedSorts(coins: seq<Coin>, down: bool, collate: (string, string) -> bool)
    ensures ByValue(Sorted(coins, down, collate), down) && multiset(Sorted(coins, down, collate)) == multiset(coins)
    ensures IsCollation(collate) ==> Ordered(Sorted(coins, down, collate), down, collate)
  {
    hide IsCollation, Ordered, ByValue;
    if coins != [] {
      SortedSorts(coins[1..], down, collate);
      InsertByValue(coins[0], Sorted(coins[1..], down, collate), down, collate);
      InsertCoinKeeps(coins[0], Sorted(coins[1..], down, collate), down, collate);
      if IsCollation(collate) {
        InsertOrdered(coins[0], Sorted(coins[1..], down, collate), down, collate);
      }
      assert coins == [coins[0]] + coins[1..];
    } else {
      assert ByValue([], down) && Ordered([], down, collate) by { EmptyIsOrdered(down, collate); }
    }
  }

  lemma EmptyIsOrdered(down: bool, collate: (string, string) -> bool)
    ensures ByValue([], down) && Ordered([], down, collate)
  {
  }

  lemma LargestFirstSorts(w: Wallet, coins: seq<Coin>)
    ensures Descending(LargestFirst(w, coins)) && multiset(LargestFirst(w, coins)) == multiset(coins)
  {
    SortedSorts(coins, true, w.collate);
  }

  lemma FilterFirst(c: Coin, coins: seq<Coin>, keep: Coin -> bool)
    ensures Filter([c] + coins, keep) == (if keep(c) then [c] else []) + Filter(coins, keep)
  {
    assert ([c] + coins)[1..] == coins;
  }

  /** Inserting and then filtering is filtering and then inserting. */
  lemma {:induction false} InsertFilters(c: Coin, sorted: seq<Coin>, keep: Coin -> bool, down: bool, collate: (string, string) -> bool)
    requires IsCollation(collate) && Ordered(sorted, down, collate)
    ensures Filter(InsertCoin(c, sorted, down, collate), keep)
      == if keep(c) then InsertCoin(c, Filter(sorted, keep), down, collate) else Filter(sorted, keep)
  {
    hide IsCollation, Ordered, Precedes;
    if sorted == [] || Precedes(c, sorted[0], down, collate) {
      FilterFirst(c, sorted, keep);
      InsertsFirst(c, sorted, keep, down, collate);
    } else {
      TailOrdered(sorted, down, collate);
      InsertFilters(c, sorted[1..], keep, down, collate);
      var rest, kept := InsertCoin(c, sorted[1..], down, collate), Filter(sorted[1..], keep);
      FilterFirst(sorted[0], rest, keep);
      FilterFirst(sorted[0], sorted[1..], keep);
      assert sorted == [sorted[0]] + sorted[1..];
      assert InsertCoin(c, sorted, down, collate) == [sorted[0]] + rest;
      if keep(sorted[0]) {
        assert Filter(sorted, keep) == [sorted[0]] + kept && ([sorted[0]] + kept)[1..] == kept;
        assert InsertCoin(c, [sorted[0]] + kept, down, collate) == [sorted[0]] + InsertCoin(c, kept, down, collate);
      } else {
        assert Filter(sorted, keep) == kept && Filter([sorted[0]] + rest, keep) == Filter(rest, keep);
      }
    }
  }

  lemma TailOrdered(sorted: seq<Coin>, down: bool, collate: (string, string) -> bool)
    requires Ordered(sorted, down, collate) && sorted != []
    ensures Ordered(sorted[1..], down, collate)
  {
  }

  /** What goes before the whole goes before any part of it. */
  lemma InsertsFirst(c: Coin, sorted: seq<Coin>, keep: Coin -> bool, down: bool, collate: (string, string) -> bool)
    requires IsCollation(collate) && Ordered(sorted, down, collate) && (sorted == [] || Precedes(c, sorted[0], down, collate))
    ensures InsertCoin(c, Filter(sorted, keep), down, collate) == [c] + Filter(sorted, keep)
  {
    var kept := Filter(sorted, keep);
    FilterMembers(sorted, keep);
    hide Filter;
    if kept != [] {
      assert kept[0] in kept;
      FirstPrecedes(c, sorted, kept[0], down, collate);
    }
  }

  lemma FirstPrecedes(c: Coin, sorted: seq<Coin>, d: Coin, down: bool, collate: (string, string) -> bool)
    requires IsCollation(collate) && Ordered(sorted, down, collate) && d in sorted && Precedes(c, sorted[0], down, collate)
    ensures Precedes(c, d, down, collate)
  {
    var k :| 0 <= k < |sorted| && sorted[k] == d;
    assert k > 0 ==> Precedes(sorted[0], sorted[k], down, collate);
  }

  lemma SortFirst(c: Coin, coins: seq<Coin>, down: bool, collate: (string, string) -> bool)
    ensures Sorted([c] + coins, down, collate) == InsertCoin(c, Sorted(coins, down, collate), down, collate)
  {
    assert ([c] + coins)[1..] == coins;
  }

  /** A group in its own order is the whole order restricted to the group. */
  lemma {:induction false} SortFilters(coins: seq<Coin>, keep: Coin -> bool, down: bool, collate: (string, string) -> bool)
    requires IsCollation(collate)
    ensures Sorted(Filter(coins, keep), down, collate) == Filter(Sorted(coins, down, collate), keep)
  {
    hide IsCollation, Ordered, ByValue, InsertCoin;
    if coins != [] {
      var first, rest := coins[0], coins[1..];
      SortFilters(rest, keep, down, collate);
      SortedSorts(rest, down, collate);
      InsertFilters(first, Sorted(rest, down, collate), keep, down, collate);
      var kept := Filter(rest, keep);
      SortFirst(first, kept, down, collate);
      assert Filter(coins, keep) == if keep(first) then [first] + kept else kept;
    }
  }

  function Without(coins: seq<Coin>, i: nat): seq<Coin>
    requires i < |coins|
  {
    coins[..i] + coins[i + 1..]
  }

  lemma WithoutCounts(coins: seq<Coin>, i: nat)
    requires i < |coins|
    ensures multiset(Without(coins, i)) == multiset(coins) - multiset{coins[i]}
  {
    assert coins == coins[..i] + [coins[i]] + coins[i + 1..];
  }

  lemma {:induction false} TotalSplit(coins: seq<Coin>, i: nat)
    requires i < |coins|
    ensures Total(coins) == coins[i].sats + Total(Without(coins, i))
  {
    var n := |coins| - 1;
    if i == n {
      assert Without(coins, i) == coins[..n];
    } else {
      TotalSplit(coins[..n], i);
      assert Without(coins[..n], i) == Without(coins, i)[..n - 1];
    }
  }

  /** The largest-first prefix outweighs every selection of the same size. */
  lemma {:induction false} PrefixDominates(chosen: seq<Coin>, sorted: seq<Coin>)
    requires Descending(sorted) && multiset(chosen) <= multiset(sorted)
    ensures |chosen| <= |sorted| && Total(chosen) <= Total(sorted[..|chosen|])
    decreases |sorted|
  {
    hide Total, Descending, Without;
    if chosen != [] {
      var i := Exchanged(chosen, sorted);
      TotalSplit(chosen, i);
      assert Descending(sorted[1..]) && |Without(chosen, i)| == |chosen| - 1 by { Shorter(chosen, sorted, i); }
      PrefixDominates(Without(chosen, i), sorted[1..]);
      PrefixTotal(sorted, |chosen|);
    }
  }

  lemma Shorter(chosen: seq<Coin>, sorted: seq<Coin>, i: nat)
    requires Descending(sorted) && sorted != [] && i < |chosen|
    ensures Descending(sorted[1..]) && |Without(chosen, i)| == |chosen| - 1
  {
  }

  /** The member to trade for the largest coin: that coin itself, or any other. */
  lemma Exchanged(chosen: seq<Coin>, sorted: seq<Coin>) returns (i: nat)
    requires Descending(sorted) && chosen != [] && multiset(chosen) <= multiset(sorted)
    ensures i < |chosen| && sorted != [] && chosen[i].sats <= sorted[0].sats
    ensures multiset(Without(chosen, i)) <= multiset(sorted[1..])
  {
    assert chosen[0] in multiset(chosen) && chosen[0] in multiset(sorted);
    if sorted[0] in chosen {
      i :| 0 <= i < |chosen| && chosen[i] == sorted[0];
    } else {
      i := 0;
    }
    LargestBounds(sorted, chosen[i]);
    RemovalFits(chosen, sorted, i);
  }

  lemma LargestBounds(sorted: seq<Coin>, c: Coin)
    requires Descending(sorted) && sorted != [] && (c in multiset(sorted) || c == sorted[0])
    ensures c.sats <= sorted[0].sats
  {
    var k :| 0 <= k < |sorted| && sorted[k] == c;
  }

  lemma RemovalFits(chosen: seq<Coin>, sorted: seq<Coin>, i: nat)
    requires i < |chosen| && sorted != [] && multiset(chosen) <= multiset(sorted)
    requires chosen[i] == sorted[0] || sorted[0] !in chosen
    ensures multiset(Without(chosen, i)) <= multiset(sorted[1..])
  {
    hide Without;
    WithoutCounts(chosen, i);
    assert sorted == [sorted[0]] + sorted[1..];
    var fewer := multiset(Without(chosen, i));
    forall c ensures fewer[c] <= multiset(sorted[1..])[c] {
      assert multiset(chosen)[c] <= multiset(sorted)[c];
      if sorted[0] !in chosen {
        assert multiset(chosen)[sorted[0]] == 0;
      }
    }
  }

  lemma {:induction false} PrefixTotal(coins: seq<Coin>, n: nat)
    requires 0 < n <= |coins|
    ensures Total(coins[..n]) == coins[0].sats + Total(coins[1..][..n - 1])
  {
    TotalSplit(coins[..n], 0);
    assert Without(coins[..n], 0) == coins[1..][..n - 1];
  }

  lemma {:induction false} TotalMonotone(coins: seq<Coin>, n: nat)
    requires n <= |coins|
    ensures Total(coins[..n]) <= Total(coins)
    decreases |coins|
  {
    if n < |coins| {
      TotalMonotone(coins[..|coins| - 1], n);
      assert coins[..|coins| - 1][..n] == coins[..n];
    } else {
      assert coins[..n] == coins;
    }
  }

  /** A multiset of coins has one total, in whatever order. */
  lemma {:induction false} TotalOfSubset(part: seq<Coin>, whole: seq<Coin>)
    requires multiset(part) <= multiset(whole)
    ensures Total(part) <= Total(whole)
    decreases |part|
  {
    if part != [] {
      assert part[0] in multiset(part) && part[0] in multiset(whole);
      var k :| 0 <= k < |whole| && whole[k] == part[0];
      TotalSplit(part, 0);
      TotalSplit(whole, k);
      WithoutCounts(part, 0);
      WithoutCounts(whole, k);
      TotalOfSubset(Without(part, 0), Without(whole, k));
    }
  }

  function Find(coins: seq<Coin>, id: string): (r: Option<Coin>)
    ensures r.Some? ==> r.value in coins && r.value.id == id
    ensures r.None? ==> forall i :: 0 <= i < |coins| ==> coins[i].id != id
  {
    if coins == [] then None
    else if coins[0].id == id then Some(coins[0])
    else Find(coins[1..], id)
  }
}

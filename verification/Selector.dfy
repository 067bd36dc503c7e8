/**
 * Choosing coins: a user's selection as it is, or an automatic one that prefers one coin,
 * then one label, then a mixture. The automatic choice is a function; its methods compute it.
 */
module Selector {
  import opened Wrappers
  import opened Planner

  ghost predicate Selection(w: Wallet, coins: seq<Coin>) {
    multiset(coins) <= multiset(Available(w))
  }

  ghost predicate CanPay(w: Wallet, coins: seq<Coin>, o: Options) {
    Selection(w, coins) && Covers(w, |coins|, Total(coins), o)
  }

  function OfGroup(coins: seq<Coin>, key: string): seq<Coin> {
    Filter(coins, c => GroupKey(c) == key)
  }

  // ---- The automatic choice, as a function ----

  /** The first single coin, in the given order, that pays. */
  function FirstSingle(w: Wallet, coins: seq<Coin>, o: Options): (r: Option<Coin>)
    ensures r.Some? ==> r.value in coins && Covers(w, 1, r.value.sats, o)
    ensures r.None? ==> forall c :: c in coins ==> !Covers(w, 1, c.sats, o)
  {
    if coins == [] then None
    else if Covers(w, 1, coins[0].sats, o) then Some(coins[0])
    else FirstSingle(w, coins[1..], o)
  }

  /** The length, at least `k`, of the shortest prefix that pays. */
  function FirstLength(w: Wallet, sorted: seq<Coin>, o: Options, k: nat): (r: Option<nat>)
    ensures r.Some? ==> k <= r.value <= |sorted| && Covers(w, r.value, Total(sorted[..r.value]), o)
    ensures r.Some? ==> forall j :: k <= j < r.value ==> !Covers(w, j, Total(sorted[..j]), o)
    ensures r.None? ==> forall j :: k <= j <= |sorted| ==> !Covers(w, j, Total(sorted[..j]), o)
    decreases |sorted| + 1 - k
  {
    if k > |sorted| then None
    else if Covers(w, k, Total(sorted[..k]), o) then Some(k)
    else FirstLength(w, sorted, o, k + 1)
  }

  /** The quote of the shortest prefix that pays. */
  function Candidate(w: Wallet, sorted: seq<Coin>, o: Options): Option<Quote> {
    match FirstLength(w, sorted, o, 1)
    case None => None
    case Some(k) => Some(Quoted(w, sorted[..k], o))
  }

  /** Group keys in order of first appearance. */
  function KeysOf(coins: seq<Coin>): (keys: seq<string>)
    ensures forall i :: 0 <= i < |coins| ==> GroupKey(coins[i]) in keys
    ensures forall key :: key in keys ==> exists i :: 0 <= i < |coins| && GroupKey(coins[i]) == key
  {
    if coins == [] then []
    else
      var keys, last := KeysOf(coins[..|coins| - 1]), coins[|coins| - 1];
      assert coins == coins[..|coins| - 1] + [last];
      if GroupKey(last) in keys then keys else keys + [GroupKey(last)]
  }

  /** Each group largest first, and last the whole. */
  function Orders(w: Wallet, coins: seq<Coin>): seq<seq<Coin>> {
    var keys := KeysOf(coins);
    seq(|keys|, i requires 0 <= i < |keys| => LargestFirst(w, OfGroup(coins, keys[i]))) + [LargestFirst(w, coins)]
  }

  function Candidates(w: Wallet, orders: seq<seq<Coin>>, o: Options): (r: seq<Quote>)
    ensures forall q :: q in r <==> exists i :: 0 <= i < |orders| && Candidate(w, orders[i], o) == Some(q)
  {
    if orders == [] then []
    else
      var n := |orders| - 1;
      assert orders == orders[..n] + [orders[n]];
      match Candidate(w, orders[n], o)
      case None => Candidates(w, orders[..n], o)
      case Some(q) => Candidates(w, orders[..n], o) + [q]
  }

  /** Candidates compare by mixture, then by number of inputs, then by total. */
  predicate Better(a: Quote, b: Quote) {
    || (!a.mixed && b.mixed)
    || (a.mixed == b.mixed && (|a.inputs| < |b.inputs| || (|a.inputs| == |b.inputs| && a.inputTotal < b.inputTotal)))
  }

  /** The first of the best. */
  function Best(candidates: seq<Quote>): (best: Quote)
    requires candidates != []
    ensures best in candidates && forall i :: 0 <= i < |candidates| ==> !Better(candidates[i], best)
  {
    var last := candidates[|candidates| - 1];
    if |candidates| == 1 then last
    else
      var before := Best(candidates[..|candidates| - 1]);
      if Better(last, before) then last else before
  }

  function Choice(w: Wallet, o: Options): Option<Quote> {
    var coins := SmallestFirst(w, Available(w));
    match FirstSingle(w, coins, o)
    case Some(c) => Some(Quoted(w, [c], o))
    case None =>
      var candidates := Candidates(w, Orders(w, coins), o);
      if candidates == [] then None else Some(Best(candidates))
  }

  // ---- The loops that compute it ----

  method FirstPrefix(w: Wallet, sorted: seq<Coin>, o: Options) returns (r: Option<Quote>)
    ensures r == Candidate(w, sorted, o)
  {
    hide Covers, Quoted, QuoteOk;
    for k := 0 to |sorted|
      invariant FirstLength(w, sorted, o, 1) == FirstLength(w, sorted, o, k + 1)
    {
      var p := Estimate(w, sorted[..k + 1], o);
      if p.Ok? {
        return Some(p.value);
      }
    }
    r := None;
  }

  /** Each coin is pushed onto its key's group; a new key opens one. */
  method GroupCoins(coins: seq<Coin>) returns (keys: seq<string>, groups: map<string, seq<Coin>>)
    ensures keys == KeysOf(coins)
    ensures forall key :: key in keys ==> key in groups && groups[key] == OfGroup(coins, key)
  {
    hide GroupKey;
    keys, groups := [], map[];
    for k := 0 to |coins|
      invariant keys == KeysOf(coins[..k])
      invariant forall key :: key in groups <==> key in keys
      invariant forall key :: key in keys ==> groups[key] == OfGroup(coins[..k], key)
    {
      var c, key := coins[k], GroupKey(coins[k]);
      assert coins[..k + 1] == coins[..k] + [c] && coins[..k + 1][..k] == coins[..k];
      forall other ensures OfGroup(coins[..k + 1], other) == OfGroup(coins[..k], other) + if other == key then [c] else [] {
        FilterGrows(coins[..k], d => GroupKey(d) == other, c);
      }
      if key !in groups {
        NewGroupIsEmpty(coins[..k], key);
        keys, groups := keys + [key], groups[key := []];
      }
      groups := groups[key := groups[key] + [c]];
    }
    assert coins[..|coins|] == coins;
  }

  lemma {:induction false} NewGroupIsEmpty(coins: seq<Coin>, key: string)
    requires forall i :: 0 <= i < |coins| ==> GroupKey(coins[i]) != key
    ensures OfGroup(coins, key) == []
  {
    hide GroupKey;
    if coins != [] {
      NewGroupIsEmpty(coins[1..], key);
    }
  }

  method Pick(candidates: seq<Quote>) returns (best: Quote)
    requires candidates != []
    ensures best == Best(candidates)
  {
    best := candidates[0];
    assert candidates[..1][0] == candidates[0];
    for k := 1 to |candidates|
      invariant best == Best(candidates[..k])
    {
      assert candidates[..k + 1][..k] == candidates[..k];
      if Better(candidates[k], best) {
        best := candidates[k];
      }
    }
    assert candidates[..|candidates|] == candidates;
  }

  method Compete(w: Wallet, coins: seq<Coin>, o: Options) returns (candidates: seq<Quote>)
    ensures candidates == Candidates(w, Orders(w, coins), o)
  {
    hide Candidate, LargestFirst, OfGroup, Candidates, Orders, KeysOf;
    var keys, groups := GroupCoins(coins);
    ghost var orders := Orders(w, coins);
    OrdersAre(w, coins);
    candidates := [];
    NoCandidates(w, o);
    for k := 0 to |keys| + 1
      invariant candidates == Candidates(w, orders[..k], o)
    {
      var order := LargestFirst(w, if k < |keys| then groups[keys[k]] else coins);
      var p := FirstPrefix(w, order, o);
      CandidatesGrow(w, orders, o, k);
      if p.Some? {
        candidates := candidates + [p.value];
      }
    }
    assert orders[..|keys| + 1] == orders;
  }

  lemma OrdersAre(w: Wallet, coins: seq<Coin>)
    ensures var keys, orders := KeysOf(coins), Orders(w, coins);
      && |orders| == |keys| + 1 && orders[|keys|] == LargestFirst(w, coins)
      && forall k :: 0 <= k < |keys| ==> orders[k] == LargestFirst(w, OfGroup(coins, keys[k]))
  {
    hide LargestFirst, OfGroup, KeysOf;
  }

  lemma NoCandidates(w: Wallet, o: Options)
    ensures Candidates(w, [], o) == []
  {
  }

  lemma CandidatesGrow(w: Wallet, orders: seq<seq<Coin>>, o: Options, k: nat)
    requires k < |orders|
    ensures Candidates(w, orders[..k + 1], o) == Candidates(w, orders[..k], o) +
      match Candidate(w, orders[k], o) case None => [] case Some(q) => [q]
  {
    hide Candidate;
    assert orders[..k + 1][..k] == orders[..k];
  }

  method SingleCoin(w: Wallet, coins: seq<Coin>, o: Options) returns (r: Option<Quote>)
    ensures r == match FirstSingle(w, coins, o) case None => None case Some(c) => Some(Quoted(w, [c], o))
  {
    hide Covers, QuoteOk, Quoted;
    for k := 0 to |coins|
      invariant FirstSingle(w, coins, o) == FirstSingle(w, coins[k..], o)
    {
      OneCoin(coins[k]);
      assert coins[k..][0] == coins[k] && coins[k..][1..] == coins[k + 1..];
      var p := Estimate(w, [coins[k]], o);
      if p.Ok? {
        return Some(p.value);
      }
    }
    r := None;
  }

  lemma OneCoin(c: Coin)
    ensures Total([c]) == c.sats
  {
    assert [c][..0] == [];
  }

  /** The selector: singles, groups, the whole, and at last an estimate of everything to explain a refusal. */
  method Automatic(w: Wallet, o: Options) returns (r: Result<Quote, PlanError>)
    requires o.mode.Send? && !o.max
    ensures match Choice(w, o) case None => r.Err? case Some(q) => r == Ok(q)
  {
    hide Available, Covers, Quoted, QuoteOk, SmallestFirst, Orders, FirstSingle, Candidates, Best;
    var coins := SmallestFirst(w, Available(w));
    var single := SingleCoin(w, coins, o);
    if single.Some? {
      return Ok(single.value);
    }
    var candidates := Compete(w, coins, o);
    if candidates == [] {
      WholeCompetes(w, coins, o);
      r := Estimate(w, coins, o);
    } else {
      var best := Pick(candidates);
      r := Ok(best);
    }
  }

  /** If everything together paid, it would have been a candidate. */
  lemma WholeCompetes(w: Wallet, coins: seq<Coin>, o: Options)
    ensures Candidates(w, Orders(w, coins), o) == [] ==> !Covers(w, |coins|, Total(coins), o)
  {
    SameTotal(w, coins);
    CoverNeedsCoins(w, |coins|, Total(coins), o);
    OrdersAre(w, coins);
    hide LargestFirst, Covers, Candidate, Candidates, Orders, KeysOf, OfGroup;
    var orders, sorted := Orders(w, coins), LargestFirst(w, coins);
    if Covers(w, |coins|, Total(coins), o) {
      assert sorted[..|sorted|] == sorted;
      CandidateWithin(w, sorted, o, |sorted|);
      IsListed(w, orders, o, |orders| - 1);
    }
  }

  lemma SameTotal(w: Wallet, coins: seq<Coin>)
    ensures Total(LargestFirst(w, coins)) == Total(coins) && |LargestFirst(w, coins)| == |coins|
  {
    hide Total;
    var sorted := LargestFirst(w, coins);
    LargestFirstSorts(w, coins);
    TotalOfSubset(coins, sorted);
    TotalOfSubset(sorted, coins);
    assert |coins| == |multiset(coins)| && |sorted| == |multiset(sorted)|;
  }

  lemma CoverNeedsCoins(w: Wallet, count: nat, total: int, o: Options)
    ensures Covers(w, count, total, o) ==> 1 <= count <= MAX_INPUTS
  {
  }

  // ---- Candidates ----

  predicate IsPrefix(q: Quote, sorted: seq<Coin>) {
    0 < |q.inputs| <= |sorted| && q.inputs == sorted[..|q.inputs|]
  }

  lemma CandidateIs(w: Wallet, sorted: seq<Coin>, o: Options)
    requires Candidate(w, sorted, o).Some?
    ensures var q := Candidate(w, sorted, o).value;
      IsPrefix(q, sorted) && QuoteOk(w, q.inputs, o, q) && Covers(w, |q.inputs|, Total(q.inputs), o)
  {
    hide Covers, QuoteOk;
    var k := FirstLength(w, sorted, o, 1).value;
    QuotedIsOk(w, sorted[..k], o);
  }

  lemma CandidateWithin(w: Wallet, sorted: seq<Coin>, o: Options, n: nat)
    requires 0 < n <= |sorted| && Covers(w, n, Total(sorted[..n]), o)
    ensures Candidate(w, sorted, o).Some? && |Candidate(w, sorted, o).value.inputs| <= n
  {
    hide Covers;
  }

  /** If any selection from the group can pay, so can the group's largest-first prefix of that size. */
  lemma GroupCanPay(w: Wallet, group: seq<Coin>, chosen: seq<Coin>, o: Options)
    requires multiset(chosen) <= multiset(group) && multiset(group) <= multiset(Available(w))
    requires Total(Available(w)) <= MAX_MONEY && o.mode.Send? && !o.max
    requires Covers(w, |chosen|, Total(chosen), o)
    ensures var candidate := Candidate(w, LargestFirst(w, group), o);
      candidate.Some? && |candidate.value.inputs| <= |chosen|
  {
    hide VirtualBytes, Available, LargestFirst, Candidate;
    LargestFirstSorts(w, group);
    var sorted := LargestFirst(w, group);
    PrefixDominates(chosen, sorted);
    TotalMonotone(sorted, |chosen|);
    TotalOfSubset(sorted, Available(w));
    CandidateWithin(w, sorted, o, |chosen|);
  }

  lemma AvailableGroup(coins: seq<Coin>, key: string)
    ensures multiset(OfGroup(coins, key)) <= multiset(coins)
    ensures forall c :: c in OfGroup(coins, key) <==> c in coins && GroupKey(c) == key
  {
    hide GroupKey;
    FilterMembers(coins, c => GroupKey(c) == key);
    forall c ensures multiset(OfGroup(coins, key))[c] <= multiset(coins)[c] {
      FilterCounts(coins, c => GroupKey(c) == key, c);
    }
  }

  lemma UnmixedFits(coins: seq<Coin>, chosen: seq<Coin>)
    requires multiset(chosen) <= multiset(coins) && |chosen| > 1 && !Mixed(chosen)
    ensures multiset(chosen) <= multiset(OfGroup(coins, GroupKey(chosen[0])))
    ensures forall i :: 0 <= i < |chosen| ==> Trim(chosen[i].tag) != "" && GroupKey(chosen[i]) == GroupKey(chosen[0])
  {
    hide GroupKey;
    var key := GroupKey(chosen[0]);
    forall c ensures multiset(chosen)[c] <= multiset(OfGroup(coins, key))[c] {
      FilterCounts(coins, c => GroupKey(c) == key, c);
      if c in chosen {
        var i :| 0 <= i < |chosen| && chosen[i] == c;
        assert GroupKey(chosen[i]) == key;
      }
    }
  }

  /** Membership of the orders: the group of each available coin's key, and the whole. */
  lemma OrderOf(w: Wallet, coins: seq<Coin>, c: Coin) returns (i: nat)
    requires c in coins
    ensures i < |Orders(w, coins)| && Orders(w, coins)[i] == LargestFirst(w, OfGroup(coins, GroupKey(c)))
  {
    hide GroupKey, LargestFirst, OfGroup;
    var k :| 0 <= k < |coins| && coins[k] == c;
    var keys := KeysOf(coins);
    assert GroupKey(coins[k]) in keys;
    i :| 0 <= i < |keys| && keys[i] == GroupKey(c);
  }

  lemma WholeIsLast(w: Wallet, coins: seq<Coin>)
    ensures var orders := Orders(w, coins); orders != [] && orders[|orders| - 1] == LargestFirst(w, coins)
  {
  }

  // ---- How good the choice is ----

  /** No mixture without need, and no more inputs than needed. */
  ghost predicate AtLeastAsGood(q: Quote, chosen: seq<Coin>) {
    (q.mixed ==> Mixed(chosen)) && (q.mixed == Mixed(chosen) ==> |q.inputs| <= |chosen|)
  }

  /** No placeholder of an unlabelled coin is spelled by the labels of two coins. */
  ghost predicate Harmless(coins: seq<Coin>) {
    forall i, j, k :: 0 <= i < |coins| && 0 <= j < k < |coins| && Trim(coins[i].tag) == "" ==>
      !(Trim(coins[j].tag) == "unlabeled:" + coins[i].id && Trim(coins[k].tag) == "unlabeled:" + coins[i].id)
  }

  /** The same coins, whatever their order. */
  lemma SortedAvailable(w: Wallet)
    ensures multiset(SmallestFirst(w, Available(w))) == multiset(Available(w))
    ensures ByValue(SmallestFirst(w, Available(w)), false)
    ensures IsCollation(w.collate) ==> Ordered(SmallestFirst(w, Available(w)), false, w.collate)
    ensures forall c :: c in SmallestFirst(w, Available(w)) <==> c in Available(w)
  {
    hide Available, ByValue, IsCollation, Ordered;
    SortedSorts(Available(w), false, w.collate);
    var coins := SmallestFirst(w, Available(w));
    forall c ensures c in coins <==> c in Available(w) {
      assert c in multiset(coins) <==> c in multiset(Available(w));
    }
  }

  /** Two members of a multiset stand at two places. */
  lemma TwoPlaces(coins: seq<Coin>, a: Coin, b: Coin) returns (j: nat, k: nat)
    requires multiset{a, b} <= multiset(coins)
    ensures j < |coins| && k < |coins| && j != k && coins[j] == a && coins[k] == b
  {
    assert multiset{a, b}[a] >= 1 && multiset{a, b}[b] >= 1;
    assert a in multiset(coins);
    j :| 0 <= j < |coins| && coins[j] == a;
    WithoutCounts(coins, j);
    var rest := Without(coins, j);
    assert multiset{a, b} - multiset{a} == multiset{b};
    assert b in multiset(rest);
    var l :| 0 <= l < |rest| && rest[l] == b;
    k := if l < j then l else l + 1;
  }

  lemma HarmlessAt(coins: seq<Coin>, i: nat, j: nat, k: nat)
    requires Harmless(coins) && i < |coins| && j < |coins| && k < |coins| && j != k
    ensures Trim(coins[i].tag) == "" ==>
      !(Trim(coins[j].tag) == "unlabeled:" + coins[i].id && Trim(coins[k].tag) == "unlabeled:" + coins[i].id)
  {
    hide Trim;
  }

  /** Where no placeholder is spelled twice, the group of an unmixed selection has no unlabelled coin. */
  lemma GroupIsLabelled(coins: seq<Coin>, chosen: seq<Coin>, c: Coin)
    requires Harmless(coins) && multiset(chosen) <= multiset(coins) && |chosen| > 1 && !Mixed(chosen)
    requires c in coins && GroupKey(c) == GroupKey(chosen[0])
    ensures Trim(c.tag) != ""
  {
    UnmixedFits(coins, chosen);
    assert chosen == [chosen[0], chosen[1]] + chosen[2..];
    assert multiset{chosen[0], chosen[1]} <= multiset(chosen);
    var j, k := TwoPlaces(coins, chosen[0], chosen[1]);
    var i :| 0 <= i < |coins| && coins[i] == c;
    HarmlessAt(coins, i, j, k);
  }

  /** A group candidate is unmixed when its inputs are all labelled. */
  lemma LabelledIsUnmixed(w: Wallet, coins: seq<Coin>, key: string, o: Options)
    requires Candidate(w, LargestFirst(w, OfGroup(coins, key)), o).Some?
    ensures var q := Candidate(w, LargestFirst(w, OfGroup(coins, key)), o).value;
      && (forall i :: 0 <= i < |q.inputs| ==> q.inputs[i] in coins && GroupKey(q.inputs[i]) == key)
      && (q.mixed <==> |q.inputs| > 1 && exists i :: 0 <= i < |q.inputs| && Trim(q.inputs[i].tag) == "")
  {
    hide Trim, GroupKey;
    var group := OfGroup(coins, key);
    var sorted := LargestFirst(w, group);
    CandidateIs(w, sorted, o);
    AvailableGroup(coins, key);
    LargestFirstSorts(w, group);
    hide LargestFirst, OfGroup, Candidate;
    var q := Candidate(w, sorted, o).value;
    assert q.mixed == Mixed(q.inputs) by { QuoteIsMixed(w, q, o); }
    hide QuoteOk, Covers;
    forall i | 0 <= i < |q.inputs| ensures q.inputs[i] in coins && GroupKey(q.inputs[i]) == key {
      assert q.inputs[i] == sorted[i] && sorted[i] in multiset(sorted) && sorted[i] in group;
    }
  }

  lemma QuoteIsMixed(w: Wallet, q: Quote, o: Options)
    requires QuoteOk(w, q.inputs, o, q)
    ensures q.mixed == Mixed(q.inputs)
  {
  }

  /** Some candidate is at least as good as any paying selection of several coins. */
  lemma GoodCandidate(w: Wallet, coins: seq<Coin>, chosen: seq<Coin>, o: Options) returns (q: Quote)
    requires o.mode.Send? && !o.max && Total(Available(w)) <= MAX_MONEY && coins == SmallestFirst(w, Available(w))
    requires CanPay(w, chosen, o) && |chosen| > 1
    ensures q in Candidates(w, Orders(w, coins), o) && |q.inputs| <= |chosen|
    ensures !Mixed(chosen) && Harmless(Available(w)) ==> !q.mixed
  {
    SortedAvailable(w);
    hide Available, SmallestFirst, Covers, Mixed, GroupKey, Trim, Harmless, Candidate, Candidates, OfGroup, LargestFirst, Orders,
      IsCollation, Ordered, ByValue;
    var orders := Orders(w, coins);
    if Mixed(chosen) {
      GroupCanPay(w, coins, chosen, o);
      WholeIsLast(w, coins);
      q := Candidate(w, orders[|orders| - 1], o).value;
      IsListed(w, orders, o, |orders| - 1);
    } else {
      UnmixedFits(coins, chosen);
      var key := GroupKey(chosen[0]);
      AvailableGroup(coins, key);
      assert chosen[0] in multiset(chosen) && chosen[0] in multiset(coins);
      GroupCanPay(w, OfGroup(coins, key), chosen, o);
      var i := OrderOf(w, coins, chosen[0]);
      q := Candidate(w, orders[i], o).value;
      IsListed(w, orders, o, i);
      LabelledIsUnmixed(w, coins, key, o);
      if Harmless(Available(w)) {
        forall k | 0 <= k < |q.inputs| ensures Trim(q.inputs[k].tag) != "" {
          GroupIsLabelled(Available(w), chosen, q.inputs[k]);
        }
      }
    }
  }

  lemma IsListed(w: Wallet, orders: seq<seq<Coin>>, o: Options, i: nat)
    requires i < |orders| && Candidate(w, orders[i], o).Some?
    ensures Candidate(w, orders[i], o).value in Candidates(w, orders, o)
  {
    hide Candidate;
  }

  /** A listed candidate is a paying selection with its exact quote. */
  lemma ListedCanPay(w: Wallet, coins: seq<Coin>, o: Options, q: Quote)
    requires multiset(coins) == multiset(Available(w)) && q in Candidates(w, Orders(w, coins), o)
    ensures CanPay(w, q.inputs, o) && QuoteOk(w, q.inputs, o, q)
  {
    hide Available, Covers, QuoteOk, OfGroup, Candidate, LargestFirst;
    var orders := Orders(w, coins);
    var i :| 0 <= i < |orders| && Candidate(w, orders[i], o) == Some(q);
    CandidateIs(w, orders[i], o);
    var keys := KeysOf(coins);
    var group := if i < |keys| then OfGroup(coins, keys[i]) else coins;
    if i < |keys| {
      AvailableGroup(coins, keys[i]);
    }
    assert orders[i] == LargestFirst(w, group);
    LargestFirstSorts(w, group);
    assert orders[i] == q.inputs + orders[i][|q.inputs|..];
  }

  /** The choice is a paying selection with its exact quote. */
  lemma ChoiceCanPay(w: Wallet, o: Options)
    requires Choice(w, o).Some?
    ensures var q := Choice(w, o).value; CanPay(w, q.inputs, o) && QuoteOk(w, q.inputs, o, q)
  {
    SortedAvailable(w);
    var coins := SmallestFirst(w, Available(w));
    hide Available, Covers, QuoteOk, SmallestFirst, Orders, Candidates, FirstSingle, Best, ByValue, IsCollation, Ordered;
    var single := FirstSingle(w, coins, o);
    if single.Some? {
      OneCoin(single.value);
      assert single.value in multiset(coins);
      assert multiset([single.value]) <= multiset(coins);
      QuotedIsOk(w, [single.value], o);
      assert Quoted(w, [single.value], o).inputs == [single.value];
    } else {
      ListedCanPay(w, coins, o, Choice(w, o).value);
    }
  }

  /** When one coin suffices, the choice is the smallest that does. */
  lemma SmallestSingle(w: Wallet, o: Options, c: Coin)
    requires c in Available(w) && Covers(w, 1, c.sats, o)
    ensures Choice(w, o).Some?
    ensures var q := Choice(w, o).value; |q.inputs| == 1 && q.inputs[0] in Available(w) && q.inputs[0].sats <= c.sats && !q.mixed
  {
    SortedAvailable(w);
    var coins := SmallestFirst(w, Available(w));
    hide Available, Covers, SmallestFirst, Orders, Candidates, IsCollation, Ordered;
    FirstSingleIsLeast(w, coins, o, c);
  }

  lemma {:induction false} FirstSingleIsLeast(w: Wallet, coins: seq<Coin>, o: Options, c: Coin)
    requires ByValue(coins, false) && c in coins && Covers(w, 1, c.sats, o)
    ensures FirstSingle(w, coins, o).Some? && FirstSingle(w, coins, o).value.sats <= c.sats
  {
    hide Covers;
    if !Covers(w, 1, coins[0].sats, o) {
      FirstSingleIsLeast(w, coins[1..], o, c);
    }
  }

  /** No selection of one coin pays when no coin does. */
  lemma NotSingle(w: Wallet, chosen: seq<Coin>, o: Options)
    requires CanPay(w, chosen, o) && forall c :: c in Available(w) ==> !Covers(w, 1, c.sats, o)
    ensures |chosen| > 1
  {
    hide VirtualBytes, Available;
    if |chosen| == 1 {
      assert chosen[0] in multiset(chosen) && chosen[0] in multiset(Available(w));
      assert chosen == [chosen[0]];
      OneCoin(chosen[0]);
    }
  }

  /** Automatic selection succeeds exactly when some selection can pay. */
  lemma ChoiceIsComplete(w: Wallet, o: Options)
    requires o.mode.Send? && !o.max && Total(Available(w)) <= MAX_MONEY
    ensures Choice(w, o).Some? <==> exists chosen :: CanPay(w, chosen, o)
  {
    if Choice(w, o).Some? {
      ChoiceCanPay(w, o);
    }
    forall chosen | CanPay(w, chosen, o) ensures Choice(w, o).Some? {
      ChoiceExists(w, o, chosen);
    }
  }

  lemma ChoiceExists(w: Wallet, o: Options, chosen: seq<Coin>)
    requires o.mode.Send? && !o.max && Total(Available(w)) <= MAX_MONEY && CanPay(w, chosen, o)
    ensures Choice(w, o).Some?
  {
    SortedAvailable(w);
    var coins := SmallestFirst(w, Available(w));
    hide Available, Covers, SmallestFirst, Orders, Candidates, Best, ByValue, IsCollation, Ordered, Selection;
    if FirstSingle(w, coins, o).None? {
      NotSingle(w, chosen, o);
      var q := GoodCandidate(w, coins, chosen, o);
    }
  }

  /** It mixes labels only when every paying selection does, and then, or else, uses no more inputs than any. */
  lemma ChoiceIsBest(w: Wallet, o: Options, chosen: seq<Coin>)
    requires o.mode.Send? && !o.max && Total(Available(w)) <= MAX_MONEY && Harmless(Available(w)) && CanPay(w, chosen, o)
    ensures Choice(w, o).Some? && AtLeastAsGood(Choice(w, o).value, chosen)
  {
    ChoiceExists(w, o, chosen);
    SortedAvailable(w);
    var coins := SmallestFirst(w, Available(w));
    hide Available, Covers, SmallestFirst, Orders, Candidates, ByValue, IsCollation, Ordered, Selection, Harmless, Mixed;
    if c :| c in Available(w) && Covers(w, 1, c.sats, o) {
      SmallestSingle(w, o, c);
      assert |chosen| >= 1 by { hide *; CoverNeedsCoins(w, |chosen|, Total(chosen), o); }
    } else {
      NotSingle(w, chosen, o);
      var q := GoodCandidate(w, coins, chosen, o);
      var candidates := Candidates(w, Orders(w, coins), o);
      var best := Best(candidates);
      var i :| 0 <= i < |candidates| && candidates[i] == q;
      assert !Better(candidates[i], best);
    }
  }

  // ---- Exactly when the choice is mixed ----

  /** If the group has a candidate, an unlabelled coin is in it. */
  ghost predicate GroupMixes(w: Wallet, key: string, o: Options) {
    var candidate := Candidate(w, LargestFirst(w, OfGroup(SmallestFirst(w, Available(w)), key)), o);
    candidate.Some? ==> exists i :: 0 <= i < |candidate.value.inputs| && Trim(candidate.value.inputs[i].tag) == ""
  }

  lemma {:induction false} FilterSplits(a: seq<Coin>, b: seq<Coin>, keep: Coin -> bool)
    ensures Filter(a + b, keep) == Filter(a, keep) + Filter(b, keep)
  {
    if a == [] {
      assert [] + b == b;
    } else {
      FilterSplits(a[1..], b, keep);
      assert (a + b)[1..] == a[1..] + b;
    }
  }

  lemma {:induction false} EveryoneKept(coins: seq<Coin>, keep: Coin -> bool)
    requires forall i :: 0 <= i < |coins| ==> keep(coins[i])
    ensures Filter(coins, keep) == coins
  {
    if coins != [] {
      EveryoneKept(coins[1..], keep);
    }
  }

  /** A prefix of the whole that lies in one group is that group's prefix too. */
  lemma SharedPrefix(w: Wallet, coins: seq<Coin>, n: nat, key: string)
    requires IsCollation(w.collate) && n <= |LargestFirst(w, coins)|
    requires forall i :: 0 <= i < n ==> GroupKey(LargestFirst(w, coins)[i]) == key
    ensures var group := LargestFirst(w, OfGroup(coins, key));
      n <= |group| && forall j :: 0 <= j <= n ==> group[..j] == LargestFirst(w, coins)[..j]
  {
    hide GroupKey, IsCollation;
    var keep := c => GroupKey(c) == key;
    SortFilters(coins, keep, true, w.collate);
    var sorted := LargestFirst(w, coins);
    FilterSplits(sorted[..n], sorted[n..], keep);
    EveryoneKept(sorted[..n], keep);
    assert sorted == sorted[..n] + sorted[n..];
    assert Filter(sorted, keep) == sorted[..n] + Filter(sorted[n..], keep);
  }

  /** So when the shortest paying prefix of the whole lies in one group, it is that group's candidate. */
  lemma SharedCandidate(w: Wallet, coins: seq<Coin>, o: Options, key: string)
    requires IsCollation(w.collate) && Candidate(w, LargestFirst(w, coins), o).Some?
    requires var q := Candidate(w, LargestFirst(w, coins), o).value; forall i :: 0 <= i < |q.inputs| ==> GroupKey(q.inputs[i]) == key
    ensures Candidate(w, LargestFirst(w, OfGroup(coins, key)), o) == Candidate(w, LargestFirst(w, coins), o)
  {
    hide GroupKey, IsCollation, Covers, OfGroup, LargestFirst, QuoteOk;
    var sorted, group := LargestFirst(w, coins), LargestFirst(w, OfGroup(coins, key));
    CandidateIs(w, sorted, o);
    var n := FirstLength(w, sorted, o, 1).value;
    assert Candidate(w, sorted, o).value.inputs == sorted[..n];
    forall i | 0 <= i < n ensures GroupKey(sorted[i]) == key {
      assert sorted[i] == sorted[..n][i];
    }
    SharedPrefix(w, coins, n, key);
    assert Covers(w, n, Total(group[..n]), o);
  }

  lemma KeyOfMember(coins: seq<Coin>, key: string) returns (c: Coin)
    requires key in KeysOf(coins)
    ensures c in coins && GroupKey(c) == key
  {
    var i :| 0 <= i < |coins| && GroupKey(coins[i]) == key;
    c := coins[i];
  }

  /** A listed candidate is unmixed only if some group's candidate has no unlabelled coin. */
  lemma UnmixedCandidate(w: Wallet, o: Options, q: Quote)
    requires IsCollation(w.collate) && forall c :: c in Available(w) ==> !Covers(w, 1, c.sats, o)
    requires q in Candidates(w, Orders(w, SmallestFirst(w, Available(w))), o) && !q.mixed
    ensures exists c :: c in Available(w) && !GroupMixes(w, GroupKey(c), o)
  {
    SortedAvailable(w);
    var coins := SmallestFirst(w, Available(w));
    var orders, keys := Orders(w, coins), KeysOf(coins);
    ListedCanPay(w, coins, o, q);
    NotSingle(w, q.inputs, o);
    OrdersAre(w, coins);
    hide Available, SmallestFirst, Covers, Trim, GroupKey, Candidate, OfGroup, LargestFirst, Orders, KeysOf, IsCollation, Ordered,
      ByValue, Selection;
    var i :| 0 <= i < |orders| && Candidate(w, orders[i], o) == Some(q);
    if i < |keys| {
      var c := KeyOfMember(coins, keys[i]);
      LabelledIsUnmixed(w, coins, keys[i], o);
      assert !GroupMixes(w, GroupKey(c), o);
    } else {
      assert q.mixed == Mixed(q.inputs) by { QuoteIsMixed(w, q, o); }
      hide QuoteOk;
      var c := q.inputs[0];
      assert c in Available(w) by { assert c in multiset(q.inputs); SelectedAreAvailable(w, q.inputs, c); }
      SharedCandidate(w, coins, o, GroupKey(c));
      assert !GroupMixes(w, GroupKey(c), o);
    }
  }

  lemma SelectedAreAvailable(w: Wallet, chosen: seq<Coin>, c: Coin)
    requires Selection(w, chosen) && c in chosen
    ensures c in Available(w)
  {
    hide Available;
    assert c in multiset(chosen) && c in multiset(Available(w));
  }

  /**
   * The choice is mixed if and only if no single coin pays and, in every group that can pay,
   * the shortest paying largest-first prefix holds an unlabelled coin.
   */
  lemma MixedExactly(w: Wallet, o: Options)
    requires IsCollation(w.collate) && Choice(w, o).Some?
    ensures Choice(w, o).value.mixed <==>
      (forall c :: c in Available(w) ==> !Covers(w, 1, c.sats, o) && GroupMixes(w, GroupKey(c), o))
  {
    SortedAvailable(w);
    var coins := SmallestFirst(w, Available(w));
    hide Available, SmallestFirst, Covers, Trim, GroupKey, Candidate, Candidates, OfGroup, Orders, IsCollation, Ordered, ByValue,
      GroupMixes, LargestFirst;
    if c :| c in Available(w) && Covers(w, 1, c.sats, o) {
      SmallestSingle(w, o, c);
    } else {
      var candidates := Candidates(w, Orders(w, coins), o);
      var best := Best(candidates);
      if best.mixed {
        forall c | c in Available(w) ensures GroupMixes(w, GroupKey(c), o) {
          MixedBestMixesGroups(w, o, c);
        }
      } else {
        UnmixedCandidate(w, o, best);
      }
    }
  }

  lemma MixedBestMixesGroups(w: Wallet, o: Options, c: Coin)
    requires c in Available(w)
    requires var candidates := Candidates(w, Orders(w, SmallestFirst(w, Available(w))), o);
      candidates != [] && Best(candidates).mixed
    ensures GroupMixes(w, GroupKey(c), o)
  {
    SortedAvailable(w);
    var coins := SmallestFirst(w, Available(w));
    hide Available, SmallestFirst, Covers, Trim, GroupKey, Candidate, Candidates, OfGroup, LargestFirst, Orders, IsCollation, Ordered,
      ByValue;
    var orders := Orders(w, coins);
    var candidates := Candidates(w, orders, o);
    var i := OrderOf(w, coins, c);
    if Candidate(w, orders[i], o).Some? {
      IsListed(w, orders, o, i);
      var k :| 0 <= k < |candidates| && candidates[k] == Candidate(w, orders[i], o).value;
      assert !Better(candidates[k], Best(candidates));
      LabelledIsUnmixed(w, coins, GroupKey(c), o);
    }
  }

  // ---- Where the placeholder collides ----

  const BORROWED := Coin("a", "t", 0, 3000, "unlabeled:b", false, false, true)
  const TWIN := Coin("c", "t", 2, 3000, "unlabeled:b", false, false, true)
  const BARE := Coin("b", "t", 1, 3500, "", false, false, true)

  lemma CollidingTotals()
    ensures Total([BORROWED, TWIN]) == 6000 && Total([BORROWED, BARE, TWIN]) == 9500
  {
    assert [BORROWED, TWIN][..1] == [BORROWED] && [BORROWED, BARE, TWIN][..2] == [BORROWED, BARE];
    assert [BORROWED, BARE][..1] == [BORROWED];
    OneCoin(BORROWED);
  }

  lemma CollidingKeys()
    ensures GroupKey(BORROWED) == GroupKey(BARE) == GroupKey(TWIN) && Trim(BARE.tag) == "" && Trim(TWIN.tag) == "unlabeled:b"
  {
    assert Trim("unlabeled:b") == "unlabeled:b";
    assert "unlabeled:" + "b" == "unlabeled:b";
  }

  function Colliding(collate: (string, string) -> bool): Wallet {
    Wallet(1, false, [BORROWED, BARE, TWIN], {}, collate)
  }

  lemma CollidingAvailable(collate: (string, string) -> bool)
    ensures Available(Colliding(collate)) == [BORROWED, BARE, TWIN]
  {
    var w := Colliding(collate);
    EveryoneKept(w.coins, c => Usable(w, c));
  }

  /** The largest coin of the one group is the unlabelled one, so every candidate holds it. */
  lemma CollidingGroupMixes(collate: (string, string) -> bool, o: Options)
    ensures GroupMixes(Colliding(collate), GroupKey(BARE), o)
  {
    CollidingAvailable(collate);
    CollidingKeys();
    var w := Colliding(collate);
    SortedAvailable(w);
    hide Trim, GroupKey, Available, SmallestFirst, Candidate, Colliding, Covers, QuoteOk, ByValue, Ordered, IsCollation;
    var coins := SmallestFirst(w, Available(w));
    var key := GroupKey(BARE);
    AvailableGroup(coins, key);
    assert BARE in coins;
    var group := OfGroup(coins, key);
    var sorted := LargestFirst(w, group);
    LargestFirstSorts(w, group);
    hide OfGroup, LargestFirst;
    assert BARE in multiset(sorted);
    var k :| 0 <= k < |sorted| && sorted[k] == BARE;
    assert sorted[0] in multiset(sorted) && sorted[0] in group;
    assert sorted[0].sats >= BARE.sats;
    assert sorted[0] == BARE;
    if Candidate(w, sorted, o).Some? {
      CandidateIs(w, sorted, o);
      assert Candidate(w, sorted, o).value.inputs[0] == BARE;
    }
  }

  /**
   * Two coins share a label that spells the placeholder of a third: the choice is mixed
   * although the two could pay, in any locale.
   */
  lemma CollisionMixes(collate: (string, string) -> bool)
    requires IsCollation(collate)
    ensures var w, o := Colliding(collate), Options(5500, 1, false, Send);
      && CanPay(w, [BORROWED, TWIN], o) && !Mixed([BORROWED, TWIN])
      && Choice(w, o).Some? && Choice(w, o).value.mixed && !Harmless(Available(w))
  {
    CollidingPays(collate);
    CollidingHarms(collate);
    var w, o := Colliding(collate), Options(5500, 1, false, Send);
    CollidingGroupMixes(collate, o);
    CollidingAvailable(collate);
    CollidingKeys();
    assert w.collate == collate;
    hide Trim, GroupKey, Available, Choice, Covers, IsCollation, GroupMixes, Harmless, CanPay, Colliding, Mixed;
    assert Total(Available(w)) <= MAX_MONEY by { CollidingTotals(); }
    ChoiceExists(w, o, [BORROWED, TWIN]);
    MixedExactly(w, o);
  }

  lemma CollidingPays(collate: (string, string) -> bool)
    ensures var w, o := Colliding(collate), Options(5500, 1, false, Send);
      && CanPay(w, [BORROWED, TWIN], o) && !Mixed([BORROWED, TWIN])
      && forall c :: c in Available(w) ==> !Covers(w, 1, c.sats, o)
  {
    CollidingTotals();
    CollidingKeys();
    CollidingAvailable(collate);
    hide Trim, GroupKey, Available, Total;
    var coins := [BORROWED, BARE, TWIN];
    assert coins == [BORROWED] + [BARE] + [TWIN];
    assert multiset([BORROWED, TWIN]) <= multiset(coins);
  }

  lemma CollidingHarms(collate: (string, string) -> bool)
    ensures !Harmless(Available(Colliding(collate)))
  {
    CollidingAvailable(collate);
    CollidingKeys();
    var coins := [BORROWED, BARE, TWIN];
    hide Trim, Available;
    assert coins[0] == BORROWED && coins[1] == BARE && coins[2] == TWIN;
    assert BORROWED.tag == TWIN.tag && "unlabeled:" + BARE.id == "unlabeled:b";
    if Harmless(coins) {
      HarmlessAt(coins, 1, 0, 2);
    }
  }

  // ---- Planning ----

  /** Exactly the named coins, each still usable. */
  ghost predicate Named(w: Wallet, ids: seq<string>, coins: seq<Coin>) {
    && |coins| == |ids|
    && forall i :: 0 <= i < |ids| ==> Find(w.coins, ids[i]) == Some(coins[i]) && Usable(w, coins[i])
  }

  ghost predicate DistinctIds(ids: seq<string>) {
    forall i, j :: 0 <= i < j < |ids| ==> ids[i] != ids[j]
  }

  /** A user's selection is used as it is, or refused; it is never completed or trimmed. */
  method Manual(w: Wallet, ids: seq<string>, o: Options) returns (r: Result<Quote, PlanError>)
    ensures r.Ok? ==> DistinctIds(ids) && Named(w, ids, r.value.inputs) && QuoteOk(w, r.value.inputs, o, r.value)
    ensures r.Ok? <==> DistinctIds(ids) && exists coins :: Named(w, ids, coins) && Covers(w, |coins|, Total(coins), o)
    ensures r.Ok? ==> r.value == Quoted(w, r.value.inputs, o)
  {
    hide Covers, QuoteOk, Quoted, Usable, Total;
    if exists i, j | 0 <= i < j < |ids| :: ids[i] == ids[j] {
      return Err(Duplicates);
    }
    var coins: seq<Coin> := [];
    for k := 0 to |ids|
      invariant |coins| == k
      invariant forall i :: 0 <= i < k ==> Find(w.coins, ids[i]) == Some(coins[i]) && Usable(w, coins[i])
    {
      var c := Find(w.coins, ids[k]);
      if c.None? || !Usable(w, c.value) {
        return Err(Unusable);
      }
      coins := coins + [c.value];
    }
    assert Named(w, ids, coins);
    forall other | Named(w, ids, other) ensures other == coins {
    }
    r := Estimate(w, coins, o);
    if r.Ok? {
      QuoteNamesInputs(w, coins, r.value, o);
    }
  }

  lemma ManualCovers(w: Wallet, ids: seq<string>, coins: seq<Coin>, o: Options)
    requires Named(w, ids, coins)
    requires exists other :: Named(w, ids, other) && Covers(w, |other|, Total(other), o)
    ensures Covers(w, |coins|, Total(coins), o)
  {
    hide Covers, Usable, Total;
    var other :| Named(w, ids, other) && Covers(w, |other|, Total(other), o);
    assert other == coins;
  }

  /** What a plan is, whichever way the coins were chosen. */
  ghost predicate Planned(w: Wallet, selected: Option<seq<string>>, o: Options, q: Quote) {
    && !w.imported && q == Quoted(w, q.inputs, o) && Covers(w, |q.inputs|, Total(q.inputs), o)
    && match selected
       case Some(ids) => DistinctIds(ids) && Named(w, ids, q.inputs)
       case None =>
         if o.max || o.mode.Consolidate? then q.inputs == SmallestFirst(w, Available(w)) else Choice(w, o) == Some(q)
  }

  /** A plan succeeds exactly when there is one; an automatic one is complete and the best there is. */
  method Plan(w: Wallet, selected: Option<seq<string>>, o: Options) returns (r: Result<Quote, PlanError>)
    ensures r.Ok? ==> Planned(w, selected, o, r.value) && QuoteOk(w, r.value.inputs, o, r.value)
    ensures r.Err? ==> forall q :: !Planned(w, selected, o, q)
    ensures !w.imported && selected.None? && o.mode.Send? && !o.max && Total(Available(w)) <= MAX_MONEY ==>
      (r.Ok? <==> exists chosen :: CanPay(w, chosen, o))
    ensures r.Ok? && selected.None? && o.mode.Send? && !o.max && Total(Available(w)) <= MAX_MONEY && Harmless(Available(w)) ==>
      forall chosen :: CanPay(w, chosen, o) ==> AtLeastAsGood(r.value, chosen)
  {
    hide Covers, Available, Sorted, Named, Mixed, VirtualBytes, Quoted, Harmless, CanPay, Choice, QuoteOk;
    if w.imported {
      return Err(NotConnected);
    }
    if selected.Some? {
      r := Manual(w, selected.value, o);
      if r.Ok? {
        ManualCovers(w, selected.value, r.value.inputs, o);
      }
      return;
    }
    if o.max || o.mode.Consolidate? {
      r := Estimate(w, SmallestFirst(w, Available(w)), o);
      if r.Ok? {
        QuoteNamesInputs(w, SmallestFirst(w, Available(w)), r.value, o);
      }
      return;
    }
    r := Automatic(w, o);
    if r.Ok? {
      ChoiceCanPay(w, o);
      ChosenIsPlanned(w, o);
    }
    if Total(Available(w)) <= MAX_MONEY {
      ChoiceIsComplete(w, o);
      if Harmless(Available(w)) {
        forall chosen | CanPay(w, chosen, o) ensures r.Ok? && AtLeastAsGood(r.value, chosen) {
          ChoiceIsBest(w, o, chosen);
        }
      }
    }
  }

  lemma QuoteNamesInputs(w: Wallet, coins: seq<Coin>, q: Quote, o: Options)
    requires QuoteOk(w, coins, o, q)
    ensures q.inputs == coins && q.mixed == Mixed(coins)
  {
  }

  lemma ChosenIsPlanned(w: Wallet, o: Options)
    requires Choice(w, o).Some? && !w.imported && o.mode.Send? && !o.max
    ensures Planned(w, None, o, Choice(w, o).value)
  {
    ChoiceCanPay(w, o);
    hide Choice, Selection, Covers, QuoteOk;
    var q := Choice(w, o).value;
    QuotedIsOk(w, q.inputs, o);
    QuotesAgree(w, q.inputs, o, q, Quoted(w, q.inputs, o));
  }

  lemma PlannedIsUnique(w: Wallet, selected: Option<seq<string>>, o: Options, a: Quote, b: Quote)
    requires Planned(w, selected, o, a) && Planned(w, selected, o, b)
    ensures a == b
  {
    hide Covers, Quoted, Choice, SmallestFirst, Available, Usable;
    if selected.Some? {
      var ids := selected.value;
      assert forall i :: 0 <= i < |ids| ==> Find(w.coins, ids[i]) == Some(a.inputs[i]) == Some(b.inputs[i]);
      assert a.inputs == b.inputs;
    }
  }
}

/**
 * The BIP 380 descriptor checksum (section "Checksum"): a linear code over 40-bit words,
 * in the three shapes in which the repository computes it.
 */
module Checksum {
  import opened Wrappers

  const FIRST := "0123456789()[],'/*abcdefgh@:$%{}"
  const SECOND := "IJKLMNOPQRSTUVWXYZ&+-.;<=>?!^_|~"
  const THIRD := "ijklmnopqrstuvwxyzABCDEFGH`#\"\\ "
  const ALPHABET := FIRST + SECOND + THIRD
  const SYMBOLS := "qpzry9x8gf2tvdw0s3jn54khce6mua7l"

  type Word = bv40
  type Symbol = bv5

  // ---- One step of the code ----

  function Xor(a: Word, b: Word): Word {
    a ^ b
  }

  function Term(top: Symbol, bit: Symbol, generator: Word): Word {
    if top & bit != 0 then generator else 0
  }

  function LowTerms(top: Symbol): Word {
    Xor(Term(top, 1, 0xF5DEE51989), Term(top, 2, 0xA9FDCA3312))
  }

  function HighTerms(top: Symbol): Word {
    Xor(Term(top, 4, 0x1BAB10E32D), Term(top, 8, 0x3706B1677A))
  }

  /** The generators selected by the five bits that leave the word. */
  function Generators(top: Symbol): Word {
    Xor(Xor(LowTerms(top), HighTerms(top)), Term(top, 16, 0x644D626FFD))
  }

  function Top(c: Word): Symbol {
    (c >> 35) as Symbol
  }

  function Shift(c: Word): Word {
    (c & 0x7FFFFFFFF) << 5
  }

  function Widen(v: Symbol): Word {
    v as Word
  }

  function Step(c: Word, v: Symbol): Word {
    Xor(Xor(Shift(c), Widen(v)), Generators(Top(c)))
  }

  // ---- Linearity ----

  lemma XorCommutes(a: Word, b: Word)
    ensures Xor(a, b) == Xor(b, a)
  {
  }

  lemma XorAssociates(a: Word, b: Word, c: Word)
    ensures Xor(Xor(a, b), c) == Xor(a, Xor(b, c))
  {
  }

  lemma Exchange(a: Word, b: Word, c: Word, d: Word)
    ensures Xor(Xor(a, b), Xor(c, d)) == Xor(Xor(a, c), Xor(b, d))
  {
    hide Xor;
    XorAssociates(Xor(a, b), c, d);
    XorAssociates(a, b, c);
    XorCommutes(b, c);
    XorAssociates(a, c, b);
    XorAssociates(Xor(a, c), b, d);
  }

  lemma BitOfXor(a: Symbol, b: Symbol, bit: Symbol)
    requires bit == 1 || bit == 2 || bit == 4 || bit == 8 || bit == 16
    ensures (a ^ b) & bit != 0 <==> ((a & bit != 0) != (b & bit != 0))
  {
  }

  lemma TermLinear(a: Symbol, b: Symbol, bit: Symbol, generator: Word)
    requires bit == 1 || bit == 2 || bit == 4 || bit == 8 || bit == 16
    ensures Term(a ^ b, bit, generator) == Xor(Term(a, bit, generator), Term(b, bit, generator))
  {
    BitOfXor(a, b, bit);
  }

  lemma LowLinear(a: Symbol, b: Symbol)
    ensures LowTerms(a ^ b) == Xor(LowTerms(a), LowTerms(b))
  {
    hide Term, Xor;
    TermLinear(a, b, 1, 0xF5DEE51989);
    TermLinear(a, b, 2, 0xA9FDCA3312);
    Exchange(Term(a, 1, 0xF5DEE51989), Term(b, 1, 0xF5DEE51989), Term(a, 2, 0xA9FDCA3312), Term(b, 2, 0xA9FDCA3312));
  }

  lemma HighLinear(a: Symbol, b: Symbol)
    ensures HighTerms(a ^ b) == Xor(HighTerms(a), HighTerms(b))
  {
    hide Term, Xor;
    TermLinear(a, b, 4, 0x1BAB10E32D);
    TermLinear(a, b, 8, 0x3706B1677A);
    Exchange(Term(a, 4, 0x1BAB10E32D), Term(b, 4, 0x1BAB10E32D), Term(a, 8, 0x3706B1677A), Term(b, 8, 0x3706B1677A));
  }

  lemma GeneratorsLinear(a: Symbol, b: Symbol)
    ensures Generators(a ^ b) == Xor(Generators(a), Generators(b))
  {
    hide Term, Xor, LowTerms, HighTerms;
    LowLinear(a, b);
    HighLinear(a, b);
    TermLinear(a, b, 16, 0x644D626FFD);
    Exchange(LowTerms(a), LowTerms(b), HighTerms(a), HighTerms(b));
    Exchange(Xor(LowTerms(a), HighTerms(a)), Xor(LowTerms(b), HighTerms(b)), Term(a, 16, 0x644D626FFD), Term(b, 16, 0x644D626FFD));
  }

  lemma PartsLinear(a: Word, b: Word)
    ensures Shift(Xor(a, b)) == Xor(Shift(a), Shift(b)) && Top(Xor(a, b)) == Top(a) ^ Top(b)
  {
  }

  lemma WidenLinear(u: Symbol, v: Symbol)
    ensures Widen(u ^ v) == Xor(Widen(u), Widen(v))
  {
  }

  /** The code is linear over GF(2) in its state and its symbol together. */
  lemma StepIsLinear(a: Word, b: Word, u: Symbol, v: Symbol)
    ensures Step(Xor(a, b), u ^ v) == Xor(Step(a, u), Step(b, v))
  {
    hide Xor, Shift, Top, Widen, Generators;
    PartsLinear(a, b);
    WidenLinear(u, v);
    GeneratorsLinear(Top(a), Top(b));
    Exchange(Shift(a), Shift(b), Widen(u), Widen(v));
    Exchange(Xor(Shift(a), Widen(u)), Xor(Shift(b), Widen(v)), Generators(Top(a)), Generators(Top(b)));
  }

  lemma XorInjective(a: Word, b: Word, c: Word)
    requires Xor(a, c) == Xor(b, c)
    ensures a == b
  {
  }

  lemma XorSelf(a: Word)
    ensures Xor(a, a) == 0
  {
  }

  lemma Cancels(a: Word, b: Word)
    ensures Xor(a, b) == 0 <==> a == b
  {
    hide Xor;
    XorSelf(b);
    if Xor(a, b) == 0 {
      XorInjective(a, b, b);
    }
  }

  lemma XorZero(a: Word)
    ensures Xor(a, 0) == a
  {
  }

  lemma SymbolCancels(u: Symbol)
    ensures u ^ u == 0
  {
  }

  /** No state but zero is forgotten: the low five bits of the generators are independent. */
  lemma KernelIsZero(d: Word)
    requires Step(d, 0) == 0
    ensures d == 0
  {
  }

  /** For a fixed symbol the step never confuses two states. */
  lemma StepIsInjective(a: Word, b: Word, v: Symbol)
    requires Step(a, v) == Step(b, v)
    ensures a == b
  {
    hide Step, Xor;
    StepIsLinear(a, b, v, v);
    SymbolCancels(v);
    Cancels(Step(a, v), Step(b, v));
    KernelIsZero(Xor(a, b));
    Cancels(a, b);
  }

  lemma NothingLeaves(d: Word)
    requires d < 0x8_0000_0000
    ensures Top(d) == 0 && Shift(d) == d << 5
  {
  }

  lemma NoGenerators()
    ensures Generators(0) == 0
  {
  }

  /** Below 35 bits a step only shifts in a symbol. */
  lemma ShortStep(d: Word, v: Symbol)
    requires d < 0x8_0000_0000
    ensures Step(d, v) == Xor(d << 5, Widen(v))
  {
    hide Xor, Shift, Top, Widen, Generators;
    NothingLeaves(d);
    NoGenerators();
    XorZero(Xor(d << 5, Widen(v)));
  }

  /** The shifted-in symbol fills bits that are free. */
  lemma Packed(d: Word, v: Symbol)
    requires d < 0x8_0000_0000
    ensures Xor(d << 5, Widen(v)) == 0 <==> d == 0 && v == 0
  {
  }

  // ---- Characters ----

  /** A number below 32 as a symbol. */
  function Sym(n: nat): Symbol
    requires n < 32
  {
    match n
    case 0 => 0
    case 1 => 1
    case 2 => 2
    case 3 => 3
    case 4 => 4
    case 5 => 5
    case 6 => 6
    case 7 => 7
    case 8 => 8
    case 9 => 9
    case 10 => 10
    case 11 => 11
    case 12 => 12
    case 13 => 13
    case 14 => 14
    case 15 => 15
    case 16 => 16
    case 17 => 17
    case 18 => 18
    case 19 => 19
    case 20 => 20
    case 21 => 21
    case 22 => 22
    case 23 => 23
    case 24 => 24
    case 25 => 25
    case 26 => 26
    case 27 => 27
    case 28 => 28
    case 29 => 29
    case 30 => 30
    case _ => 31
  }

  function Bit(v: Symbol, bit: Symbol, weight: nat): nat {
    if v & bit != 0 then weight else 0
  }

  function Unsym(v: Symbol): (n: nat)
    ensures n < 32
  {
    Bit(v, 1, 1) + Bit(v, 2, 2) + Bit(v, 4, 4) + Bit(v, 8, 8) + Bit(v, 16, 16)
  }

  lemma SymIsInjective(a: nat, b: nat)
    requires a < 32 && b < 32
    ensures Sym(a) ^ Sym(b) == 0 <==> a == b
  {
    hide Sym, Unsym;
    UnsymInverts(a);
    UnsymInverts(b);
    SymbolXor(Sym(a), Sym(b));
  }

  lemma UnsymInverts(n: nat)
    requires n < 32
    ensures Unsym(Sym(n)) == n
  {
  }

  lemma SymbolXor(u: Symbol, v: Symbol)
    ensures u ^ v == 0 <==> u == v
  {
  }

  function IndexIn(text: string, c: char): (r: Option<nat>)
    ensures r.Some? ==> r.value < |text| && text[r.value] == c
    ensures r.None? ==> c !in text
  {
    if text == "" then None
    else if text[0] == c then Some(0)
    else match IndexIn(text[1..], c) case Some(i) => Some(i + 1) case None => None
  }

  function Position(c: char): (r: Option<nat>)
    ensures r.Some? ==> r.value < 95
  {
    assert |ALPHABET| == 95;
    IndexIn(ALPHABET, c)
  }

  lemma PositionsDiffer(a: char, b: char)
    requires a != b && Position(a).Some? && Position(b).Some?
    ensures Position(a) != Position(b)
  {
  }

  // ---- Absorbing a body ----

  /** The code word so far, the base-3 digits of the open group and how many there are. */
  datatype State = State(c: Word, group: nat, count: nat)

  function Bound(count: nat): nat {
    if count == 0 then 1 else if count == 1 then 3 else if count == 2 then 9 else 27
  }

  predicate Open(s: State) {
    s.count < 3 && s.group < Bound(s.count)
  }

  function Absorb(s: State, p: nat): (t: State)
    requires Open(s) && p < 95
    ensures Open(t)
  {
    var c := Step(s.c, Sym(p % 32));
    var group := s.group * 3 + p / 32;
    if s.count == 2 then State(Step(c, Sym(group)), 0, 0) else State(c, group, s.count + 1)
  }

  function AbsorbAll(body: string): (r: Option<State>)
    ensures r.Some? ==> Open(r.value)
  {
    if body == "" then Some(State(1, 0, 0))
    else
      match AbsorbAll(body[..|body| - 1])
      case None => None
      case Some(s) =>
        match Position(body[|body| - 1])
        case None => None
        case Some(p) => Some(Absorb(s, p))
  }

  function Close(s: State): Word
    requires Open(s)
  {
    if s.count > 0 then Step(s.c, Sym(s.group)) else s.c
  }

  function Feed(c: Word, symbols: seq<Symbol>): Word {
    if symbols == [] then c else Step(Feed(c, symbols[..|symbols| - 1]), symbols[|symbols| - 1])
  }

  function Zeros(n: nat): seq<Symbol> {
    seq(n, _ => 0)
  }

  function Finish(s: State): Word
    requires Open(s)
  {
    Xor(Feed(Close(s), Zeros(8)), 1)
  }

  function Low(c: Word): Symbol {
    (c & 31) as Symbol
  }

  function Rest(c: Word): Word {
    c >> 5
  }

  /** The lowest `n` symbols of a word, most significant first. */
  function Limbs(c: Word, n: nat): (r: seq<Symbol>)
    ensures |r| == n
  {
    if n == 0 then [] else Limbs(Rest(c), n - 1) + [Low(c)]
  }

  function Text(symbols: seq<Symbol>): (r: string)
    ensures |r| == |symbols|
  {
    assert |SYMBOLS| == 32;
    seq(|symbols|, i requires 0 <= i < |symbols| => SYMBOLS[Unsym(symbols[i])])
  }

  /** The checksum of a body, or nothing for a character outside the alphabet. */
  function Checksum(body: string): Option<string> {
    match AbsorbAll(body)
    case None => None
    case Some(s) => Some(Text(Limbs(Finish(s), 8)))
  }

  // ---- The three forms ----

  lemma {:induction false} PrefixFails(body: string, k: nat)
    requires k <= |body| && AbsorbAll(body[..k]).None?
    ensures AbsorbAll(body).None?
    decreases |body| - k
  {
    if k == |body| {
      assert body[..k] == body;
    } else {
      assert body[..k + 1][..k] == body[..k];
      PrefixFails(body, k + 1);
    }
  }

  lemma AbsorbNext(body: string, k: nat)
    requires k < |body| && AbsorbAll(body[..k]).Some?
    ensures AbsorbAll(body[..k + 1]) ==
      match Position(body[k]) case None => None case Some(p) => Some(Absorb(AbsorbAll(body[..k]).value, p))
  {
    assert body[..k + 1][..k] == body[..k];
  }

  /** Symbols are fed as they appear; the open group is one base-3 number. */
  method Streaming(body: string) returns (r: Option<string>)
    ensures r == Checksum(body)
  {
    hide Step, Sym, Position, Text, Limbs;
    var checksum: Word, group: nat, count: nat := 1, 0, 0;
    for k := 0 to |body|
      invariant AbsorbAll(body[..k]) == Some(State(checksum, group, count))
    {
      AbsorbNext(body, k);
      var position := Position(body[k]);
      if position.None? {
        PrefixFails(body, k + 1);
        return None;
      }
      checksum := Step(checksum, Sym(position.value % 32));
      group := group * 3 + position.value / 32;
      count := count + 1;
      if count == 3 {
        checksum := Step(checksum, Sym(group));
        group, count := 0, 0;
      }
    }
    assert body[..|body|] == body;
    if count > 0 {
      checksum := Step(checksum, Sym(group));
    }
    checksum := FeedZeros(checksum);
    r := Some(Text(Limbs(Xor(checksum, 1), 8)));
  }

  method FeedZeros(start: Word) returns (c: Word)
    ensures c == Feed(start, Zeros(8))
  {
    hide Step;
    c := start;
    for i := 0 to 8
      invariant c == Feed(start, Zeros(i))
    {
      assert Zeros(i + 1)[..i] == Zeros(i);
      c := Step(c, 0);
    }
  }

  /** The value of an open group of digits. */
  function GroupValue(groups: seq<nat>): nat {
    if groups == [] then 0 else 3 * GroupValue(groups[..|groups| - 1]) + groups[|groups| - 1]
  }

  lemma EmptyGroup()
    ensures GroupValue([]) == 0
  {
  }

  lemma GroupGrows(groups: seq<nat>, digit: nat)
    ensures GroupValue(groups + [digit]) == 3 * GroupValue(groups) + digit
  {
    assert (groups + [digit])[..|groups|] == groups;
  }

  /** The explicit weights of one, two or three digits. */
  lemma GroupWeights(groups: seq<nat>)
    ensures |groups| == 1 ==> GroupValue(groups) == groups[0]
    ensures |groups| == 2 ==> GroupValue(groups) == groups[0] * 3 + groups[1]
    ensures |groups| == 3 ==> GroupValue(groups) == groups[0] * 9 + groups[1] * 3 + groups[2]
  {
    assert GroupValue([]) == 0;
    if 1 <= |groups| <= 3 {
      var n := |groups| - 1;
      assert groups == groups[..n] + [groups[n]];
      if n > 0 {
        GroupWeights(groups[..n]);
      }
    }
  }

  /** Digits are collected and weighed when three are there. */
  method Grouped(body: string) returns (r: Option<string>)
    ensures r == Checksum(body)
  {
    hide Step, Sym, Position, Text, Limbs, GroupValue, Feed;
    assert GroupValue([]) == 0 by { EmptyGroup(); }
    var c: Word, groups: seq<nat> := 1, [];
    for k := 0 to |body|
      invariant |groups| < 3
      invariant AbsorbAll(body[..k]) == Some(State(c, GroupValue(groups), |groups|))
    {
      AbsorbNext(body, k);
      var v := Position(body[k]);
      if v.None? {
        PrefixFails(body, k + 1);
        return None;
      }
      c := Step(c, Sym(v.value % 32));
      GroupGrows(groups, v.value / 32);
      groups := groups + [v.value / 32];
      GroupWeights(groups);
      if |groups| == 3 {
        c := Step(c, Sym(groups[0] * 9 + groups[1] * 3 + groups[2]));
        groups := [];
      }
    }
    assert body[..|body|] == body;
    GroupWeights(groups);
    if |groups| == 1 {
      c := Step(c, Sym(groups[0]));
    } else if |groups| == 2 {
      c := Step(c, Sym(groups[0] * 3 + groups[1]));
    }
    c := FeedZeros(c);
    r := Some(Text(Limbs(Xor(c, 1), 8)));
  }

  lemma FeedAppend(c: Word, symbols: seq<Symbol>, v: Symbol)
    ensures Feed(c, symbols + [v]) == Step(Feed(c, symbols), v)
  {
    assert (symbols + [v])[..|symbols|] == symbols;
  }

  lemma {:induction false} FeedConcat(c: Word, a: seq<Symbol>, b: seq<Symbol>)
    ensures Feed(c, a + b) == Feed(Feed(c, a), b)
  {
    hide Step;
    if b == [] {
      assert a + b == a;
    } else {
      var n := |b| - 1;
      assert a + b == (a + b[..n]) + [b[n]];
      FeedAppend(c, a + b[..n], b[n]);
      FeedConcat(c, a, b[..n]);
    }
  }

  method ListSymbols(body: string) returns (r: Option<seq<Symbol>>)
    ensures match AbsorbAll(body)
      case None => r.None?
      case Some(s) => r.Some? && Feed(1, r.value) == Close(s)
  {
    hide Step, Sym, Position, Feed, GroupValue;
    assert Feed(1, []) == 1 by { FeedNothing(1); }
    assert GroupValue([]) == 0 by { EmptyGroup(); }
    var values: seq<Symbol>, groups: seq<nat> := [], [];
    for k := 0 to |body|
      invariant |groups| < 3
      invariant AbsorbAll(body[..k]) == Some(State(Feed(1, values), GroupValue(groups), |groups|))
    {
      AbsorbNext(body, k);
      var v := Position(body[k]);
      if v.None? {
        PrefixFails(body, k + 1);
        return None;
      }
      FeedAppend(1, values, Sym(v.value % 32));
      values := values + [Sym(v.value % 32)];
      GroupGrows(groups, v.value / 32);
      groups := groups + [v.value / 32];
      GroupWeights(groups);
      if |groups| == 3 {
        FeedAppend(1, values, Sym(groups[0] * 9 + groups[1] * 3 + groups[2]));
        values := values + [Sym(groups[0] * 9 + groups[1] * 3 + groups[2])];
        groups := [];
      }
    }
    assert body[..|body|] == body;
    GroupWeights(groups);
    if |groups| == 1 {
      FeedAppend(1, values, Sym(groups[0]));
      values := values + [Sym(groups[0])];
    } else if |groups| == 2 {
      FeedAppend(1, values, Sym(groups[0] * 3 + groups[1]));
      values := values + [Sym(groups[0] * 3 + groups[1])];
    }
    r := Some(values);
  }

  lemma FeedNothing(c: Word)
    ensures Feed(c, []) == c
  {
  }

  /** All symbols are listed first and folded afterwards. */
  method Listed(body: string) returns (r: Option<string>)
    ensures r == Checksum(body)
  {
    hide Step, Text, Limbs;
    var values := ListSymbols(body);
    if values.None? {
      return None;
    }
    FeedConcat(1, values.value, Zeros(8));
    var all := values.value + Zeros(8);
    var chk: Word := 1;
    for i := 0 to |all|
      invariant chk == Feed(1, all[..i])
    {
      assert all[..i + 1][..i] == all[..i];
      chk := Step(chk, all[i]);
    }
    assert all[..|all|] == all;
    r := Some(Text(Limbs(Xor(chk, 1), 8)));
  }

  // ---- Detecting one changed character ----

  function Room(count: nat): Word {
    if count == 1 then 32 else if count == 2 then 1024 else 32768
  }

  /**
   * Two runs that have parted: in the word alone, or within the open group, whose weight is
   * still to be fed while the words differ in few symbols.
   */
  ghost predicate Parted(s: State, t: State) {
    && Open(s) && Open(t) && s.count == t.count
    && (|| (s.c != t.c && s.group == t.group)
        || (s.count > 0 && Xor(s.c, t.c) < Room(s.count) && s.group != t.group))
  }

  lemma StepsDiffer(a: Word, b: Word, u: Symbol, v: Symbol)
    ensures Xor(Step(a, u), Step(b, v)) == Step(Xor(a, b), u ^ v)
  {
    StepIsLinear(a, b, u, v);
  }

  /** A small difference moves up by one symbol and takes in the new one. */
  lemma SmallStep(d: Word, v: Symbol, count: nat)
    requires count <= 2 && (if count == 0 then d == 0 else d < Room(count))
    ensures Step(d, v) < Room(count + 1)
    ensures Step(d, v) == 0 <==> d == 0 && v == 0
  {
    hide Step;
    assert d < 0x8_0000_0000;
    ShortStep(d, v);
    Packed(d, v);
    if count == 0 {
      RoomAfterNone(v);
    } else if count == 1 {
      RoomAfterOne(d, v);
    } else {
      RoomAfterTwo(d, v);
    }
  }

  lemma RoomAfterNone(v: Symbol)
    ensures Xor(0 << 5, Widen(v)) < 32
  {
  }

  lemma RoomAfterOne(d: Word, v: Symbol)
    requires d < 32
    ensures Xor(d << 5, Widen(v)) < 1024
  {
  }

  lemma RoomAfterTwo(d: Word, v: Symbol)
    requires d < 1024
    ensures Xor(d << 5, Widen(v)) < 32768
  {
  }

  /** Closing a group feeds its difference; a difference of at most three symbols and a group cannot cancel. */
  lemma ClosingDiffers(a: Word, b: Word, g: nat, h: nat)
    requires g < 32 && h < 32 && Xor(a, b) < 32768 && (a != b || g != h)
    ensures Step(a, Sym(g)) != Step(b, Sym(h))
  {
    hide Step, Xor, Sym;
    StepsDiffer(a, b, Sym(g), Sym(h));
    SymIsInjective(g, h);
    Cancels(a, b);
    ClosedIsNonzero(Xor(a, b), Sym(g) ^ Sym(h));
    Cancels(Step(a, Sym(g)), Step(b, Sym(h)));
  }

  lemma ClosedIsNonzero(d: Word, v: Symbol)
    requires d < 32768 && (d != 0 || v != 0)
    ensures Step(d, v) != 0
  {
    hide Step;
    ShortStep(d, v);
    Packed(d, v);
  }

  lemma ChangedWord(c: Word, u: Symbol, v: Symbol)
    ensures Xor(Step(c, u), Step(c, v)) < 32 && (Step(c, u) == Step(c, v) <==> u ^ v == 0)
  {
    hide Step, Xor;
    Cancels(c, c);
    StepsDiffer(c, c, u, v);
    SmallStep(0, u ^ v, 0);
    Cancels(Step(c, u), Step(c, v));
  }

  /** A changed character parts the runs. */
  lemma ChangeParts(s: State, p: nat, q: nat)
    requires Open(s) && p < 95 && q < 95 && p != q
    ensures Parted(Absorb(s, p), Absorb(s, q))
  {
    hide Step, Xor, Sym;
    var a, b := Step(s.c, Sym(p % 32)), Step(s.c, Sym(q % 32));
    ChangedWord(s.c, Sym(p % 32), Sym(q % 32));
    SymIsInjective(p % 32, q % 32);
    RoomGrows(Xor(a, b), s.count + 1);
    assert a == b ==> p / 32 != q / 32;
    hide Room;
    if s.count == 2 {
      ClosingDiffers(a, b, s.group * 3 + p / 32, s.group * 3 + q / 32);
    }
  }

  lemma RoomGrows(d: Word, count: nat)
    requires d < 32 && count >= 1
    ensures d < Room(count) && d < 32768
  {
  }

  /** Equal characters never bring parted runs together. */
  lemma PartedStay(s: State, t: State, p: nat)
    requires Parted(s, t) && p < 95
    ensures Parted(Absorb(s, p), Absorb(t, p))
  {
    hide Step, Xor, Sym;
    var v := Sym(p % 32);
    var a, b := Step(s.c, v), Step(t.c, v);
    if s.group == t.group {
      if a == b {
        StepIsInjective(s.c, t.c, v);
      }
      if s.count == 2 {
        WeightInjective(a, b, s, p);
      }
    } else {
      StepsDiffer(s.c, t.c, v, v);
      SymbolCancels(v);
      SmallStep(Xor(s.c, t.c), 0, s.count);
      if s.count == 2 {
        ClosingDiffers(a, b, s.group * 3 + p / 32, t.group * 3 + p / 32);
      }
    }
  }

  lemma WeightInjective(a: Word, b: Word, s: State, p: nat)
    requires Open(s) && s.count == 2 && p < 95 && a != b
    ensures Step(a, Sym(s.group * 3 + p / 32)) != Step(b, Sym(s.group * 3 + p / 32))
  {
    hide Step, Sym;
    var v := Sym(s.group * 3 + p / 32);
    if Step(a, v) == Step(b, v) {
      StepIsInjective(a, b, v);
    }
  }

  lemma {:induction false} TailStaysParted(a: string, b: string, at: nat, k: nat)
    requires |a| == |b| && at < k <= |a| && (forall i :: 0 <= i < |a| && i != at ==> a[i] == b[i])
    requires a[at] != b[at] && AbsorbAll(a[..k]).Some? && AbsorbAll(b[..k]).Some?
    ensures Parted(AbsorbAll(a[..k]).value, AbsorbAll(b[..k]).value)
  {
    hide Parted, Absorb, Position;
    var n := k - 1;
    assert a[..k][..n] == a[..n] && b[..k][..n] == b[..n];
    AbsorbedPrefix(a, n);
    AbsorbedPrefix(b, n);
    if n == at {
      assert a[..n] == b[..n];
      PositionsDiffer(a[at], b[at]);
      ChangeParts(AbsorbAll(a[..n]).value, Position(a[n]).value, Position(b[n]).value);
    } else {
      TailStaysParted(a, b, at, n);
      PartedStay(AbsorbAll(a[..n]).value, AbsorbAll(b[..n]).value, Position(a[n]).value);
    }
  }

  lemma AbsorbedPrefix(body: string, n: nat)
    requires n < |body| && AbsorbAll(body[..n + 1]).Some?
    ensures AbsorbAll(body[..n]).Some? && Position(body[n]).Some?
    ensures AbsorbAll(body[..n + 1]) == Some(Absorb(AbsorbAll(body[..n]).value, Position(body[n]).value))
  {
    hide Absorb, Position;
    assert body[..n + 1][..n] == body[..n];
  }

  lemma {:induction false} FeedIsInjective(a: Word, b: Word, symbols: seq<Symbol>)
    requires a != b
    ensures Feed(a, symbols) != Feed(b, symbols)
  {
    hide Step;
    if symbols != [] {
      var n := |symbols| - 1;
      FeedIsInjective(a, b, symbols[..n]);
      if Step(Feed(a, symbols[..n]), symbols[n]) == Step(Feed(b, symbols[..n]), symbols[n]) {
        StepIsInjective(Feed(a, symbols[..n]), Feed(b, symbols[..n]), symbols[n]);
      }
    }
  }

  lemma PartedClose(s: State, t: State)
    requires Parted(s, t)
    ensures Close(s) != Close(t)
  {
    hide Step, Sym, Xor;
    if s.count > 0 {
      if s.group == t.group {
        if Step(s.c, Sym(s.group)) == Step(t.c, Sym(t.group)) {
          StepIsInjective(s.c, t.c, Sym(s.group));
        }
      } else {
        assert Xor(s.c, t.c) < 32768;
        ClosingDiffers(s.c, t.c, s.group, t.group);
      }
    }
  }

  // ---- Words as text ----

  lemma LowRestores(c: Word, d: Word)
    requires Rest(c) == Rest(d) && Low(c) == Low(d)
    ensures c == d
  {
  }

  /** `n` shifts by one symbol. */
  function Shifted(c: Word, n: nat): Word {
    if n == 0 then c else Shifted(Rest(c), n - 1)
  }

  lemma EightShiftsEmpty(c: Word)
    ensures Shifted(c, 8) == 0
  {
    hide Rest;
    var c4 := Rest(Rest(Rest(Rest(c))));
    assert Shifted(c, 8) == Shifted(Rest(c), 7) == Shifted(Rest(Rest(c)), 6) == Shifted(Rest(Rest(Rest(c))), 5) == Shifted(c4, 4);
    assert Shifted(c4, 4) == Shifted(Rest(c4), 3) == Shifted(Rest(Rest(c4)), 2) == Shifted(Rest(Rest(Rest(c4))), 1);
    assert Shifted(Rest(Rest(Rest(c4))), 1) == Shifted(Rest(Rest(Rest(Rest(c4)))), 0);
    AllShiftedOut(c);
  }

  lemma AllShiftedOut(c: Word)
    ensures Rest(Rest(Rest(Rest(Rest(Rest(Rest(Rest(c)))))))) == 0
  {
  }

  lemma {:induction false} LimbsDetermine(c: Word, d: Word, n: nat)
    requires Limbs(c, n) == Limbs(d, n) && Shifted(c, n) == Shifted(d, n)
    ensures c == d
  {
    if n > 0 {
      var a, b := Limbs(c, n), Limbs(d, n);
      hide Low, Rest;
      assert a[..n - 1] == Limbs(Rest(c), n - 1) && b[..n - 1] == Limbs(Rest(d), n - 1);
      assert a[n - 1] == Low(c) && b[n - 1] == Low(d);
      LimbsDetermine(Rest(c), Rest(d), n - 1);
      LowRestores(c, d);
    }
  }

  lemma SymbolsAreDistinct()
    ensures forall i, j :: 0 <= i < j < 32 ==> SYMBOLS[i] != SYMBOLS[j]
  {
  }

  lemma UnsymIsInjective(u: Symbol, v: Symbol)
    requires Unsym(u) == Unsym(v)
    ensures u == v
  {
    BitsDetermine(u, v);
  }

  lemma BitsDetermine(u: Symbol, v: Symbol)
    requires (u & 1 != 0) == (v & 1 != 0) && (u & 2 != 0) == (v & 2 != 0) && (u & 4 != 0) == (v & 4 != 0)
    requires (u & 8 != 0) == (v & 8 != 0) && (u & 16 != 0) == (v & 16 != 0)
    ensures u == v
  {
  }

  lemma TextDetermines(a: seq<Symbol>, b: seq<Symbol>)
    requires |a| == |b| && Text(a) == Text(b)
    ensures a == b
  {
    hide Unsym;
    SymbolsAreDistinct();
    forall i | 0 <= i < |a| ensures a[i] == b[i] {
      assert Text(a)[i] == Text(b)[i];
      UnsymIsInjective(a[i], b[i]);
    }
  }

  /** Changing any one character of a body of any length changes its checksum. */
  lemma OneChangeIsDetected(a: string, b: string, at: nat)
    requires |a| == |b| && at < |a| && a[at] != b[at] && (forall i :: 0 <= i < |a| && i != at ==> a[i] == b[i])
    requires Checksum(a).Some? && Checksum(b).Some?
    ensures Checksum(a) != Checksum(b)
  {
    hide Parted, Feed, Close, Text, Limbs, Shifted, Absorb, Position, Xor;
    assert a[..|a|] == a && b[..|b|] == b;
    TailStaysParted(a, b, at, |a|);
    var s, t := AbsorbAll(a).value, AbsorbAll(b).value;
    PartedClose(s, t);
    FeedIsInjective(Close(s), Close(t), Zeros(8));
    if Checksum(a) == Checksum(b) {
      TextDetermines(Limbs(Finish(s), 8), Limbs(Finish(t), 8));
      EightShiftsEmpty(Finish(s));
      EightShiftsEmpty(Finish(t));
      LimbsDetermine(Finish(s), Finish(t), 8);
      XorInjective(Feed(Close(s), Zeros(8)), Feed(Close(t), Zeros(8)), 1);
    }
  }

  // ---- The residue ----

  lemma {:induction false} FeedIsLinear(c: Word, symbols: seq<Symbol>)
    ensures Feed(c, symbols) == Xor(Feed(c, Zeros(|symbols|)), Feed(0, symbols))
  {
    hide Step, Xor;
    var n := |symbols|;
    if n == 0 {
      XorZero(c);
    } else {
      var last := symbols[n - 1];
      FeedIsLinear(c, symbols[..n - 1]);
      assert Zeros(n)[..n - 1] == Zeros(n - 1);
      StepIsLinear(Feed(c, Zeros(n - 1)), Feed(0, symbols[..n - 1]), 0, last);
      ZeroXor(last);
    }
  }

  lemma ZeroXor(v: Symbol)
    ensures 0 ^ v == v
  {
  }

  lemma Refill(c: Word)
    ensures Step(Rest(c), Low(c)) == c
  {
    hide Step, Xor, Low, Rest;
    ShortShift(c);
    ShortStep(Rest(c), Low(c));
    Rejoin(c);
  }

  lemma ShortShift(c: Word)
    ensures Rest(c) < 0x8_0000_0000
  {
  }

  lemma Rejoin(c: Word)
    ensures Xor(Rest(c) << 5, Widen(Low(c))) == c
  {
  }

  /** Feeding a word's own symbols into an empty word rebuilds it. */
  lemma {:induction false} FeedingLimbsRebuilds(c: Word, n: nat)
    requires Shifted(c, n) == 0
    ensures Feed(0, Limbs(c, n)) == c
    decreases n
  {
    hide Step, Low, Rest;
    if n > 0 {
      FeedingLimbsRebuilds(Rest(c), n - 1);
      FeedAppend(0, Limbs(Rest(c), n - 1), Low(c));
      Refill(c);
    }
  }

  /** Whatever the body, its symbols followed by the eight checksum symbols leave the constant 1. */
  lemma ResidueIsOne(c: Word)
    ensures Feed(c, Limbs(Xor(Feed(c, Zeros(8)), 1), 8)) == 1
  {
    hide Step, Xor, Feed, Limbs, Shifted;
    var z := Feed(c, Zeros(8));
    var x := Xor(z, 1);
    EightShiftsEmpty(x);
    FeedingLimbsRebuilds(x, 8);
    FeedIsLinear(c, Limbs(x, 8));
    XorTwice(z, 1);
  }

  lemma XorTwice(a: Word, b: Word)
    ensures Xor(a, Xor(a, b)) == b
  {
  }

  /** The checksum text of a body is the eight symbols that complete its word to 1. */
  lemma ChecksumCompletes(body: string)
    requires AbsorbAll(body).Some?
    ensures var s, symbols := AbsorbAll(body).value, Limbs(Finish(AbsorbAll(body).value), 8);
      Checksum(body) == Some(Text(symbols)) && Feed(Close(s), symbols) == 1
  {
    ResidueIsOne(Close(AbsorbAll(body).value));
  }

  lemma RestsAreShifts(c: Word)
    ensures Rest(c) == c >> 5 && Rest(c >> 5) == c >> 10 && Rest(c >> 10) == c >> 15 && Rest(c >> 15) == c >> 20
    ensures Rest(c >> 20) == c >> 25 && Rest(c >> 25) == c >> 30 && Rest(c >> 30) == c >> 35
  {
  }

  lemma LastLimb(c: Word, n: nat)
    requires n > 0
    ensures Limbs(c, n) == Limbs(Rest(c), n - 1) + [Low(c)]
  {
  }

  /** The symbols read off a word are its bits 35 to 39, 30 to 34 and so on down to 0 to 4. */
  lemma LimbsByShift(c: Word)
    ensures Limbs(c, 8) ==
      [Low(c >> 35), Low(c >> 30), Low(c >> 25), Low(c >> 20), Low(c >> 15), Low(c >> 10), Low(c >> 5), Low(c)]
  {
    hide Low, Rest, Limbs;
    RestsAreShifts(c);
    LastLimb(c, 8);
    LastLimb(c >> 5, 7);
    LastLimb(c >> 10, 6);
    LastLimb(c >> 15, 5);
    LastLimb(c >> 20, 4);
    LastLimb(c >> 25, 3);
    LastLimb(c >> 30, 2);
    LastLimb(c >> 35, 1);
    assert |Limbs(Rest(c >> 35), 0)| == 0;
  }
}

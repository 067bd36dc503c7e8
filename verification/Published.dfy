/** The published test vector of the checksum, computed symbol by symbol through the code that is proved about. */
module Published {
  import opened Wrappers
  import opened Checksum

  lemma {:induction false} FirstIndex(text: string, p: nat)
    requires p < |text| && text[p] !in text[..p]
    ensures IndexIn(text, text[p]) == Some(p)
  {
    if p > 0 {
      assert text[..p][0] == text[0];
      assert forall c :: c in text[1..][..p - 1] ==> c in text[..p];
      FirstIndex(text[1..], p - 1);
    }
  }

  lemma FirstSteps()
    ensures Step(0x1, 9) == 0x29
    ensures Step(0x29, 18) == 0x532
    ensures Step(0x532, 14) == 0xA64E
    ensures Step(0xA64E, 20) == 0x14C9D4
    ensures Step(0x14C9D4, 10) == 0x2993A8A
    ensures Step(0x2993A8A, 21) == 0x53275155
    ensures Step(0x53275155, 22) == 0xA64EA2AB6
    ensures Step(0xA64EA2AB6, 0) == 0xB943A04F49
    ensures Step(0xB943A04F49, 18) == 0xBB1544F79
  {
  }

  lemma MiddleSteps()
    ensures Step(0xBB1544F79, 21) == 0x83F46CF6BC
    ensures Step(0x83F46CF6BC, 19) == 0x1AC0FCB86E
    ensures Step(0x1AC0FCB86E, 0) == 0x43CB8275B
    ensures Step(0x43CB8275B, 22) == 0x879704EB76
    ensures Step(0x879704EB76, 22) == 0x96ADFF012B
    ensures Step(0x96ADFF012B, 23) == 0x180F487998
    ensures Step(0x180F487998, 0) == 0x5DCA20199B
    ensures Step(0x5DCA20199B, 11) == 0xD2619D7E8A
    ensures Step(0xD2619D7E8A, 0) == 0xB685B6EAD5
  {
  }

  lemma LastSteps()
    ensures Step(0xB685B6EAD5, 0) == 0x6AD65E562
    ensures Step(0x6AD65E562, 0) == 0xD5ACBCAC40
    ensures Step(0xD5ACBCAC40, 0) == 0x4F218CB395
    ensures Step(0x4F218CB395, 0) == 0x26E9C20C53
    ensures Step(0x26E9C20C53, 0) == 0xC69351694D
    ensures Step(0xC69351694D, 0) == 0x8121FE2127
    ensures Step(0x8121FE2127, 0) == 0x4072A64B1D
    ensures Step(0x4072A64B1D, 0) == 0x39527804DA
  {
  }

  lemma {:induction false} IndexAcross(a: string, b: string, c: char)
    requires c !in a && IndexIn(b, c).Some?
    ensures IndexIn(a + b, c) == Some(|a| + IndexIn(b, c).value)
  {
    if a == "" {
      assert a + b == b;
    } else {
      assert (a + b)[1..] == a[1..] + b;
      IndexAcross(a[1..], b, c);
    }
  }

  lemma {:induction false} IndexBefore(a: string, b: string, c: char)
    requires c in a
    ensures IndexIn(a + b, c) == IndexIn(a, c)
  {
    assert (a + b)[1..] == a[1..] + b;
    if a[0] != c {
      IndexBefore(a[1..], b, c);
    }
  }

  lemma NotInFirst()
    ensures 'r' !in FIRST && 'w' !in FIRST
  {
  }

  lemma NotInSecond()
    ensures 'r' !in SECOND && 'w' !in SECOND
  {
  }

  lemma PositionOf10()
    ensures Position('(') == Some(10)
  {
    assert FIRST[..10] == "0123456789";
    FirstIndex(FIRST, 10);
    IndexBefore(FIRST, SECOND, '(');
    IndexBefore(FIRST + SECOND, THIRD, '(');
  }

  lemma PositionOf11()
    ensures Position(')') == Some(11)
  {
    assert FIRST[..11] == "0123456789(";
    FirstIndex(FIRST, 11);
    IndexBefore(FIRST, SECOND, ')');
    IndexBefore(FIRST + SECOND, THIRD, ')');
  }

  lemma PositionOf18()
    ensures Position('a') == Some(18)
  {
    assert FIRST[..18] == "0123456789()[],'/*";
    FirstIndex(FIRST, 18);
    IndexBefore(FIRST, SECOND, 'a');
    IndexBefore(FIRST + SECOND, THIRD, 'a');
  }

  lemma PositionOf19()
    ensures Position('b') == Some(19)
  {
    assert FIRST[..19] == "0123456789()[],'/*a";
    FirstIndex(FIRST, 19);
    IndexBefore(FIRST, SECOND, 'b');
    IndexBefore(FIRST + SECOND, THIRD, 'b');
  }

  lemma PositionOf21()
    ensures Position('d') == Some(21)
  {
    assert FIRST[..21] == "0123456789()[],'/*abc";
    FirstIndex(FIRST, 21);
    IndexBefore(FIRST, SECOND, 'd');
    IndexBefore(FIRST + SECOND, THIRD, 'd');
  }

  lemma PositionOf22()
    ensures Position('e') == Some(22)
  {
    assert FIRST[..22] == "0123456789()[],'/*abcd";
    FirstIndex(FIRST, 22);
    IndexBefore(FIRST, SECOND, 'e');
    IndexBefore(FIRST + SECOND, THIRD, 'e');
  }

  lemma PositionOf23()
    ensures Position('f') == Some(23)
  {
    assert FIRST[..23] == "0123456789()[],'/*abcde";
    FirstIndex(FIRST, 23);
    IndexBefore(FIRST, SECOND, 'f');
    IndexBefore(FIRST + SECOND, THIRD, 'f');
  }

  lemma PositionOf73()
    ensures Position('r') == Some(73)
  {
    assert THIRD[..9] == "ijklmnopq";
    FirstIndex(THIRD, 9);
    NotInFirst();
    NotInSecond();
    IndexAcross(FIRST + SECOND, THIRD, 'r');
  }

  lemma PositionOf78()
    ensures Position('w') == Some(78)
  {
    assert THIRD[..14] == "ijklmnopqrstuv";
    FirstIndex(THIRD, 14);
    NotInFirst();
    NotInSecond();
    IndexAcross(FIRST + SECOND, THIRD, 'w');
  }

  lemma Positions()
    ensures Position('(') == Some(10)
    ensures Position(')') == Some(11)
    ensures Position('a') == Some(18)
    ensures Position('b') == Some(19)
    ensures Position('d') == Some(21)
    ensures Position('e') == Some(22)
    ensures Position('f') == Some(23)
    ensures Position('r') == Some(73)
    ensures Position('w') == Some(78)
  {
    PositionOf10();
    PositionOf11();
    PositionOf18();
    PositionOf19();
    PositionOf21();
    PositionOf22();
    PositionOf23();
    PositionOf73();
    PositionOf78();
    hide *;
  }

  lemma AbsorbsTo(body: string, k: nat, before: State, p: nat, after: State)
    requires k < |body| && AbsorbAll(body[..k]) == Some(before) && Open(before)
    requires Position(body[k]) == Some(p) && Absorb(before, p) == after
    ensures AbsorbAll(body[..k + 1]) == Some(after)
  {
    AbsorbNext(body, k);
  }

  lemma NothingAbsorbed()
    ensures AbsorbAll(PUBLISHED[..0]) == Some(State(1, 0, 0))
  {
    assert PUBLISHED[..0] == "";
    hide Step;
  }

  const PUBLISHED := "raw(deadbeef)"

  lemma PublishedStart()
    ensures AbsorbAll(PUBLISHED[..2]) == Some(State(0x532, 6, 2))
  {
    Positions();
    FirstSteps();
    NothingAbsorbed();
    hide Step, Position, AbsorbAll, Xor;
    assert PUBLISHED[0] == 'r';
    AbsorbsTo(PUBLISHED, 0, State(0x1, 0, 0), 73, State(0x29, 2, 1));
    assert PUBLISHED[1] == 'a';
    AbsorbsTo(PUBLISHED, 1, State(0x29, 2, 1), 18, State(0x532, 6, 2));
  }

  lemma PublishedNext()
    requires AbsorbAll(PUBLISHED[..2]) == Some(State(0x532, 6, 2))
    ensures AbsorbAll(PUBLISHED[..4]) == Some(State(0x2993A8A, 0, 1))
  {
    Positions();
    FirstSteps();
    hide Step, Position, AbsorbAll, Xor;
    assert PUBLISHED[2] == 'w';
    AbsorbsTo(PUBLISHED, 2, State(0x532, 6, 2), 78, State(0x14C9D4, 0, 0));
    assert PUBLISHED[3] == '(';
    AbsorbsTo(PUBLISHED, 3, State(0x14C9D4, 0, 0), 10, State(0x2993A8A, 0, 1));
  }

  lemma PublishedMiddle()
    requires AbsorbAll(PUBLISHED[..4]) == Some(State(0x2993A8A, 0, 1))
    ensures AbsorbAll(PUBLISHED[..9]) == Some(State(0x43CB8275B, 0, 0))
  {
    Positions();
    FirstSteps();
    MiddleSteps();
    hide Step, Position, AbsorbAll, Xor;
    assert PUBLISHED[4] == 'd';
    AbsorbsTo(PUBLISHED, 4, State(0x2993A8A, 0, 1), 21, State(0x53275155, 0, 2));
    assert PUBLISHED[5] == 'e';
    AbsorbsTo(PUBLISHED, 5, State(0x53275155, 0, 2), 22, State(0xB943A04F49, 0, 0));
    assert PUBLISHED[6] == 'a';
    AbsorbsTo(PUBLISHED, 6, State(0xB943A04F49, 0, 0), 18, State(0xBB1544F79, 0, 1));
    assert PUBLISHED[7] == 'd';
    AbsorbsTo(PUBLISHED, 7, State(0xBB1544F79, 0, 1), 21, State(0x83F46CF6BC, 0, 2));
    assert PUBLISHED[8] == 'b';
    AbsorbsTo(PUBLISHED, 8, State(0x83F46CF6BC, 0, 2), 19, State(0x43CB8275B, 0, 0));
  }

  lemma PublishedEnd()
    requires AbsorbAll(PUBLISHED[..9]) == Some(State(0x43CB8275B, 0, 0))
    ensures AbsorbAll(PUBLISHED[..13]) == Some(State(0xD2619D7E8A, 0, 1))
  {
    Positions();
    MiddleSteps();
    hide Step, Position, AbsorbAll, Xor;
    assert PUBLISHED[9] == 'e';
    AbsorbsTo(PUBLISHED, 9, State(0x43CB8275B, 0, 0), 22, State(0x879704EB76, 0, 1));
    assert PUBLISHED[10] == 'e';
    AbsorbsTo(PUBLISHED, 10, State(0x879704EB76, 0, 1), 22, State(0x96ADFF012B, 0, 2));
    assert PUBLISHED[11] == 'f';
    AbsorbsTo(PUBLISHED, 11, State(0x96ADFF012B, 0, 2), 23, State(0x5DCA20199B, 0, 0));
    assert PUBLISHED[12] == ')';
    AbsorbsTo(PUBLISHED, 12, State(0x5DCA20199B, 0, 0), 11, State(0xD2619D7E8A, 0, 1));
  }

  lemma FeedOne(c: Word, n: nat)
    requires n > 0
    ensures Feed(c, Zeros(n)) == Step(Feed(c, Zeros(n - 1)), 0)
  {
    assert Zeros(n)[..n - 1] == Zeros(n - 1);
  }

  lemma PublishedFinish()
    ensures Feed(0xB685B6EAD5, Zeros(8)) == 0x39527804DA
  {
    MiddleSteps();
    LastSteps();
    assert Zeros(0) == [];
    assert Feed(0xB685B6EAD5, Zeros(0)) == 0xB685B6EAD5;
    hide Step, Feed;
    FeedOne(0xB685B6EAD5, 1);
    FeedOne(0xB685B6EAD5, 2);
    FeedOne(0xB685B6EAD5, 3);
    FeedOne(0xB685B6EAD5, 4);
    FeedOne(0xB685B6EAD5, 5);
    FeedOne(0xB685B6EAD5, 6);
    FeedOne(0xB685B6EAD5, 7);
    FeedOne(0xB685B6EAD5, 8);
  }

  lemma PublishedLimbs()
    ensures Limbs(0x39527804DB, 8) == [7, 5, 9, 7, 16, 1, 6, 27]
  {
    assert Limbs(0, 0) == [];
    assert Rest(0x39527804DB) == 0x1CA93C026 && Low(0x39527804DB) == 27;
    assert Rest(0x1CA93C026) == 0xE549E01 && Low(0x1CA93C026) == 6;
    assert Rest(0xE549E01) == 0x72A4F0 && Low(0xE549E01) == 1;
    assert Rest(0x72A4F0) == 0x39527 && Low(0x72A4F0) == 16;
    assert Rest(0x39527) == 0x1CA9 && Low(0x39527) == 7;
    assert Rest(0x1CA9) == 0xE5 && Low(0x1CA9) == 9;
    assert Rest(0xE5) == 0x7 && Low(0xE5) == 5;
    assert Rest(0x7) == 0x0 && Low(0x7) == 7;
    assert Limbs(0x7, 1) == [7];
    assert Limbs(0xE5, 2) == [7, 5];
    assert Limbs(0x1CA9, 3) == [7, 5, 9];
    assert Limbs(0x39527, 4) == [7, 5, 9, 7];
    assert Limbs(0x72A4F0, 5) == [7, 5, 9, 7, 16];
    assert Limbs(0xE549E01, 6) == [7, 5, 9, 7, 16, 1];
    assert Limbs(0x1CA93C026, 7) == [7, 5, 9, 7, 16, 1, 6];
    assert Limbs(0x39527804DB, 8) == [7, 5, 9, 7, 16, 1, 6, 27];
  }

  lemma PublishedText()
    ensures Text([7, 5, 9, 7, 16, 1, 6, 27]) == "89f8spxm"
  {
    hide Unsym;
    PublishedSymbols();
    var text := Text([7, 5, 9, 7, 16, 1, 6, 27]);
    assert |text| == 8;
  }

  lemma PublishedSymbols()
    ensures Unsym(7) == 7 && Unsym(5) == 5 && Unsym(9) == 9 && Unsym(7) == 7 && Unsym(16) == 16 && Unsym(1) == 1 && Unsym(6) == 6 && Unsym(27) == 27
  {
  }

  lemma PublishedState()
    ensures AbsorbAll(PUBLISHED) == Some(State(0xD2619D7E8A, 0, 1))
  {
    PublishedStart();
    PublishedNext();
    PublishedMiddle();
    PublishedEnd();
    assert PUBLISHED[..13] == PUBLISHED;
    hide *;
  }

  lemma PublishedClose()
    ensures Finish(State(0xD2619D7E8A, 0, 1)) == 0x39527804DB
  {
    MiddleSteps();
    PublishedFinish();
    assert Xor(0x39527804DA, 1) == 0x39527804DB;
    hide Step, Feed, Xor;
  }

  /** The first test vector of BIP 380, section "Test Vectors". */
  lemma PublishedChecksum()
    ensures Checksum.Checksum(PUBLISHED) == Some("89f8spxm")
  {
    PublishedState();
    PublishedClose();
    PublishedLimbs();
    PublishedText();
    hide AbsorbAll, Limbs, Finish, Text;
  }
}

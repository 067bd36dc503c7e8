/**
 * The abbreviated descriptor that labels carry. It names the account keys by master
 * fingerprint and path only, in one canonical spelling.
 */
module Origins {
  import opened Wrappers
  import opened ByteStrings
  import opened Texts
  import Amount
  import LabelFiles

  const MAX_TEXT: nat := 1024

  type Fingerprint = b: Bytes | |b| == 4 witness [0, 0, 0, 0]

  type Index = n: nat | n < 0x8000_0000

  datatype Child = Child(index: Index, hardened: bool)
  datatype KeyOrigin = KeyOrigin(fingerprint: Fingerprint, path: seq<Child>)

  /** The library's readers of a fingerprint and of a path; they accept more spellings than one. */
  datatype Reader = Reader(fingerprint: string -> Option<Fingerprint>, path: string -> Option<seq<Child>>)

  // ---- The canonical spelling ----

  function HexDigit(d: nat): (c: char)
    requires d < 16
    ensures '0' <= c <= '9' || 'a' <= c <= 'f'
  {
    if d < 10 then DigitChar(d) else ('a' as int + d - 10) as char
  }

  function HexText(bytes: Bytes): string {
    if bytes == [] then "" else [HexDigit(bytes[0] / 16), HexDigit(bytes[0] % 16)] + HexText(bytes[1..])
  }

  function ChildText(child: Child): string {
    Decimal(child.index) + if child.hardened then "'" else ""
  }

  function PathText(path: seq<Child>): string {
    if path == [] then ""
    else if |path| == 1 then ChildText(path[0])
    else ChildText(path[0]) + "/" + PathText(path[1..])
  }

  function KeyText(origin: KeyOrigin): string {
    "[" + HexText(origin.fingerprint) + "/" + PathText(origin.path) + "]"
  }

  /** What is written reads back. */
  ghost predicate ReadsBack(reader: Reader) {
    && (forall f: Fingerprint :: reader.fingerprint(HexText(f)) == Some(f))
    && (forall p: seq<Child> :: reader.path(PathText(p)) == Some(p))
  }

  function Each<A, B>(f: A -> B, s: seq<A>): (r: seq<B>)
    ensures |r| == |s| && forall i :: 0 <= i < |s| ==> r[i] == f(s[i])
  {
    seq(|s|, i requires 0 <= i < |s| => f(s[i]))
  }

  function KeyTexts(origins: seq<KeyOrigin>): seq<string> {
    Each(KeyText, origins)
  }

  // ---- Text order ----

  predicate TextLeq(a: string, b: string) {
    if a == "" then true
    else if b == "" then false
    else if a[0] != b[0] then a[0] < b[0]
    else TextLeq(a[1..], b[1..])
  }

  lemma {:induction false} TextOrder(a: string, b: string, c: string)
    ensures TextLeq(a, b) || TextLeq(b, a)
    ensures TextLeq(a, b) && TextLeq(b, a) ==> a == b
    ensures TextLeq(a, b) && TextLeq(b, c) ==> TextLeq(a, c)
  {
    if a != "" && b != "" {
      TextOrder(a[1..], b[1..], if c == "" then "" else c[1..]);
      assert a == [a[0]] + a[1..] && b == [b[0]] + b[1..];
    }
  }

  function InsertText(x: string, sorted: seq<string>): (r: seq<string>)
    ensures multiset(r) == multiset(sorted) + multiset{x}
    ensures |r| == |sorted| + 1
  {
    if sorted == [] then [x]
    else if TextLeq(x, sorted[0]) then [x] + sorted
    else
      assert sorted == [sorted[0]] + sorted[1..];
      [sorted[0]] + InsertText(x, sorted[1..])
  }

  function SortTexts(texts: seq<string>): (r: seq<string>)
    ensures multiset(r) == multiset(texts) && |r| == |texts|
  {
    if texts == [] then []
    else
      assert texts == [texts[0]] + texts[1..];
      InsertText(texts[0], SortTexts(texts[1..]))
  }

  predicate InOrder(texts: seq<string>) {
    forall i | 0 < i < |texts| :: TextLeq(texts[i - 1], texts[i])
  }

  lemma {:induction false} InsertKeepsOrder(x: string, sorted: seq<string>)
    requires InOrder(sorted)
    ensures InOrder(InsertText(x, sorted))
  {
    if sorted != [] && !TextLeq(x, sorted[0]) {
      TextOrder(x, sorted[0], x);
      var rest := sorted[1..];
      forall i | 0 < i < |rest| ensures TextLeq(rest[i - 1], rest[i]) {
        assert TextLeq(sorted[i], sorted[i + 1]);
      }
      InsertKeepsOrder(x, rest);
      var inserted := InsertText(x, rest);
      assert inserted[0] == x || (|sorted| > 1 && inserted[0] == sorted[1]);
    }
  }

  lemma {:induction false} SortOrders(texts: seq<string>)
    ensures InOrder(SortTexts(texts))
  {
    if texts != [] {
      SortOrders(texts[1..]);
      InsertKeepsOrder(texts[0], SortTexts(texts[1..]));
    }
  }

  lemma {:induction false} FirstIsLeast(texts: seq<string>, i: nat)
    requires InOrder(texts) && i < |texts|
    ensures TextLeq(texts[0], texts[i])
  {
    TextOrder(texts[0], texts[0], texts[0]);
    if i > 0 {
      FirstIsLeast(texts, i - 1);
      TextOrder(texts[0], texts[i - 1], texts[i]);
    }
  }

  lemma TailInOrder(texts: seq<string>)
    requires InOrder(texts) && texts != []
    ensures InOrder(texts[1..]) && multiset(texts[1..]) == multiset(texts) - multiset{texts[0]}
  {
    assert texts == [texts[0]] + texts[1..];
    forall i | 0 < i < |texts| - 1 ensures TextLeq(texts[1..][i - 1], texts[1..][i]) {
      assert TextLeq(texts[i], texts[i + 1]);
    }
  }

  lemma {:induction false} OrderIsUnique(a: seq<string>, b: seq<string>)
    requires InOrder(a) && InOrder(b) && multiset(a) == multiset(b)
    ensures a == b
  {
    assert |multiset(a)| == |a| && |multiset(b)| == |b|;
    if a != [] {
      assert a[0] in multiset(b) && b[0] in multiset(a);
      var i :| 0 <= i < |b| && b[i] == a[0];
      var j :| 0 <= j < |a| && a[j] == b[0];
      FirstIsLeast(b, i);
      FirstIsLeast(a, j);
      TextOrder(a[0], b[0], a[0]);
      TailInOrder(a);
      TailInOrder(b);
      OrderIsUnique(a[1..], b[1..]);
    }
  }

  /** The source's test of neighbours finds every repetition, because the texts are sorted. */
  predicate NeighboursDiffer(texts: seq<string>) {
    forall i | 0 < i < |texts| :: texts[i - 1] != texts[i]
  }

  ghost predicate AllDiffer<T(!new)>(s: seq<T>) {
    forall i, j :: 0 <= i < j < |s| ==> s[i] != s[j]
  }

  lemma {:induction false} NeighboursDecide(texts: seq<string>)
    requires InOrder(texts)
    ensures NeighboursDiffer(texts) <==> AllDiffer(texts)
  {
    if texts != [] {
      var rest := texts[1..];
      TailInOrder(texts);
      NeighboursDecide(rest);
      if NeighboursDiffer(texts) {
        forall i | 0 < i < |rest| ensures rest[i - 1] != rest[i] {
          assert texts[i] != texts[i + 1];
        }
        forall i, j | 0 <= i < j < |texts| ensures texts[i] != texts[j] {
          if i > 0 {
            assert rest[i - 1] != rest[j - 1];
          } else if j > 1 {
            FirstIsLeast(rest, j - 1);
            TextOrder(texts[0], texts[1], texts[0]);
          }
        }
      }
    }
  }

  lemma DifferByMultiset<T(!new)>(a: seq<T>, b: seq<T>)
    requires multiset(a) == multiset(b)
    ensures AllDiffer(a) <==> AllDiffer(b)
  {
    DifferMeansOnce(a);
    DifferMeansOnce(b);
  }

  lemma {:induction false} DifferMeansOnce<T(!new)>(s: seq<T>)
    ensures AllDiffer(s) <==> forall x :: multiset(s)[x] <= 1
  {
    if s != [] {
      var n := |s| - 1;
      var shorter := s[..n];
      assert s == shorter + [s[n]];
      DifferMeansOnce(shorter);
      if AllDiffer(s) {
        assert s[n] !in shorter;
      } else if forall x :: multiset(s)[x] <= 1 {
        assert forall x :: multiset(shorter)[x] <= multiset(s)[x];
        assert multiset(s)[s[n]] == multiset(shorter)[s[n]] + 1;
        assert s[n] !in multiset(shorter);
        assert forall i :: 0 <= i < n ==> shorter[i] in multiset(shorter);
      }
    }
  }

  // ---- Writing and reading ----

  function Join(parts: seq<string>): string {
    if parts == [] then ""
    else if |parts| == 1 then parts[0]
    else parts[0] + "," + Join(parts[1..])
  }

  function Split(s: string): (r: seq<string>)
    ensures r != []
  {
    if s == "" then [""]
    else if s[0] == ',' then [""] + Split(s[1..])
    else
      var rest := Split(s[1..]);
      [[s[0]] + rest[0]] + rest[1..]
  }

  function SplitSlash(s: string): Option<(string, string)> {
    if s == "" then None
    else if s[0] == '/' then Some(("", s[1..]))
    else
      match SplitSlash(s[1..])
      case None => None
      case Some((left, right)) => Some(([s[0]] + left, right))
  }

  function StripPrefix(s: string, prefix: string): Option<string> {
    if |prefix| <= |s| && s[..|prefix|] == prefix then Some(s[|prefix|..]) else None
  }

  function StripSuffix(s: string, suffix: string): Option<string> {
    if |suffix| <= |s| && s[|s| - |suffix|..] == suffix then Some(s[..|s| - |suffix|]) else None
  }

  function StripBoth(s: string, prefix: string, suffix: string): Option<string> {
    match StripPrefix(s, prefix) case None => None case Some(rest) => StripSuffix(rest, suffix)
  }

  const SINGLE := "wpkh("
  const MULTI := "wsh(sortedmulti(2,"

  /** The wallet's own origin; a policy has one key or three. */
  function LabelOrigin(multi: bool, origins: seq<KeyOrigin>): Option<string> {
    var texts := SortTexts(KeyTexts(origins));
    if !multi && |texts| == 1 then Some(SINGLE + texts[0] + ")")
    else if multi && |texts| == 3 then Some(MULTI + Join(texts) + "))")
    else None
  }

  function ReadKey(reader: Reader, text: string): Option<KeyOrigin> {
    match StripBoth(text, "[", "]")
    case None => None
    case Some(key) =>
      match SplitSlash(key)
      case None => None
      case Some((left, right)) =>
        match (reader.fingerprint(left), reader.path(right))
        case (Some(fingerprint), Some(path)) => if path == [] then None else Some(KeyOrigin(fingerprint, path))
        case (_, _) => None
  }

  function ReadKeys(reader: Reader, parts: seq<string>): (r: Option<seq<KeyOrigin>>)
    ensures r.Some? <==> forall i :: 0 <= i < |parts| ==> ReadKey(reader, parts[i]).Some?
    ensures r.Some? ==> |r.value| == |parts| && forall i :: 0 <= i < |parts| ==> ReadKey(reader, parts[i]) == Some(r.value[i])
  {
    if parts == [] then Some([])
    else
      var n := |parts| - 1;
      match (ReadKeys(reader, parts[..n]), ReadKey(reader, parts[n]))
      case (Some(front), Some(last)) => Some(front + [last])
      case (_, _) => None
  }

  function Body(text: string): Option<(string, bool)> {
    match StripBoth(text, SINGLE, ")")
    case Some(body) => Some((body, false))
    case None =>
      match StripBoth(text, MULTI, "))")
      case Some(body) => Some((body, true))
      case None => None
  }

  function CharSize(c: char): nat {
    if c < '\U{80}' then 1 else if c < '\U{800}' then 2 else if c < '\U{10000}' then 3 else 4
  }

  /** Bytes of UTF-8. */
  function Size(s: string): nat {
    if s == "" then 0 else Size(s[..|s| - 1]) + CharSize(s[|s| - 1])
  }

  predicate WithinLimits(text: string) {
    Size(text) <= MAX_TEXT && forall i | 0 <= i < |text| :: !Amount.IsSpace(text[i])
  }

  /** The shape and the keys that a text names, whatever their order and spelling. */
  function Named(reader: Reader, text: string): Option<(bool, seq<KeyOrigin>)> {
    match Body(text)
    case None => None
    case Some((body, multi)) =>
      match ReadKeys(reader, Split(body))
      case None => None
      case Some(origins) => Some((multi, origins))
  }

  function Normalize(reader: Reader, text: string): Option<string> {
    if !WithinLimits(text) then None
    else
      match Named(reader, text)
      case None => None
      case Some((multi, origins)) =>
        if NeighboursDiffer(SortTexts(KeyTexts(origins))) then LabelOrigin(multi, origins) else None
  }

  /** The loop over the keys of a text, each rewritten in the canonical spelling. */
  method ReadTexts(reader: Reader, parts: seq<string>) returns (r: Option<seq<string>>)
    ensures r == match ReadKeys(reader, parts) case None => None case Some(origins) => Some(KeyTexts(origins))
  {
    var texts: seq<string> := [];
    ghost var origins: seq<KeyOrigin> := [];
    hide ReadKey, KeyText;
    for i := 0 to |parts|
      invariant ReadKeys(reader, parts[..i]) == Some(origins)
      invariant texts == KeyTexts(origins)
    {
      assert parts[..i + 1][..i] == parts[..i];
      var read := ReadKey(reader, parts[i]);
      if read.None? {
        return None;
      }
      origins := origins + [read.value];
      texts := texts + [KeyText(read.value)];
    }
    assert parts[..|parts|] == parts;
    return Some(texts);
  }

  method NormalizeLabelOrigin(reader: Reader, text: string) returns (r: Option<string>)
    ensures r == Normalize(reader, text)
  {
    hide WithinLimits, Body, ReadKeys, KeyTexts, Split, Join;
    if !WithinLimits(text) {
      return None;
    }
    var found := Body(text);
    if found.None? {
      return None;
    }
    var (body, multi) := found.value;
    var texts := ReadTexts(reader, Split(body));
    if texts.None? {
      return None;
    }
    var sorted := SortTexts(texts.value);
    if !NeighboursDiffer(sorted) {
      return None;
    }
    if !multi && |sorted| == 1 {
      return Some(SINGLE + sorted[0] + ")");
    }
    if multi && |sorted| == 3 {
      return Some(MULTI + Join(sorted) + "))");
    }
    return None;
  }

  // ---- Texts taken apart ----

  lemma StripInverts(prefix: string, body: string, suffix: string)
    ensures StripBoth(prefix + body + suffix, prefix, suffix) == Some(body)
  {
    var text := prefix + body + suffix;
    assert text[..|prefix|] == prefix;
    var rest := text[|prefix|..];
    assert rest == body + suffix;
    assert rest[|rest| - |suffix|..] == suffix && rest[..|rest| - |suffix|] == body;
  }

  lemma BodyOf(body: string)
    ensures Body(SINGLE + body + ")") == Some((body, false))
    ensures Body(MULTI + body + "))") == Some((body, true))
  {
    StripInverts(SINGLE, body, ")");
    StripInverts(MULTI, body, "))");
    var text := MULTI + body + "))";
    assert text[1] == 's' && SINGLE[1] == 'p';
    assert text[..|SINGLE|][1] == 's';
  }

  lemma {:induction false} SplitFirst(part: string, rest: string)
    requires ',' !in part
    ensures Split(part) == [part]
    ensures Split(part + "," + rest) == [part] + Split(rest)
  {
    var text := part + "," + rest;
    if part == "" {
      assert text[1..] == rest;
    } else {
      SplitFirst(part[1..], rest);
      assert text[1..] == part[1..] + "," + rest;
      assert [part[0]] + part[1..] == part;
    }
  }

  lemma {:induction false} SplitJoin(parts: seq<string>)
    requires parts != [] && forall i :: 0 <= i < |parts| ==> ',' !in parts[i]
    ensures Split(Join(parts)) == parts
  {
    SplitFirst(parts[0], Join(parts[1..]));
    if |parts| > 1 {
      SplitJoin(parts[1..]);
    }
  }

  lemma {:induction false} SplitSlashFirst(left: string, right: string)
    requires '/' !in left
    ensures SplitSlash(left + "/" + right) == Some((left, right))
  {
    var text := left + "/" + right;
    if left == "" {
      assert text[1..] == right;
    } else {
      SplitSlashFirst(left[1..], right);
      assert text[1..] == left[1..] + "/" + right;
      assert left[0] in left && [left[0]] + left[1..] == left;
    }
  }

  predicate Plain(s: string) {
    forall c | c in s :: '0' <= c <= '9' || 'a' <= c <= 'f' || c == '\'' || c == '/'
  }

  /** ASCII without space and controls. */
  predicate Visible(s: string) {
    forall c | c in s :: '!' <= c <= '~'
  }

  lemma {:induction false} HexIsPlain(bytes: Bytes)
    ensures Plain(HexText(bytes)) && '/' !in HexText(bytes) && |HexText(bytes)| == 2 * |bytes|
  {
    if bytes != [] {
      HexIsPlain(bytes[1..]);
      hide HexDigit;
    }
  }

  lemma {:induction false} PathIsPlain(path: seq<Child>)
    ensures Plain(PathText(path))
  {
    if |path| > 1 {
      PathIsPlain(path[1..]);
    }
  }

  lemma KeyIsVisible(origin: KeyOrigin)
    ensures Visible(KeyText(origin)) && ',' !in KeyText(origin)
  {
    HexIsPlain(origin.fingerprint);
    PathIsPlain(origin.path);
  }

  lemma KeyReadsBack(reader: Reader, origin: KeyOrigin)
    requires ReadsBack(reader)
    ensures ReadKey(reader, KeyText(origin)) == if origin.path == [] then None else Some(origin)
  {
    var left, right := HexText(origin.fingerprint), PathText(origin.path);
    HexIsPlain(origin.fingerprint);
    assert KeyText(origin) == "[" + (left + "/" + right) + "]";
    StripInverts("[", left + "/" + right, "]");
    SplitSlashFirst(left, right);
  }

  // ---- What normalization decides ----

  lemma EachJoins<A(!new), B(!new)>(f: A -> B, a: seq<A>, b: seq<A>)
    ensures Each(f, a + b) == Each(f, a) + Each(f, b)
  {
  }

  /** One element taken out of a sequence, wherever it stands. */
  lemma TakeOut<A(!new), B(!new)>(f: A -> B, s: seq<A>, j: nat)
    requires j < |s|
    ensures var rest := s[..j] + s[j + 1..];
      && multiset(rest) == multiset(s) - multiset{s[j]}
      && multiset(Each(f, s)) == multiset(Each(f, rest)) + multiset{f(s[j])}
  {
    var front, back := s[..j], s[j + 1..];
    assert s == front + ([s[j]] + back);
    EachJoins(f, front, [s[j]] + back);
    EachJoins(f, [s[j]], back);
    EachJoins(f, front, back);
    assert Each(f, [s[j]]) == [f(s[j])];
  }

  lemma {:induction false} EachPermutes<A(!new), B(!new)>(f: A -> B, a: seq<A>, b: seq<A>)
    requires multiset(a) == multiset(b)
    ensures multiset(Each(f, a)) == multiset(Each(f, b))
  {
    assert |multiset(a)| == |a| && |multiset(b)| == |b|;
    if a != [] {
      assert a[0] in multiset(b);
      var j :| 0 <= j < |b| && b[j] == a[0];
      TakeOut(f, a, 0);
      TakeOut(f, b, j);
      hide Each;
      EachPermutes(f, a[..0] + a[1..], b[..j] + b[j + 1..]);
    }
  }

  function KeyOf(reader: Reader, text: string): KeyOrigin {
    match ReadKey(reader, text) case Some(origin) => origin case None => KeyOrigin([0, 0, 0, 0], [])
  }

  predicate Located(origins: seq<KeyOrigin>) {
    forall i | 0 <= i < |origins| :: origins[i].path != []
  }

  lemma KeysOfTexts(reader: Reader, origins: seq<KeyOrigin>)
    requires ReadsBack(reader) && Located(origins)
    ensures Each(t => KeyOf(reader, t), KeyTexts(origins)) == origins
  {
    hide ReadKey, KeyText, ReadsBack;
    var read := Each(t => KeyOf(reader, t), KeyTexts(origins));
    forall i | 0 <= i < |origins| ensures read[i] == origins[i] {
      KeyReadsBack(reader, origins[i]);
    }
  }

  lemma SortedAreRead(reader: Reader, origins: seq<KeyOrigin>)
    requires ReadsBack(reader) && Located(origins)
    ensures var texts := SortTexts(KeyTexts(origins));
      && (forall i :: 0 <= i < |texts| ==> ',' !in texts[i] && Visible(texts[i]))
      && ReadKeys(reader, texts).Some? && multiset(ReadKeys(reader, texts).value) == multiset(origins)
  {
    hide ReadKey, KeyText, Visible, ReadsBack;
    var texts := SortTexts(KeyTexts(origins));
    forall i | 0 <= i < |texts|
      ensures ',' !in texts[i] && Visible(texts[i]) && ReadKey(reader, texts[i]) == Some(KeyOf(reader, texts[i]))
    {
      assert texts[i] in multiset(KeyTexts(origins));
      var j :| 0 <= j < |origins| && KeyTexts(origins)[j] == texts[i];
      KeyIsVisible(origins[j]);
      KeyReadsBack(reader, origins[j]);
    }
    KeysOfTexts(reader, origins);
    EachPermutes(t => KeyOf(reader, t), texts, KeyTexts(origins));
    assert ReadKeys(reader, texts).value == Each(t => KeyOf(reader, t), texts);
  }

  /** The wallet's origin names the wallet's keys. */
  lemma OwnIsNamed(reader: Reader, multi: bool, origins: seq<KeyOrigin>)
    requires ReadsBack(reader) && Located(origins) && LabelOrigin(multi, origins).Some?
    ensures var named := Named(reader, LabelOrigin(multi, origins).value);
      named.Some? && named.value.0 == multi && multiset(named.value.1) == multiset(origins)
  {
    var texts := SortTexts(KeyTexts(origins));
    SortedAreRead(reader, origins);
    BodyOf(Join(texts));
    SplitJoin(texts);
    OwnBody(multi, origins);
    NamedFrom(reader, LabelOrigin(multi, origins).value, Join(texts), multi);
    hide *;
  }

  lemma NamedFrom(reader: Reader, text: string, body: string, multi: bool)
    requires Body(text) == Some((body, multi)) && ReadKeys(reader, Split(body)).Some?
    ensures Named(reader, text) == Some((multi, ReadKeys(reader, Split(body)).value))
  {
    hide Body, ReadKeys, Split;
  }

  lemma OwnBody(multi: bool, origins: seq<KeyOrigin>)
    requires LabelOrigin(multi, origins).Some?
    ensures var texts := SortTexts(KeyTexts(origins));
      && texts != []
      && LabelOrigin(multi, origins).value == if multi then MULTI + Join(texts) + "))" else SINGLE + Join(texts) + ")"
  {
    hide SortTexts, KeyTexts;
  }

  lemma PermutedLabel(multi: bool, a: seq<KeyOrigin>, b: seq<KeyOrigin>)
    requires multiset(a) == multiset(b)
    ensures LabelOrigin(multi, a) == LabelOrigin(multi, b)
    ensures multiset(KeyTexts(a)) == multiset(KeyTexts(b))
  {
    EachPermutes(KeyText, a, b);
    SortOrders(KeyTexts(a));
    SortOrders(KeyTexts(b));
    OrderIsUnique(SortTexts(KeyTexts(a)), SortTexts(KeyTexts(b)));
  }

  lemma TextsDiffer(reader: Reader, origins: seq<KeyOrigin>)
    requires ReadsBack(reader) && Located(origins) && AllDiffer(origins)
    ensures NeighboursDiffer(SortTexts(KeyTexts(origins)))
  {
    hide KeyOf, ReadsBack, KeyText;
    var texts := KeyTexts(origins);
    KeysOfTexts(reader, origins);
    assert AllDiffer(texts) by {
      forall i, j | 0 <= i < j < |texts| ensures texts[i] != texts[j] {
        assert KeyOf(reader, texts[i]) == origins[i] && KeyOf(reader, texts[j]) == origins[j];
      }
    }
    DifferByMultiset(texts, SortTexts(texts));
    SortOrders(texts);
    NeighboursDecide(SortTexts(texts));
  }

  /** A text stands for the wallet's origin exactly when it names the wallet's keys, in any order and any spelling. */
  lemma NormalizeIsExact(reader: Reader, text: string, multi: bool, origins: seq<KeyOrigin>)
    requires ReadsBack(reader) && Located(origins) && AllDiffer(origins) && LabelOrigin(multi, origins).Some?
    ensures Normalize(reader, text) == LabelOrigin(multi, origins) <==>
      && WithinLimits(text) && Named(reader, text).Some?
      && Named(reader, text).value.0 == multi && multiset(Named(reader, text).value.1) == multiset(origins)
  {
    if WithinLimits(text) && Named(reader, text).Some? {
      var (shape, read) := Named(reader, text).value;
      NamedAreLocated(reader, text);
      hide Named, LabelOrigin, ReadsBack, WithinLimits, KeyTexts;
      if Normalize(reader, text) == LabelOrigin(multi, origins) {
        OwnIsNamed(reader, multi, origins);
        OwnIsNamed(reader, shape, read);
      }
      if shape == multi && multiset(read) == multiset(origins) {
        PermutedLabel(multi, read, origins);
        DifferByMultiset(read, origins);
        TextsDiffer(reader, read);
      }
    }
  }

  /** A text that names one key twice is refused, whatever else it names. */
  lemma RepeatedIsRefused(reader: Reader, text: string)
    requires Named(reader, text).Some? && !AllDiffer(Named(reader, text).value.1)
    ensures Normalize(reader, text).None?
  {
    var origins := Named(reader, text).value.1;
    var texts := KeyTexts(origins);
    hide Named, WithinLimits, LabelOrigin, KeyText;
    var i, j :| 0 <= i < j < |origins| && origins[i] == origins[j];
    assert texts[i] == texts[j];
    DifferByMultiset(texts, SortTexts(texts));
    SortOrders(texts);
    NeighboursDecide(SortTexts(texts));
  }

  lemma NamedAreLocated(reader: Reader, text: string)
    requires Named(reader, text).Some?
    ensures Located(Named(reader, text).value.1)
  {
    hide Body, Split;
    var parts := Split(Body(text).value.0);
    forall i | 0 <= i < |parts| ensures Named(reader, text).value.1[i].path != [] {
      assert ReadKey(reader, parts[i]).Some?;
    }
  }

  // ---- The wallet's own exports ----

  lemma {:induction false} VisibleSize(s: string)
    requires Visible(s)
    ensures Size(s) == |s| && forall i :: 0 <= i < |s| ==> !Amount.IsSpace(s[i])
  {
    if s != "" {
      var n := |s| - 1;
      assert forall i :: 0 <= i < n ==> s[..n][i] == s[i] && s[i] in s;
      assert s[n] in s;
      VisibleSize(s[..n]);
    }
  }

  lemma {:induction false} JoinIsVisible(parts: seq<string>)
    requires forall i :: 0 <= i < |parts| ==> Visible(parts[i])
    ensures Visible(Join(parts))
  {
    if |parts| > 1 {
      JoinIsVisible(parts[1..]);
    }
  }

  lemma FrameIsVisible(body: string)
    requires Visible(body)
    ensures Visible(SINGLE + body + ")") && Visible(MULTI + body + "))")
  {
  }

  lemma OriginIsVisible(reader: Reader, multi: bool, origins: seq<KeyOrigin>)
    requires ReadsBack(reader) && Located(origins) && LabelOrigin(multi, origins).Some?
    ensures Visible(LabelOrigin(multi, origins).value)
  {
    SortedAreRead(reader, origins);
    var texts := SortTexts(KeyTexts(origins));
    JoinIsVisible(texts);
    OwnBody(multi, origins);
    FrameIsVisible(Join(texts));
    hide *;
  }

  /** The wallet reads its own origin back exactly when it spells within 1,024 bytes. */
  lemma OwnOriginIsRead(reader: Reader, multi: bool, origins: seq<KeyOrigin>)
    requires ReadsBack(reader) && Located(origins) && AllDiffer(origins) && LabelOrigin(multi, origins).Some?
    ensures var own := LabelOrigin(multi, origins).value; Normalize(reader, own) == Some(own) <==> |own| <= MAX_TEXT
  {
    var own := LabelOrigin(multi, origins).value;
    NormalizeIsExact(reader, own, multi, origins);
    OwnIsNamed(reader, multi, origins);
    OriginIsVisible(reader, multi, origins);
    VisibleSize(own);
    hide Normalize, Named, LabelOrigin, ReadsBack;
  }

  /** The label files of a wallet with these account keys. */
  ghost predicate IsWallet(reader: Reader, multi: bool, origins: seq<KeyOrigin>, w: LabelFiles.Wallet) {
    && LabelOrigin(multi, origins) == Some(w.origin)
    && (forall text :: w.normalize(text) == Normalize(reader, text)) && (forall text :: w.size(text) == Size(text))
  }

  /** Exports come back under exactly that bound: beyond it no row of an export can be read. */
  lemma OwnExportIsRead(reader: Reader, multi: bool, origins: seq<KeyOrigin>, w: LabelFiles.Wallet)
    requires ReadsBack(reader) && Located(origins) && AllDiffer(origins) && IsWallet(reader, multi, origins, w)
    ensures LabelFiles.SamePolicy(w, w) <==> |w.origin| <= MAX_TEXT
    ensures |w.origin| > MAX_TEXT ==>
      forall m, key :: LabelFiles.ParseLine(w, Some(LabelFiles.FieldsOf(LabelFiles.ExportedRow(w, m, key)))).Err?
  {
    OwnOriginIsRead(reader, multi, origins);
    OriginIsVisible(reader, multi, origins);
    VisibleSize(w.origin);
    hide Normalize, LabelOrigin, ReadsBack, Visible, Size;
    if |w.origin| > MAX_TEXT {
      forall m, key ensures LabelFiles.ParseLine(w, Some(LabelFiles.FieldsOf(LabelFiles.ExportedRow(w, m, key)))).Err? {
        LabelFiles.FieldsContain(LabelFiles.ExportedRow(w, m, key));
        hide LabelFiles.FieldsOf, LabelFiles.ParseTag, LabelFiles.ParseSpendable;
      }
    }
  }

  // ---- Deep accounts ----

  /** An account as many levels below its master key as an extended key can say. */
  function Deep(last: byte): KeyOrigin {
    KeyOrigin([0, 0, 0, last], Level(255))
  }

  function Level(n: nat): seq<Child> {
    seq(n, _ => Child(0, false))
  }

  lemma {:induction false} LevelLength(n: nat)
    ensures |PathText(Level(n + 1))| == 2 * n + 1
  {
    if n > 0 {
      assert Level(n + 1)[1..] == Level(n);
      LevelLength(n - 1);
    }
  }

  lemma DeepLength(last: byte)
    ensures |KeyText(Deep(last))| == 520
  {
    LevelLength(254);
    HexIsPlain(Deep(last).fingerprint);
  }

  lemma DeepDiffer(a: byte, b: byte)
    requires a != b
    ensures Deep(a) != Deep(b) && Deep(a).path != []
  {
    hide Level;
    assert Deep(a).fingerprint[3] == a && Deep(b).fingerprint[3] == b;
    assert |Level(255)| == 255 by { LevelSize(255); }
  }

  lemma LevelSize(n: nat)
    ensures |Level(n)| == n
  {
  }

  lemma ThreeDiffer(a: KeyOrigin, b: KeyOrigin, c: KeyOrigin)
    requires a != b && a != c && b != c && a.path != [] && b.path != [] && c.path != []
    ensures AllDiffer([a, b, c]) && Located([a, b, c])
  {
  }

  ghost predicate IsDeep(origin: KeyOrigin) {
    exists last :: origin == Deep(last)
  }

  /** Three such accounts are a wallet whose origin is beyond the bound. */
  lemma DeepAccounts()
    ensures var origins := [Deep(0), Deep(1), Deep(2)];
      && AllDiffer(origins) && Located(origins) && LabelOrigin(true, origins).Some?
      && |LabelOrigin(true, origins).value| > MAX_TEXT
  {
    DeepDiffer(0, 1);
    DeepDiffer(0, 2);
    DeepDiffer(1, 2);
    DeepDiffer(2, 0);
    assert IsDeep(Deep(0)) && IsDeep(Deep(1)) && IsDeep(Deep(2));
    hide *;
    ThreeDiffer(Deep(0), Deep(1), Deep(2));
    DeepLabel(Deep(0), Deep(1), Deep(2));
  }

  lemma DeepLabel(a: KeyOrigin, b: KeyOrigin, c: KeyOrigin)
    requires IsDeep(a) && IsDeep(b) && IsDeep(c)
    ensures LabelOrigin(true, [a, b, c]).Some? && |LabelOrigin(true, [a, b, c]).value| > MAX_TEXT
  {
    hide IsDeep, KeyText, SortTexts, KeyTexts, Join;
    LongTexts([a, b, c]);
    assert |SortTexts(KeyTexts([a, b, c]))| == 3 by { ThreeTexts([a, b, c]); }
  }

  lemma ThreeTexts(origins: seq<KeyOrigin>)
    ensures |SortTexts(KeyTexts(origins))| == |origins|
  {
    hide SortTexts, KeyText;
  }

  lemma LongTexts(origins: seq<KeyOrigin>)
    requires |origins| == 3 && forall i :: 0 <= i < 3 ==> IsDeep(origins[i])
    ensures |Join(SortTexts(KeyTexts(origins)))| > 1500
  {
    hide KeyText, SortTexts, Deep;
    var texts := SortTexts(KeyTexts(origins));
    forall i | 0 <= i < 3 ensures |texts[i]| == 520 {
      assert texts[i] in multiset(KeyTexts(origins));
      var j :| 0 <= j < 3 && texts[i] == KeyTexts(origins)[j];
      var last :| origins[j] == Deep(last);
      DeepLength(last);
    }
    assert |Join(texts[1..])| > 1000;
  }
}

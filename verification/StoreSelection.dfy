/** The selector file: one header line and the generation it names. */
module StoreSelection {
  import opened Wrappers

  const HEADER := "Tundra store v1\n"
  const READ_LIMIT: nat := 65

  predicate IsAlphanumeric(c: char) {
    'a' <= c <= 'z' || 'A' <= c <= 'Z' || '0' <= c <= '9'
  }

  predicate ValidGeneration(g: string) {
    |g| == 22 && g[..6] == "store-" && forall i | 6 <= i < 22 :: IsAlphanumeric(g[i])
  }

  predicate Nameable(g: string) {
    g == "default" || ValidGeneration(g)
  }

  function SelectorText(g: string): string {
    HEADER + g + "\n"
  }

  /** At most 65 bytes are read; what does not name a generation exactly is refused. */
  function ParseSelector(file: string): Option<string> {
    var text := if |file| > READ_LIMIT then file[..READ_LIMIT] else file;
    if |text| <= |HEADER| || text[..|HEADER|] != HEADER || text[|text| - 1] != '\n' then None
    else
      var g := text[|HEADER|..|text| - 1];
      if Nameable(g) then Some(g) else None
  }

  /** A selector is read exactly as it was written, and nothing else is read as one. */
  lemma SelectorIsExact(file: string, g: string)
    ensures ParseSelector(file) == Some(g) <==> Nameable(g) && file == SelectorText(g)
  {
    var text := if |file| > READ_LIMIT then file[..READ_LIMIT] else file;
    if ParseSelector(file) == Some(g) {
      assert text == HEADER + g + "\n";
      assert |g| <= 22 && |text| < READ_LIMIT;
    }
    if Nameable(g) && file == SelectorText(g) {
      assert file[..|HEADER|] == HEADER && file[|HEADER|..|file| - 1] == g;
    }
  }
}

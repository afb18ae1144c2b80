/** `PersistConfig`: where tables are written, whether existing files are
    kept, and which tables are recorded. */
module Config {
  import opened DebugText

  /** `tables` empty means every table is recorded. */
  datatype PersistConfig = PersistConfig(directory: string, keep: bool, tables: set<string>)

  /** `PersistConfig::new(directory, table)` */
  function New(directory: string, table: string): PersistConfig {
    PersistConfig(directory, false, {table})
  }

  /** `PersistConfig::default()`: every field at its default. */
  const Default := PersistConfig("", false, {})

  /** The rule `TableWriter::new` applies: the table is listed, or no table is,
      and there is a directory to write to. */
  predicate Enabled(c: PersistConfig, pathPrefix: string) {
    (|c.tables| == 0 || pathPrefix in c.tables) && c.directory != ""
  }

  /** A configuration made by `new` records its one table and no other, and
      only when its directory is not empty; it keeps nothing. */
  lemma {:induction false} NewEnablesOnlyItsTable(directory: string, table: string, pathPrefix: string)
    ensures Enabled(New(directory, table), pathPrefix) <==> pathPrefix == table && directory != ""
    ensures New(directory, table).directory == directory && !New(directory, table).keep
  {
    assert |New(directory, table).tables| == 1;
  }

  /** The default configuration has no directory, keeps nothing and lists no
      table, so it disables every table. */
  lemma {:induction false} DefaultDisablesEverything(pathPrefix: string)
    ensures !Enabled(Default, pathPrefix)
    ensures Default.directory == "" && !Default.keep && |Default.tables| == 0
  {
  }

  // ----- Display -----

  /** `order` lists the set's elements once each: a `HashSet`'s iteration order. */
  ghost predicate Enumerates(order: seq<string>, s: set<string>) {
    && (forall x :: x in order <==> x in s)
    && (forall i, j :: 0 <= i < j < |order| ==> order[i] != order[j])
  }

  function JoinQuoted(order: seq<string>): string
    decreases |order|
  {
    if |order| == 0 then ""
    else if |order| == 1 then Quoted(order[0])
    else Quoted(order[0]) + ", " + JoinQuoted(order[1..])
  }

  /** `format!("{:?}", set)`: the elements, quoted, between braces. */
  function RenderSet(order: seq<string>): (r: string)
    ensures |r| >= 2 && r[0] == '{'
  {
    "{" + JoinQuoted(order) + "}"
  }

  function BoolText(b: bool): string {
    if b then "true" else "false"
  }

  predicate EndsWith(s: string, suffix: string) {
    |suffix| <= |s| && s[|s| - |suffix|..] == suffix
  }

  function DisplayHead(c: PersistConfig): string {
    "PersistConfig { directory: \"" + c.directory + "\", keep: " + BoolText(c.keep) + ", "
  }

  const SHOWS_ALL := "tables: \"all\" }"

  /** `impl Display for PersistConfig`; the tables appear through `{:?}` of a
      string, so "all" and the rendered set are quoted once more. */
  function Display(c: PersistConfig, order: seq<string>): string
    requires Enumerates(order, c.tables)
  {
    DisplayHead(c) + "tables: " + Quoted(if |c.tables| == 0 then "all" else RenderSet(order)) + " }"
  }

  lemma {:induction false} QuotedAll(head: string)
    ensures EndsWith(head + "tables: " + Quoted("all") + " }", SHOWS_ALL)
  {
    assert Escape("all") == "all" by {
      assert Escape("l") == "l";
      assert Escape("ll") == "l" + Escape("l");
      assert Escape("all") == "a" + Escape("ll");
    }
    var d := head + "tables: " + Quoted("all") + " }";
    assert d == head + SHOWS_ALL;
    assert d[|d| - |SHOWS_ALL|..] == SHOWS_ALL;
  }

  /** The quoted rendering of a set cannot end in `tables: "all`: it opens
      with a brace and every quote inside it is escaped. */
  lemma {:induction false} QuotedSetIsNotAll(head: string, r: string)
    requires |r| > 0 && r[0] == '{'
    ensures !EndsWith(head + "tables: " + Quoted(r) + " }", SHOWS_ALL)
  {
    EscapeKeepsQuotesEscaped(r);
    EscapedBraceIsNotAll(head + "tables: ", Escape(r));
    assert head + "tables: " + Quoted(r) + " }" == (head + "tables: ") + "\"" + Escape(r) + "\"" + " }";
  }

  lemma {:induction false} EscapedBraceIsNotAll(head: string, e: string)
    requires |e| > 0 && e[0] == '{' && QuotesEscaped(e)
    ensures !EndsWith(head + "\"" + e + "\"" + " }", SHOWS_ALL)
  {
    var d := head + "\"" + e + "\"" + " }";
    if |d| >= |SHOWS_ALL| {
      var base := |d| - |SHOWS_ALL|;
      var tail := d[base..];
      assert SHOWS_ALL[7] == ' ' && SHOWS_ALL[8] == '"';
      assert forall m :: 0 <= m < |e| ==> d[|d| - 3 - |e| + m] == e[m];
      if |e| >= 5 {
        assert tail[8] == e[|e| - 4] && tail[7] == e[|e| - 5];
      } else {
        assert tail[12 - |e|] == e[0];
        assert SHOWS_ALL[12 - |e|] != '{';
      }
    }
  }

  /** The display says `tables: "all"` exactly when no table is listed. */
  lemma {:induction false} DisplayShowsAllIffEmpty(c: PersistConfig, order: seq<string>)
    requires Enumerates(order, c.tables)
    ensures EndsWith(Display(c, order), SHOWS_ALL) <==> |c.tables| == 0
  {
    if |c.tables| == 0 {
      QuotedAll(DisplayHead(c));
    } else {
      QuotedSetIsNotAll(DisplayHead(c), RenderSet(order));
    }
  }
}

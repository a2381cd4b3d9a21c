/** Environment files: printed by scripts/staging_env_template.py, read by
    scripts/staging_preflight.py. */
module EnvFile {
  import opened Prelude
  import opened Text

  function Only(mark: char): char -> bool { (c: char) => c == mark }

  // ---- the reader ----

  function IndexOf(s: string, c: char): (i: nat)
    ensures i <= |s| && c !in s[..i] && (i < |s| <==> c in s) && (i < |s| ==> s[i] == c)
  {
    if s == "" || s[0] == c then 0
    else
      assert s[..1 + IndexOf(s[1..], c)] == [s[0]] + s[1..][..IndexOf(s[1..], c)];
      1 + IndexOf(s[1..], c)
  }

  function WithoutQuotes(s: string): string { Strip(Strip(s, Only('"')), Only('\'')) }

  // One line of the file: blank lines, comments and lines without '=' say nothing.
  function Assigned(values: map<string, string>, raw: string): map<string, string> {
    var line := Strip(raw, Spaces());
    if line == "" || line[0] == '#' || '=' !in line then values
    else
      var i := IndexOf(line, '=');
      values[Strip(line[..i], Spaces()) := WithoutQuotes(Strip(line[i + 1..], Spaces()))]
  }

  function Loaded(lines: seq<string>): map<string, string> {
    if lines == [] then map[] else Assigned(Loaded(lines[..|lines| - 1]), lines[|lines| - 1])
  }

  lemma OneMoreLine(lines: seq<string>, n: nat)
    requires n < |lines|
    ensures Loaded(lines[..n + 1]) == Assigned(Loaded(lines[..n]), lines[n])
  {
    assert lines[..n + 1][..n] == lines[..n];
  }

  method LoadEnvFile(file: Option<string>) returns (values: map<string, string>)
    ensures values == if file.None? then map[] else Loaded(Lines(file.value))
  {
    values := map[];
    if file.None? {
      return;
    }
    var lines := Lines(file.value);
    for n := 0 to |lines|
      invariant values == Loaded(lines[..n])
    {
      OneMoreLine(lines, n);
      var line := Strip(lines[n], Spaces());
      if line == "" || line[0] == '#' || '=' !in line {
        continue;
      }
      var i := IndexOf(line, '=');
      var key, value := line[..i], line[i + 1..];
      values := values[Strip(key, Spaces()) := WithoutQuotes(Strip(value, Spaces()))];
    }
    assert lines[..|lines|] == lines;
  }

  // ---- what a line says ----

  predicate Blank(s: string) { AllDropped(s, Spaces()) }

  // A blank line, a comment, wherever it starts, and a line without an equals sign say nothing.
  lemma LineSaysNothing(values: map<string, string>, left: string, rest: string)
    requires Blank(left) && (rest == "" || rest[0] == '#' || '=' !in left + rest)
    ensures Assigned(values, left + rest) == values
  {
    var raw := left + rest;
    if rest == "" {
      assert raw == left + "" + "";
      StripPadded(left, "", "", Spaces());
    } else if rest[0] == '#' {
      StripLeftPadded(left, rest, Spaces());
      StripRightDrops(rest, Spaces());
      StripRightSpares(rest, Spaces(), '#');
    } else {
      StripKeeps(raw, Spaces(), '=');
    }
  }

  // Any other line gives its key, all up to the first equals sign, the rest less the quotes at its
  // ends; blanks at the ends of either do not count.
  lemma LineSays(values: map<string, string>, left: string, key: string, a: string, b: string, value: string, right: string)
    requires Blank(left) && Blank(a) && Blank(b) && Blank(right)
    requires key != "" && key[0] != '#' && '=' !in key && Bare(key, Spaces()) && Bare(value, Spaces())
    ensures Assigned(values, left + key + a + "=" + b + value + right) == values[key := WithoutQuotes(value)]
  {
    var raw := left + key + a + "=" + b + value + right;
    forall i | 0 <= i < |a| ensures a[i] != '=' {}
    assert '=' !in key + a;
    StripPadded("", key, a, Spaces());
    assert "" + key + a == key + a;
    if value == "" {
      var line := key + a + "=";
      assert raw == left + line + (b + right);
      StripPadded(left, line, b + right, Spaces());
      SplitLine(values, raw, line, key + a, "", key, value);
    } else {
      var line := key + a + "=" + (b + value);
      assert raw == left + line + right;
      StripPadded(left, line, right, Spaces());
      StripPadded(b, value, "", Spaces());
      assert b + value + "" == b + value;
      SplitLine(values, raw, line, key + a, b + value, key, value);
    }
  }

  lemma SplitLine(values: map<string, string>, raw: string, line: string, before: string, rest: string,
                  key: string, value: string)
    requires Strip(raw, Spaces()) == line && line == before + "=" + rest && '=' !in before
    requires before != "" && before[0] != '#' && Strip(before, Spaces()) == key && Strip(rest, Spaces()) == value
    ensures Assigned(values, raw) == values[key := WithoutQuotes(value)]
  {
    IndexInLine(before, rest);
    assert line[|before|] == '=' && line[0] == before[0];
    assert line[..|before|] == before && line[|before| + 1..] == rest;
  }

  lemma {:induction false} IndexInLine(key: string, rest: string)
    requires '=' !in key
    ensures IndexOf(key + "=" + rest, '=') == |key|
  {
    var s := key + "=" + rest;
    if key == "" {
      assert s[0] == '=';
    } else {
      IndexInLine(key[1..], rest);
      assert s[1..] == key[1..] + "=" + rest;
      assert s[0] == key[0] && key[0] in key;
    }
  }

  // ---- the printer ----

  datatype Entry = Entry(key: string, value: string)

  function Line(e: Entry): string { e.key + "=\"" + e.value + "\"" }

  function AllLines(entries: seq<Entry>): (r: seq<string>)
    ensures |r| == |entries|
    ensures forall i | 0 <= i < |entries| :: r[i] == Line(entries[i])
  {
    seq(|entries|, i requires 0 <= i < |entries| => Line(entries[i]))
  }

  function PrintedEnv(entries: seq<Entry>): string { Join(AllLines(entries), '\n') + "\n" }

  function MapOf(entries: seq<Entry>): map<string, string> {
    if entries == [] then map[]
    else
      var last := entries[|entries| - 1];
      MapOf(entries[..|entries| - 1])[last.key := last.value]
  }

  predicate KeyOk(key: string) {
    key != "" && key[0] != '#' && '=' !in key && OneLine(key) && Bare(key, Spaces())
  }

  predicate KeysOk(entries: seq<Entry>) { forall e | e in entries :: KeyOk(e.key) }

  // Values without a line break and without a quote, of either kind, at either end.
  predicate Plain(value: string) { OneLine(value) && Bare(value, Only('"')) && Bare(value, Only('\'')) }

  predicate AllOneLine(entries: seq<Entry>) { forall e | e in entries :: OneLine(e.value) }

  predicate AllPlain(entries: seq<Entry>) { forall e | e in entries :: Plain(e.value) }

  lemma WithoutQuotesIff(value: string)
    ensures WithoutQuotes(value) == value <==> Bare(value, Only('"')) && Bare(value, Only('\''))
  {
    StripBares(value, Only('"'));
    StripBares(value, Only('\''));
  }

  // ---- one printed line read back ----

  lemma LineIsBare(e: Entry)
    requires KeyOk(e.key)
    ensures Strip(Line(e), Spaces()) == Line(e)
  {
    var line := Line(e);
    assert line[0] == e.key[0] && line[|line| - 1] == '"';
    StripBares(line, Spaces());
  }

  lemma QuotedUnquoted(value: string)
    ensures WithoutQuotes(Strip("\"" + value + "\"", Spaces())) == WithoutQuotes(value)
  {
    var quoted := "\"" + value + "\"";
    assert quoted[0] == '"' && quoted[|quoted| - 1] == '"';
    StripBares(quoted, Spaces());
    assert quoted == ['"'] + value + ['"'];
    StripWrapped(value, Only('"'), '"');
  }

  lemma LineParts(e: Entry)
    requires KeyOk(e.key)
    ensures var line, i := Line(e), |e.key|;
      && line != "" && line[0] != '#' && '=' in line && IndexOf(line, '=') == i && i < |line|
      && line[..i] == e.key && line[i + 1..] == "\"" + e.value + "\""
  {
    var line, quoted := Line(e), "\"" + e.value + "\"";
    assert line == e.key + "=" + quoted;
    IndexInLine(e.key, quoted);
    assert line[|e.key|] == '=' && line[0] == e.key[0];
  }

  lemma AssignedParts(values: map<string, string>, line: string, key: string, quoted: string)
    requires Strip(line, Spaces()) == line && line != "" && line[0] != '#' && '=' in line
    requires line[..IndexOf(line, '=')] == key && line[IndexOf(line, '=') + 1..] == quoted
    ensures Assigned(values, line)
      == values[Strip(key, Spaces()) := WithoutQuotes(Strip(quoted, Spaces()))]
  {}

  lemma LineReadBack(values: map<string, string>, e: Entry)
    requires KeyOk(e.key)
    ensures Assigned(values, Line(e)) == values[e.key := WithoutQuotes(e.value)]
  {
    LineIsBare(e);
    LineParts(e);
    AssignedParts(values, Line(e), e.key, "\"" + e.value + "\"");
    assert Strip(e.key, Spaces()) == e.key by { StripBares(e.key, Spaces()); }
    QuotedUnquoted(e.value);
  }

  // ---- the printed file read back ----

  lemma LineOneLine(e: Entry)
    requires KeyOk(e.key) && OneLine(e.value)
    ensures OneLine(Line(e))
  {
    forall c | c in Line(e) ensures !IsBreak(c) {
      assert c in e.key || c in "=\"" || c in e.value || c in "\"";
    }
  }

  lemma {:induction false} LinesOfJoined(lines: seq<string>)
    requires lines != [] && forall line | line in lines :: OneLine(line)
    ensures Lines(Join(lines, '\n') + "\n") == lines
  {
    assert lines[0] in lines;
    if |lines| == 1 {
      LinesFirst(lines[0], "");
      assert lines[0] + "\n" + "" == lines[0] + "\n";
    } else {
      var rest := Join(lines[1..], '\n') + "\n";
      assert Join(lines, '\n') + "\n" == lines[0] + "\n" + rest;
      LinesFirst(lines[0], rest);
      LinesOfJoined(lines[1..]);
    }
  }

  lemma LinesOfPrinted(entries: seq<Entry>)
    requires entries != [] && KeysOk(entries) && AllOneLine(entries)
    ensures Lines(PrintedEnv(entries)) == AllLines(entries)
  {
    forall line | line in AllLines(entries) ensures OneLine(line) {
      var i :| 0 <= i < |entries| && AllLines(entries)[i] == line;
      assert entries[i] in entries;
      LineOneLine(entries[i]);
    }
    LinesOfJoined(AllLines(entries));
  }

  function Unquoted(entries: seq<Entry>): (r: seq<Entry>)
    ensures |r| == |entries|
    ensures forall i | 0 <= i < |entries| :: r[i] == entries[i].(value := WithoutQuotes(entries[i].value))
  {
    seq(|entries|, i requires 0 <= i < |entries| => entries[i].(value := WithoutQuotes(entries[i].value)))
  }

  lemma {:induction false} LoadedLines(entries: seq<Entry>)
    requires KeysOk(entries)
    ensures Loaded(AllLines(entries)) == MapOf(Unquoted(entries))
  {
    if entries != [] {
      var n := |entries| - 1;
      assert entries[n] in entries;
      LoadedLines(entries[..n]);
      assert AllLines(entries)[..n] == AllLines(entries[..n]);
      assert Unquoted(entries)[..n] == Unquoted(entries[..n]);
      LineReadBack(Loaded(AllLines(entries[..n])), entries[n]);
    }
  }

  // Any values of one line come back, less the quotes at their ends.
  lemma LoadOfPrinted(entries: seq<Entry>)
    requires KeysOk(entries) && AllOneLine(entries)
    ensures Loaded(Lines(PrintedEnv(entries))) == MapOf(Unquoted(entries))
  {
    if entries == [] {
      LinesFirst("", "");
      assert "" + "\n" + "" == "\n" && PrintedEnv(entries) == "\n";
      assert [""][..0] == [];
      assert Loaded([""]) == map[];
    } else {
      LinesOfPrinted(entries);
      LoadedLines(entries);
    }
  }

  // ---- exactly which files come back ----

  predicate OneLineValues(values: map<string, string>) { forall k | k in values :: OneLine(values[k]) }

  lemma AssignedOneLine(values: map<string, string>, raw: string)
    requires OneLineValues(values) && OneLine(raw)
    ensures OneLineValues(Assigned(values, raw))
  {
    var line := Strip(raw, Spaces());
    if line != "" && line[0] != '#' && '=' in line {
      var value := line[IndexOf(line, '=') + 1..];
      var stripped := Strip(value, Spaces());
      var inner := Strip(stripped, Only('"'));
      forall c: char | IsBreak(c) ensures c !in WithoutQuotes(stripped) {
        StripKeeps(raw, Spaces(), c);
        StripKeeps(value, Spaces(), c);
        StripKeeps(stripped, Only('"'), c);
        StripKeeps(inner, Only('\''), c);
      }
    }
  }

  lemma {:induction false} LoadedOneLine(lines: seq<string>)
    requires forall line | line in lines :: OneLine(line)
    ensures OneLineValues(Loaded(lines))
  {
    if lines != [] {
      LoadedOneLine(lines[..|lines| - 1]);
      AssignedOneLine(Loaded(lines[..|lines| - 1]), lines[|lines| - 1]);
    }
  }

  function KeyOf(): Entry -> string { (e: Entry) => e.key }

  lemma {:induction false} MapOfHas(entries: seq<Entry>, i: nat)
    requires Distinct(entries, KeyOf()) && i < |entries|
    ensures entries[i].key in MapOf(entries) && MapOf(entries)[entries[i].key] == entries[i].value
  {
    var n := |entries| - 1;
    if i < n {
      MapOfHas(entries[..n], i);
    }
  }

  // A printed file is read back exactly when every value is plain.
  lemma RoundTripIff(entries: seq<Entry>)
    requires KeysOk(entries) && Distinct(entries, KeyOf())
    ensures Loaded(Lines(PrintedEnv(entries))) == MapOf(entries) <==> AllPlain(entries)
  {
    if AllPlain(entries) {
      PlainComesBack(entries);
    }
    if Loaded(Lines(PrintedEnv(entries))) == MapOf(entries) {
      OnlyPlainComesBack(entries);
    }
  }

  lemma PlainComesBack(entries: seq<Entry>)
    requires KeysOk(entries) && AllPlain(entries)
    ensures Loaded(Lines(PrintedEnv(entries))) == MapOf(entries)
  {
    forall i | 0 <= i < |entries| ensures Unquoted(entries)[i] == entries[i] {
      assert entries[i] in entries;
      WithoutQuotesIff(entries[i].value);
    }
    assert Unquoted(entries) == entries;
    LoadOfPrinted(entries);
  }

  lemma OnlyPlainComesBack(entries: seq<Entry>)
    requires KeysOk(entries) && Distinct(entries, KeyOf())
    requires Loaded(Lines(PrintedEnv(entries))) == MapOf(entries)
    ensures AllPlain(entries)
  {
    LoadedOneLine(Lines(PrintedEnv(entries)));
    forall e | e in entries ensures OneLine(e.value) {
      var i :| 0 <= i < |entries| && entries[i] == e;
      MapOfHas(entries, i);
    }
    LoadOfPrinted(entries);
    forall e | e in entries ensures Plain(e.value) {
      var i :| 0 <= i < |entries| && entries[i] == e;
      MapOfHas(entries, i);
      MapOfHas(Unquoted(entries), i);
      WithoutQuotesIff(e.value);
    }
  }
}

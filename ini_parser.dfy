/** `IniParser` (MyInternetChecker/Config/IniParser.cs): reads the lines of an
    INI file into sections of key/value pairs and writes such data back as
    lines. Reading and writing the file itself is left to the callers, which
    pass and receive the lines. */
module IniParser {
  import opened Wrappers
  import opened Text
  import opened OrderedDict

  /** One section: key to value, keys compared ignoring case. */
  type Section = Dict<string>

  /** Section name to section, names compared ignoring case. */
  type IniData = Dict<Section>

  /** What `Parse` carries from one line to the next: the result so far and
      `currentSection` (None until the first header). */
  datatype ParserState = ParserState(data: IniData, current: Option<string>)

  const Start: ParserState := ParserState([], None)

  /** A trimmed line that `Parse` skips: blank, or a `#` or `;` comment. */
  predicate IsSkipped(t: string) {
    t == [] || t[0] == '#' || t[0] == ';'
  }

  /** A trimmed line of the form `[name]`. */
  predicate IsHeader(t: string) {
    t != [] && t[0] == '[' && t[|t| - 1] == ']'
  }

  /** The text between the brackets, not trimmed. */
  function HeaderName(t: string): string
    requires IsHeader(t)
  {
    t[1..|t| - 1]
  }

  const CommentChars: set<char> := {'#', ';'}

  /** A value cut at its first `#` or `;` and trimmed again. */
  function StripComment(value: string): string {
    var i := IndexOfAny(value, CommentChars);
    if i >= 0 then Trim(value[..i]) else value
  }

  /** `result[section][key] = value`. */
  function Assign(data: IniData, section: string, key: string, value: string): IniData {
    Set(data, section, Set(Get(data, section).GetOr([]), key, value))
  }

  /** The effect of one line on the parser state. */
  function ParseLine(st: ParserState, line: string): ParserState {
    var t := Trim(line);
    if IsSkipped(t) then st
    else if IsHeader(t) then
      ParserState(Set(st.data, HeaderName(t), []), Some(HeaderName(t)))
    else
      var eq := IndexOf(t, '=');
      if eq > 0 && st.current.Some? then
        var key := Trim(t[..eq]);
        var value := StripComment(Trim(t[eq + 1..]));
        if key != [] then ParserState(Assign(st.data, st.current.value, key, value), st.current)
        else st
      else st
  }

  /** The state after feeding `lines`, in order, to `ParseLine`. */
  function ParseFrom(st: ParserState, lines: seq<string>): ParserState {
    if lines == [] then st
    else ParseLine(ParseFrom(st, lines[..|lines| - 1]), lines[|lines| - 1])
  }

  /** The data `Parse` returns for the lines of a file. */
  function Parsed(lines: seq<string>): IniData {
    ParseFrom(Start, lines).data
  }

  /** `IniParser.Parse`, over the lines `File.ReadAllLines` would return. */
  method Parse(lines: seq<string>) returns (result: IniData)
    ensures result == Parsed(lines)
  {
    result := [];
    var currentSection: Option<string> := None;
    for i := 0 to |lines|
      invariant ParserState(result, currentSection) == ParseFrom(Start, lines[..i])
    {
      assert lines[..i + 1][..i] == lines[..i];
      result, currentSection := ParseOneLine(result, currentSection, lines[i]);
    }
    assert lines[..|lines|] == lines;
  }

  /** The body of `Parse`'s loop: one line read in the state it leaves. */
  method ParseOneLine(data: IniData, section: Option<string>, line: string)
      returns (result: IniData, currentSection: Option<string>)
    ensures ParserState(result, currentSection) == ParseLine(ParserState(data, section), line)
  {
    result, currentSection := data, section;
    var trimmedLine := Trim(line);
    if trimmedLine == [] || trimmedLine[0] == '#' || trimmedLine[0] == ';' {
      return;
    }
    if trimmedLine[0] == '[' && trimmedLine[|trimmedLine| - 1] == ']' {
      currentSection := Some(trimmedLine[1..|trimmedLine| - 1]);
      result := Set(result, currentSection.value, []);
      return;
    }
    var equalsIndex := IndexOf(trimmedLine, '=');
    if equalsIndex > 0 && currentSection.Some? {
      var key := Trim(trimmedLine[..equalsIndex]);
      var value := Trim(trimmedLine[equalsIndex + 1..]);
      var commentIndex := IndexOfAny(value, {'#', ';'});
      if commentIndex >= 0 {
        value := Trim(value[..commentIndex]);
      }
      if key != [] {
        var entries := Get(result, currentSection.value).GetOr([]);
        result := Set(result, currentSection.value, Set(entries, key, value));
      }
    }
  }

  // ---------------------------------------------------------------------------
  // Save
  // ---------------------------------------------------------------------------

  /** The three lines every saved file starts with. */
  const FileHeader: seq<string> := ["# Файл настроек MyInternetChecker", "# Версия формата: 1.0", ""]

  function HeaderLine(name: string): string {
    "[" + name + "]"
  }

  function EntryLine(key: string, value: string): string {
    key + " = " + value
  }

  /** One `key = value` line per entry, in order. */
  function EntryLines(entries: Section): seq<string> {
    if entries == [] then []
    else
      var last := entries[|entries| - 1];
      EntryLines(entries[..|entries| - 1]) + [EntryLine(last.0, last.1)]
  }

  /** The block written for one section: header, entries, an empty line. */
  function SectionLines(name: string, entries: Section): seq<string> {
    [HeaderLine(name)] + EntryLines(entries) + [""]
  }

  function SectionsLines(data: IniData): seq<string> {
    if data == [] then []
    else
      var last := data[|data| - 1];
      SectionsLines(data[..|data| - 1]) + SectionLines(last.0, last.1)
  }

  /** The lines `Save` writes for `data`. */
  function SavedLines(data: IniData): seq<string> {
    FileHeader + SectionsLines(data)
  }

  /** `IniParser.Save`, producing the lines `File.WriteAllLines` would write. */
  method Save(data: IniData) returns (lines: seq<string>)
    ensures lines == SavedLines(data)
  {
    lines := FileHeader;
    for i := 0 to |data|
      invariant lines == FileHeader + SectionsLines(data[..i])
    {
      assert data[..i + 1][..i] == data[..i];
      lines := WriteSection(lines, data[i].0, data[i].1);
    }
    assert data[..|data|] == data;
  }

  /** One pass of `Save`'s outer loop: the header line, one line per entry
      and an empty line, appended to `lines`. */
  method WriteSection(lines: seq<string>, name: string, entries: Section) returns (out: seq<string>)
    ensures out == lines + SectionLines(name, entries)
  {
    out := lines + ["[" + name + "]"];
    for j := 0 to |entries|
      invariant out == lines + [HeaderLine(name)] + EntryLines(entries[..j])
    {
      assert entries[..j + 1][..j] == entries[..j];
      out := out + [entries[j].0 + " = " + entries[j].1];
    }
    assert entries[..|entries|] == entries;
    out := out + [""];
  }

  // ---------------------------------------------------------------------------
  // Properties of parsing
  // ---------------------------------------------------------------------------

  /** Parsing `a + b` is parsing `a`, then `b` from where `a` left off. */
  lemma {:induction false} ParseFromAppend(st: ParserState, a: seq<string>, b: seq<string>)
    ensures ParseFrom(st, a + b) == ParseFrom(ParseFrom(st, a), b)
  {
    if b != [] {
      assert (a + b)[..|a + b| - 1] == a + b[..|b| - 1];
      ParseFromAppend(st, a, b[..|b| - 1]);
    } else {
      assert a + b == a;
    }
  }

  /** A blank line, or one whose trimmed form starts with `#` or `;`, can be
      removed from any file without changing what is parsed. */
  lemma SkippedLineIsInvisible(st: ParserState, a: seq<string>, c: string, b: seq<string>)
    requires IsSkipped(Trim(c))
    ensures ParseFrom(st, a + [c] + b) == ParseFrom(st, a + b)
  {
    ParseFromAppend(st, a + [c], b);
    ParseFromAppend(st, a, [c]);
    assert ParseFrom(ParseFrom(st, a), [c]) == ParseLine(ParseFrom(ParseFrom(st, a), []), c);
    ParseFromAppend(st, a, b);
  }

  /** The key of a recorded assignment is never empty: the trimmed line starts
      with a non-space character, and it is part of the key. */
  lemma KeyNeverEmpty(t: string, eq: int)
    requires t != [] && IsTrimmed(t) && 0 < eq <= |t|
    ensures Trim(t[..eq]) != []
  {
    BlankIffTrimEmpty(t[..eq]);
    assert t[..eq][0] == t[0];
  }

  /** What one line does to the parser state:
      a header makes its inner text the current section and empties that
      section (under the name it was first stored with), leaving the others;
      a `key=value` line with a current section and an `=` past the first
      character assigns the trimmed, comment-stripped value to the trimmed
      key of the current section, leaving every other key and section;
      any other line changes nothing. */
  lemma ParseLineEffect(st: ParserState, line: string)
    ensures var t := Trim(line);
      var r := ParseLine(st, line);
      && (IsSkipped(t) ==> r == st)
      && (!IsSkipped(t) && IsHeader(t) ==>
            && r.current == Some(HeaderName(t))
            && Get(r.data, HeaderName(t)) == Some([])
            && forall k :: !SameIgnoringCase(k, HeaderName(t)) ==> Get(r.data, k) == Get(st.data, k))
      && (!IsSkipped(t) && !IsHeader(t) && (st.current.None? || IndexOf(t, '=') <= 0) ==> r == st)
      && (!IsSkipped(t) && !IsHeader(t) && st.current.Some? && IndexOf(t, '=') > 0 ==>
            var eq := IndexOf(t, '=');
            var key := Trim(t[..eq]);
            var value := StripComment(Trim(t[eq + 1..]));
            var sec := st.current.value;
            var before := Get(st.data, sec).GetOr([]);
            && r.current == st.current
            && Get(r.data, sec).Some?
            && (forall k :: Get(Get(r.data, sec).value, k) ==
                   if SameIgnoringCase(key, k) then Some(value) else Get(before, k))
            && forall s :: !SameIgnoringCase(s, sec) ==> Get(r.data, s) == Get(st.data, s))
  {
    var t := Trim(line);
    if !IsSkipped(t) {
      if IsHeader(t) {
        HeaderLineEffect(st, line);
      } else if st.current.Some? && IndexOf(t, '=') > 0 {
        AssignLineEffect(st, line);
      }
    }
  }

  /** A section header makes that section current and empty. */
  lemma HeaderLineEffect(st: ParserState, line: string)
    requires !IsSkipped(Trim(line)) && IsHeader(Trim(line))
    ensures var name := HeaderName(Trim(line));
      var r := ParseLine(st, line);
      && r.current == Some(name)
      && Get(r.data, name) == Some([])
      && forall k :: !SameIgnoringCase(k, name) ==> Get(r.data, k) == Get(st.data, k)
  {
    var name := HeaderName(Trim(line));
    forall k ensures Get(ParseLine(st, line).data, k) ==
      if SameIgnoringCase(name, k) then Some([]) else Get(st.data, k)
    {
      GetSet(st.data, name, [], k);
    }
    assert SameIgnoringCase(name, name);
  }

  /** A `key=value` line under a section sets that key of that section. */
  lemma AssignLineEffect(st: ParserState, line: string)
    requires !IsSkipped(Trim(line)) && !IsHeader(Trim(line))
    requires st.current.Some? && IndexOf(Trim(line), '=') > 0
    ensures var t := Trim(line);
      var eq := IndexOf(t, '=');
      var key := Trim(t[..eq]);
      var value := StripComment(Trim(t[eq + 1..]));
      var sec := st.current.value;
      var before := Get(st.data, sec).GetOr([]);
      var r := ParseLine(st, line);
      && r.current == st.current
      && Get(r.data, sec).Some?
      && (forall k :: Get(Get(r.data, sec).value, k) ==
             if SameIgnoringCase(key, k) then Some(value) else Get(before, k))
      && forall s :: !SameIgnoringCase(s, sec) ==> Get(r.data, s) == Get(st.data, s)
  {
    var t := Trim(line);
    var eq := IndexOf(t, '=');
    var key := Trim(t[..eq]);
    var value := StripComment(Trim(t[eq + 1..]));
    var sec := st.current.value;
    var before := Get(st.data, sec).GetOr([]);
    KeyNeverEmpty(t, eq);
    var after := Set(before, key, value);
    forall s ensures Get(ParseLine(st, line).data, s) ==
      if SameIgnoringCase(sec, s) then Some(after) else Get(st.data, s)
    {
      GetSet(st.data, sec, after, s);
    }
    assert SameIgnoringCase(sec, sec);
    forall k ensures Get(after, k) == if SameIgnoringCase(key, k) then Some(value) else Get(before, k) {
      GetSet(before, key, value, k);
    }
  }


  // ---------------------------------------------------------------------------
  // Round trip: parsing what Save wrote
  // ---------------------------------------------------------------------------

  /** What parsing gives back for a value that `Save` wrote. */
  function ReadBack(v: string): string {
    StripComment(Trim(v))
  }

  function ReadBackSection(entries: Section): Section {
    MapValues(entries, ReadBack)
  }

  function ReadBackAll(data: IniData): IniData {
    MapValues(data, ReadBackSection)
  }

  /** A key whose `key = value` line parses back to that key: non-empty, no
      whitespace at its ends, no `=`, not starting like a comment or a header,
      and no line break, which would split the written line in two. */
  predicate SavableKey(k: string) {
    && k != [] && !IsWhiteSpace(k[0]) && !IsWhiteSpace(k[|k| - 1])
    && k[0] != '#' && k[0] != ';' && k[0] != '['
    && forall i :: 0 <= i < |k| ==> k[i] != '=' && k[i] != '\r' && k[i] != '\n'
  }

  predicate SavableSection(entries: Section) {
    DistinctKeys(entries) && forall i :: 0 <= i < |entries| ==> SavableKey(entries[i].0)
  }

  /** Data that survives a save and a parse: section names distinct ignoring
      case and without line breaks, and within each section savable keys
      distinct ignoring case. */
  predicate Savable(data: IniData) {
    DistinctKeys(data) && forall i :: 0 <= i < |data| ==> NoLineBreak(data[i].0) && SavableSection(data[i].1)
  }

  /** A value that reads back as itself: trimmed, with no `#`, no `;` and no
      line break. */
  predicate CleanValue(v: string) {
    IsTrimmed(v) && forall i :: 0 <= i < |v| ==> v[i] != '#' && v[i] != ';' && v[i] != '\r' && v[i] != '\n'
  }

  lemma ReadBackClean(v: string)
    requires CleanValue(v)
    ensures ReadBack(v) == v
  {
    TrimTrimmed(v);
  }

  /** The first `=` of `k + " =" + rest` is the one after the key. */
  lemma EqualsAfterKey(k: string, rest: string)
    requires forall i :: 0 <= i < |k| ==> k[i] != '='
    ensures IndexOf(k + " =" + rest, '=') == |k| + 1
  {
    var t := k + " =" + rest;
    assert t[|k|] == ' ' && t[|k| + 1] == '=';
    assert forall j :: 0 <= j < |k| ==> t[j] == k[j];
  }

  /** The trimmed form of a saved `key = value` line. */
  lemma TrimEntryLine(k: string, v: string)
    requires SavableKey(k)
    ensures Trim(EntryLine(k, v)) == k + " =" + TrimEnd(" " + v)
  {
    var line := EntryLine(k, v);
    assert line == (k + " =") + (" " + v);
    assert line[0] == k[0];
    assert TrimStart(line) == line;
    TrimEndAfter(k + " =", " " + v);
  }

  /** A `key = value` line written by `Save` is parsed as an assignment of
      `ReadBack(value)` to `key`. */
  lemma EntryLineParses(k: string, v: string)
    requires SavableKey(k)
    ensures var t := Trim(EntryLine(k, v));
      && !IsSkipped(t) && !IsHeader(t)
      && IndexOf(t, '=') == |k| + 1
      && Trim(t[..|k| + 1]) == k
      && StripComment(Trim(t[|k| + 2..])) == ReadBack(v)
  {
    var rest := TrimEnd(" " + v);
    var t := k + " =" + rest;
    TrimEntryLine(k, v);
    EqualsAfterKey(k, rest);
    assert t[..|k| + 1] == [] + k + " ";
    TrimOfPadded([], k, " ");
    assert t[|k| + 2..] == rest;
    TrimOfTrimEnd(" " + v);
    assert TrimStart(" " + v) == TrimStart(v);
  }

  /** A saved header line is parsed as that header. */
  lemma HeaderLineParses(name: string)
    ensures IsHeader(Trim(HeaderLine(name))) && !IsSkipped(Trim(HeaderLine(name)))
    ensures HeaderName(Trim(HeaderLine(name))) == name
  {
    TrimTrimmed(HeaderLine(name));
  }

  /** No key of `d` equals `k` ignoring case. */
  predicate Fresh<V>(d: Dict<V>, k: string) {
    forall i :: 0 <= i < |d| ==> !SameIgnoringCase(d[i].0, k)
  }

  /** Assigning a new key in the last section, which is the current one,
      appends the entry to that section. */
  lemma AssignInLastSection(done: IniData, name: string, x: Section, k: string, value: string)
    requires Fresh(done, name) && Fresh(x, k)
    ensures Assign(done + [(name, x)], name, k, value) == done + [(name, x + [(k, value)])]
  {
    var d := done + [(name, x)];
    assert SameIgnoringCase(d[|done|].0, name);
    assert IndexOfKey(d, name) == |done|;
    assert Set(x, k, value) == x + [(k, value)];
  }

  /** One saved entry line, parsed under its section, appends its entry. */
  lemma EntryStep(done: IniData, name: string, x: Section, k: string, v: string)
    requires Fresh(done, name) && Fresh(x, k) && SavableKey(k)
    ensures ParseLine(ParserState(done + [(name, x)], Some(name)), EntryLine(k, v))
            == ParserState(done + [(name, x + [(k, ReadBack(v))])], Some(name))
  {
    EntryLineParses(k, v);
    AssignInLastSection(done, name, x, k, ReadBack(v));
  }

  /** The entry lines of a section, parsed under its header, fill that section. */
  lemma {:induction false} EntryLinesParse(done: IniData, name: string, entries: Section, j: nat)
    requires Fresh(done, name) && SavableSection(entries) && j <= |entries|
    ensures ParseFrom(ParserState(done + [(name, [])], Some(name)), EntryLines(entries[..j]))
            == ParserState(done + [(name, ReadBackSection(entries[..j]))], Some(name))
  {
    var st0 := ParserState(done + [(name, [])], Some(name));
    if j == 0 {
      assert ReadBackSection(entries[..0]) == [];
    } else {
      var prefix := entries[..j - 1];
      assert entries[..j][..j - 1] == prefix;
      EntryLinesParse(done, name, entries, j - 1);
      var x := ReadBackSection(prefix);
      var k := entries[j - 1].0;
      var v := entries[j - 1].1;
      assert EntryLines(entries[..j]) == EntryLines(prefix) + [EntryLine(k, v)];
      ParseFromAppend(st0, EntryLines(prefix), [EntryLine(k, v)]);
      EarlierKeysDiffer(entries, j - 1);
      EntryStep(done, name, x, k, v);
      MapValuesSnoc(entries, ReadBack, j - 1);
    }
  }

  /** In a section with distinct keys, the entries before position `j`,
      read back, do not hold the key at `j`. */
  lemma EarlierKeysDiffer(entries: Section, j: nat)
    requires DistinctKeys(entries) && j < |entries|
    ensures Fresh(ReadBackSection(entries[..j]), entries[j].0)
  {
    var x := ReadBackSection(entries[..j]);
    forall i | 0 <= i < |x| ensures !SameIgnoringCase(x[i].0, entries[j].0) {
      assert x[i].0 == entries[i].0;
    }
  }

  /** A saved header line for a new name opens a new, empty, last section. */
  lemma HeaderStep(st: ParserState, name: string)
    requires Fresh(st.data, name)
    ensures ParseLine(st, HeaderLine(name)) == ParserState(st.data + [(name, [])], Some(name))
  {
    HeaderLineParses(name);
  }

  /** The block saved for one section, parsed after other sections, appends
      that section read back. */
  lemma SectionStep(st: ParserState, name: string, entries: Section)
    requires Fresh(st.data, name) && SavableSection(entries)
    ensures ParseFrom(st, SectionLines(name, entries))
            == ParserState(st.data + [(name, ReadBackSection(entries))], Some(name))
  {
    var st0 := ParserState(st.data + [(name, [])], Some(name));
    HeaderStep(st, name);
    assert SectionLines(name, entries) == [HeaderLine(name)] + EntryLines(entries) + [""];
    ParseFromAppend(st, [HeaderLine(name)], EntryLines(entries));
    assert ParseFrom(st, [HeaderLine(name)]) == ParseLine(ParseFrom(st, []), HeaderLine(name));
    EntryLinesParse(st.data, name, entries, |entries|);
    assert entries[..|entries|] == entries;
    ParseFromAppend(st, [HeaderLine(name)] + EntryLines(entries), [""]);
    TrimTrimmed("");
  }

  /** The lines of the first `n` sections parse to those sections, read back. */
  lemma {:induction false} SectionsParse(data: IniData, n: nat)
    requires Savable(data) && n <= |data|
    ensures ParseFrom(Start, SectionsLines(data[..n]))
            == ParserState(ReadBackAll(data[..n]), if n == 0 then None else Some(data[n - 1].0))
  {
    if n == 0 {
      assert ReadBackAll(data[..0]) == [];
    } else {
      var prev := data[..n - 1];
      SectionsParse(data, n - 1);
      var (name, entries) := data[n - 1];
      SectionsLinesSnoc(data, n);
      ParseFromAppend(Start, SectionsLines(prev), SectionLines(name, entries));
      PrefixFresh(data, n);
      SectionStep(ParseFrom(Start, SectionsLines(prev)), name, entries);
      ReadBackAllSnoc(data, n);
    }
  }

  /** The lines of one more section follow those of the sections before. */
  lemma SectionsLinesSnoc(data: IniData, n: nat)
    requires 0 < n <= |data|
    ensures SectionsLines(data[..n]) == SectionsLines(data[..n - 1]) + SectionLines(data[n - 1].0, data[n - 1].1)
  {
    assert data[..n][..n - 1] == data[..n - 1];
  }

  /** Reading back one more section appends it, read back. */
  lemma ReadBackAllSnoc(data: IniData, n: nat)
    requires 0 < n <= |data|
    ensures ReadBackAll(data[..n]) == ReadBackAll(data[..n - 1]) + [(data[n - 1].0, ReadBackSection(data[n - 1].1))]
  {
  }

  /** With distinct section names, a section's name is new to those before it. */
  lemma PrefixFresh(data: IniData, n: nat)
    requires Savable(data) && 0 < n <= |data|
    ensures Fresh(ReadBackAll(data[..n - 1]), data[n - 1].0)
  {
    var done := ReadBackAll(data[..n - 1]);
    forall i | 0 <= i < |done| ensures !SameIgnoringCase(done[i].0, data[n - 1].0) {
      assert done[i].0 == data[i].0;
    }
  }

  /** Lines that are all skipped leave the parser state as it was. */
  lemma {:induction false} SkippedLinesParse(st: ParserState, lines: seq<string>)
    requires forall i :: 0 <= i < |lines| ==> IsSkipped(Trim(lines[i]))
    ensures ParseFrom(st, lines) == st
  {
    if lines != [] {
      SkippedLinesParse(st, lines[..|lines| - 1]);
    }
  }

  /** The header `Save` writes is made of comment and blank lines only. */
  lemma FileHeaderSkipped()
    ensures forall i :: 0 <= i < |FileHeader| ==> IsSkipped(Trim(FileHeader[i]))
  {
    TrimTrimmed(FileHeader[0]);
    TrimTrimmed(FileHeader[1]);
    TrimTrimmed(FileHeader[2]);
  }

  /** Round trip: parsing the lines `Save` writes gives back the same sections
      and keys in the same order, each value as `ReadBack` leaves it. */
  lemma SaveThenParse(data: IniData)
    requires Savable(data)
    ensures Parsed(SavedLines(data)) == ReadBackAll(data)
  {
    FileHeaderSkipped();
    SkippedLinesParse(Start, FileHeader);
    ParseFromAppend(Start, FileHeader, SectionsLines(data));
    SectionsParse(data, |data|);
    assert data[..|data|] == data;
  }

  /** After the round trip each saved section is found under its name. */
  lemma ReadBackGetSection(data: IniData, i: nat)
    requires DistinctKeys(data) && i < |data|
    ensures Get(ReadBackAll(data), data[i].0) == Some(ReadBackSection(data[i].1))
  {
    GetStored(data, i);
    GetMapValues(data, ReadBackSection, data[i].0);
  }

  /** After the round trip each saved key is found, with its value read back. */
  lemma ReadBackGetEntry(entries: Section, j: nat)
    requires DistinctKeys(entries) && j < |entries|
    ensures Get(ReadBackSection(entries), entries[j].0) == Some(ReadBack(entries[j].1))
  {
    GetStored(entries, j);
    GetMapValues(entries, ReadBack, entries[j].0);
  }

  /** When every value is clean, parsing what `Save` wrote gives back exactly
      the data that was saved. */
  lemma SaveThenParseClean(data: IniData)
    requires Savable(data)
    requires forall i, j :: 0 <= i < |data| && 0 <= j < |data[i].1| ==> CleanValue(data[i].1[j].1)
    ensures Parsed(SavedLines(data)) == data
  {
    SaveThenParse(data);
    forall i | 0 <= i < |data| ensures ReadBackSection(data[i].1) == data[i].1 {
      forall j | 0 <= j < |data[i].1| ensures ReadBackSection(data[i].1)[j] == data[i].1[j] {
        ReadBackClean(data[i].1[j].1);
      }
    }
  }
}

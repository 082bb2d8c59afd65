/**
 LoadEnvFile over a whole file (internal/config/config.go): the lines that bufio.Scanner
 finds, and what each does to the environment.  A variable that is missing and one that
 is empty read the same, as os.Getenv has it.
 */
module DotEnvFile {
  import opened DotEnv

  type Environment = map<Text, Text>

  // -------------------------------------------------------------------------
  // Reading
  // -------------------------------------------------------------------------

  function DropReturn(line: Text): Text {
    if line != [] && line[|line| - 1] == '\r' then line[..|line| - 1] else line
  }

  /** bufio.ScanLines */
  function Lines(file: Text): seq<Text>
    decreases |file|
  {
    if file == [] then []
    else
      CutBound(file, '\n', 0);
      var k := CutAt(file, '\n', 0);
      [DropReturn(file[..k])] + if k == |file| then [] else Lines(file[k + 1..])
  }

  function Get(env: Environment, key: Text): Text {
    if key in env then env[key] else ""
  }

  /** os.Setenv refuses an empty name and zero bytes; the error is ignored. */
  predicate Storable(key: Text, value: Text) {
    key != "" && '\0' !in key && '\0' !in value
  }

  function Applied(env: Environment, setting: Setting): Environment {
    if setting.Set? && Get(env, setting.key) == "" && Storable(setting.key, setting.value)
    then env[setting.key := setting.value] else env
  }

  function Loaded(env: Environment, lines: seq<Text>): Environment
    decreases |lines|
  {
    if lines == [] then env else Loaded(Applied(env, ParsedLine(lines[0])), lines[1..])
  }

  lemma {:induction false} LinesStep(file: Text, i: nat)
    requires i < |file|
    ensures var k := CutAt(file[i..], '\n', 0);
      && k <= |file| - i
      && Lines(file[i..]) == [DropReturn(file[i..i + k])] + if i + k == |file| then [] else Lines(file[i + k + 1..])
  {
    hide CutAt, DropReturn;
    CutBound(file[i..], '\n', 0);
    var k := CutAt(file[i..], '\n', 0);
    assert file[i..][..k] == file[i..i + k];
    assert k < |file| - i ==> file[i..][k + 1..] == file[i + k + 1..];
  }

  lemma {:induction false} LoadedStep(env: Environment, line: Text, rest: seq<Text>)
    ensures Loaded(env, [line] + rest) == Loaded(Applied(env, ParsedLine(line)), rest)
  {
    hide Applied, ParsedLine;
    assert ([line] + rest)[1..] == rest;
  }

  /** What is left of the file once the line at i has been applied. */
  function Behind(file: Text, i: nat, k: nat): nat
    requires i + k <= |file|
  {
    if i + k == |file| then |file| else i + k + 1
  }

  lemma {:induction false} LoadedLine(file: Text, i: nat, env: Environment)
    requires i < |file|
    ensures var k := CutAt(file[i..], '\n', 0);
      && i + k <= |file| && i < Behind(file, i, k) <= |file|
      && Loaded(env, Lines(file[i..]))
           == Loaded(Applied(env, ParsedLine(DropReturn(file[i..i + k]))), Lines(file[Behind(file, i, k)..]))
  {
    hide Loaded, Lines, ParsedLine, CutAt, Applied, DropReturn;
    LinesStep(file, i);
    var k := CutAt(file[i..], '\n', 0);
    CutBound(file[i..], '\n', 0);
    NoLines(env);
    assert file[|file|..] == [];
    LoadedStep(env, DropReturn(file[i..i + k]), Lines(file[Behind(file, i, k)..]));
  }

  /** The scanner's loop. */
  method LoadEnvFile(file: Text, before: Environment) returns (env: Environment)
    ensures env == Loaded(before, Lines(file))
  {
    hide Loaded, Lines, ParsedLine, CutAt, DropReturn;
    env := before;
    var i := 0;
    assert file[0..] == file;
    while i < |file|
      invariant i <= |file|
      invariant Loaded(env, Lines(file[i..])) == Loaded(before, Lines(file))
    {
      LoadedLine(file, i, env);
      var k := CutAt(file[i..], '\n', 0);
      var setting := ParsedLine(DropReturn(file[i..i + k]));
      if setting.Set? && Get(env, setting.key) == "" && Storable(setting.key, setting.value) {
        env := env[setting.key := setting.value];
      }
      i := Behind(file, i, k);
    }
    NoLines(env);
    assert file[i..] == [];
  }

  lemma {:induction false} NoLines(env: Environment)
    ensures Lines([]) == [] && Loaded(env, []) == env
  {
  }

  // -------------------------------------------------------------------------
  // Writing, and reading back
  // -------------------------------------------------------------------------

  datatype Entry = Entry(key: Text, value: Text)

  /** What a line of the file can name and the environment can hold. */
  predicate Writable(e: Entry) {
    KeyText(e.key) && '\n' !in e.key && Storable(e.key, e.value)
  }

  function Line(e: Entry): Text { e.key + ['='] + InQuotes('"', Escaped(e.value)) }

  function File(entries: seq<Entry>): Text {
    if entries == [] then [] else Line(entries[0]) + ['\n'] + File(entries[1..])
  }

  lemma {:induction false} EscapedIsOneLine(s: Text)
    ensures '\n' !in Escaped(s)
  {
    if s != [] {
      EscapedIsOneLine(s[1..]);
    }
  }

  /** Whatever the value, its line is one line of the file. */
  lemma {:induction false} LineIsOneLine(e: Entry)
    requires Writable(e)
    ensures '\n' !in Line(e) && DropReturn(Line(e)) == Line(e)
  {
    hide Escaped;
    EscapedIsOneLine(e.value);
    assert Line(e)[|Line(e)| - 1] == '"';
  }

  lemma {:induction false} LinesHead(line: Text, rest: Text)
    requires '\n' !in line && DropReturn(line) == line
    ensures Lines(line + ['\n'] + rest) == [line] + Lines(rest)
  {
    hide CutAt, DropReturn;
    var file := line + ['\n'] + rest;
    CutsAtFirst(line, '\n', rest, 0);
    assert file[..|line|] == line && file[|line| + 1..] == rest;
  }

  function EntryLines(entries: seq<Entry>): seq<Text> {
    if entries == [] then [] else [Line(entries[0])] + EntryLines(entries[1..])
  }

  lemma {:induction false} FileLines(entries: seq<Entry>)
    requires forall i :: 0 <= i < |entries| ==> Writable(entries[i])
    ensures Lines(File(entries)) == EntryLines(entries)
  {
    hide Line, Writable;
    if entries != [] {
      hide Lines;
      LineIsOneLine(entries[0]);
      LinesHead(Line(entries[0]), File(entries[1..]));
      FileLines(entries[1..]);
    }
  }

  ghost predicate DistinctKeys(entries: seq<Entry>) {
    forall i, j :: 0 <= i < j < |entries| ==> entries[i].key != entries[j].key
  }

  ghost predicate Unnamed(entries: seq<Entry>, key: Text) {
    forall i :: 0 <= i < |entries| ==> entries[i].key != key
  }

  lemma {:induction false} AppliedEntry(env: Environment, e: Entry)
    requires Writable(e)
    ensures var env' := Applied(env, ParsedLine(Line(e)));
      && Get(env', e.key) == (if Get(env, e.key) == "" then e.value else Get(env, e.key))
      && forall key :: key != e.key ==> Get(env', key) == Get(env, key)
  {
    hide ParsedLine, Escaped, KeyText;
    LineRoundTrip(e.key, e.value);
  }

  lemma {:induction false} LeavesUnnamed(env: Environment, entries: seq<Entry>, key: Text)
    requires (forall i :: 0 <= i < |entries| ==> Writable(entries[i])) && Unnamed(entries, key)
    ensures Get(Loaded(env, EntryLines(entries)), key) == Get(env, key)
    decreases |entries|
  {
    hide Writable, Applied, ParsedLine, Line, Get;
    if entries != [] {
      AppliedEntry(env, entries[0]);
      LoadedStep(env, Line(entries[0]), EntryLines(entries[1..]));
      LeavesUnnamed(Applied(env, ParsedLine(Line(entries[0]))), entries[1..], key);
    }
  }

  lemma {:induction false} SetsNamed(env: Environment, entries: seq<Entry>, i: nat)
    requires (forall j :: 0 <= j < |entries| ==> Writable(entries[j])) && DistinctKeys(entries) && i < |entries|
    ensures Get(Loaded(env, EntryLines(entries)), entries[i].key)
         == if Get(env, entries[i].key) == "" then entries[i].value else Get(env, entries[i].key)
    decreases |entries|
  {
    hide Writable, Applied, ParsedLine, Line, Get;
    var env' := Applied(env, ParsedLine(Line(entries[0])));
    AppliedEntry(env, entries[0]);
    LoadedStep(env, Line(entries[0]), EntryLines(entries[1..]));
    if i == 0 {
      LeavesUnnamed(env', entries[1..], entries[0].key);
    } else {
      SetsNamed(env', entries[1..], i - 1);
    }
  }

  /**
   A file of KEY="escaped value" lines, whatever the values, sets exactly its keys, each to
   its value unless the environment already had one.
   */
  lemma {:induction false} FileRoundTrip(env: Environment, entries: seq<Entry>, key: Text)
    requires (forall i :: 0 <= i < |entries| ==> Writable(entries[i])) && DistinctKeys(entries)
    ensures var end := Loaded(env, Lines(File(entries)));
      && (forall i :: 0 <= i < |entries| ==>
            Get(end, entries[i].key) == if Get(env, entries[i].key) == "" then entries[i].value else Get(env, entries[i].key))
      && (Unnamed(entries, key) ==> Get(end, key) == Get(env, key))
  {
    hide Writable, Loaded, Lines, File, Get;
    FileLines(entries);
    forall i | 0 <= i < |entries|
      ensures Get(Loaded(env, EntryLines(entries)), entries[i].key)
           == if Get(env, entries[i].key) == "" then entries[i].value else Get(env, entries[i].key)
    {
      SetsNamed(env, entries, i);
    }
    if Unnamed(entries, key) {
      LeavesUnnamed(env, entries, key);
    }
  }

  /** Lines that end in a carriage return and a newline read like those that end in a newline. */
  lemma {:induction false} CarriageReturns(line: Text, rest: Text)
    requires '\n' !in line && DropReturn(line) == line
    ensures Lines(line + ['\r', '\n'] + rest) == Lines(line + ['\n'] + rest) == [line] + Lines(rest)
  {
    LinesHead(line, rest);
    var file := line + ['\r', '\n'] + rest;
    var ended := line + ['\r'];
    assert file == ended + ['\n'] + rest;
    CutsAtFirst(ended, '\n', rest, 0);
    assert file[..|ended|] == ended && file[|ended| + 1..] == rest && ended[..|ended| - 1] == line;
  }

  /** The last line needs no newline. */
  lemma {:induction false} LastLine(line: Text)
    requires '\n' !in line && DropReturn(line) == line && line != []
    ensures Lines(line) == [line] == Lines(line + ['\n'])
  {
    LinesHead(line, []);
    assert line + ['\n'] + [] == line + ['\n'];
    assert line[0..] == line;
    CutsIfThere(line, '\n', 0);
    assert line[..|line|] == line;
  }
}

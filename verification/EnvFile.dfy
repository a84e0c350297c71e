/** The `.env` parser and printer, and what printing and parsing again gives. */
module EnvFile {
  import opened Wrappers
  import opened Text
  import opened Lists

  // ------------------------------------------------------------------ lines

  function Split(s: string): (r: seq<string>)
    ensures r != []
  {
    if s == [] then [""]
    else
      var rest := Split(s[1..]);
      if s[0] == '\n' then [""] + rest else [[s[0]] + rest[0]] + rest[1..]
  }

  function Join(lines: seq<string>): (r: string) {
    if lines == [] then ""
    else if |lines| == 1 then lines[0]
    else Join(lines[..|lines| - 1]) + "\n" + lines[|lines| - 1]
  }

  function DropNewlines(s: string): (r: string) {
    if s != [] && s[|s| - 1] == '\n' then DropNewlines(s[..|s| - 1]) else s
  }

  /** Exactly one newline at the end. */
  function EndWithNewline(s: string): string { DropNewlines(s) + "\n" }

  function IndexOf(s: string, c: char): (r: Option<nat>)
    ensures r.None? <==> c !in s
    ensures r.Some? ==> r.value < |s| && s[r.value] == c && c !in s[..r.value]
  {
    if s == [] then None
    else if s[0] == c then Some(0)
    else
      var rest := IndexOf(s[1..], c);
      assert s == [s[0]] + s[1..];
      if rest.None? then None else Some(rest.value + 1)
  }

  // ------------------------------------------------------------------ entries

  // A `Map`: its keys in order of insertion, and their values.
  datatype Entries = Entries(keys: seq<string>, values: map<string, string>) {
    ghost predicate Valid() { Distinct(keys) && forall k :: k in keys <==> k in values }

    function Set(key: string, value: string): Entries {
      Entries(if key in values then keys else keys + [key], values[key := value])
    }
  }

  datatype Entry = Entry(key: string, value: string)

  /** The entry a line holds, unless it is blank, a comment or without an equals sign. */
  function EntryOf(line: string): Option<Entry> {
    var trimmed := Trim(line);
    if trimmed == "" || trimmed[0] == '#' then None
    else
      var eq := IndexOf(trimmed, '=');
      if eq.None? then None
      else Some(Entry(Trim(trimmed[..eq.value]), Trim(trimmed[eq.value + 1..])))
  }

  function Format(key: string, value: string): string { key + "=" + value }

  function ParseLines(lines: seq<string>): Entries {
    if lines == [] then Entries([], map[])
    else
      var before, entry := ParseLines(lines[..|lines| - 1]), EntryOf(lines[|lines| - 1]);
      if entry.None? then before else before.Set(entry.value.key, entry.value.value)
  }

  function Parse(file: Option<string>): Entries {
    if file.None? then ParseLines([]) else ParseLines(Split(file.value))
  }

  // ------------------------------------------------------------------ printing

  function Rewrite(line: string, entries: Entries): string {
    var entry := EntryOf(line);
    if entry.Some? && entry.value.key in entries.values then Format(entry.value.key, entries.values[entry.value.key])
    else line
  }

  function RewriteAll(lines: seq<string>, entries: Entries): (r: seq<string>)
    ensures |r| == |lines| && forall i :: 0 <= i < |r| ==> r[i] == Rewrite(lines[i], entries)
  {
    if lines == [] then []
    else RewriteAll(lines[..|lines| - 1], entries) + [Rewrite(lines[|lines| - 1], entries)]
  }

  /** Lines for the keys, in order, that are not present yet. */
  function NewLines(keys: seq<string>, entries: Entries, present: map<string, string>): seq<string> {
    if keys == [] then []
    else
      var before, key := NewLines(keys[..|keys| - 1], entries, present), keys[|keys| - 1];
      if key !in present && key in entries.values then before + [Format(key, entries.values[key])] else before
  }

  function OldLines(file: Option<string>): seq<string> { if file.None? then [] else Split(file.value) }

  function AllLines(file: Option<string>, entries: Entries): seq<string> {
    RewriteAll(OldLines(file), entries) + NewLines(entries.keys, entries, Parse(file).values)
  }

  function Print(file: Option<string>, entries: Entries): string {
    EndWithNewline(Join(AllLines(file, entries)))
  }

  class File {
    var content: Option<string>

    constructor (content: Option<string>)
      ensures this.content == content
    {
      this.content := content;
    }

    method ParseEnvFile() returns (entries: Entries)
      ensures entries == Parse(content)
    {
      entries := Entries([], map[]);
      if content.None? { return; }
      var lines := Split(content.value);
      for i := 0 to |lines|
        invariant entries == ParseLines(lines[..i])
      {
        assert lines[..i + 1][..i] == lines[..i];
        var trimmed := Trim(lines[i]);
        if trimmed == "" || trimmed[0] == '#' { continue; }
        var eq := IndexOf(trimmed, '=');
        if eq.None? { continue; }
        entries := entries.Set(Trim(trimmed[..eq.value]), Trim(trimmed[eq.value + 1..]));
      }
      assert lines[..|lines|] == lines;
    }

    /** The first loop of the printer: the old lines with new values, and the keys they hold. */
    method RewriteLines(text: string, entries: Entries) returns (lines: seq<string>, written: set<string>)
      ensures lines == RewriteAll(Split(text), entries)
      ensures forall k :: k in written <==> k in ParseLines(Split(text)).values && k in entries.values
    {
      var old_lines := Split(text);
      lines, written := [], {};
      for i := 0 to |old_lines|
        invariant lines == RewriteAll(old_lines[..i], entries)
        invariant forall k :: k in written <==> k in ParseLines(old_lines[..i]).values && k in entries.values
      {
        assert old_lines[..i + 1][..i] == old_lines[..i];
        var line := old_lines[i];
        var trimmed := Trim(line);
        if trimmed == "" || trimmed[0] == '#' { lines := lines + [line]; continue; }
        var eq := IndexOf(trimmed, '=');
        if eq.None? { lines := lines + [line]; continue; }
        var key := Trim(trimmed[..eq.value]);
        if key in entries.values {
          lines := lines + [Format(key, entries.values[key])];
          written := written + {key};
        } else {
          lines := lines + [line];
        }
      }
      assert old_lines[..|old_lines|] == old_lines;
    }

    /** The second loop of the printer: a line for every key not written yet. */
    method AppendLines(entries: Entries, written: set<string>, ghost present: map<string, string>)
      returns (lines: seq<string>)
      requires entries.Valid()
      requires forall k :: k in written <==> k in present && k in entries.values
      ensures lines == NewLines(entries.keys, entries, present)
    {
      lines := [];
      for i := 0 to |entries.keys|
        invariant lines == NewLines(entries.keys[..i], entries, present)
      {
        assert entries.keys[..i + 1][..i] == entries.keys[..i];
        var key := entries.keys[i];
        assert key in entries.keys;
        if key !in written {
          lines := lines + [Format(key, entries.values[key])];
        }
      }
      assert entries.keys[..|entries.keys|] == entries.keys;
    }

    method WriteEnvFile(entries: Entries)
      requires entries.Valid()
      modifies this
      ensures content == Some(Print(old(content), entries))
    {
      var lines: seq<string>, written: set<string> := [], {};
      if content.Some? { lines, written := RewriteLines(content.value, entries); }
      var added := AppendLines(entries, written, Parse(content).values);
      content := Some(EndWithNewline(Join(lines + added)));
    }
  }
}

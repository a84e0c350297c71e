/** Printing entries into a `.env` file and parsing it again. */
module EnvRoundTrip {
  import opened Wrappers
  import opened Text
  import opened Lists
  import opened EnvFile

  // ------------------------------------------------------------------ splitting and joining

  predicate OneLine(s: string) { '\n' !in s }

  predicate AllOneLine(lines: seq<string>) { forall i :: 0 <= i < |lines| ==> OneLine(lines[i]) }

  lemma {:induction false} SplitIsOneLine(s: string)
    ensures AllOneLine(Split(s))
  {
    if s != [] { SplitIsOneLine(s[1..]); }
  }

  lemma {:induction false} SplitOneLine(s: string)
    requires OneLine(s)
    ensures Split(s) == [s]
  {
    if s != [] {
      assert s == [s[0]] + s[1..];
      SplitOneLine(s[1..]);
    }
  }

  lemma {:induction false} SplitAppended(s: string, line: string)
    requires OneLine(line)
    ensures Split(s + "\n" + line) == Split(s) + [line]
  {
    var t := s + "\n" + line;
    if s == [] {
      assert t[1..] == line;
      SplitOneLine(line);
    } else {
      assert t[1..] == s[1..] + "\n" + line;
      SplitAppended(s[1..], line);
    }
  }

  lemma {:induction false} SplitJoin(lines: seq<string>)
    requires lines != [] && AllOneLine(lines)
    ensures Split(Join(lines)) == lines
  {
    if |lines| == 1 {
      SplitOneLine(lines[0]);
    } else {
      SplitJoin(lines[..|lines| - 1]);
      SplitAppended(Join(lines[..|lines| - 1]), lines[|lines| - 1]);
    }
  }

  function DropBlank(lines: seq<string>): seq<string> {
    if lines != [] && lines[|lines| - 1] == "" then DropBlank(lines[..|lines| - 1]) else lines
  }

  /** The lines of a text that ends with exactly one newline. */
  function EndLines(lines: seq<string>): seq<string> {
    (if DropBlank(lines) == [] then [""] else DropBlank(lines)) + [""]
  }

  lemma {:induction false} DropBlankKeeps(lines: seq<string>)
    ensures DropBlank(lines) <= lines
    ensures forall i :: |DropBlank(lines)| <= i < |lines| ==> lines[i] == ""
    ensures DropBlank(lines) == [] || DropBlank(lines)[|DropBlank(lines)| - 1] != ""
  {
    if lines != [] && lines[|lines| - 1] == "" { DropBlankKeeps(lines[..|lines| - 1]); }
  }

  lemma {:induction false} DropNewlinesOfJoin(lines: seq<string>)
    requires AllOneLine(lines)
    ensures DropNewlines(Join(lines)) == Join(DropBlank(lines))
  {
    if lines != [] {
      var front, last := lines[..|lines| - 1], lines[|lines| - 1];
      var text := Join(lines);
      if last == "" {
        DropNewlinesOfJoin(front);
        assert front != [] ==> text[..|text| - 1] == Join(front);
      } else {
        assert text[|text| - 1] == last[|last| - 1];
        assert last[|last| - 1] in last;
      }
    }
  }

  lemma EndWithNewlineOfJoin(lines: seq<string>)
    requires AllOneLine(lines)
    ensures EndWithNewline(Join(lines)) == Join(EndLines(lines))
  {
    DropNewlinesOfJoin(lines);
    var kept := DropBlank(lines);
    var shown := if kept == [] then [""] else kept;
    assert EndLines(lines)[..|shown|] == shown;
    assert Join(EndLines(lines)) == Join(shown) + "\n" + "";
  }

  lemma SplitEnded(lines: seq<string>)
    requires AllOneLine(lines)
    ensures Split(EndWithNewline(Join(lines))) == EndLines(lines)
  {
    EndWithNewlineOfJoin(lines);
    DropBlankKeeps(lines);
    SplitJoin(EndLines(lines));
  }

  // ------------------------------------------------------------------ one line

  /** What a line can hold: trimmed single-line text, and a key without equals sign that is no comment. */
  predicate Printable(key: string, value: string) {
    Trimmed(key) && Trimmed(value) && OneLine(key) && OneLine(value) && '=' !in key && (key == "" || key[0] != '#')
  }

  lemma {:induction false} FirstIndex(before: string, c: char, after: string)
    requires c !in before
    ensures IndexOf(before + [c] + after, c) == Some(|before|)
  {
    var s := before + [c] + after;
    if before != "" {
      assert s[1..] == before[1..] + [c] + after;
      FirstIndex(before[1..], c, after);
    }
  }

  lemma EntryOfFormat(key: string, value: string)
    requires Printable(key, value)
    ensures EntryOf(Format(key, value)) == Some(Entry(key, value))
  {
    var line := Format(key, value);
    assert line[|key|] == '=' && line[|line| - 1] == if value == "" then '=' else value[|value| - 1];
    assert Trimmed(line);
    TrimmedIsFixed(line);
    FirstIndex(key, '=', value);
    assert line[..|key|] == key && line[|key| + 1..] == value;
    TrimmedIsFixed(key);
    TrimmedIsFixed(value);
  }

  lemma EntryIsPrintable(line: string)
    requires OneLine(line) && EntryOf(line).Some?
    ensures Printable(EntryOf(line).value.key, EntryOf(line).value.value)
  {
    var trimmed := Trim(line);
    TrimIsTrimmed(line);
    var eq := IndexOf(trimmed, '=').value;
    var left, right := trimmed[..eq], trimmed[eq + 1..];
    TrimIsTrimmed(left);
    TrimIsTrimmed(right);
    forall c | c in left || c in right ensures c in trimmed { }
    TrimOfPrefix(trimmed, eq);
  }

  lemma TrimOfPrefix(s: string, n: nat)
    requires Trimmed(s) && n <= |s|
    ensures Trim(s[..n]) <= s
  {
    TrimEndIsPrefix(s[..n]);
    assert n > 0 ==> s[..n][0] == s[0];
  }

  ghost predicate AllPrintable(entries: Entries) {
    forall k :: k in entries.values ==> Printable(k, entries.values[k])
  }

  // ------------------------------------------------------------------ parsing printed lines

  lemma {:induction false} ParsedIsValid(lines: seq<string>)
    ensures ParseLines(lines).Valid()
  {
    if lines != [] { ParsedIsValid(lines[..|lines| - 1]); }
  }

  lemma {:induction false} ParsedIsPrintable(lines: seq<string>)
    requires AllOneLine(lines)
    ensures AllPrintable(ParseLines(lines))
  {
    if lines != [] {
      ParsedIsPrintable(lines[..|lines| - 1]);
      if EntryOf(lines[|lines| - 1]).Some? { EntryIsPrintable(lines[|lines| - 1]); }
    }
  }

  lemma ParseSnoc(lines: seq<string>, line: string)
    ensures ParseLines(lines + [line]) == match EntryOf(line)
              case None => ParseLines(lines)
              case Some(entry) => ParseLines(lines).Set(entry.key, entry.value)
  {
    assert (lines + [line])[..|lines|] == lines;
  }

  /** Blank lines at the end hold no entries. */
  lemma {:induction false} ParseDropBlank(lines: seq<string>)
    ensures ParseLines(DropBlank(lines)) == ParseLines(lines)
  {
    if lines != [] && lines[|lines| - 1] == "" { ParseDropBlank(lines[..|lines| - 1]); }
  }

  lemma ParseEndLines(lines: seq<string>)
    ensures ParseLines(EndLines(lines)) == ParseLines(lines)
  {
    ParseDropBlank(lines);
    ParseSnoc([], "");
    ParseSnoc(if DropBlank(lines) == [] then [""] else DropBlank(lines), "");
  }

  lemma RewriteKeepsKey(line: string, entries: Entries)
    requires AllPrintable(entries)
    ensures EntryOf(line).None? ==> EntryOf(Rewrite(line, entries)).None?
    ensures EntryOf(line).Some? ==> var k := EntryOf(line).value.key;
              EntryOf(Rewrite(line, entries))
                == Some(Entry(k, if k in entries.values then entries.values[k] else EntryOf(line).value.value))
  {
    if EntryOf(line).Some? && EntryOf(line).value.key in entries.values {
      EntryOfFormat(EntryOf(line).value.key, entries.values[EntryOf(line).value.key]);
    }
  }

  /** The same keys, with the values of new entries where there are any. */
  ghost predicate Replaced(before: Entries, after: Entries, entries: Entries) {
    && after.keys == before.keys && (forall k :: k in after.values <==> k in before.values)
    && (forall k :: k in after.values ==>
          after.values[k] == if k in entries.values then entries.values[k] else before.values[k])
  }

  /** Rewriting lines replaces the values of the keys they hold, wherever they occur. */
  lemma {:induction false} ParseRewritten(lines: seq<string>, entries: Entries)
    requires AllPrintable(entries)
    ensures Replaced(ParseLines(lines), ParseLines(RewriteAll(lines, entries)), entries)
  {
    if lines != [] {
      var front, last := lines[..|lines| - 1], lines[|lines| - 1];
      ParseRewritten(front, entries);
      RewriteKeepsKey(last, entries);
      ParseSnoc(RewriteAll(front, entries), Rewrite(last, entries));
    }
  }

  function NewKeys(keys: seq<string>, present: map<string, string>): seq<string> {
    Filter(keys, key => key !in present)
  }

  /** The entries before, and the new ones among the given keys, in order. */
  ghost predicate Added(
    before: Entries, after: Entries, keys: seq<string>, entries: Entries, present: map<string, string>) {
    && after.keys == before.keys + NewKeys(keys, present)
    && (forall k :: k in after.values <==> k in present || k in keys)
    && (forall k :: k in after.values && k in before.values ==> after.values[k] == before.values[k])
    && (forall k :: k in after.values && k !in before.values ==>
          k in entries.values && after.values[k] == entries.values[k])
  }

  lemma NewKeysSnoc(keys: seq<string>, key: string, present: map<string, string>)
    ensures NewKeys(keys + [key], present) == NewKeys(keys, present) + if key in present then [] else [key]
  {
    assert (keys + [key])[..|keys|] == keys;
  }

  lemma AddedStep(
    before: Entries, after: Entries, keys: seq<string>, key: string, entries: Entries, present: map<string, string>)
    requires Added(before, after, keys, entries, present) && key in entries.values
    requires key !in keys && forall k :: k in present <==> k in before.values
    ensures var extended := if key in present then after else after.Set(key, entries.values[key]);
            Added(before, extended, keys + [key], entries, present)
  {
    if key in present { KnownKeyStep(before, after, keys, key, entries, present); }
    else { NewKeyStep(before, after, keys, key, entries, present); }
  }

  lemma KnownKeyStep(
    before: Entries, after: Entries, keys: seq<string>, key: string, entries: Entries, present: map<string, string>)
    requires Added(before, after, keys, entries, present) && key in present
    ensures Added(before, after, keys + [key], entries, present)
  {
    NewKeysSnoc(keys, key, present);
  }

  lemma NewKeyStep(
    before: Entries, after: Entries, keys: seq<string>, key: string, entries: Entries, present: map<string, string>)
    requires Added(before, after, keys, entries, present) && key in entries.values
    requires key !in keys && key !in present && forall k :: k in present <==> k in before.values
    ensures Added(before, after.Set(key, entries.values[key]), keys + [key], entries, present)
  {
    NewKeysSnoc(keys, key, present);
  }

  lemma OneMoreLine(lines: seq<string>, keys: seq<string>, key: string, entries: Entries, present: map<string, string>)
    requires AllPrintable(entries) && key in entries.values
    ensures var before := ParseLines(lines + NewLines(keys, entries, present));
            ParseLines(lines + NewLines(keys + [key], entries, present))
              == if key in present then before else before.Set(key, entries.values[key])
  {
    assert (keys + [key])[..|keys|] == keys;
    var shown := lines + NewLines(keys, entries, present);
    if key !in present {
      EntryOfFormat(key, entries.values[key]);
      ParseSnoc(shown, Format(key, entries.values[key]));
      assert lines + NewLines(keys + [key], entries, present) == shown + [Format(key, entries.values[key])];
    }
  }

  /** Adding the lines of the new keys adds those keys, in order. */
  lemma {:induction false} ParseAdded(
    lines: seq<string>, keys: seq<string>, entries: Entries, present: map<string, string>)
    requires AllPrintable(entries) && Distinct(keys) && forall k :: k in keys ==> k in entries.values
    requires forall k :: k in present <==> k in ParseLines(lines).values
    ensures Added(ParseLines(lines), ParseLines(lines + NewLines(keys, entries, present)), keys, entries, present)
  {
    if keys == [] {
      assert lines + [] == lines;
    } else {
      var front, key := keys[..|keys| - 1], keys[|keys| - 1];
      assert keys == front + [key];
      ParseAdded(lines, front, entries, present);
      OneMoreLine(lines, front, key, entries, present);
      AddedStep(ParseLines(lines), ParseLines(lines + NewLines(front, entries, present)), front, key, entries, present);
    }
  }

  // ------------------------------------------------------------------ the round trip

  /** The old entries overridden by new ones: keys keep their places, new keys follow in order. */
  function Overridden(old_entries: Entries, entries: Entries): Entries {
    Entries(old_entries.keys + NewKeys(entries.keys, old_entries.values), old_entries.values + entries.values)
  }

  lemma LinesAreOneLine(file: Option<string>, entries: Entries)
    requires AllPrintable(entries)
    ensures AllOneLine(AllLines(file, entries))
  {
    if file.Some? { SplitIsOneLine(file.value); }
    NewLinesAreOneLine(entries.keys, entries, Parse(file).values);
    forall i | 0 <= i < |OldLines(file)| ensures OneLine(Rewrite(OldLines(file)[i], entries)) {
      if EntryOf(OldLines(file)[i]).Some? { EntryIsPrintable(OldLines(file)[i]); }
    }
  }

  lemma {:induction false} NewLinesAreOneLine(keys: seq<string>, entries: Entries, present: map<string, string>)
    requires AllPrintable(entries)
    ensures AllOneLine(NewLines(keys, entries, present))
  {
    if keys != [] { NewLinesAreOneLine(keys[..|keys| - 1], entries, present); }
  }

  lemma ParseAllLines(file: Option<string>, entries: Entries)
    requires entries.Valid() && AllPrintable(entries)
    ensures ParseLines(AllLines(file, entries)) == Overridden(Parse(file), entries)
  {
    var lines := OldLines(file);
    ParseRewritten(lines, entries);
    ParseAdded(RewriteAll(lines, entries), entries.keys, entries, Parse(file).values);
    ReplacedThenAdded(
      Parse(file), ParseLines(RewriteAll(lines, entries)), ParseLines(AllLines(file, entries)), entries);
  }

  lemma ReplacedThenAdded(before: Entries, replaced: Entries, after: Entries, entries: Entries)
    requires entries.Valid() && Replaced(before, replaced, entries)
    requires Added(replaced, after, entries.keys, entries, before.values)
    ensures after == Overridden(before, entries)
  {
    assert after.values == before.values + entries.values;
  }

  /** Parsing what was printed gives the old entries overridden by the printed ones. */
  lemma ParseOfPrint(file: Option<string>, entries: Entries)
    requires entries.Valid() && AllPrintable(entries)
    ensures Parse(Some(Print(file, entries))) == Overridden(Parse(file), entries)
  {
    LinesAreOneLine(file, entries);
    SplitEnded(AllLines(file, entries));
    ParseEndLines(AllLines(file, entries));
    ParseAllLines(file, entries);
  }

  /** The round trip works exactly for entries that a line can hold. */
  lemma RoundTripIff(file: Option<string>, entries: Entries)
    requires entries.Valid()
    ensures Parse(Some(Print(file, entries))) == Overridden(Parse(file), entries) <==> AllPrintable(entries)
  {
    if AllPrintable(entries) { ParseOfPrint(file, entries); }
    SplitIsOneLine(Print(file, entries));
    ParsedIsPrintable(Split(Print(file, entries)));
    if Parse(Some(Print(file, entries))) == Overridden(Parse(file), entries) {
      forall k | k in entries.values ensures Printable(k, entries.values[k]) {
        assert Overridden(Parse(file), entries).values[k] == entries.values[k];
      }
    }
  }

  /** A line that holds no printed key stays where it is; one that does is replaced in place. */
  lemma LinesStay(file: Option<string>, entries: Entries, i: nat)
    requires entries.Valid() && AllPrintable(entries) && i < |OldLines(file)| && OldLines(file)[i] != ""
    ensures var line, after := OldLines(file)[i], Split(Print(file, entries));
            && i < |after|
            && (EntryOf(line).None? || EntryOf(line).value.key !in entries.values ==> after[i] == line)
            && (EntryOf(line).Some? && EntryOf(line).value.key in entries.values ==>
                  EntryOf(after[i]) == Some(Entry(EntryOf(line).value.key, entries.values[EntryOf(line).value.key])))
  {
    var lines := AllLines(file, entries);
    LinesAreOneLine(file, entries);
    SplitEnded(lines);
    DropBlankKeeps(lines);
    RewriteKeepsKey(OldLines(file)[i], entries);
    assert lines[i] == Rewrite(OldLines(file)[i], entries) != "";
  }

  lemma RewriteTwice(line: string, entries: Entries)
    requires AllPrintable(entries)
    ensures Rewrite(Rewrite(line, entries), entries) == Rewrite(line, entries)
  {
    RewriteKeepsKey(line, entries);
  }

  lemma {:induction false} NewLinesAreFinal(keys: seq<string>, entries: Entries, present: map<string, string>)
    requires AllPrintable(entries)
    ensures forall i :: 0 <= i < |NewLines(keys, entries, present)| ==>
              Rewrite(NewLines(keys, entries, present)[i], entries) == NewLines(keys, entries, present)[i]
  {
    if keys != [] {
      NewLinesAreFinal(keys[..|keys| - 1], entries, present);
      var key := keys[|keys| - 1];
      if key in entries.values { EntryOfFormat(key, entries.values[key]); }
    }
  }

  lemma {:induction false} NothingNew(keys: seq<string>, entries: Entries, present: map<string, string>)
    requires forall k :: k in keys ==> k in present
    ensures NewLines(keys, entries, present) == []
  {
    if keys != [] { NothingNew(keys[..|keys| - 1], entries, present); }
  }

  lemma EndLinesTwice(lines: seq<string>)
    ensures EndLines(EndLines(lines)) == EndLines(lines)
  {
    DropBlankKeeps(lines);
    var shown := if DropBlank(lines) == [] then [""] else DropBlank(lines);
    assert EndLines(lines)[..|shown|] == shown;
    assert DropBlank(EndLines(lines)) == DropBlank(shown);
    assert DropBlank(lines) == [] ==> [""][..0] == [];
  }

  lemma LinesAreFinal(file: Option<string>, entries: Entries)
    requires entries.Valid() && AllPrintable(entries)
    ensures RewriteAll(EndLines(AllLines(file, entries)), entries) == EndLines(AllLines(file, entries))
  {
    var lines := AllLines(file, entries);
    DropBlankKeeps(lines);
    forall i | 0 <= i < |lines| ensures Rewrite(lines[i], entries) == lines[i] { LineIsFinal(file, entries, i); }
  }

  lemma LineIsFinal(file: Option<string>, entries: Entries, i: nat)
    requires AllPrintable(entries) && i < |AllLines(file, entries)|
    ensures Rewrite(AllLines(file, entries)[i], entries) == AllLines(file, entries)[i]
  {
    if i < |OldLines(file)| {
      RewriteTwice(OldLines(file)[i], entries);
    } else {
      NewLinesAreFinal(entries.keys, entries, Parse(file).values);
    }
  }

  lemma NothingToAdd(file: Option<string>, entries: Entries)
    requires entries.Valid() && AllPrintable(entries)
    ensures NewLines(entries.keys, entries, Parse(Some(Print(file, entries))).values) == []
  {
    ParseOfPrint(file, entries);
    NothingNew(entries.keys, entries, Parse(Some(Print(file, entries))).values);
  }

  lemma SameLinesAgain(file: Option<string>, entries: Entries)
    requires entries.Valid() && AllPrintable(entries)
    ensures AllLines(Some(Print(file, entries)), entries) == EndLines(AllLines(file, entries))
  {
    LinesAreOneLine(file, entries);
    SplitEnded(AllLines(file, entries));
    LinesAreFinal(file, entries);
    NothingToAdd(file, entries);
  }

  /** Printing the same entries again leaves the text unchanged. */
  lemma PrintTwice(file: Option<string>, entries: Entries)
    requires entries.Valid() && AllPrintable(entries)
    ensures Print(Some(Print(file, entries)), entries) == Print(file, entries)
  {
    var lines := AllLines(file, entries);
    LinesAreOneLine(file, entries);
    LinesAreOneLine(Some(Print(file, entries)), entries);
    SameLinesAgain(file, entries);
    EndWithNewlineOfJoin(lines);
    EndWithNewlineOfJoin(EndLines(lines));
    EndLinesTwice(lines);
  }
}

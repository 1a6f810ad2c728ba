/** What the settings of a `.env` file say, line by line, and how a saved setting
    comes back (src/admin/db_config.py, src/admin/env_manager.py). */
module EnvSettings {
  import opened Wrappers
  import opened Text
  import opened EnvFile

  // ---- one line ----

  /** The line up to white space: the key, its white space, '=', the value with its own. */
  datatype Layout = Layout(indent: string, key: string, gap: string, space: string, value: string, tail: string)

  function LineOf(x: Layout): string {
    x.indent + x.key + x.gap + "=" + x.space + x.value + x.tail
  }

  predicate Proper(x: Layout) {
    && Blank(x.indent) && Blank(x.gap) && Blank(x.space) && Blank(x.tail)
    && Stripped(x.key) && Stripped(x.value)
    && x.key != "" && x.key[0] != '#' && '=' !in x.key
  }

  lemma NoEqualsInBlank(s: string)
    requires Blank(s)
    ensures '=' !in s
  {
  }

  lemma StrippedLine(x: Layout)
    requires Proper(x)
    ensures var tail := if x.value == "" then "" else x.space + x.value;
            Strip(LineOf(x)) == x.key + x.gap + "=" + tail
  {
    var tail := if x.value == "" then "" else x.space + x.value;
    var core := x.key + x.gap + "=" + tail;
    var right := if x.value == "" then x.space + x.tail else x.tail;
    assert x.value == "" ==> x.space + x.value + x.tail == x.space + x.tail;
    assert LineOf(x) == x.indent + core + right;
    assert core[0] == x.key[0];
    assert core[|core| - 1] == if x.value == "" then '=' else x.value[|x.value| - 1];
    StripOf(x.indent, core, right);
  }

  /** A line with a key, '=' and a value says so, whatever white space stands around
      them and whatever '=' and '#' the value holds. */
  lemma LineSays(x: Layout)
    requires Proper(x)
    ensures EntryOf(LineOf(x)) == Some(Entry(x.key, x.value))
  {
    hide Strip, FirstEquals;
    var tail := if x.value == "" then "" else x.space + x.value;
    var s := x.key + x.gap + "=" + tail;
    StrippedLine(x);
    NoEqualsInBlank(x.gap);
    var n := |x.key + x.gap|;
    assert s[..n] == x.key + x.gap && s[n] == '=' && s[n + 1..] == tail;
    EqualsAt(s, n);
    StripOf("", x.key, x.gap);
    assert "" + x.key + x.gap == x.key + x.gap;
    StripOf(x.space, x.value, "");
    assert x.space + x.value + "" == x.space + x.value;
    if x.value == "" {
      StripOf("", "", "");
      assert "" + "" + "" == "";
    }
  }

  /** A line says nothing exactly if it is blank, begins with '#' after its white space, or has no '='. */
  lemma LineSaysNothing(indent: string, rest: string)
    requires Blank(indent) && (rest != "" ==> !IsSpace(rest[0]))
    ensures EntryOf(indent + rest).None? <==> rest == "" || rest[0] == '#' || '=' !in rest
  {
    hide FirstEquals, StripRight;
    var s := Strip(indent + rest);
    LeftStripped(indent, rest);
    assert s == StripRight(rest);
    KeptRight(rest);
    if s != "" && '=' in s { SomeEquals(s); }
  }

  lemma {:induction false} KeptRight(rest: string)
    ensures var s := StripRight(rest); '=' in s <==> '=' in rest
    ensures rest != "" && !IsSpace(rest[0]) ==> StripRight(rest) != "" && StripRight(rest)[0] == rest[0]
  {
    if rest != "" && IsSpace(rest[|rest| - 1]) {
      var n := |rest| - 1;
      assert rest == rest[..n] + [rest[n]];
      KeptRight(rest[..n]);
    }
  }

  lemma SomeEquals(s: string)
    ensures '=' in s <==> FirstEquals(s) < |s|
  {
    var n := FirstEquals(s);
    if n == |s| { assert s[..n] == s; }
  }

  // ---- all lines ----

  /** Line k is the last one that mentions the key. */
  predicate LastMention(lines: seq<string>, k: nat, key: string) {
    && k < |lines| && EntryOf(lines[k]).Some? && EntryOf(lines[k]).value.key == key
    && forall j | k < j < |lines| :: EntryOf(lines[j]).Some? ==> EntryOf(lines[j]).value.key != key
  }

  /** A setting is what the last line that mentions its key says; without one it is not set. */
  lemma {:induction false} LastLineWins(lines: seq<string>, key: string)
    ensures key in Parsed(lines) <==> exists k: nat :: LastMention(lines, k, key)
    ensures forall k: nat | LastMention(lines, k, key) ::
              key in Parsed(lines) && Parsed(lines)[key] == EntryOf(lines[k]).value.value
  {
    hide EntryOf;
    if lines != [] {
      var n := |lines| - 1;
      LastLineWins(lines[..n], key);
      var here := EntryOf(lines[n]).Some? && EntryOf(lines[n]).value.key == key;
      forall k: nat
        ensures LastMention(lines, k, key) <==> if here then k == n else LastMention(lines[..n], k, key)
      {
        MentionSnoc(lines, k, key);
      }
      assert here ==> LastMention(lines, n, key);
    }
  }

  lemma MentionSnoc(lines: seq<string>, k: nat, key: string)
    requires lines != []
    ensures var n := |lines| - 1;
            var here := EntryOf(lines[n]).Some? && EntryOf(lines[n]).value.key == key;
            LastMention(lines, k, key) <==> if here then k == n else LastMention(lines[..n], k, key)
  {
    hide EntryOf;
    var n := |lines| - 1;
    assert forall j | 0 <= j < n :: lines[..n][j] == lines[j];
  }

  // ---- the panel's four settings ----

  predicate Sets(updates: seq<Entry>, key: string, value: string) {
    Entry(key, value) in updates
  }

  lemma MapOfSets(updates: seq<Entry>, key: string)
    requires IsDict(updates)
    ensures key in MapOf(updates) <==> HasKey(updates, key)
    ensures forall value | Sets(updates, key, value) :: key in MapOf(updates) && MapOf(updates)[key] == value
  {
    MapOfLookup(updates, key);
    forall value | Sets(updates, key, value)
      ensures HasKey(updates, key) && Lookup(updates, key) == Entry(key, value)
    {
      LookupSelf(updates, Entry(key, value));
    }
  }

  /** A clean update of one of the four settings is read back in its own field, and a
      setting that is not updated keeps what the old file said. */
  lemma SavedIsLoaded(text: string, updates: seq<Entry>, value: string)
    requires IsDict(updates) && AllClean(updates)
    ensures var was, now := ConfigOf(Some(text)), ConfigOf(Some(RewrittenText(text, updates)));
            && (Sets(updates, "POSTGRES_USER", value) ==> now.user == value)
            && (Sets(updates, "POSTGRES_DB", value) ==> now.db == value)
            && (Sets(updates, "POSTGRES_PASSWORD", value) ==> now.password == value)
            && (Sets(updates, "APP_MASTER_KEY", value) ==> now.masterKey == value)
            && (!HasKey(updates, "POSTGRES_USER") ==> now.user == was.user)
            && (!HasKey(updates, "POSTGRES_DB") ==> now.db == was.db)
            && (!HasKey(updates, "POSTGRES_PASSWORD") ==> now.password == was.password)
            && (!HasKey(updates, "APP_MASTER_KEY") ==> now.masterKey == was.masterKey)
  {
    hide Parsed, MapOf, RewrittenText, SplitLines, AllClean, IsDict, HasKey, Sets;
    LoadAfterUpdate(text, updates);
    MapOfSets(updates, "POSTGRES_USER");
    MapOfSets(updates, "POSTGRES_DB");
    MapOfSets(updates, "POSTGRES_PASSWORD");
    MapOfSets(updates, "APP_MASTER_KEY");
  }

  /** A setting is what the last line with its key says, and its default where no line has one. */
  lemma LoadedExactly(text: string, k: nat)
    ensures var lines, config := SplitLines(text), ConfigOf(Some(text));
            && (LastMention(lines, k, "POSTGRES_USER") ==> config.user == EntryOf(lines[k]).value.value)
            && (LastMention(lines, k, "POSTGRES_DB") ==> config.db == EntryOf(lines[k]).value.value)
            && (LastMention(lines, k, "POSTGRES_PASSWORD") ==> config.password == EntryOf(lines[k]).value.value)
            && (LastMention(lines, k, "APP_MASTER_KEY") ==> config.masterKey == EntryOf(lines[k]).value.value)
    ensures var lines, config := SplitLines(text), ConfigOf(Some(text));
            && ((forall j: nat :: !LastMention(lines, j, "POSTGRES_USER")) ==> config.user == "bot")
            && ((forall j: nat :: !LastMention(lines, j, "POSTGRES_DB")) ==> config.db == "via")
            && ((forall j: nat :: !LastMention(lines, j, "POSTGRES_PASSWORD")) ==> config.password == "")
            && ((forall j: nat :: !LastMention(lines, j, "APP_MASTER_KEY")) ==> config.masterKey == "")
  {
    hide Parsed, SplitLines, LastMention, EntryOf;
    var lines := SplitLines(text);
    LastLineWins(lines, "POSTGRES_USER");
    LastLineWins(lines, "POSTGRES_DB");
    LastLineWins(lines, "POSTGRES_PASSWORD");
    LastLineWins(lines, "APP_MASTER_KEY");
    MentionMeans(lines, k, "POSTGRES_USER");
    MentionMeans(lines, k, "POSTGRES_DB");
    MentionMeans(lines, k, "POSTGRES_PASSWORD");
    MentionMeans(lines, k, "APP_MASTER_KEY");
  }

  lemma MentionMeans(lines: seq<string>, k: nat, key: string)
    ensures LastMention(lines, k, key) ==> k < |lines| && EntryOf(lines[k]).Some?
  {
  }

  // ---- where lines end ----

  /** "\r\n" ends one line, and so does each of these characters alone. */
  predicate IsEnd(end: string) {
    end == "\r\n" || (|end| == 1 && IsBreak(end[0]))
  }

  function Ended(lines: seq<string>, ends: seq<string>): string
    requires |lines| == |ends|
  {
    if lines == [] then "" else lines[0] + ends[0] + Ended(lines[1..], ends[1..])
  }

  /** A '\r' and the '\n' of the next line's own end would be read as one end. */
  predicate Apart(lines: seq<string>, ends: seq<string>)
    requires |lines| == |ends|
  {
    forall k | 0 <= k < |lines| - 1 :: !(ends[k] == "\r" && lines[k + 1] == "" && ends[k + 1] == "\n")
  }

  lemma {:induction false} FirstEnd(line: string, rest: string)
    requires OneLine(line) && rest != "" && IsBreak(rest[0])
    ensures LineLength(line + rest) == |line|
    decreases |line|
  {
    if line == "" {
      assert line + rest == rest;
    } else {
      var s := line + rest;
      assert s[0] == line[0] && line[0] in line;
      assert s[1..] == line[1..] + rest;
      FirstEnd(line[1..], rest);
    }
  }

  lemma FirstSplit(line: string, end: string, more: string)
    requires OneLine(line) && IsEnd(end) && !(end == "\r" && more != "" && more[0] == '\n')
    ensures SplitLines(line + (end + more)) == [line] + SplitLines(more)
  {
    hide OneLine, LineLength, IsBreak;
    var s := line + (end + more);
    EndIsBreak(end);
    FirstEnd(line, end + more);
    var n := |line|;
    assert s[..n] == line && s[n] == end[0];
    if end == "\r\n" {
      assert s[n + 1] == '\n' && s[n + 2..] == more;
    } else {
      assert s[n + 1..] == more;
      assert n + 1 < |s| ==> s[n + 1] == more[0];
      assert end == [end[0]];
    }
  }

  /** Lines are told apart whatever ends each of them, and a last line without an end counts. */
  lemma {:induction false} LinesByEnds(lines: seq<string>, ends: seq<string>, last: string)
    requires |lines| == |ends| && (forall line <- lines :: OneLine(line)) && OneLine(last)
    requires (forall end <- ends :: IsEnd(end)) && Apart(lines, ends)
    ensures SplitLines(Ended(lines, ends) + last) == lines + if last == "" then [] else [last]
    decreases |lines|
  {
    hide OneLine, SplitLines, IsEnd;
    if lines == [] {
      LastLine(last);
      assert Ended(lines, ends) + last == last;
    } else {
      var more := Ended(lines[1..], ends[1..]) + last;
      assert Ended(lines, ends) + last == lines[0] + (ends[0] + more);
      assert lines[0] in lines && ends[0] in ends;
      RestApart(lines, ends);
      LinesByEnds(lines[1..], ends[1..], last);
      StartOfRest(lines[1..], ends[1..], last);
      FirstSplit(lines[0], ends[0], more);
    }
  }

  lemma RestApart(lines: seq<string>, ends: seq<string>)
    requires |lines| == |ends| && lines != [] && Apart(lines, ends)
    ensures Apart(lines[1..], ends[1..])
  {
    forall k | 0 <= k < |lines| - 2
      ensures !(ends[1..][k] == "\r" && lines[1..][k + 1] == "" && ends[1..][k + 1] == "\n")
    {
      assert lines[k + 2] == lines[1..][k + 1] && ends[k + 1] == ends[1..][k];
    }
  }

  lemma EndIsBreak(end: string)
    requires IsEnd(end)
    ensures end != "" && IsBreak(end[0])
  {
  }

  lemma LastLine(last: string)
    requires OneLine(last)
    ensures SplitLines(last) == if last == "" then [] else [last]
  {
    if last != "" { WholeLine(last); }
  }

  lemma {:induction false} WholeLine(last: string)
    requires OneLine(last)
    ensures LineLength(last) == |last|
  {
    if last != "" {
      assert last[0] in last;
      WholeLine(last[1..]);
    }
  }

  /** The rest begins with '\n' only if its first line is empty and ended by it. */
  lemma StartOfRest(lines: seq<string>, ends: seq<string>, last: string)
    requires |lines| == |ends| && (forall line <- lines :: OneLine(line)) && OneLine(last)
    requires forall end <- ends :: IsEnd(end)
    ensures var more := Ended(lines, ends) + last;
            more != "" && more[0] == '\n' ==> lines != [] && lines[0] == "" && ends[0] == "\n"
  {
    if lines == [] {
      assert Ended(lines, ends) + last == last;
      NoBreakFirst(last);
    } else {
      assert lines[0] in lines && ends[0] in ends;
      NoBreakFirst(lines[0]);
    }
  }

  lemma NoBreakFirst(line: string)
    requires OneLine(line)
    ensures line != "" ==> line[0] != '\n'
  {
    if line != "" { assert line[0] in line; }
  }

  // ---- what is written ----

  function Newlines(n: nat): (r: seq<string>)
    ensures |r| == n && forall end <- r :: end == "\n"
  {
    seq(n, k requires 0 <= k < n => "\n")
  }

  /** Every line is written with a newline behind it. */
  lemma {:induction false} WrittenIsEnded(lines: seq<string>)
    ensures lines != [] ==> Written(lines) == Ended(lines, Newlines(|lines|))
  {
    if lines != [] {
      var n := |lines|;
      assert Newlines(n)[0] == "\n" && Newlines(n)[1..] == Newlines(n - 1);
      WrittenIsEnded(lines[1..]);
      if n == 1 {
        assert lines[1..] == [] && Newlines(0) == [];
        assert lines[0] + "\n" + "" == lines[0] + "\n";
      }
    }
  }

  lemma MissingOne(lines: seq<string>, e: Entry)
    ensures Missing(lines, [e]) == if Mentioned(lines, e.key) then [] else [e.key + "=" + e.value]
  {
    hide Mentioned;
    assert [e][..0] == [];
  }

  /** The updates no line mentions are appended in their own order, each once. */
  lemma {:induction false} MissingInOrder(lines: seq<string>, a: seq<Entry>, e: Entry, b: seq<Entry>)
    ensures Missing(lines, a + [e] + b)
         == Missing(lines, a) + (if Mentioned(lines, e.key) then [] else [e.key + "=" + e.value]) + Missing(lines, b)
  {
    hide Missing, Mentioned;
    MissingJoin(lines, a + [e], b);
    MissingJoin(lines, a, [e]);
    MissingOne(lines, e);
  }

  lemma {:induction false} MissingJoin(lines: seq<string>, a: seq<Entry>, b: seq<Entry>)
    ensures Missing(lines, a + b) == Missing(lines, a) + Missing(lines, b)
  {
    hide Mentioned, Format;
    if b == [] {
      assert a + b == a;
    } else {
      assert (a + b)[..|a + b| - 1] == a + b[..|b| - 1];
      MissingJoin(lines, a, b[..|b| - 1]);
    }
  }
}

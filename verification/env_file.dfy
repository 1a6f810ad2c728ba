/** The `.env` rewriter and the parser it has to agree with
    (src/admin/env_manager.py, src/admin/db_config.py). */
module EnvFile {
  import opened Wrappers
  import opened Text

  // ---- lines of a text ----

  /** Where `str.splitlines` ends a line. */
  predicate IsBreak(c: char) {
    var n := c as int;
    0x0A <= n <= 0x0D || 0x1C <= n <= 0x1E || n == 0x85 || n == 0x2028 || n == 0x2029
  }

  predicate OneLine(s: string) {
    forall c <- s :: !IsBreak(c)
  }

  function LineLength(s: string): (n: nat)
    ensures n <= |s| && OneLine(s[..n])
    ensures n < |s| ==> IsBreak(s[n])
  {
    if s == [] || IsBreak(s[0]) then 0
    else
      var n := LineLength(s[1..]);
      assert s[..n + 1] == [s[0]] + s[1..][..n];
      n + 1
  }

  function SplitLines(s: string): (r: seq<string>)
    ensures forall line <- r :: OneLine(line)
  {
    if s == [] then []
    else
      var n := LineLength(s);
      if n == |s| then [s]
      else if s[n] == '\r' && n + 1 < |s| && s[n + 1] == '\n' then [s[..n]] + SplitLines(s[n + 2..])
      else [s[..n]] + SplitLines(s[n + 1..])
  }

  /** Each line with its newline; a file without lines still gets one. */
  function Written(lines: seq<string>): string {
    if |lines| == 0 then "\n"
    else if |lines| == 1 then lines[0] + "\n"
    else lines[0] + "\n" + Written(lines[1..])
  }

  lemma FirstLine(line: string, rest: string)
    requires OneLine(line)
    ensures LineLength(line + "\n" + rest) == |line|
    decreases |line|
  {
    if line != [] {
      var s := line + "\n" + rest;
      assert s[0] == line[0] && line[0] in line;
      assert s[1..] == line[1..] + "\n" + rest;
      FirstLine(line[1..], rest);
    }
  }

  /** What is written is read back line by line. */
  lemma {:induction false} SplitWritten(lines: seq<string>)
    requires forall line <- lines :: OneLine(line)
    ensures SplitLines(Written(lines)) == if lines == [] then [""] else lines
  {
    hide LineLength, OneLine;
    if lines == [] {
      FirstLine("", "");
      assert "" + "\n" + "" == "\n";
      assert "\n"[1..] == "";
    } else {
      var rest := if |lines| == 1 then "" else Written(lines[1..]);
      var s := lines[0] + "\n" + rest;
      assert lines[0] in lines;
      FirstLine(lines[0], rest);
      assert Written(lines) == s;
      assert s[..|lines[0]|] == lines[0] && s[|lines[0]| + 1..] == rest;
      if |lines| > 1 {
        SplitWritten(lines[1..]);
      }
    }
  }

  // ---- one line ----

  datatype Entry = Entry(key: string, value: string)

  function FirstEquals(s: string): (n: nat)
    ensures n <= |s| && '=' !in s[..n]
    ensures n < |s| ==> s[n] == '='
  {
    if s == [] || s[0] == '=' then 0
    else
      var n := FirstEquals(s[1..]);
      assert s[..n + 1] == [s[0]] + s[1..][..n];
      n + 1
  }

  /** Comments, blank lines and lines without '=' say nothing. */
  function EntryOf(line: string): (e: Option<Entry>) {
    var s := Strip(line);
    if s == [] || s[0] == '#' then None
    else
      var n := FirstEquals(s);
      if n == |s| then None else Some(Entry(Strip(s[..n]), Strip(s[n + 1..])))
  }

  function Format(e: Entry): string {
    e.key + "=" + e.value
  }

  /** Stripped, on one line, the key without '=' and no comment. */
  predicate Clean(e: Entry) {
    && Stripped(e.key) && Stripped(e.value)
    && OneLine(e.key) && OneLine(e.value)
    && '=' !in e.key
    && (e.key != [] ==> e.key[0] != '#')
  }

  lemma {:induction false} EqualsAt(s: string, n: nat)
    requires n < |s| && s[n] == '=' && '=' !in s[..n]
    ensures FirstEquals(s) == n
  {
    if n > 0 {
      assert s[0] in s[..n];
      assert s[1..][..n - 1] == s[1..n] && forall c <- s[1..n] :: c in s[..n];
      EqualsAt(s[1..], n - 1);
    }
  }

  lemma FormatChars(e: Entry)
    ensures OneLine(Format(e)) <==> OneLine(e.key) && OneLine(e.value)
  {
    var s := Format(e);
    assert forall c :: c in s <==> c in e.key || c == '=' || c in e.value;
  }

  lemma CleanParses(e: Entry)
    requires Clean(e)
    ensures EntryOf(Format(e)) == Some(e)
  {
    hide LineLength, StripLeft, StripRight, Strip;
    var s := Format(e);
    assert s == (e.key + ['=']) + e.value;
    StripFixpoint(s);
    assert s[..|e.key|] == e.key && s[|e.key| + 1..] == e.value;
    EqualsAt(s, |e.key|);
    StripFixpoint(e.key);
    StripFixpoint(e.value);
  }

  lemma ParsesClean(e: Entry)
    requires OneLine(Format(e)) && EntryOf(Format(e)) == Some(e)
    ensures Clean(e)
  {
    hide LineLength, StripLeft, StripRight, Strip;
    FormatChars(e);
    var t := Strip(Format(e));
    KeyHasNoEquals(t, FirstEquals(t));
    if e.key != [] {
      FirstNonSpace(Format(e), e);
    }
  }

  /** The written line is one line that parses back to its entry exactly when the entry is clean. */
  lemma FormattedLineParses(e: Entry)
    ensures Clean(e) <==> (OneLine(Format(e)) && EntryOf(Format(e)) == Some(e))
  {
    hide Clean, EntryOf, OneLine, Format;
    if Clean(e) {
      CleanParses(e);
      CleanOneLine(e);
    }
    if OneLine(Format(e)) && EntryOf(Format(e)) == Some(e) {
      ParsesClean(e);
    }
  }

  lemma CleanOneLine(e: Entry)
    requires Clean(e)
    ensures OneLine(Format(e))
  {
    FormatChars(e);
  }

  lemma KeyHasNoEquals(t: string, n: nat)
    requires n <= |t| && '=' !in t[..n]
    ensures '=' !in Strip(t[..n])
  {
    var p := t[..n];
    var l := StripLeft(p);
    assert forall c <- l :: c in p;
    assert forall c <- StripRight(l) :: c in l;
  }

  /** A stripped key that starts with '#' makes the line a comment. */
  lemma FirstNonSpace(s: string, e: Entry)
    requires s == Format(e) && Stripped(e.key) && e.key != []
    ensures Strip(s) != [] && Strip(s)[0] == s[0] == e.key[0]
  {
    assert StripLeft(s) == s;
    var r := StripRight(s);
    assert !IsSpace(s[0]);
    KeepsFirst(s);
  }

  lemma KeepsFirst(s: string)
    requires s != [] && !IsSpace(s[0])
    ensures StripRight(s) != [] && StripRight(s)[0] == s[0]
  {
    if |s| > 1 && IsSpace(s[|s| - 1]) {
      KeepsFirst(s[..|s| - 1]);
    }
  }

  // ---- the rewriter ----

  /** A dictionary in insertion order. */
  predicate IsDict(updates: seq<Entry>) {
    forall a, b | 0 <= a < b < |updates| :: updates[a].key != updates[b].key
  }

  predicate HasKey(updates: seq<Entry>, key: string) {
    exists e :: e in updates && e.key == key
  }

  function Lookup(updates: seq<Entry>, key: string): (e: Entry)
    requires HasKey(updates, key)
    ensures e in updates && e.key == key
  {
    var n := |updates| - 1;
    if updates[n].key == key then updates[n] else Lookup(updates[..n], key)
  }

  /** The line speaks of a key that is being updated. */
  predicate Touched(line: string, updates: seq<Entry>) {
    EntryOf(line).Some? && HasKey(updates, EntryOf(line).value.key)
  }

  function Renewed(line: string, updates: seq<Entry>): string {
    if Touched(line, updates) then Format(Lookup(updates, EntryOf(line).value.key)) else line
  }

  /** Every line in place, the touched ones renewed. */
  function InPlace(lines: seq<string>, updates: seq<Entry>): (r: seq<string>)
    ensures |r| == |lines| && forall k | 0 <= k < |lines| :: r[k] == Renewed(lines[k], updates)
  {
    if lines == [] then []
    else InPlace(lines[..|lines| - 1], updates) + [Renewed(lines[|lines| - 1], updates)]
  }

  predicate Mentioned(lines: seq<string>, key: string) {
    exists line :: line in lines && EntryOf(line).Some? && EntryOf(line).value.key == key
  }

  /** The updates no line mentions, in their order. */
  function Missing(lines: seq<string>, updates: seq<Entry>): (r: seq<string>) {
    if updates == [] then []
    else
      var e := updates[|updates| - 1];
      Missing(lines, updates[..|updates| - 1]) + if Mentioned(lines, e.key) then [] else [Format(e)]
  }

  function Rewritten(lines: seq<string>, updates: seq<Entry>): seq<string> {
    InPlace(lines, updates) + Missing(lines, updates)
  }

  // ---- the parser ----

  /** Later lines win. */
  function Parsed(lines: seq<string>): map<string, string> {
    if lines == [] then map[]
    else
      var earlier := Parsed(lines[..|lines| - 1]);
      match EntryOf(lines[|lines| - 1])
      case None => earlier
      case Some(e) => earlier[e.key := e.value]
  }

  function MapOf(updates: seq<Entry>): map<string, string> {
    if updates == [] then map[]
    else
      var e := updates[|updates| - 1];
      MapOf(updates[..|updates| - 1])[e.key := e.value]
  }

  predicate AllClean(updates: seq<Entry>) {
    forall e <- updates :: Clean(e)
  }

  lemma RenewedEntry(line: string, updates: seq<Entry>)
    requires AllClean(updates)
    ensures EntryOf(Renewed(line, updates)) ==
            if Touched(line, updates) then Some(Lookup(updates, EntryOf(line).value.key)) else EntryOf(line)
    ensures OneLine(line) ==> OneLine(Renewed(line, updates))
  {
    hide EntryOf, Clean, Format, OneLine;
    if Touched(line, updates) {
      FormattedLineParses(Lookup(updates, EntryOf(line).value.key));
    }
  }

  lemma {:induction false} MapOfLookup(updates: seq<Entry>, key: string)
    requires IsDict(updates)
    ensures key in MapOf(updates) <==> HasKey(updates, key)
    ensures HasKey(updates, key) ==> MapOf(updates)[key] == Lookup(updates, key).value
  {
    if updates != [] {
      var n := |updates| - 1;
      MapOfLookup(updates[..n], key);
      assert updates == updates[..n] + [updates[n]];
      assert forall e :: e in updates <==> e in updates[..n] || e == updates[n];
    }
  }

  /** What a key is given when the lines are renewed. */
  lemma {:induction false} ParsedInPlace(lines: seq<string>, updates: seq<Entry>, key: string)
    requires IsDict(updates) && AllClean(updates)
    ensures key in Parsed(InPlace(lines, updates)) <==> key in Parsed(lines)
    ensures key in Parsed(lines) ==>
      Parsed(InPlace(lines, updates))[key]
        == if HasKey(updates, key) then Lookup(updates, key).value else Parsed(lines)[key]
  {
    hide EntryOf, Clean, Renewed, IsDict;
    if lines != [] {
      var n := |lines| - 1;
      ParsedInPlace(lines[..n], updates, key);
      RenewedEntry(lines[n], updates);
      assert InPlace(lines, updates)[..n] == InPlace(lines[..n], updates);
    }
  }

  lemma {:induction false} ParsedKeys(lines: seq<string>, key: string)
    ensures key in Parsed(lines) <==> Mentioned(lines, key)
  {
    hide EntryOf;
    if lines != [] {
      var n := |lines| - 1;
      ParsedKeys(lines[..n], key);
      assert forall line :: line in lines <==> line in lines[..n] || line == lines[n];
    }
  }

  lemma {:induction false} ParsedMissing(top: seq<string>, lines: seq<string>, updates: seq<Entry>, key: string)
    requires IsDict(updates) && AllClean(updates)
    ensures var m := Parsed(top + Missing(lines, updates));
            var added := HasKey(updates, key) && !Mentioned(lines, key);
            && (key in m <==> key in Parsed(top) || added)
            && (key in m ==> m[key] == if added then Lookup(updates, key).value else Parsed(top)[key])
  {
    hide EntryOf, Clean, Mentioned, Format;
    if updates == [] {
      assert top + [] == top;
    } else {
      var n := |updates| - 1;
      var e := updates[n];
      ParsedMissing(top, lines, updates[..n], key);
      assert forall u :: u in updates <==> u in updates[..n] || u == e;
      var all := top + Missing(lines, updates);
      if Mentioned(lines, e.key) {
        assert all == top + Missing(lines, updates[..n]);
      } else {
        FormattedLineParses(e);
        assert all == (top + Missing(lines, updates[..n])) + [Format(e)];
        assert all[..|all| - 1] == top + Missing(lines, updates[..n]);
      }
    }
  }

  /** Parsing the rewritten lines gives the old values overridden by the updates. */
  lemma RewriteOverrides(lines: seq<string>, updates: seq<Entry>)
    requires IsDict(updates) && AllClean(updates)
    ensures Parsed(Rewritten(lines, updates)) == Parsed(lines) + MapOf(updates)
  {
    hide Parsed, EntryOf, Clean, MapOf, IsDict, Mentioned;
    var got, want := Parsed(Rewritten(lines, updates)), Parsed(lines) + MapOf(updates);
    forall key
      ensures key in got <==> key in want
      ensures key in got ==> got[key] == want[key]
    {
      MapOfLookup(updates, key);
      ParsedKeys(lines, key);
      ParsedInPlace(lines, updates, key);
      ParsedMissing(InPlace(lines, updates), lines, updates, key);
    }
  }

  // ---- the file ----

  /** The file's text after the rewrite. */
  function RewrittenText(text: string, updates: seq<Entry>): string {
    Written(Rewritten(SplitLines(text), updates))
  }

  lemma {:induction false} MissingIsFormat(lines: seq<string>, updates: seq<Entry>, line: string)
    requires line in Missing(lines, updates)
    ensures exists e :: e in updates && line == Format(e)
  {
    hide Format, Mentioned;
    if updates != [] {
      var n := |updates| - 1;
      if line in Missing(lines, updates[..n]) {
        MissingIsFormat(lines, updates[..n], line);
        var e :| e in updates[..n] && line == Format(e);
        assert e in updates;
      } else {
        assert updates[n] in updates && line == Format(updates[n]);
      }
    }
  }

  lemma MissingOneLine(lines: seq<string>, updates: seq<Entry>)
    requires AllClean(updates)
    ensures forall line <- Missing(lines, updates) :: OneLine(line)
  {
    hide OneLine, Clean, Format, Missing;
    forall line | line in Missing(lines, updates)
      ensures OneLine(line)
    {
      MissingIsFormat(lines, updates, line);
      var e :| e in updates && line == Format(e);
      FormattedLineParses(e);
    }
  }

  lemma RewrittenOneLine(lines: seq<string>, updates: seq<Entry>)
    requires AllClean(updates) && forall line <- lines :: OneLine(line)
    ensures forall line <- Rewritten(lines, updates) :: OneLine(line)
  {
    hide OneLine, Clean, Renewed;
    MissingOneLine(lines, updates);
    var r := InPlace(lines, updates);
    forall line | line in r
      ensures OneLine(line)
    {
      var k :| 0 <= k < |r| && r[k] == line;
      RenewedEntry(lines[k], updates);
    }
  }

  /** The text that is written splits into the rewritten lines. */
  lemma RereadRewritten(text: string, updates: seq<Entry>)
    requires AllClean(updates)
    ensures var r := Rewritten(SplitLines(text), updates);
            SplitLines(RewrittenText(text, updates)) == if r == [] then [""] else r
  {
    RewrittenOneLine(SplitLines(text), updates);
    SplitWritten(Rewritten(SplitLines(text), updates));
  }

  lemma BlankFile()
    ensures EntryOf("").None? && Parsed([""]) == Parsed([])
  {
    assert StripLeft("") == "";
    assert [""][..0] == [];
  }

  lemma CleanRewriteParses(text: string, updates: seq<Entry>)
    requires IsDict(updates) && AllClean(updates)
    ensures Parsed(SplitLines(RewrittenText(text, updates))) == Parsed(SplitLines(text)) + MapOf(updates)
  {
    hide Parsed, MapOf, Rewritten, SplitLines, RewrittenText, Clean, IsDict;
    RereadRewritten(text, updates);
    RewriteOverrides(SplitLines(text), updates);
    BlankFile();
  }

  lemma StripKeepsChars(s: string)
    ensures forall c <- Strip(s) :: c in s
  {
    var l := StripLeft(s);
    assert forall c <- l :: c in s;
    assert forall c <- StripRight(l) :: c in l;
  }

  /** Whatever a line says is clean. */
  lemma EntryIsClean(line: string)
    requires OneLine(line) && EntryOf(line).Some?
    ensures Clean(EntryOf(line).value)
  {
    hide StripLeft, StripRight, Strip, IsBreak;
    var s := Strip(line);
    var n := FirstEquals(s);
    StripKeepsChars(line);
    StripKeepsChars(s[..n]);
    StripKeepsChars(s[n + 1..]);
    assert (forall c <- s[..n] :: c in s) && (forall c <- s[n + 1..] :: c in s);
    if n > 0 {
      StripPrefix(s, n);
    } else {
      assert s[..n] == [];
      EmptyStrip();
    }
  }

  lemma EmptyStrip()
    ensures Strip([]) == []
  {
  }

  lemma StripPrefix(s: string, n: nat)
    requires 0 < n <= |s| && !IsSpace(s[0])
    ensures Strip(s[..n]) != [] && Strip(s[..n])[0] == s[0]
  {
    assert StripLeft(s[..n]) == s[..n];
    KeepsFirst(s[..n]);
  }

  lemma {:induction false} ParsedIsClean(lines: seq<string>, key: string)
    requires forall line <- lines :: OneLine(line)
    requires key in Parsed(lines)
    ensures Clean(Entry(key, Parsed(lines)[key]))
  {
    hide EntryOf, Clean, OneLine;
    var n := |lines| - 1;
    assert lines[n] in lines;
    if EntryOf(lines[n]).Some? && EntryOf(lines[n]).value.key == key {
      EntryIsClean(lines[n]);
    } else {
      ParsedIsClean(lines[..n], key);
    }
  }

  /** Round trip: the parser reads back the old settings overridden by the
      updates if and only if every update is clean. */
  lemma RewriteThenParse(text: string, updates: seq<Entry>)
    requires IsDict(updates)
    ensures Parsed(SplitLines(RewrittenText(text, updates))) == Parsed(SplitLines(text)) + MapOf(updates)
       <==> AllClean(updates)
  {
    hide Parsed, MapOf, RewrittenText, Clean;
    if AllClean(updates) {
      CleanRewriteParses(text, updates);
    }
    var lines := SplitLines(RewrittenText(text, updates));
    if Parsed(lines) == Parsed(SplitLines(text)) + MapOf(updates) {
      forall e | e in updates
        ensures Clean(e)
      {
        LookupSelf(updates, e);
        MapOfLookup(updates, e.key);
        ParsedIsClean(lines, e.key);
      }
    }
  }

  /** The lines that no update touches. */
  function Foreign(lines: seq<string>, updates: seq<Entry>): seq<string> {
    if lines == [] then []
    else
      Foreign(lines[..|lines| - 1], updates)
      + if Touched(lines[|lines| - 1], updates) then [] else [lines[|lines| - 1]]
  }

  lemma {:induction false} ForeignAppend(a: seq<string>, b: seq<string>, updates: seq<Entry>)
    ensures Foreign(a + b, updates) == Foreign(a, updates) + Foreign(b, updates)
  {
    if b == [] {
      assert a + b == a;
    } else {
      assert (a + b)[..|a + b| - 1] == a + b[..|b| - 1];
      ForeignAppend(a, b[..|b| - 1], updates);
    }
  }

  lemma {:induction false} ForeignInPlace(lines: seq<string>, updates: seq<Entry>)
    requires AllClean(updates)
    ensures Foreign(InPlace(lines, updates), updates) == Foreign(lines, updates)
  {
    hide EntryOf, Clean, Format;
    if lines != [] {
      var n := |lines| - 1;
      ForeignInPlace(lines[..n], updates);
      RenewedEntry(lines[n], updates);
      assert InPlace(lines, updates)[..n] == InPlace(lines[..n], updates);
    }
  }

  lemma {:induction false} NothingForeignAdded(lines: seq<string>, part: seq<Entry>, updates: seq<Entry>)
    requires AllClean(updates) && forall e <- part :: e in updates
    ensures Foreign(Missing(lines, part), updates) == []
  {
    hide EntryOf, Clean, Format, Mentioned;
    if part != [] {
      var e := part[|part| - 1];
      var earlier := Missing(lines, part[..|part| - 1]);
      NothingForeignAdded(lines, part[..|part| - 1], updates);
      if Mentioned(lines, e.key) {
        assert Missing(lines, part) == earlier;
      } else {
        FormattedLineParses(e);
        assert e in updates && Touched(Format(e), updates);
        ForeignAppend(earlier, [Format(e)], updates);
        assert Foreign([Format(e)], updates) == [];
      }
    }
  }

  /** Lines that no update touches keep their text and their order. */
  lemma UntouchedLinesStay(lines: seq<string>, updates: seq<Entry>)
    requires AllClean(updates)
    ensures Foreign(Rewritten(lines, updates), updates) == Foreign(lines, updates)
  {
    hide Foreign, InPlace, Missing;
    ForeignInPlace(lines, updates);
    NothingForeignAdded(lines, updates, updates);
    ForeignAppend(InPlace(lines, updates), Missing(lines, updates), updates);
  }

  // ---- rewriting twice ----

  lemma RenewedTwice(line: string, updates: seq<Entry>)
    requires IsDict(updates) && AllClean(updates)
    ensures Renewed(Renewed(line, updates), updates) == Renewed(line, updates)
  {
    hide EntryOf, Clean, Format, IsDict;
    RenewedEntry(line, updates);
  }

  lemma {:induction false} LookupSelf(updates: seq<Entry>, e: Entry)
    requires IsDict(updates) && e in updates
    ensures HasKey(updates, e.key) && Lookup(updates, e.key) == e
  {
  }

  lemma InPlaceTwice(lines: seq<string>, updates: seq<Entry>)
    requires IsDict(updates) && AllClean(updates)
    ensures InPlace(Rewritten(lines, updates), updates) == Rewritten(lines, updates)
  {
    hide Renewed, Clean, Format, Missing, EntryOf;
    var r := Rewritten(lines, updates);
    forall k | 0 <= k < |r|
      ensures Renewed(r[k], updates) == r[k]
    {
      if k < |lines| {
        RenewedTwice(lines[k], updates);
      } else {
        assert r[k] in Missing(lines, updates);
        MissingIsFormat(lines, updates, r[k]);
        var e :| e in updates && r[k] == Format(e);
        FormatStays(e, updates);
      }
    }
  }

  lemma FormatStays(e: Entry, updates: seq<Entry>)
    requires IsDict(updates) && AllClean(updates) && e in updates
    ensures Renewed(Format(e), updates) == Format(e)
  {
    hide Clean, Format, EntryOf;
    FormattedLineParses(e);
    LookupSelf(updates, e);
  }

  lemma AllMentioned(lines: seq<string>, updates: seq<Entry>, key: string)
    requires IsDict(updates) && AllClean(updates) && HasKey(updates, key)
    ensures Mentioned(Rewritten(lines, updates), key)
  {
    hide Clean, Rewritten, EntryOf, MapOf, Parsed, IsDict;
    RewriteOverrides(lines, updates);
    MapOfLookup(updates, key);
    ParsedKeys(Rewritten(lines, updates), key);
  }

  lemma {:induction false} NothingMissing(lines: seq<string>, updates: seq<Entry>)
    requires forall e <- updates :: Mentioned(lines, e.key)
    ensures Missing(lines, updates) == []
  {
    hide Mentioned;
    if updates != [] {
      assert updates[|updates| - 1] in updates;
      NothingMissing(lines, updates[..|updates| - 1]);
    }
  }

  /** Rewriting the file again with the same updates changes nothing. */
  lemma RewriteTwice(text: string, updates: seq<Entry>)
    requires IsDict(updates) && AllClean(updates)
    ensures RewrittenText(RewrittenText(text, updates), updates) == RewrittenText(text, updates)
  {
    hide SplitLines, Clean, EntryOf, Mentioned, IsDict, InPlace, Missing;
    RereadRewritten(text, updates);
    var r := Rewritten(SplitLines(text), updates);
    if r == [] {
      EmptyRewrite(SplitLines(text), updates);
    } else {
      InPlaceTwice(SplitLines(text), updates);
      forall e | e in updates
        ensures Mentioned(r, e.key)
      {
        AllMentioned(SplitLines(text), updates, e.key);
      }
      NothingMissing(r, updates);
      assert Rewritten(r, updates) == r;
    }
  }

  lemma EmptyRewrite(lines: seq<string>, updates: seq<Entry>)
    requires IsDict(updates) && AllClean(updates) && Rewritten(lines, updates) == []
    ensures Written(Rewritten([""], updates)) == "\n"
  {
    hide EntryOf, Clean, Format;
    BlankFile();
    forall e | e in updates
      ensures false
    {
      AllMentioned(lines, updates, e.key);
    }
    assert updates == [];
    assert InPlace([""], updates) == [""];
  }

  // ---- the program's two ends ----

  datatype DbConfig = DbConfig(user: string, db: string, password: string, masterKey: string)

  function Setting(settings: map<string, string>, key: string, default: string): string {
    if key in settings then settings[key] else default
  }

  function ConfigFrom(settings: map<string, string>): DbConfig {
    DbConfig(Setting(settings, "POSTGRES_USER", "bot"), Setting(settings, "POSTGRES_DB", "via"),
             Setting(settings, "POSTGRES_PASSWORD", ""), Setting(settings, "APP_MASTER_KEY", ""))
  }

  function ConfigOf(text: Option<string>): DbConfig {
    ConfigFrom(if text.Some? then Parsed(SplitLines(text.value)) else map[])
  }

  lemma DefaultConfig()
    ensures ConfigOf(None) == DbConfig("bot", "via", "", "")
  {
  }

  /** New lines in file order, then the keys no line had, in the order of the updates. */
  method RewriteLines(lines: seq<string>, updates: seq<Entry>) returns (newLines: seq<string>)
    requires IsDict(updates)
    ensures newLines == Rewritten(lines, updates)
  {
    hide EntryOf, Format;
    newLines := [];
    var updatedKeys: set<string> := {};
    for i := 0 to |lines|
      invariant newLines == InPlace(lines[..i], updates)
      invariant forall key :: key in updatedKeys <==> HasKey(updates, key) && Mentioned(lines[..i], key)
    {
      var line, entry := lines[i], EntryOf(lines[i]);
      assert lines[..i + 1][..i] == lines[..i];
      assert lines[..i + 1] == lines[..i] + [line];
      assert forall l :: l in lines[..i + 1] <==> l in lines[..i] || l == line;
      if entry.Some? && HasKey(updates, entry.value.key) {
        var key := entry.value.key;
        newLines := newLines + [Format(Lookup(updates, key))];
        updatedKeys := updatedKeys + {key};
      } else {
        newLines := newLines + [line];
      }
    }
    assert lines[..|lines|] == lines;
    for j := 0 to |updates|
      invariant newLines == InPlace(lines, updates) + Missing(lines, updates[..j])
    {
      assert updates[..j + 1][..j] == updates[..j];
      if updates[j].key !in updatedKeys {
        newLines := newLines + [Format(updates[j])];
      }
    }
    assert updates[..|updates|] == updates;
  }

  class EnvFile {
    var text: Option<string>

    constructor (text: Option<string>)
      ensures this.text == text
    {
      this.text := text;
    }

    /** A missing file is an error. Without a lock the rewrite is the same. */
    method UpdateEnvFileWithLock(updates: seq<Entry>, lockable: bool) returns (found: bool)
      requires IsDict(updates)
      modifies this
      ensures found == old(text).Some?
      ensures text == if old(text).Some? then Some(RewrittenText(old(text).value, updates)) else None
    {
      if text.None? { return false; }
      if !lockable {
        UpdateInMemoryAndWrite(updates);
        return true;
      }
      var newLines := RewriteLines(SplitLines(text.value), updates);
      text := Some(Written(newLines));
      return true;
    }

    method UpdateInMemoryAndWrite(updates: seq<Entry>)
      requires IsDict(updates) && text.Some?
      modifies this
      ensures text == Some(RewrittenText(old(text).value, updates))
    {
      var newLines := RewriteLines(SplitLines(text.value), updates);
      text := Some(Written(newLines));
    }

    method LoadDbConfigFromEnv() returns (config: DbConfig)
      ensures config == ConfigOf(text)
    {
      hide ConfigFrom, EntryOf, SplitLines;
      if text.None? {
        DefaultConfig();
        return DbConfig("bot", "via", "", "");
      }
      var lines := SplitLines(text.value);
      var settings: map<string, string> := map[];
      for i := 0 to |lines|
        invariant settings == Parsed(lines[..i])
      {
        var entry := EntryOf(lines[i]);
        assert lines[..i + 1][..i] == lines[..i];
        if entry.Some? {
          settings := settings[entry.value.key := entry.value.value];
        }
      }
      assert lines[..|lines|] == lines;
      return ConfigFrom(settings);
    }
  }

  /** What is saved is what is loaded: a clean update decides a setting, the
      others stay as the old file had them. */
  lemma LoadAfterUpdate(text: string, updates: seq<Entry>)
    requires IsDict(updates) && AllClean(updates)
    ensures ConfigOf(Some(RewrittenText(text, updates)))
         == ConfigFrom(Parsed(SplitLines(text)) + MapOf(updates))
  {
    RewriteThenParse(text, updates);
  }
}

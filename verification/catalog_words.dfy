/** What the keys of the catalog are made of: words, numbers, labels (src/admin/helpers_ext.py). */
module CatalogWords {
  import opened Text
  import opened Catalog

  predicate IsUnderscore(c: char) {
    c == '_'
  }

  predicate Outside(c: char) {
    !IsSlugChar(c)
  }

  // ---- splitting, from the right ----

  /** The pieces with one more character behind: it begins a piece or lengthens the last one. */
  function Lengthened(fields: seq<string>, c: char, begins: bool): seq<string>
    requires fields == [] ==> begins
  {
    if begins then fields + [[c]]
    else fields[..|fields| - 1] + [fields[|fields| - 1] + [c]]
  }

  predicate Begins(s: string, separator: char -> bool) {
    s == [] || separator(s[|s| - 1])
  }

  lemma {:induction false} FieldsSnoc(s: string, c: char, separator: char -> bool)
    ensures separator(c) ==> Fields(s + [c], separator) == Fields(s, separator)
    ensures !separator(c) ==>
      && (Fields(s, separator) == [] ==> Begins(s, separator))
      && Fields(s + [c], separator) == Lengthened(Fields(s, separator), c, Begins(s, separator))
    decreases |s|
  {
    if s == [] {
      OneChar(c, separator);
      assert [] + [c] == [c];
    } else if separator(s[0]) {
      assert (s + [c])[0] == s[0] && (s + [c])[1..] == s[1..] + [c];
      FieldsSnoc(s[1..], c, separator);
    } else {
      FieldsLast(s, c, separator);
    }
  }

  lemma OneChar(c: char, separator: char -> bool)
    ensures Fields([c], separator) == if separator(c) then [] else [[c]]
  {
    assert [c][1..] == [] && [c][0] == c;
    assert Fields([], separator) == [];
    if !separator(c) {
      assert FieldLength([c], separator) == 1;
      assert [c][..1] == [c];
    }
  }

  lemma {:induction false} LengthSnoc(s: string, c: char, separator: char -> bool)
    ensures FieldLength(s + [c], separator)
         == if FieldLength(s, separator) < |s| || separator(c) then FieldLength(s, separator) else |s| + 1
    decreases |s|
  {
    if s == [] {
      assert [] + [c] == [c];
    } else if !separator(s[0]) {
      assert (s + [c])[0] == s[0] && (s + [c])[1..] == s[1..] + [c];
      LengthSnoc(s[1..], c, separator);
    }
  }

  lemma FieldsLast(s: string, c: char, separator: char -> bool)
    requires s != [] && !separator(s[0])
    ensures separator(c) ==> Fields(s + [c], separator) == Fields(s, separator)
    ensures !separator(c) ==>
      && Fields(s, separator) != []
      && Fields(s + [c], separator) == Lengthened(Fields(s, separator), c, Begins(s, separator))
    decreases |s|, 0
  {
    hide Fields, Lengthened;
    var n := FieldLength(s, separator);
    FirstPiece(s, separator);
    if n < |s| {
      LongerPiece(s, c, separator);
      FieldsSnoc(s[n..], c, separator);
      assert Begins(s[n..], separator) == Begins(s, separator);
      if !separator(c) {
        LengthenedBehind(s[..n], Fields(s[n..], separator), c, Begins(s, separator));
      }
    } else {
      OnlyPiece(s, c, separator);
    }
  }

  lemma FirstPiece(s: string, separator: char -> bool)
    requires s != [] && !separator(s[0])
    ensures var n := FieldLength(s, separator);
            n > 0 && Fields(s, separator) == [s[..n]] + Fields(s[n..], separator)
  {
  }

  lemma LongerPiece(s: string, c: char, separator: char -> bool)
    requires s != [] && !separator(s[0]) && FieldLength(s, separator) < |s|
    ensures var n := FieldLength(s, separator);
            Fields(s + [c], separator) == [s[..n]] + Fields(s[n..] + [c], separator)
  {
    hide Fields;
    var n, t := FieldLength(s, separator), s + [c];
    LengthSnoc(s, c, separator);
    assert t[0] == s[0] && t[..n] == s[..n] && t[n..] == s[n..] + [c];
    FirstPiece(t, separator);
  }

  lemma LengthenedBehind(word: string, rest: seq<string>, c: char, begins: bool)
    requires rest == [] ==> begins
    ensures [word] + Lengthened(rest, c, begins) == Lengthened([word] + rest, c, begins)
  {
    if begins {
      assert [word] + (rest + [[c]]) == ([word] + rest) + [[c]];
    } else {
      assert ([word] + rest)[..|rest|] == [word] + rest[..|rest| - 1];
    }
  }

  lemma OnlyPiece(s: string, c: char, separator: char -> bool)
    requires s != [] && FieldLength(s, separator) == |s|
    ensures separator(c) ==> Fields(s + [c], separator) == Fields(s, separator)
    ensures !separator(c) ==>
      && Fields(s, separator) != []
      && Fields(s + [c], separator) == Lengthened(Fields(s, separator), c, Begins(s, separator))
  {
    hide Fields;
    var n, t := |s|, s + [c];
    LengthSnoc(s, c, separator);
    FirstPiece(s, separator);
    NoPieces(separator);
    assert t[0] == s[0] && s[..n] == s && s[n..] == [] && Fields(s, separator) == [s];
    FirstPiece(t, separator);
    if separator(c) {
      assert t[..n] == s && t[n..] == [c];
      OneChar(c, separator);
    } else {
      assert t[..n + 1] == t && t[n + 1..] == [] && Fields(t, separator) == [t];
      assert [s][..0] == [];
    }
  }

  lemma NoPieces(separator: char -> bool)
    ensures Fields([], separator) == []
  {
  }

  // ---- the slug's words ----

  /** Replacing every run of other characters keeps the words apart and as they were. */
  lemma {:induction false} UnderscoringKeepsWords(s: string)
    ensures Fields(Underscored(s), IsUnderscore) == Fields(s, Outside)
    ensures s != [] ==> Underscored(s) != [] && (Underscored(s)[|Underscored(s)| - 1] == '_' <==> Outside(s[|s| - 1]))
    ensures s == [] ==> Underscored(s) == []
  {
    hide Fields, Lengthened;
    if s == [] {
      NoWords();
    } else {
      var n := |s| - 1;
      var r, c := Underscored(s[..n]), s[n];
      UnderscoringKeepsWords(s[..n]);
      assert s == s[..n] + [c];
      FieldsSnoc(s[..n], c, Outside);
      FieldsSnoc(r, c, IsUnderscore);
      FieldsSnoc(r, '_', IsUnderscore);
    }
  }

  lemma NoWords()
    ensures Fields([], IsUnderscore) == [] == Fields([], Outside)
  {
  }

  lemma {:induction false} LeftKeepsWords(s: string)
    ensures Fields(TrimLeft(s), IsUnderscore) == Fields(s, IsUnderscore)
  {
    if s != [] && s[0] == '_' {
      LeftKeepsWords(s[1..]);
    }
  }

  lemma {:induction false} RightKeepsWords(s: string)
    ensures Fields(TrimRight(s), IsUnderscore) == Fields(s, IsUnderscore)
  {
    hide Fields;
    if s != [] && s[|s| - 1] == '_' {
      var n := |s| - 1;
      assert s == s[..n] + ['_'];
      FieldsSnoc(s[..n], '_', IsUnderscore);
      RightKeepsWords(s[..n]);
    }
  }

  lemma FirstWord(s: string)
    requires s != [] && s[0] != '_'
    ensures var n := FieldLength(s, IsUnderscore);
            && 0 < n
            && (n == |s| ==> Fields(s, IsUnderscore) == [s])
            && (n < |s| ==> s[n] == '_' && Fields(s, IsUnderscore) == [s[..n]] + Fields(s[n + 1..], IsUnderscore))
  {
    var n := FieldLength(s, IsUnderscore);
    if n == |s| {
      assert s[..n] == s && s[n..] == [];
    } else {
      assert s[n..][0] == '_' && s[n..][1..] == s[n + 1..];
    }
  }

  lemma JoinedFirst(word: string, words: seq<string>)
    requires words != []
    ensures Joined([word] + words, '_') == word + ['_'] + Joined(words, '_')
  {
    assert ([word] + words)[1..] == words;
  }

  /** A slug is its words, joined. */
  lemma {:induction false} SlugIsJoined(s: string)
    requires SinglyJoined(s) && (s != [] ==> s[0] != '_' && s[|s| - 1] != '_')
    ensures Joined(Fields(s, IsUnderscore), '_') == s
    decreases |s|
  {
    hide Fields, FieldLength;
    if s == [] {
      NoWords();
    } else {
      var n := FieldLength(s, IsUnderscore);
      FirstWord(s);
      if n < |s| {
        var rest := s[n + 1..];
        PartJoined(s, n + 1, |s|);
        assert s[n + 1..|s|] == rest && n + 1 < |s|;
        SlugIsJoined(rest);
        FirstWord(rest);
        JoinedFirst(s[..n], Fields(rest, IsUnderscore));
        assert s == s[..n] + ['_'] + rest;
      }
    }
  }

  /** The slug of a label is the maximal runs of letters and digits of its lower-case
      text, in order, joined by single underscores. */
  lemma SlugIsTheWords(title: string)
    ensures Slug(title) == Joined(Fields(Lower(title), Outside), '_')
  {
    hide Fields, Underscored, TrimLeft, TrimRight, SinglyJoined, Lower, IsSlugChar, Joined;
    SlugKeepsWords(title);
    var u := Underscored(Lower(title));
    UnderscoringKeepsWords(Lower(title));
    LeftKeepsWords(u);
    RightKeepsWords(TrimLeft(u));
    SlugIsJoined(Slug(title));
  }

  // ---- numbers ----

  function NumberOf(s: string): int {
    if s == [] then 0 else 10 * NumberOf(s[..|s| - 1]) + (s[|s| - 1] as int - '0' as int)
  }

  /** The number behind a taken name is written in decimal, without leading zeros. */
  lemma {:induction false} DecimalReads(n: nat)
    ensures NumberOf(Decimal(n)) == n
    ensures n > 0 ==> Decimal(n)[0] != '0'
  {
    if n < 10 {
      assert Decimal(n)[..0] == [];
      assert NumberOf([]) == 0;
    } else {
      var s := Decimal(n);
      DecimalReads(n / 10);
      assert s[..|s| - 1] == Decimal(n / 10);
    }
  }

  /** What a key is made of: the words of the label, joined; "opt" for a label without any. */
  function KeyBase(title: string): string {
    var words := Fields(Lower(title), Outside);
    if words == [] then "opt" else Joined(words, '_')
  }

  lemma BaseIsKeyBase(title: string)
    ensures Base(title) == KeyBase(title)
  {
    hide Fields, Slug;
    SlugIsTheWords(title);
    var words := Fields(Lower(title), Outside);
    if words != [] { assert words[0] in words; }
  }

  /** A generated key is those words as they are, or, if that is taken, with the least number
      from 2 on that is free behind an underscore. */
  lemma KeyExactly(title: string, used: set<string>)
    ensures var base, key := KeyBase(title), KeyFor(title, used);
            if base !in used then key == base
            else exists n: nat :: n >= 2 && key == base + "_" + Decimal(n) && key !in used
                   && forall m: nat | 2 <= m < n :: base + "_" + Decimal(m) in used
  {
    hide Fields, Decimal, KeyBase, Base;
    BaseIsKeyBase(title);
    var base := KeyBase(title);
    var r := FreeIndex(base, used, 0);
    assert Candidate(base, 0) == base;
    if base in used {
      assert r > 0;
      forall m: nat | 2 <= m < r + 1
        ensures base + "_" + Decimal(m) in used
      {
        assert Candidate(base, m - 1) == base + "_" + Decimal(m);
      }
      assert KeyFor(title, used) == base + "_" + Decimal(r + 1);
    }
  }

  /** An item with a label and no key of its own gets the key made of its label, after
      the options before it. */
  lemma GeneratedKey(items: seq<Item>, i: nat)
    requires i < |items| && LabelOf(items[i]) != "" && KeyOf(items[i]) == ""
    ensures var earlier, out := Normalised(items[..i]), Normalised(items);
            |earlier| < |out| && out[|earlier|] == Option(KeyFor(LabelOf(items[i]), KeysOf(earlier)), LabelOf(items[i]))
  {
    hide LabelOf, KeyOf, KeyFor;
    assert items[..i + 1][..i] == items[..i];
    PrefixStays(items, i + 1);
    var earlier := Normalised(items[..i]);
    var own := Option(KeyFor(LabelOf(items[i]), KeysOf(earlier)), LabelOf(items[i]));
    assert Normalised(items[..i + 1]) == earlier + [own];
  }

  // ---- labels and keys as they are stored ----

  /** A label, given as a dictionary's or as plain text, and a key are taken without the
      white space around them; keys in lower case. */
  lemma ItemSays(left: string, core: string, right: string, other: string)
    requires Blank(left) && Blank(right) && Stripped(core)
    ensures LabelOf(Plain(left + core + right)) == core && KeyOf(Plain(left + core + right)) == ""
    ensures LabelOf(Dict(left + core + right, other)) == core
    ensures KeyOf(Dict(other, left + core + right)) == Lower(core)
  {
    hide Strip, Lower;
    StripOf(left, core, right);
  }
}

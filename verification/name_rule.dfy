/** The rule of the name matcher that at least two words of the name must match
    (src/user_matcher.py): it counts parts of the account and words of the display
    name, not words of the name, and so fails for one word matched twice. */
module NameRule {
  import opened Wrappers
  import opened Text
  import opened NameMatcher
  import opened NameSpellings
  import opened NameDisplays

  function Clean(user: MatrixUser): string {
    WithoutSeparators(Lower(Localpart(user.userId)))
  }

  /** The word stands in the display name, with `ё` or without. */
  predicate InDisplay(word: string, display: string) {
    display != "" && (word in NameWords(display) || NormalizeYo(word) in AllNoYo(NameWords(display)))
  }

  /** The word accounts for the part. */
  predicate Accounts(word: string, part: string) {
    |part| >= 2 && Recognises(word, part)
  }

  /** Anything on the account matches the k-th word of the name. */
  predicate Seen(name: string, user: MatrixUser, k: nat) {
    && k < |NameWords(name)|
    && var word := NameWords(name)[k];
       || InDisplay(word, user.displayName)
       || (exists part :: part in Parts(Localpart(user.userId)) && Accounts(word, part))
       || FoundIn(word, Clean(user)) || FoundIn(NormalizeYo(word), Clean(user))
  }

  /** Two words of the name match. */
  predicate TwoSeen(name: string, user: MatrixUser) {
    exists i, j | 0 <= i < j < |NameWords(name)| :: Seen(name, user, i) && Seen(name, user, j)
  }

  /** The k-th word alone accounts for two parts of the localpart. */
  predicate TwoParts(name: string, user: MatrixUser, k: nat)
    requires k < |NameWords(name)|
  {
    var parts, word := Parts(Localpart(user.userId)), NameWords(name)[k];
    exists a, b | 0 <= a < b < |parts| :: Accounts(word, parts[a]) && Accounts(word, parts[b])
  }

  /** The k-th word has a `ё` and stands so in the display name. */
  predicate TwiceByYo(name: string, user: MatrixUser, k: nat)
    requires k < |NameWords(name)|
  {
    var word := NameWords(name)[k];
    user.displayName != "" && NormalizeYo(word) != word && word in NameWords(user.displayName)
  }

  // ---- when there is a score at all ----

  lemma PositiveExactly(name: string, user: MatrixUser)
    requires |NameWords(name)| >= 2
    ensures var e := EvidenceFor(name, user);
            Score(name, user) > 0.0 <==> e.display >= 2 || e.parts >= 2 || e.legacy >= 2
  {
    hide NameWords, Localpart, CountFound, CountMatched, CountShown, DisplayMatches, WithoutSeparators, Parts, Lower;
  }

  // ---- from counts to words ----

  lemma {:induction false} OneFound(clean: string, words: seq<string>) returns (i: nat)
    requires CountFound(clean, words) >= 1
    ensures i < |words| && FoundIn(words[i], clean)
  {
    hide FoundIn;
    var n := |words| - 1;
    if FoundIn(words[n], clean) { i := n; } else { i := OneFound(clean, words[..n]); }
  }

  lemma {:induction false} TwoFound(clean: string, words: seq<string>) returns (i: nat, j: nat)
    requires CountFound(clean, words) >= 2
    ensures i < j < |words| && FoundIn(words[i], clean) && FoundIn(words[j], clean)
  {
    hide FoundIn;
    var n := |words| - 1;
    if FoundIn(words[n], clean) {
      j := n;
      i := OneFound(clean, words[..n]);
    } else {
      i, j := TwoFound(clean, words[..n]);
    }
  }

  lemma {:induction false} MatchedCounts(parts: seq<string>, words: seq<string>)
    ensures CountMatched(parts, words) >= 1 <==> exists a | 0 <= a < |parts| :: Matched(parts[a], words)
    ensures CountMatched(parts, words) >= 2
       <==> exists a, b | 0 <= a < b < |parts| :: Matched(parts[a], words) && Matched(parts[b], words)
  {
    hide Matched;
    if parts != [] {
      MatchedCounts(parts[..|parts| - 1], words);
    }
  }

  lemma MatchedBy(part: string, words: seq<string>) returns (i: nat)
    requires Matched(part, words)
    ensures i < |words| && Accounts(words[i], part)
  {
    hide Recognises;
    var w :| w in words && Recognises(w, part);
    i :| 0 <= i < |words| && words[i] == w;
  }

  /** An element counted for the display name comes from a word of the name. */
  predicate Counted(words: seq<string>, display: string, x: string) {
    || (x in words && x in NameWords(display))
    || (x in AllNoYo(words) && x in NameWords(NormalizeYo(display)))
  }

  lemma DisplayCounts(words: seq<string>, display: string)
    ensures DisplayMatches(words, display) >= 2
       <==> exists x, y :: x != y && Counted(words, display, x) && Counted(words, display, y)
  {
    hide NameWords, NormalizeYo;
    var all := Elements(words) * Elements(NameWords(display))
               + Elements(AllNoYo(words)) * Elements(NameWords(NormalizeYo(display)));
    assert forall x :: x in all <==> Counted(words, display, x);
    if |all| >= 2 {
      var x := Element(all);
      var y := Element(all - {x});
      assert x != y && Counted(words, display, x) && Counted(words, display, y);
    }
    if x, y :| x != y && Counted(words, display, x) && Counted(words, display, y) {
      assert {x, y} <= all;
      SubsetSize({x, y}, all);
    }
  }

  lemma CountedBy(words: seq<string>, display: string, x: string) returns (i: nat)
    requires Counted(words, display, x)
    ensures i < |words|
    ensures (x == words[i] && x in NameWords(display))
         || (x == NormalizeYo(words[i]) && x in AllNoYo(NameWords(display)))
  {
    hide NameWords, NormalizeYo;
    YoWords(display);
    if x in words && x in NameWords(display) {
      i :| 0 <= i < |words| && words[i] == x;
    } else {
      i :| 0 <= i < |words| && AllNoYo(words)[i] == x;
    }
  }

  // ---- exactly when the rule fails ----

  /** The k-th word matches, and no other does. */
  predicate OnlySeen(name: string, user: MatrixUser, k: nat) {
    Seen(name, user, k) && forall j | 0 <= j < |NameWords(name)| :: Seen(name, user, j) ==> j == k
  }

  lemma OnlyOneSeen(name: string, user: MatrixUser, i: nat)
    requires Seen(name, user, i) && !TwoSeen(name, user)
    ensures OnlySeen(name, user, i)
  {
    hide NameWords, Localpart, Parts, FoundIn, InDisplay, Accounts, Clean;
  }

  lemma LegacySees(name: string, user: MatrixUser)
    requires EvidenceFor(name, user).legacy >= 2
    ensures TwoSeen(name, user)
  {
    hide NameWords, Localpart, CountFound, CountMatched, CountShown, DisplayMatches, WithoutSeparators, Parts, Lower,
         FoundIn, NormalizeYo, InDisplay, Accounts;
    var words, clean := NameWords(name), Clean(user);
    if CountFound(clean, words) >= 2 {
      var i, j := TwoFound(clean, words);
      assert Seen(name, user, i) && Seen(name, user, j);
    } else {
      var i, j := TwoFound(clean, AllNoYo(words));
      assert Seen(name, user, i) && Seen(name, user, j);
    }
  }

  lemma PartsSee(name: string, user: MatrixUser)
    requires EvidenceFor(name, user).parts >= 2 && !TwoSeen(name, user)
    ensures exists i :: 0 <= i < |NameWords(name)| && OnlySeen(name, user, i) && TwoParts(name, user, i)
  {
    hide NameWords, Localpart, CountFound, CountMatched, CountShown, DisplayMatches, WithoutSeparators, Parts, Lower,
         FoundIn, NormalizeYo, InDisplay, Accounts, Matched, OnlySeen;
    var words, parts := NameWords(name), Parts(Localpart(user.userId));
    MatchedCounts(parts, words);
    var a, b :| 0 <= a < b < |parts| && Matched(parts[a], words) && Matched(parts[b], words);
    var i := MatchedBy(parts[a], words);
    var j := MatchedBy(parts[b], words);
    assert parts[a] in parts && parts[b] in parts;
    assert Seen(name, user, i) && Seen(name, user, j);
    OnlyOneSeen(name, user, i);
    assert i == j by { OnlyMeans(name, user, i, j); }
    assert TwoParts(name, user, i);
  }

  lemma OnlyMeans(name: string, user: MatrixUser, i: nat, j: nat)
    requires OnlySeen(name, user, i) && Seen(name, user, j)
    ensures i == j
  {
    hide NameWords, Localpart, Parts, FoundIn, InDisplay, Accounts, Clean;
  }

  lemma DisplaySees(name: string, user: MatrixUser)
    requires EvidenceFor(name, user).display >= 2 && !TwoSeen(name, user)
    ensures exists i :: 0 <= i < |NameWords(name)| && OnlySeen(name, user, i) && TwiceByYo(name, user, i)
  {
    hide NameWords, Localpart, CountFound, CountMatched, CountShown, DisplayMatches, WithoutSeparators, Parts, Lower,
         FoundIn, NormalizeYo, Accounts, OnlySeen, Counted;
    var words, display := NameWords(name), user.displayName;
    DisplayCounts(words, display);
    var x, y :| x != y && Counted(words, display, x) && Counted(words, display, y);
    var i := CountedBy(words, display, x);
    var j := CountedBy(words, display, y);
    assert Seen(name, user, i) && Seen(name, user, j);
    OnlyOneSeen(name, user, i);
    OnlyMeans(name, user, i, j);
    assert TwiceByYo(name, user, i);
  }

  lemma TwoPartsScore(name: string, user: MatrixUser, k: nat)
    requires k < |NameWords(name)| && TwoParts(name, user, k)
    ensures EvidenceFor(name, user).parts >= 2
  {
    hide NameWords, Localpart, CountFound, CountMatched, CountShown, DisplayMatches, WithoutSeparators, Parts, Lower,
         Recognises;
    var words, parts := NameWords(name), Parts(Localpart(user.userId));
    MatchedCounts(parts, words);
    var a, b :| 0 <= a < b < |parts| && Accounts(words[k], parts[a]) && Accounts(words[k], parts[b]);
    assert words[k] in words;
    assert Matched(parts[a], words) && Matched(parts[b], words);
  }

  lemma YoScores(name: string, user: MatrixUser, k: nat)
    requires k < |NameWords(name)| && TwiceByYo(name, user, k)
    ensures EvidenceFor(name, user).display >= 2
  {
    hide NameWords, Localpart, CountFound, CountMatched, CountShown, DisplayMatches, WithoutSeparators, Parts, Lower,
         NormalizeYo;
    var words, display := NameWords(name), user.displayName;
    var word := words[k];
    YoWords(display);
    var d :| 0 <= d < |NameWords(display)| && NameWords(display)[d] == word;
    assert AllNoYo(NameWords(display))[d] == NormalizeYo(word) && AllNoYo(words)[k] == NormalizeYo(word);
    assert Counted(words, display, word) && Counted(words, display, NormalizeYo(word));
    DisplayCounts(words, display);
  }

  /** The rule says: a name of two words or more scores nothing against an account on
      which fewer than two of its words match. It fails exactly where one word alone
      matches, and that word accounts for two parts of the localpart, or is written
      with `ё` both in the name and in the display name. */
  lemma TwoWordRuleFailsExactly(name: string, user: MatrixUser)
    requires |NameWords(name)| >= 2
    ensures Score(name, user) > 0.0 && !TwoSeen(name, user)
       <==> exists i :: 0 <= i < |NameWords(name)| && OnlySeen(name, user, i)
                        && (TwoParts(name, user, i) || TwiceByYo(name, user, i))
  {
    hide NameWords, EvidenceFor, Score, Seen, TwoParts, TwiceByYo;
    PositiveExactly(name, user);
    if Score(name, user) > 0.0 && !TwoSeen(name, user) {
      if EvidenceFor(name, user).legacy >= 2 { LegacySees(name, user); }
      else if EvidenceFor(name, user).parts >= 2 { PartsSee(name, user); }
      else { DisplaySees(name, user); }
    }
    if i :| 0 <= i < |NameWords(name)| && OnlySeen(name, user, i)
            && (TwoParts(name, user, i) || TwiceByYo(name, user, i))
    {
      if TwoParts(name, user, i) { TwoPartsScore(name, user, i); } else { YoScores(name, user, i); }
      assert !TwoSeen(name, user);
    }
  }

  // ---- two accounts it lets through ----

  lemma OneField(word: string)
    requires word != "" && forall c <- word :: !IsSpace(c)
    ensures Fields(word, IsSpace) == [word]
  {
    hide Fields;
    assert Joined([word], ' ') == word;
    FieldsOfJoined([word], ' ', IsSpace);
  }

  lemma TwoFields(a: string, b: string)
    requires a != "" && b != "" && (forall c <- a :: !IsSpace(c)) && forall c <- b :: !IsSpace(c)
    ensures Fields(a + " " + b, IsSpace) == [a, b]
  {
    hide Fields;
    assert [a, b][1..] == [b];
    assert Joined([a, b], ' ') == a + " " + b;
    FieldsOfJoined([a, b], ' ', IsSpace);
  }

  const PYOTR := "Пётр Иванов"
  const PYOTR_ALONE := MatrixUser("Пётр", "")

  lemma PyotrWords()
    ensures NameWords(PYOTR) == ["пётр", "иванов"] && NameWords("Пётр") == ["пётр"]
  {
    hide Fields;
    assert Lower(PYOTR) == "пётр иванов" && Lower("Пётр") == "пётр";
    assert "пётр" + " " + "иванов" == "пётр иванов";
    TwoFields("пётр", "иванов");
    OneField("пётр");
  }

  lemma PyotrYo()
    ensures NormalizeYo("пётр") == "петр" && NormalizeYo("иванов") == "иванов"
    ensures AllNoYo(["пётр"]) == ["петр"]
  {
    assert NormalizeYo("пётр") == "петр";
    assert AllNoYo(["пётр"])[0] == "петр";
  }

  lemma NothingOnLocalpart(word: string, user: MatrixUser)
    requires user.userId == ""
    ensures !FoundIn(word, Clean(user)) && Parts(Localpart(user.userId)) == []
  {
    hide Variants;
    NoLocalpart();
    NoSpellingIsEmpty(word);
  }

  /** The surname matches nothing, and the first name counts twice for its `ё`. */
  lemma YoCountsTwice()
    ensures Score(PYOTR, PYOTR_ALONE) > 0.0 && !TwoSeen(PYOTR, PYOTR_ALONE)
  {
    hide NameWords, Score, Localpart, Parts, FoundIn, Clean, NormalizeYo, AllNoYo;
    PyotrWords();
    PyotrYo();
    NothingOnLocalpart("иванов", PYOTR_ALONE);
    assert Seen(PYOTR, PYOTR_ALONE, 0);
    assert !Seen(PYOTR, PYOTR_ALONE, 1);
    assert OnlySeen(PYOTR, PYOTR_ALONE, 0) && TwiceByYo(PYOTR, PYOTR_ALONE, 0);
    TwoWordRuleFailsExactly(PYOTR, PYOTR_ALONE);
  }

  const IVAN := "Иван Пак"
  const IVAN_IVANOV := MatrixUser("", "@ivan.ivanov:h")

  lemma IvanWords()
    ensures NameWords(IVAN) == ["иван", "пак"]
    ensures NormalizeYo("иван") == "иван" && NormalizeYo("пак") == "пак"
  {
    hide Fields;
    assert Lower(IVAN) == "иван пак";
    assert "иван" + " " + "пак" == "иван пак";
    TwoFields("иван", "пак");
  }

  lemma IvanLetters()
    ensures TranslitChar(LowerChar('и')) == "i" && TranslitChar(LowerChar('в')) == "v"
    ensures TranslitChar(LowerChar('а')) == "a" && TranslitChar(LowerChar('н')) == "n"
    ensures TranslitChar(LowerChar('п')) == "p" && TranslitChar(LowerChar('к')) == "k"
  {
  }

  lemma IvanTransliterates()
    ensures Transliterate("иван") == "ivan" && Transliterate("пак") == "pak"
  {
    hide Transliterate, TranslitChar, LowerChar;
    IvanLetters();
    OneLetter('и');
    OneMore("и", 'в', "ив");
    OneMore("ив", 'а', "ива");
    OneMore("ива", 'н', "иван");
    OneLetter('п');
    OneMore("п", 'а', "па");
    OneMore("па", 'к', "пак");
  }

  lemma AbsentLetter(word: string, part: string, c: char)
    requires c in part && c !in word
    ensures !Contains(word, part)
  {
    forall k | 0 <= k <= |word|
      ensures !OccursAt(word, part, k)
    {
      if k + |part| <= |word| { AbsentInSlice(word, k, k + |part|, c); }
    }
  }

  lemma AbsentInSlice(word: string, i: nat, j: nat, c: char)
    requires i <= j <= |word| && c !in word
    ensures c !in word[i..j]
  {
  }

  /** No letter of the table stands in the word: its one spelling is its transliteration. */
  lemma PakIsPlain()
    ensures Variants("пак") == {"pak"}
  {
    hide Variants;
    forall v
      ensures v in Variants("пак") <==> v == "pak"
    {
      PakSpelling(v);
    }
  }

  lemma PakSpelling(v: string)
    ensures v in Variants("пак") <==> v == "pak"
  {
    hide Variants, Transliterate, Spells, Lower, NormalizeYo, TRANSLIT_ALTERNATIVES;
    IvanWords();
    IvanTransliterates();
    assert Lower("пак") == "пак" by { PakIsLower(); }
    VariantsExactly("пак", v);
    NothingInPak(v);
    OnlyPlain("пак", v);
  }

  lemma PakIsLower()
    ensures Lower("пак") == "пак"
  {
  }

  lemma OnlyPlain(lower: string, v: string)
    requires NormalizeYo(lower) == lower && forall a | a in TRANSLIT_ALTERNATIVES :: !Otherwise(lower, a, v)
    ensures Spells(lower, v) <==> v == Transliterate(lower)
  {
    hide Otherwise, Transliterate, NormalizeYo, TRANSLIT_ALTERNATIVES;
  }

  lemma NothingInPak(v: string)
    ensures forall a | a in TRANSLIT_ALTERNATIVES :: !Otherwise("пак", a, v)
  {
    hide Otherwise, TRANSLIT_ALTERNATIVES;
    forall a | a in TRANSLIT_ALTERNATIVES
      ensures !Otherwise("пак", a, v)
    {
      NotInPak(a, v);
    }
  }

  lemma NotInPak(a: Alternative, v: string)
    requires a in TRANSLIT_ALTERNATIVES
    ensures !Otherwise("пак", a, v)
  {
    hide Contains, FirstWritten, Transliterate, NormalizeYo;
    var last := a.cyr[|a.cyr| - 1];
    assert last in a.cyr && last !in "пак";
    AbsentLetter("пак", a.cyr, last);
  }

  lemma IvanLocalpart()
    ensures Localpart(IVAN_IVANOV.userId) == "ivan.ivanov" && Lower("ivan.ivanov") == "ivan.ivanov"
  {
    hide Localpart;
    assert "@" + "ivan.ivanov" + ":" + "h" == IVAN_IVANOV.userId;
    LocalpartOf("ivan.ivanov", "h");
  }

  lemma IvanParts()
    ensures Parts(Localpart(IVAN_IVANOV.userId)) == ["ivan", "ivanov"]
  {
    hide Fields, Localpart, Lower;
    var parts := ["ivan", "ivanov"];
    IvanLocalpart();
    assert parts[1..] == ["ivanov"];
    assert Joined(parts, '.') == "ivan.ivanov";
    FieldsOfJoined(parts, '.', IsSeparator);
  }

  lemma NoPInClean()
    ensures 'p' !in Clean(IVAN_IVANOV)
  {
    hide WithoutSeparators, Localpart, Lower;
    IvanLocalpart();
    WithoutAdds("ivan.ivanov", 'p');
  }

  lemma {:induction false} WithoutAdds(s: string, c: char)
    requires c !in s
    ensures c !in WithoutSeparators(s)
  {
    if s != "" {
      var n := |s| - 1;
      assert s == s[..n] + [s[n]];
      WithoutAdds(s[..n], c);
    }
  }

  /** The surname matches nothing, and the first name accounts for two parts. */
  lemma OneWordMatchesTwice()
    ensures Score(IVAN, IVAN_IVANOV) > 0.0 && !TwoSeen(IVAN, IVAN_IVANOV)
  {
    hide NameWords, Score, Localpart, Parts, Variants, Transliterate, NormalizeYo, Clean, Contains;
    IvanWords();
    IvanTransliterates();
    IvanParts();
    NoPInClean();
    PakIsPlain();
    AbsentLetter(Clean(IVAN_IVANOV), "pak", 'p');
    AbsentLetter("ivan", "pak", 'p');
    AbsentLetter("ivanov", "pak", 'p');
    assert Contains("ivanov", "ivan") by { ContainsIn("", "ivan", "ov"); assert "" + "ivan" + "ov" == "ivanov"; }
    var parts := ["ivan", "ivanov"];
    assert Accounts("иван", parts[0]) && Accounts("иван", parts[1]);
    assert parts[0] in parts;
    assert Seen(IVAN, IVAN_IVANOV, 0);
    assert !Seen(IVAN, IVAN_IVANOV, 1);
    assert OnlySeen(IVAN, IVAN_IVANOV, 0) && TwoParts(IVAN, IVAN_IVANOV, 0);
    TwoWordRuleFailsExactly(IVAN, IVAN_IVANOV);
  }
}

/** Accounts whose localpart is the words of a name run together, in any of their
    spellings (src/user_matcher.py). */
module NameSpellings {
  import opened Wrappers
  import opened Text
  import opened NameMatcher

  // ---- transliteration, letter by letter ----

  /** Transliterating goes letter by letter, from the first to the last. */
  lemma {:induction false} TranslitJoin(a: string, b: string)
    ensures Transliterate(a + b) == Transliterate(a) + Transliterate(b)
  {
    hide TranslitChar, LowerChar;
    if b == [] {
      assert a + b == a;
    } else {
      assert (a + b)[..|a + b| - 1] == a + b[..|b| - 1];
      TranslitJoin(a, b[..|b| - 1]);
    }
  }

  /** The part's first occurrence in the word is written otherwise. */
  predicate FirstWritten(base: string, part: string, alt: string, v: string) {
    exists k | 0 <= k <= |base| ::
      && OccursAt(base, part, k)
      && (forall j: nat | j < k :: !OccursAt(base, part, j))
      && v == base[..k] + alt + base[k + |part|..]
  }

  lemma ReplacedIsFirst(base: string, part: string, alt: string, v: string)
    requires Contains(base, part)
    ensures v == ReplaceFirst(base, part, alt) <==> FirstWritten(base, part, alt, v)
  {
    var i := IndexOf(base, part, 0);
    if FirstWritten(base, part, alt, v) {
      var k :| 0 <= k <= |base| && OccursAt(base, part, k) && (forall j: nat | j < k :: !OccursAt(base, part, j))
               && v == base[..k] + alt + base[k + |part|..];
      assert k == i;
    }
  }

  lemma FirstMeansContains(base: string, part: string, alt: string, v: string)
    requires FirstWritten(base, part, alt, v)
    ensures Contains(base, part)
  {
  }

  /** A letter or letter pair of the table stands in the word and is written one of its other ways. */
  predicate Respelt(word: string, a: Alternative, base: string, v: string) {
    Contains(word, a.cyr) && exists alt | alt in a.alts :: FirstWritten(base, Transliterate(a.cyr), alt, v)
  }

  lemma ReplacementsAre(base: string, part: string, alts: seq<string>, v: string)
    ensures v in Replacements(base, part, alts) <==> exists alt | alt in alts :: FirstWritten(base, part, alt, v)
  {
    hide FirstWritten, ReplaceFirst, Contains;
    if Contains(base, part) {
      forall alt | alt in alts
        ensures v == ReplaceFirst(base, part, alt) <==> FirstWritten(base, part, alt, v)
      {
        ReplacedIsFirst(base, part, alt, v);
      }
    } else {
      forall alt | alt in alts
        ensures !FirstWritten(base, part, alt, v)
      {
        if FirstWritten(base, part, alt, v) { FirstMeansContains(base, part, alt, v); }
      }
    }
  }

  /** With that entry of the table, with or without `ё`. */
  predicate Otherwise(word: string, a: Alternative, v: string) {
    Respelt(word, a, Transliterate(word), v) || Respelt(word, a, Transliterate(NormalizeYo(word)), v)
  }

  lemma AddedIsOtherwise(word: string, a: Alternative, v: string)
    ensures v in Added(word, a) <==> Otherwise(word, a, v)
  {
    hide Transliterate, NormalizeYo, Replacements, FirstWritten, Contains;
    ReplacementsAre(Transliterate(word), Transliterate(a.cyr), a.alts, v);
    ReplacementsAre(Transliterate(NormalizeYo(word)), Transliterate(a.cyr), a.alts, v);
  }

  lemma {:induction false} AddedByTable(word: string, table: seq<Alternative>, v: string)
    ensures v in AddedBy(word, table) <==> exists a | a in table :: Otherwise(word, a, v)
  {
    hide Added, Otherwise;
    if table != [] {
      var n := |table| - 1;
      AddedByTable(word, table[..n], v);
      AddedIsOtherwise(word, table[n], v);
      assert table == table[..n] + [table[n]];
    }
  }

  predicate Spells(lower: string, v: string) {
    var plain, noYo := Transliterate(lower), Transliterate(NormalizeYo(lower));
    || v == plain
    || v == noYo
    || exists a | a in TRANSLIT_ALTERNATIVES :: Otherwise(lower, a, v)
  }

  /** The spellings of a word are its transliteration, that without `ё`, and either of
      them with the first occurrence of one letter of the table that the word contains
      written one of its other ways; never the empty string. */
  lemma VariantsExactly(word: string, v: string)
    ensures v in Variants(word) <==> v != "" && Spells(Lower(word), v)
  {
    hide Transliterate, NormalizeYo, AddedBy, Otherwise, Lower;
    AddedByTable(Lower(word), TRANSLIT_ALTERNATIVES, v);
  }

  // ---- a localpart without separators ----

  function Concat(parts: seq<string>): string {
    if parts == [] then "" else parts[0] + Concat(parts[1..])
  }

  predicate NoSeparator(s: string) {
    forall c <- s :: !IsSeparator(c) && c != ':'
  }

  lemma {:induction false} ConcatChars(parts: seq<string>, ok: char -> bool)
    requires forall part <- parts :: forall c <- part :: ok(c)
    ensures forall c <- Concat(parts) :: ok(c)
  {
    if parts != [] {
      assert parts[0] in parts && forall part <- parts[1..] :: part in parts;
      ConcatChars(parts[1..], ok);
    }
  }

  lemma ContainsIn(a: string, part: string, b: string)
    ensures Contains(a + part + b, part)
  {
    var s := a + part + b;
    assert s[|a|..|a| + |part|] == part;
    assert OccursAt(s, part, |a|);
  }

  /** Each part stands somewhere in what is joined. */
  lemma {:induction false} PartStands(parts: seq<string>, k: nat) returns (before: string, after: string)
    requires k < |parts|
    ensures Concat(parts) == before + parts[k] + after
  {
    if k == 0 {
      before, after := "", Concat(parts[1..]);
      assert "" + parts[0] == parts[0];
    } else {
      before, after := PartStands(parts[1..], k - 1);
      before := parts[0] + before;
    }
  }

  lemma {:induction false} NothingStripped(s: string)
    requires NoSeparator(s)
    ensures WithoutSeparators(s) == s
  {
    hide IsSeparator;
    if s != [] {
      assert s[|s| - 1] in s && forall c <- s[..|s| - 1] :: c in s;
      NothingStripped(s[..|s| - 1]);
    }
  }

  lemma OnePart(s: string)
    requires NoSeparator(s) && s != []
    ensures Fields(s, IsSeparator) == [s]
  {
    assert forall c <- s :: !IsSeparator(c);
    FirstField(s, [], IsSeparator);
    assert s + [] == s;
    assert s[0] in s;
    assert s[..|s|] == s && s[|s|..] == [];
  }

  /** The localpart stands between a leading '@' and the first colon; an id of any other form has none. */
  lemma LocalpartExactly(userId: string, s: string)
    requires s != ""
    ensures Localpart(userId) == s <==> ':' !in s && |s| + 2 <= |userId| && userId[..|s| + 2] == "@" + s + ":"
  {
    if Localpart(userId) == s {
      var n := FirstColon(userId[1..]);
      assert userId[1..][..n] == userId[1..n + 1] == s;
      assert userId == [userId[0]] + userId[1..];
      assert userId[..n + 2] == "@" + s + ":";
    }
    if ':' !in s && |s| + 2 <= |userId| && userId[..|s| + 2] == "@" + s + ":" {
      assert userId == "@" + s + ":" + userId[|s| + 2..];
      LocalpartOf(s, userId[|s| + 2..]);
    }
  }

  // ---- names run together ----

  /** The words as they are, or with every `ё` written `е`. */
  function Taken(words: seq<string>, noYo: bool): (r: seq<string>)
    ensures |r| == |words| && forall k | 0 <= k < |words| :: |r[k]| == |words[k]|
  {
    if noYo then AllNoYo(words) else words
  }

  /** The account id is made of spellings of the words of the name, all with `ё` or all
      without, one for each word of two letters or more, in any order and without
      anything in between. */
  predicate RunTogether(name: string, userId: string, noYo: bool, pieces: seq<string>, parts: seq<string>,
                        server: string)
  {
    var words := Taken(NameWords(name), noYo);
    && |pieces| == |words|
    && (forall k | 0 <= k < |words| && |words[k]| >= 2 :: pieces[k] in Variants(words[k]))
    && multiset(parts) == multiset(pieces)
    && (forall part <- parts :: IsLower(part) && NoSeparator(part))
    && userId == "@" + Concat(parts) + ":" + server
  }

  lemma RunTogetherLocalpart(name: string, userId: string, noYo: bool, pieces: seq<string>, parts: seq<string>,
                            server: string)
    requires RunTogether(name, userId, noYo, pieces, parts, server)
    ensures Localpart(userId) == Concat(parts)
    ensures Lower(Localpart(userId)) == Concat(parts) && WithoutSeparators(Concat(parts)) == Concat(parts)
    ensures Parts(Localpart(userId)) == if Concat(parts) == [] then [] else [Concat(parts)]
  {
    hide Variants, NameWords, Localpart, Fields, WithoutSeparators, LowerChar, IsSeparator;
    var s := Concat(parts);
    ConcatChars(parts, c => !IsSeparator(c) && c != ':');
    ConcatChars(parts, c => LowerChar(c) == c);
    LocalpartOf(s, server);
    LowerFixed(s);
    NothingStripped(s);
    if s == [] { NoFields(); } else { OnePart(s); }
  }

  lemma NoFields()
    ensures Fields([], IsSeparator) == []
  {
  }

  /** Every spelled word of two letters or more is found. */
  lemma {:induction false} SpelledAreFound(clean: string, words: seq<string>, pieces: seq<string>)
    requires |pieces| == |words|
    requires forall k | 0 <= k < |words| && |words[k]| >= 2 ::
               pieces[k] in Variants(words[k]) && Contains(clean, pieces[k])
    ensures CountFound(clean, words) == LongWords(words)
  {
    hide Variants, Contains;
    if words != [] {
      var n := |words| - 1;
      SpelledAreFound(clean, words[..n], pieces[..n]);
      if |words[n]| >= 2 {
        assert pieces[n] in Variants(words[n]) && Contains(clean, pieces[n]);
      }
    }
  }

  lemma PieceStands(pieces: seq<string>, parts: seq<string>, k: nat)
    requires multiset(parts) == multiset(pieces) && k < |pieces|
    ensures Contains(Concat(parts), pieces[k])
  {
    hide Contains;
    assert pieces[k] in multiset(pieces);
    assert pieces[k] in multiset(parts);
    var j :| 0 <= j < |parts| && parts[j] == pieces[k];
    var before, after := PartStands(parts, j);
    ContainsIn(before, parts[j], after);
  }

  /** What is counted for such an account. */
  lemma RunTogetherEvidence(name: string, user: MatrixUser, noYo: bool, pieces: seq<string>, parts: seq<string>,
                            server: string)
    requires RunTogether(name, user.userId, noYo, pieces, parts, server)
    ensures var e, words := EvidenceFor(name, user), NameWords(name);
            && e.legacy == LongWords(words)
            && e.total == |words|
            && e.parts == if Matched(Concat(parts), words) then 1 else 0
  {
    hide NameWords, Localpart, CountFound, LongWords, Transliterate, WithoutSeparators, Parts, Variants, Contains,
         DisplayMatches, CountShown, Lower, Matched, Concat;
    var words, clean := NameWords(name), Concat(parts);
    RunTogetherLocalpart(name, user.userId, noYo, pieces, parts, server);
    var taken := Taken(words, noYo);
    forall k | 0 <= k < |words| && |taken[k]| >= 2
      ensures pieces[k] in Variants(taken[k]) && Contains(clean, pieces[k])
    {
      PieceStands(pieces, parts, k);
    }
    SpelledAreFound(clean, taken, pieces);
    FoundAreLong(clean, words);
    FoundAreLong(clean, AllNoYo(words));
    NoYoAsLong(words);
    OneCounted(clean, words);
  }

  lemma OneCounted(part: string, words: seq<string>)
    ensures CountMatched([part], words) == if Matched(part, words) then 1 else 0
    ensures CountMatched([], words) == 0
    ensures part == [] ==> !Matched(part, words)
  {
    assert [part][..0] == [];
  }

  /** Such an account scores one and a half points for every word of two letters or
      more, if there are two of them, whatever its display name; without a display name
      it scores exactly that, and half a point more if the plain transliteration of one
      of them stands in it. */
  lemma RunTogetherScores(name: string, user: MatrixUser, noYo: bool, pieces: seq<string>, parts: seq<string>,
                            server: string)
    requires RunTogether(name, user.userId, noYo, pieces, parts, server) && |NameWords(name)| >= 2
    ensures var words := NameWords(name);
            var points := 1.5 * LongWords(words) as real + if Matched(Concat(parts), words) then 0.5 else 0.0;
            && (LongWords(words) >= 2 ==> Score(name, user) >= points)
            && (user.displayName == "" ==> Score(name, user) == if LongWords(words) >= 2 then points else 0.0)
  {
    hide EvidenceFor, NameWords, LongWords, RunTogether, Matched, Concat;
    RunTogetherEvidence(name, user, noYo, pieces, parts, server);
    if user.displayName == "" { NoDisplayEvidence(name, user); }
  }

  /** For a name of two words or more: an account made of its words run together keeps
      the search from coming back empty, among any candidates and whatever its display
      name, if and only if at least two of the words have two letters or more. */
  lemma RunTogetherIsAlwaysMatched(name: string, userId: string, noYo: bool, pieces: seq<string>, parts: seq<string>,
                            server: string)
    requires RunTogether(name, userId, noYo, pieces, parts, server) && |NameWords(name)| >= 2
    ensures (forall users: seq<MatrixUser>, display: string | WithName(display, userId) in users ::
               BestMatch(name, users, MIN_SCORE).Some?)
       <==> LongWords(NameWords(name)) >= 2
  {
    hide NameWords, RunTogether, BestMatch, Score, LongWords, Matched, Concat;
    var plain := WithName("", userId);
    if LongWords(NameWords(name)) >= 2 {
      forall users: seq<MatrixUser>, display: string | WithName(display, userId) in users
        ensures BestMatch(name, users, MIN_SCORE).Some?
      {
        RunTogetherScores(name, WithName(display, userId), noYo, pieces, parts, server);
        SomebodyScores(name, users, WithName(display, userId), MIN_SCORE);
      }
    } else {
      RunTogetherScores(name, plain, noYo, pieces, parts, server);
      OnlyOne(name, plain, MIN_SCORE);
      assert plain in [plain];
    }
  }

  lemma SomebodyScores(name: string, users: seq<MatrixUser>, user: MatrixUser, minScore: real)
    requires user in users && Score(name, user) >= minScore
    ensures BestMatch(name, users, minScore).Some?
  {
    hide Score, BestMatch;
    BestMatchIsEarliestMaximum(name, users, minScore);
  }

  // ---- the plain transliterations run together ----

  /** The account id is made of the transliterated words, in any order, without
      anything in between. */
  predicate TranslitsTogether(name: string, userId: string, parts: seq<string>, server: string) {
    && multiset(parts) == multiset(Translits(NameWords(name)))
    && (forall part <- parts :: part != "" && NoSeparator(part))
    && userId == "@" + Concat(parts) + ":" + server
  }

  lemma LowerWords(name: string)
    ensures forall w <- NameWords(name) :: IsLower(w)
  {
    hide Fields, LowerChar;
    var s := Lower(name);
    forall w, c | w in NameWords(name) && c in w
      ensures LowerChar(c) == c
    {
      assert c in s;
      var k :| 0 <= k < |s| && s[k] == c;
      LowerCharTwice(name[k]);
    }
  }

  lemma PlainIsVariant(word: string)
    requires IsLower(word) && Transliterate(word) != ""
    ensures Transliterate(word) in Variants(word)
  {
    hide Transliterate, TRANSLIT_ALTERNATIVES, AddedBy;
    LowerFixed(word);
  }

  lemma TogetherIsRun(name: string, userId: string, parts: seq<string>, server: string)
    requires TranslitsTogether(name, userId, parts, server)
    ensures RunTogether(name, userId, false, Translits(NameWords(name)), parts, server)
  {
    hide Transliterate, Variants, NameWords, LowerChar, Concat, NoSeparator;
    var words := NameWords(name);
    var pieces := Translits(words);
    LowerWords(name);
    forall k | 0 <= k < |words|
      ensures pieces[k] in Variants(words[k])
    {
      assert pieces[k] in multiset(pieces);
      assert pieces[k] in multiset(parts) && words[k] in words;
      assert pieces[k] in parts && pieces[k] == Transliterate(words[k]);
      PlainIsVariant(words[k]);
    }
    forall part | part in parts
      ensures IsLower(part)
    {
      PartIsTranslit(words, parts, part);
    }
  }

  lemma {:induction false} ALongWord(words: seq<string>) returns (k: nat)
    requires LongWords(words) >= 1
    ensures k < |words| && |words[k]| >= 2
  {
    var n := |words| - 1;
    if |words[n]| >= 2 { k := n; } else { k := ALongWord(words[..n]); }
  }

  /** The whole is recognised by any of its words of two letters or more. */
  lemma WholeIsMatched(name: string, userId: string, parts: seq<string>, server: string)
    requires TranslitsTogether(name, userId, parts, server) && LongWords(NameWords(name)) >= 2
    ensures Matched(Concat(parts), NameWords(name))
  {
    hide Transliterate, Variants, NameWords, Contains, NormalizeYo, LongWords, Concat, NoSeparator;
    var words := NameWords(name);
    var k := ALongWord(words);
    PieceStands(Translits(words), parts, k);
    TwoPieces(name, userId, parts, server);
    assert Recognises(words[k], Concat(parts));
  }

  lemma TwoPieces(name: string, userId: string, parts: seq<string>, server: string)
    requires TranslitsTogether(name, userId, parts, server) && LongWords(NameWords(name)) >= 2
    ensures |Concat(parts)| >= 2
  {
    hide Transliterate, NameWords, LongWords, NoSeparator;
    assert |multiset(parts)| == |parts| && |multiset(Translits(NameWords(name)))| == |NameWords(name)|;
    assert |parts| >= 2 && parts[0] in parts && parts[1] in parts;
    assert parts[1..][0] == parts[1];
    assert Concat(parts) == parts[0] + (parts[1] + Concat(parts[1..][1..]));
  }

  /** With at least two words of two letters or more, such an account scores half a
      point and one and a half for each of them, under every display name at least that
      and without one exactly; so it is never passed over for nobody. */
  lemma TranslitsTogetherScore(name: string, user: MatrixUser, parts: seq<string>, server: string)
    requires TranslitsTogether(name, user.userId, parts, server) && LongWords(NameWords(name)) >= 2
    ensures Score(name, user) >= 0.5 + 1.5 * LongWords(NameWords(name)) as real
    ensures user.displayName == "" ==> Score(name, user) == 0.5 + 1.5 * LongWords(NameWords(name)) as real
    ensures forall users: seq<MatrixUser> | user in users :: BestMatch(name, users, MIN_SCORE).Some?
  {
    hide Score, NameWords, LongWords, Matched, Concat, RunTogether, BestMatch, TranslitsTogether;
    TogetherIsRun(name, user.userId, parts, server);
    WholeIsMatched(name, user.userId, parts, server);
    RunTogetherScores(name, user, false, Translits(NameWords(name)), parts, server);
    forall users: seq<MatrixUser> | user in users
      ensures BestMatch(name, users, MIN_SCORE).Some?
    {
      SomebodyScores(name, users, user, MIN_SCORE);
    }
  }

  // ---- spellings kept apart ----

  /** The piece is a spelling of the word, or the word's transliteration stands in it; with `ё` or without. */
  predicate Writes(word: string, piece: string) {
    || piece in Variants(word) || piece in Variants(NormalizeYo(word))
    || Contains(piece, Transliterate(word)) || Contains(piece, Transliterate(NormalizeYo(word)))
  }

  /** The account id is made of pieces that write the words of two letters or more of
      the name, in any order, joined by one of the separators. */
  predicate SpeltApart(name: string, userId: string, pieces: seq<string>, parts: seq<string>, sep: char,
                       server: string)
  {
    var words := NameWords(name);
    && |pieces| == |words|
    && (forall k | 0 <= k < |words| && |words[k]| >= 2 :: Writes(words[k], pieces[k]))
    && multiset(parts) == multiset(pieces)
    && (forall part <- parts :: Plain(part) && IsLower(part))
    && IsSeparator(sep)
    && userId == "@" + Joined(parts, sep) + ":" + server
  }

  lemma PartsOfJoined(userId: string, parts: seq<string>, sep: char, server: string)
    requires IsSeparator(sep) && forall part <- parts :: Plain(part) && IsLower(part)
    requires userId == "@" + Joined(parts, sep) + ":" + server
    ensures Parts(Localpart(userId)) == parts
  {
    hide Fields, LowerChar, IsSeparator, Localpart;
    var s := Joined(parts, sep);
    SeparatorIsLower(sep);
    JoinedChars(parts, sep, c => c != ':');
    LocalpartOf(s, server);
    JoinedChars(parts, sep, c => LowerChar(c) == c);
    LowerFixed(s);
    FieldsOfJoined(parts, sep, IsSeparator);
  }

  lemma WrittenIsMatched(word: string, piece: string, words: seq<string>)
    requires word in words && |word| >= 2 && |piece| >= 2 && Writes(word, piece)
    ensures Matched(piece, words)
  {
    hide Variants, Transliterate, NormalizeYo, Contains;
    assert Recognises(word, piece);
  }

  lemma {:induction false} WrittenAreMatched(some: seq<string>, pieces: seq<string>, words: seq<string>)
    requires |pieces| == |some| && (forall w <- some :: w in words) && forall piece <- pieces :: |piece| >= 2
    requires forall k | 0 <= k < |some| && |some[k]| >= 2 :: Writes(some[k], pieces[k])
    ensures CountMatched(pieces, words) >= LongWords(some)
  {
    hide Matched, Writes;
    if some != [] {
      var n := |some| - 1;
      assert some[n] in some && pieces[n] in pieces;
      assert (forall w <- some[..n] :: w in some) && forall piece <- pieces[..n] :: piece in pieces;
      WrittenAreMatched(some[..n], pieces[..n], words);
      if |some[n]| >= 2 { WrittenIsMatched(some[n], pieces[n], words); }
    }
  }

  /** Such an account scores two points for every word of two letters or more, if there
      are two of them, whatever its display name; so it is never passed over for nobody. */
  lemma SpeltApartScores(name: string, user: MatrixUser, pieces: seq<string>, parts: seq<string>, sep: char,
                         server: string)
    requires SpeltApart(name, user.userId, pieces, parts, sep, server) && LongWords(NameWords(name)) >= 2
    ensures Score(name, user) >= 2.0 * LongWords(NameWords(name)) as real
    ensures forall users: seq<MatrixUser> | user in users :: BestMatch(name, users, MIN_SCORE).Some?
  {
    hide NameWords, LongWords, Localpart, CountFound, CountMatched, CountShown, DisplayMatches, WithoutSeparators,
         Parts, Joined, Plain, Writes, BestMatch, Lower, Score;
    var words := NameWords(name);
    PartsOfJoined(user.userId, parts, sep, server);
    CountIgnoresOrder(parts, pieces, words);
    LongEnough(parts, pieces);
    WrittenAreMatched(words, pieces, words);
    EvidenceScores(name, user, LongWords(words));
    forall users: seq<MatrixUser> | user in users
      ensures BestMatch(name, users, MIN_SCORE).Some?
    {
      SomebodyScores(name, users, user, MIN_SCORE);
    }
  }

  lemma LongEnough(parts: seq<string>, pieces: seq<string>)
    requires multiset(parts) == multiset(pieces) && forall part <- parts :: Plain(part)
    ensures forall piece <- pieces :: |piece| >= 2
  {
    forall piece | piece in pieces
      ensures |piece| >= 2
    {
      assert piece in multiset(pieces);
      assert piece in multiset(parts);
      assert piece in parts && Plain(piece);
    }
  }

  lemma EvidenceScores(name: string, user: MatrixUser, n: nat)
    requires n >= 2 && CountMatched(Parts(Localpart(user.userId)), NameWords(name)) >= n
    ensures Score(name, user) >= 2.0 * n as real
  {
    hide NameWords, Localpart, CountFound, CountMatched, CountShown, DisplayMatches, WithoutSeparators, Parts, Lower;
  }

  /** A name of one word of two letters or more: its transliteration alone scores half a
      point without a display name, which is enough. */
  lemma OneWordName(name: string, word: string, server: string)
    requires NameWords(name) == [word] && |word| >= 2 && Plain(Transliterate(word))
    ensures var user := MatrixUser("", "@" + Transliterate(word) + ":" + server);
            Score(name, user) == 0.5 && BestMatch(name, [user], MIN_SCORE) == Some(user)
  {
    hide NameWords, Score, LongWords, Canonical, BestMatch, Plain, Transliterate, EvidenceFor, CountMatched, Translits;
    var user := MatrixUser("", "@" + Transliterate(word) + ":" + server);
    OneWordIsCanonical(name, word, server);
    CanonicalEvidence(name, user, [Transliterate(word)], '.', server);
    OneLong(word);
    assert |[word]| == 1;
    OnePartScores(name, user);
    OneAccount(name, user, MIN_SCORE);
  }

  lemma OneAccount(name: string, user: MatrixUser, minScore: real)
    requires Score(name, user) >= minScore
    ensures BestMatch(name, [user], minScore) == Some(user)
  {
    hide Score, BestMatch;
    assert user in [user];
    SomebodyScores(name, [user], user, minScore);
    BestMatchIsEarliestMaximum(name, [user], minScore);
  }

  lemma OneWordIsCanonical(name: string, word: string, server: string)
    requires NameWords(name) == [word] && Plain(Transliterate(word))
    ensures Canonical(name, "@" + Transliterate(word) + ":" + server, [Transliterate(word)], '.', server)
  {
    hide NameWords, Transliterate, Plain;
    assert Translits([word]) == [Transliterate(word)];
  }

  lemma OnePartScores(name: string, user: MatrixUser)
    requires user.displayName == ""
    requires var e := EvidenceFor(name, user); e.total == 1 && e.parts == 1 && e.legacy <= 1
    ensures Score(name, user) == 0.5
  {
    hide EvidenceFor;
    NoDisplayEvidence(name, user);
  }

  lemma OneLong(word: string)
    requires |word| >= 2
    ensures LongWords([word]) == 1
  {
    assert [word][..0] == [];
  }

  // ---- an account ----

  const SERGEY := "Сергей Тихоненко"
  const SERGEY_WORDS := ["сергей", "тихоненко"]
  const SERGEY_ACCOUNT := MatrixUser("", "@sergeytikhonenko:h")

  lemma OneMore(a: string, c: char, whole: string)
    requires whole == a + [c]
    ensures Transliterate(whole) == Transliterate(a) + TranslitChar(LowerChar(c))
  {
    assert whole[..|a|] == a;
  }

  lemma SergeyLetters()
    ensures TranslitChar(LowerChar('с')) == "s" && TranslitChar(LowerChar('е')) == "e"
    ensures TranslitChar(LowerChar('р')) == "r" && TranslitChar(LowerChar('г')) == "g"
    ensures TranslitChar(LowerChar('й')) == "y" && TranslitChar(LowerChar('т')) == "t"
    ensures TranslitChar(LowerChar('и')) == "i" && TranslitChar(LowerChar('х')) == "kh"
    ensures TranslitChar(LowerChar('о')) == "o" && TranslitChar(LowerChar('н')) == "n"
    ensures TranslitChar(LowerChar('к')) == "k"
  {
  }

  lemma SergeyTransliterates()
    ensures Transliterate("сергей") == "sergey"
  {
    hide Transliterate, TranslitChar, LowerChar;
    SergeyLetters();
    OneLetter('с');
    OneMore("с", 'е', "се");
    OneMore("се", 'р', "сер");
    OneMore("сер", 'г', "серг");
    OneMore("серг", 'е', "серге");
    OneMore("серге", 'й', "сергей");
  }

  lemma TikhonenkoTransliterates()
    ensures Transliterate("тихоненко") == "tikhonenko"
  {
    hide Transliterate, TranslitChar, LowerChar;
    SergeyLetters();
    OneLetter('т');
    OneMore("т", 'и', "ти");
    OneMore("ти", 'х', "тих");
    OneMore("тих", 'о', "тихо");
    OneMore("тихо", 'н', "тихон");
    OneMore("тихон", 'е', "тихоне");
    OneMore("тихоне", 'н', "тихонен");
    OneMore("тихонен", 'к', "тихоненк");
    OneMore("тихоненк", 'о', "тихоненко");
  }

  lemma SergeySplits()
    ensures NameWords(SERGEY) == SERGEY_WORDS
  {
    hide Fields;
    assert Lower(SERGEY) == "сергей тихоненко";
    assert SERGEY_WORDS[1..] == ["тихоненко"];
    assert Joined(SERGEY_WORDS, ' ') == "сергей тихоненко";
    FieldsOfJoined(SERGEY_WORDS, ' ', IsSpace);
  }

  /** An account without separators is found by its two words. */
  lemma SergeyIsFound()
    ensures Score(SERGEY, SERGEY_ACCOUNT) == 3.5
    ensures BestMatch(SERGEY, [SERGEY_ACCOUNT], MIN_SCORE).Some?
  {
    hide NameWords, LongWords, Score, BestMatch, TranslitsTogether;
    SergeySplits();
    SergeyRunsTogether();
    TwoLong("сергей", "тихоненко");
    TranslitsTogetherScore(SERGEY, SERGEY_ACCOUNT, ["sergey", "tikhonenko"], "h");
    assert SERGEY_ACCOUNT in [SERGEY_ACCOUNT];
  }

  lemma SergeyRunsTogether()
    ensures TranslitsTogether(SERGEY, SERGEY_ACCOUNT.userId, ["sergey", "tikhonenko"], "h")
  {
    hide NameWords, Transliterate, NoSeparator, Concat;
    SergeySplits();
    SergeyTransliterates();
    TikhonenkoTransliterates();
    assert Translits(SERGEY_WORDS) == ["sergey", "tikhonenko"];
    SergeyParts();
    assert "@" + "sergeytikhonenko" + ":" + "h" == SERGEY_ACCOUNT.userId;
  }

  lemma SergeyParts()
    ensures Concat(["sergey", "tikhonenko"]) == "sergeytikhonenko"
    ensures NoSeparator("sergey") && NoSeparator("tikhonenko")
  {
    var parts := ["sergey", "tikhonenko"];
    assert parts[1..] == ["tikhonenko"] && parts[1..][1..] == [];
  }

  lemma TwoLong(a: string, b: string)
    requires |a| >= 2 && |b| >= 2
    ensures LongWords([a, b]) == 2
  {
    assert [a, b][..1] == [a] && [a][..0] == [];
  }
}

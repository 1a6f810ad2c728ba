/** What the display name of an account adds, and the rule that two words of the name
    must match (src/user_matcher.py). */
module NameDisplays {
  import opened Wrappers
  import opened Text
  import opened NameMatcher
  import opened NameSpellings

  // ---- `ё` and `е` ----

  /** The texts differ at most in `ё` against `е`, in either case. */
  predicate SameButYo(a: string, b: string) {
    && |a| == |b|
    && forall k | 0 <= k < |a| ::
         || a[k] == b[k]
         || {a[k], b[k]} == {'ё', 'е'}
         || {a[k], b[k]} == {'Ё', 'Е'}
  }

  lemma YoForgotten(a: string, b: string)
    ensures SameButYo(a, b) <==> NormalizeYo(a) == NormalizeYo(b)
  {
    if |a| == |b| {
      forall k | 0 <= k < |a|
        ensures NormalizeYo(a)[k] == NormalizeYo(b)[k] <==>
                a[k] == b[k] || {a[k], b[k]} == {'ё', 'е'} || {a[k], b[k]} == {'Ё', 'Е'}
      {
        YoLetter(a, b, k);
      }
      if NormalizeYo(a) == NormalizeYo(b) {
        assert forall k | 0 <= k < |a| :: NormalizeYo(a)[k] == NormalizeYo(b)[k];
      }
    }
  }

  lemma YoLetter(a: string, b: string, k: nat)
    requires k < |a| == |b|
    ensures NormalizeYo(a)[k] == NormalizeYo(b)[k] <==>
            a[k] == b[k] || {a[k], b[k]} == {'ё', 'е'} || {a[k], b[k]} == {'Ё', 'Е'}
  {
    SamePair(a[k], b[k], 'ё', 'е');
    SamePair(a[k], b[k], 'Ё', 'Е');
  }

  lemma SamePair(x: char, y: char, a: char, b: char)
    ensures {x, y} == {a, b} <==> (x == a && y == b) || (x == b && y == a)
  {
    if {x, y} == {a, b} {
      assert x in {a, b} && y in {a, b} && a in {x, y} && b in {x, y};
    }
  }

  lemma YoKeepsCase(s: string)
    ensures Lower(NormalizeYo(s)) == NormalizeYo(Lower(s))
  {
    assert forall k | 0 <= k < |s| :: Lower(NormalizeYo(s))[k] == NormalizeYo(Lower(s))[k];
  }

  lemma {:induction false} YoKeepsLength(s: string)
    ensures FieldLength(NormalizeYo(s), IsSpace) == FieldLength(s, IsSpace)
  {
    if s != [] {
      assert NormalizeYo(s)[1..] == NormalizeYo(s[1..]);
      assert IsSpace(NormalizeYo(s)[0]) == IsSpace(s[0]);
      YoKeepsLength(s[1..]);
    }
  }

  lemma {:induction false} YoFields(s: string)
    ensures Fields(NormalizeYo(s), IsSpace) == AllNoYo(Fields(s, IsSpace))
    decreases |s|
  {
    if s != [] {
      var t, n := NormalizeYo(s), FieldLength(s, IsSpace);
      assert IsSpace(t[0]) == IsSpace(s[0]);
      YoKeepsLength(s);
      if IsSpace(s[0]) {
        assert t[1..] == NormalizeYo(s[1..]);
        YoFields(s[1..]);
      } else {
        assert t[..n] == NormalizeYo(s[..n]) && t[n..] == NormalizeYo(s[n..]);
        YoFields(s[n..]);
        assert AllNoYo([s[..n]] + Fields(s[n..], IsSpace)) == [NormalizeYo(s[..n])] + AllNoYo(Fields(s[n..], IsSpace));
      }
    }
  }

  /** The words without `ё` are the words of the text without `ё`. */
  lemma YoWords(name: string)
    ensures NameWords(NormalizeYo(name)) == AllNoYo(NameWords(name))
  {
    hide Fields, Lower, NormalizeYo;
    YoKeepsCase(name);
    YoFields(Lower(name));
  }

  // ---- words shared with the display name ----

  /** The word stands in both texts, apart from case and `ё`. */
  predicate Shared(name: string, display: string, word: string) {
    word in AllNoYo(NameWords(name)) && word in AllNoYo(NameWords(display))
  }

  lemma SharedCounts(name: string, display: string, a: string, b: string)
    requires a != b && Shared(name, display, a) && Shared(name, display, b)
    ensures DisplayMatches(NameWords(name), display) >= 2
  {
    hide NameWords, NormalizeYo;
    YoWords(display);
    var both := Elements(AllNoYo(NameWords(name))) * Elements(NameWords(NormalizeYo(display)));
    var all := Elements(NameWords(name)) * Elements(NameWords(display)) + both;
    assert {a, b} <= all;
    SubsetSize({a, b}, all);
  }

  lemma {:induction false} SubsetSize(a: set<string>, b: set<string>)
    requires a <= b
    ensures |a| <= |b|
  {
    assert b == a + (b - a);
  }

  /** Two different words of the name in the display name, in any order and case, with
      `ё` or `е`, and whatever else stands there, score four points or more; so the
      account is never passed over for nobody. */
  lemma TwoSharedWords(name: string, user: MatrixUser, a: string, b: string)
    requires a != b && Shared(name, user.displayName, a) && Shared(name, user.displayName, b)
    ensures Score(name, user) >= 4.0
    ensures forall users: seq<MatrixUser> | user in users :: BestMatch(name, users, MIN_SCORE).Some?
  {
    hide NameWords, Localpart, CountFound, CountMatched, CountShown, DisplayMatches, WithoutSeparators,
         Parts, Lower, BestMatch, NormalizeYo, Score;
    SharedCounts(name, user.displayName, a, b);
    SomeDisplay(user.displayName, a);
    DisplayScores(name, user);
    forall users: seq<MatrixUser> | user in users
      ensures BestMatch(name, users, MIN_SCORE).Some?
    {
      SomebodyScores(name, users, user, MIN_SCORE);
    }
  }

  lemma SomeDisplay(display: string, word: string)
    requires word in AllNoYo(NameWords(display))
    ensures display != ""
  {
    NothingNamed();
  }

  lemma NothingNamed()
    ensures NameWords("") == []
  {
    assert Lower("") == "";
  }

  lemma DisplayScores(name: string, user: MatrixUser)
    requires user.displayName != "" && DisplayMatches(NameWords(name), user.displayName) >= 2
    ensures Score(name, user) >= 2.0 * DisplayMatches(NameWords(name), user.displayName) as real >= 4.0
  {
    hide NameWords, Localpart, CountFound, CountMatched, CountShown, DisplayMatches, WithoutSeparators, Parts, Lower;
  }

  /** Without a localpart, an account of a name without `ё` scores two points for every
      different word its display name shares with it, if there are two of them, and one
      for every word that stands there in Latin letters, if there are two of those too;
      otherwise nothing. */
  lemma DisplayAloneScores(name: string, display: string)
    requires |NameWords(name)| >= 2 && NormalizeYo(name) == name && NormalizeYo(display) == display && display != ""
    ensures var words := NameWords(name);
            var common := set w | w in words && w in NameWords(display);
            var shown := CountShown(Fields(Spaced(Lower(display)), IsSpace), words);
            Score(name, MatrixUser(display, "")) ==
              if |common| < 2 then 0.0
              else 2.0 * |common| as real + if shown >= 2 then shown as real else 0.0
  {
    hide NameWords, CountFound, CountMatched, CountShown, WithoutSeparators, Lower, NormalizeYo, Fields, Spaced;
    var words := NameWords(name);
    var common := set w | w in words && w in NameWords(display);
    YoWords(name);
    assert Elements(words) * Elements(NameWords(display)) == common;
    assert DisplayMatches(words, display) == |common| by { assert common + common == common; }
    NothingInNothing(words);
    NothingInNothing(AllNoYo(words));
    NoLocalpart();
  }

  lemma NoLocalpart()
    ensures Localpart("") == "" && Parts("") == [] && WithoutSeparators(Lower("")) == ""
  {
    assert Lower("") == "";
  }

  lemma {:induction false} NothingInNothing(words: seq<string>)
    ensures CountFound("", words) == 0 && CountMatched([], words) == 0
  {
    hide Variants;
    if words != [] {
      var n := |words| - 1;
      NothingInNothing(words[..n]);
      assert !FoundIn(words[n], "") by { NoSpellingIsEmpty(words[n]); }
    }
  }

  lemma NoSpellingIsEmpty(word: string)
    ensures forall v :: v in Variants(word) ==> !Contains("", v)
  {
    hide Transliterate, NormalizeYo, AddedBy, Lower;
    assert "" !in Variants(word);
    forall v | v in Variants(word)
      ensures !Contains("", v)
    {
      assert OccursAt("", v, 0) ==> v == "";
    }
  }

  // ---- display names in Latin letters ----

  /** The display name, in any case, is spellings of the words of two letters or more, in
      any order, among other pieces. */
  predicate ShownAs(name: string, display: string, pieces: seq<string>, parts: seq<string>) {
    var words := NameWords(name);
    && |pieces| == |words|
    && (forall k | 0 <= k < |words| && |words[k]| >= 2 ::
          pieces[k] in parts && (pieces[k] in Variants(words[k]) || pieces[k] in Variants(NormalizeYo(words[k]))))
    && (forall part <- parts :: part != "" && forall c <- part :: !IsSeparator(c) && !IsSpace(c))
    && Lower(display) == Joined(parts, ' ')
  }

  lemma {:induction false} ShownCounts(parts: seq<string>, words: seq<string>, pieces: seq<string>)
    requires |pieces| == |words|
    requires forall k | 0 <= k < |words| && |words[k]| >= 2 ::
               pieces[k] in parts && (pieces[k] in Variants(words[k]) || pieces[k] in Variants(NormalizeYo(words[k])))
    ensures CountShown(parts, words) == LongWords(words)
  {
    hide Variants, Contains, NormalizeYo;
    if words != [] {
      var n := |words| - 1;
      ShownCounts(parts, words[..n], pieces[..n]);
      if |words[n]| >= 2 {
        assert pieces[n] in BothVariants(words[n]) && AppearsIn(pieces[n], parts);
      }
    }
  }

  lemma DisplayParts(parts: seq<string>)
    requires forall part <- parts :: part != "" && forall c <- part :: !IsSeparator(c) && !IsSpace(c)
    ensures Fields(Spaced(Joined(parts, ' ')), IsSpace) == parts
  {
    hide Fields, LowerChar, IsSeparator, IsSpace;
    var s := Joined(parts, ' ');
    SpaceIsSpace();
    JoinedChars(parts, ' ', c => !IsSeparator(c));
    assert Spaced(s) == s by { assert forall k | 0 <= k < |s| :: s[k] in s && Spaced(s)[k] == s[k]; }
    FieldsOfJoined(parts, ' ', IsSpace);
  }

  lemma SpaceIsSpace()
    ensures IsSpace(' ') && !IsSeparator(' ')
  {
  }

  /** On a canonical account with two words of two letters or more, a display name of
      spellings adds one point for every word of two letters or more, and, if it shares
      no word with the name, nothing else. */
  lemma LatinDisplayAdds(name: string, user: MatrixUser, parts: seq<string>, sep: char, server: string,
                         pieces: seq<string>, shown: seq<string>)
    requires Canonical(name, user.userId, parts, sep, server) && ShownAs(name, user.displayName, pieces, shown)
    requires LongWords(NameWords(name)) >= 2 && user.displayName != ""
    ensures var points := 2.0 * RecognisedWords(name) as real + LongWords(NameWords(name)) as real;
            && Score(name, user) >= points
            && (DisplayMatches(NameWords(name), user.displayName) == 0 ==> Score(name, user) == points)
  {
    hide NameWords, Localpart, CountFound, CountMatched, CountShown, DisplayMatches, WithoutSeparators,
         Parts, Joined, Plain, Lower, Variants, LongWords, Canonical, Fields, Spaced, NormalizeYo, Translits;
    CanonicalEvidence(name, user, parts, sep, server);
    DisplayParts(shown);
    ShownCounts(shown, NameWords(name), pieces);
  }
}

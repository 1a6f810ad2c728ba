/** Matching a Redmine name with a Matrix account (src/user_matcher.py). */
module NameMatcher {
  import opened Wrappers
  import opened Text

  // ---- transliteration ----

  function TranslitChar(c: char): string {
    match c
    case 'а' => "a" case 'б' => "b" case 'в' => "v" case 'г' => "g" case 'д' => "d" case 'е' => "e"
    case 'ё' => "yo" case 'ж' => "zh" case 'з' => "z" case 'и' => "i" case 'й' => "y" case 'к' => "k"
    case 'л' => "l" case 'м' => "m" case 'н' => "n" case 'о' => "o" case 'п' => "p" case 'р' => "r"
    case 'с' => "s" case 'т' => "t" case 'у' => "u" case 'ф' => "f" case 'х' => "kh" case 'ц' => "ts"
    case 'ч' => "ch" case 'ш' => "sh" case 'щ' => "shch" case 'ъ' => "" case 'ы' => "y" case 'ь' => ""
    case 'э' => "e" case 'ю' => "yu" case 'я' => "ya"
    case _ => [c]
  }

  function Transliterate(text: string): string {
    if text == [] then []
    else Transliterate(text[..|text| - 1]) + TranslitChar(LowerChar(text[|text| - 1]))
  }

  function NormalizeYo(text: string): (r: string)
    ensures |r| == |text|
  {
    seq(|text|, k requires 0 <= k < |text| =>
      if text[k] == 'ё' then 'е' else if text[k] == 'Ё' then 'Е' else text[k])
  }

  datatype Alternative = Alternative(cyr: string, alts: seq<string>)

  const TRANSLIT_ALTERNATIVES: seq<Alternative> := [
    Alternative("е", ["e", "ye"]), Alternative("ё", ["yo", "e", "jo", "o"]), Alternative("ж", ["zh", "j"]),
    Alternative("й", ["y", "i"]), Alternative("х", ["kh", "h", "x"]), Alternative("ц", ["ts", "c", "tz"]),
    Alternative("ч", ["ch", "tch"]), Alternative("ш", ["sh"]), Alternative("щ", ["shch", "sch"]),
    Alternative("ы", ["y", "i"]), Alternative("э", ["e"]), Alternative("ю", ["yu", "iu", "ju"]),
    Alternative("я", ["ya", "ia", "ja"]), Alternative("кс", ["x", "ks"])]

  /** Where the needle occurs first. */
  function IndexOf(hay: string, needle: string, start: nat): (k: nat)
    requires Contains(hay, needle)
    requires start <= |hay| && forall j: nat | j < start :: !OccursAt(hay, needle, j)
    ensures k <= |hay| && OccursAt(hay, needle, k) && forall j: nat | j < k :: !OccursAt(hay, needle, j)
    decreases |hay| - start
  {
    if OccursAt(hay, needle, start) then start else IndexOf(hay, needle, start + 1)
  }

  function ReplaceFirst(s: string, part: string, alt: string): string
    requires Contains(s, part)
  {
    var k := IndexOf(s, part, 0);
    s[..k] + alt + s[k + |part|..]
  }

  function Replacements(base: string, part: string, alts: seq<string>): set<string> {
    if Contains(base, part) then set alt | alt in alts :: ReplaceFirst(base, part, alt) else {}
  }

  /** What one entry of the table adds for a word. */
  function Added(word: string, a: Alternative): set<string> {
    if Contains(word, a.cyr) then
      Replacements(Transliterate(word), Transliterate(a.cyr), a.alts)
      + Replacements(Transliterate(NormalizeYo(word)), Transliterate(a.cyr), a.alts)
    else {}
  }

  function AddedBy(word: string, table: seq<Alternative>): set<string> {
    if table == [] then {} else AddedBy(word, table[..|table| - 1]) + Added(word, table[|table| - 1])
  }

  /** The plain transliterations, and each with one ambiguous letter written otherwise. */
  function Variants(word: string): set<string> {
    var lower := Lower(word);
    {Transliterate(lower), Transliterate(NormalizeYo(lower))} + AddedBy(lower, TRANSLIT_ALTERNATIVES) - {""}
  }

  method TransliterateVariants(word: string) returns (variants: set<string>)
    ensures variants == Variants(word)
  {
    hide Transliterate, NormalizeYo, Contains, TRANSLIT_ALTERNATIVES, ReplaceFirst;
    var wordLower := Lower(word);
    variants := {};
    variants := variants + {Transliterate(wordLower)};
    variants := variants + {Transliterate(NormalizeYo(wordLower))};
    ghost var plain := variants;
    for i := 0 to |TRANSLIT_ALTERNATIVES|
      invariant variants == plain + AddedBy(wordLower, TRANSLIT_ALTERNATIVES[..i])
    {
      var cyr, alts := TRANSLIT_ALTERNATIVES[i].cyr, TRANSLIT_ALTERNATIVES[i].alts;
      assert TRANSLIT_ALTERNATIVES[..i + 1][..i] == TRANSLIT_ALTERNATIVES[..i];
      if Contains(wordLower, cyr) {
        var baseCyr := Transliterate(cyr);
        var changed := ReplaceEach(Transliterate(wordLower), baseCyr, alts);
        var changedNoYo := ReplaceEach(Transliterate(NormalizeYo(wordLower)), baseCyr, alts);
        variants := variants + changed + changedNoYo;
      }
    }
    assert TRANSLIT_ALTERNATIVES[..|TRANSLIT_ALTERNATIVES|] == TRANSLIT_ALTERNATIVES;
    variants := variants - {""};
  }

  method ReplaceEach(base: string, part: string, alts: seq<string>) returns (changed: set<string>)
    ensures changed == Replacements(base, part, alts)
  {
    hide ReplaceFirst, Contains;
    changed := {};
    for j := 0 to |alts|
      invariant changed == Replacements(base, part, alts[..j])
    {
      assert forall a :: a in alts[..j + 1] <==> a in alts[..j] || a == alts[j];
      if Contains(base, part) {
        changed := changed + {ReplaceFirst(base, part, alts[j])};
      }
    }
    assert alts[..|alts|] == alts;
  }

  // ---- words and parts ----

  predicate IsSeparator(c: char) {
    c == '.' || c == '_' || c == '-'
  }

  function WithoutSeparators(s: string): string {
    if s == [] then []
    else WithoutSeparators(s[..|s| - 1]) + if IsSeparator(s[|s| - 1]) then [] else [s[|s| - 1]]
  }

  function Spaced(s: string): (r: string)
    ensures |r| == |s|
  {
    seq(|s|, k requires 0 <= k < |s| => if IsSeparator(s[k]) then ' ' else s[k])
  }

  /** The lower-case words of a name. */
  function NameWords(name: string): seq<string> {
    Fields(Lower(name), IsSpace)
  }

  function Parts(localpart: string): seq<string> {
    Fields(Lower(localpart), IsSeparator)
  }

  function AllNoYo(words: seq<string>): (r: seq<string>)
    ensures |r| == |words| && forall k | 0 <= k < |words| :: r[k] == NormalizeYo(words[k])
  {
    seq(|words|, k requires 0 <= k < |words| => NormalizeYo(words[k]))
  }

  // ---- the score ----

  /** An account; an absent name or id is "". */
  datatype MatrixUser = MatrixUser(displayName: string, userId: string)

  function FirstColon(s: string): (n: nat)
    ensures n <= |s| && ':' !in s[..n] && (n < |s| ==> s[n] == ':')
  {
    if s == [] || s[0] == ':' then 0
    else
      var n := FirstColon(s[1..]);
      assert s[..n + 1] == [s[0]] + s[1..][..n];
      n + 1
  }

  /** Between '@' and the first colon. */
  function Localpart(userId: string): string {
    if userId == [] || userId[0] != '@' then ""
    else
      var n := FirstColon(userId[1..]);
      if n < |userId| - 1 then userId[1..n + 1] else ""
  }

  function BothVariants(word: string): set<string> {
    Variants(word) + Variants(NormalizeYo(word))
  }

  /** A word of the name accounts for a part of the localpart; one-letter words never do. */
  predicate Recognises(word: string, part: string) {
    && |word| >= 2
    && (|| part == Transliterate(word)
        || part == Transliterate(NormalizeYo(word))
        || part in BothVariants(word)
        || Contains(part, Transliterate(word))
        || Contains(part, Transliterate(NormalizeYo(word))))
  }

  predicate Matched(part: string, words: seq<string>) {
    |part| >= 2 && exists w :: w in words && Recognises(w, part)
  }

  function CountMatched(parts: seq<string>, words: seq<string>): (n: nat)
    ensures n <= |parts|
  {
    if parts == [] then 0
    else CountMatched(parts[..|parts| - 1], words) + if Matched(parts[|parts| - 1], words) then 1 else 0
  }

  predicate FoundIn(word: string, clean: string) {
    |word| >= 2 && exists v :: v in Variants(word) && Contains(clean, v)
  }

  function CountFound(clean: string, words: seq<string>): (n: nat)
    ensures n <= |words|
  {
    if words == [] then 0
    else CountFound(clean, words[..|words| - 1]) + if FoundIn(words[|words| - 1], clean) then 1 else 0
  }

  predicate AppearsIn(v: string, displayParts: seq<string>) {
    exists d :: d in displayParts && (v == d || Contains(d, v))
  }

  predicate ShownIn(word: string, displayParts: seq<string>) {
    |word| >= 2
    && exists v :: v in BothVariants(word) && AppearsIn(v, displayParts)
  }

  function CountShown(displayParts: seq<string>, words: seq<string>): (n: nat) {
    if words == [] then 0
    else CountShown(displayParts, words[..|words| - 1]) + if ShownIn(words[|words| - 1], displayParts) then 1 else 0
  }

  function Elements(words: seq<string>): set<string> {
    set w | w in words
  }

  /** How many words of the name stand in the display name. */
  function DisplayMatches(words: seq<string>, display: string): nat {
    |Elements(words) * Elements(NameWords(display))
     + Elements(AllNoYo(words)) * Elements(NameWords(NormalizeYo(display)))|
  }

  /** What was counted for a candidate. */
  datatype Evidence = Evidence(total: nat, hasDisplay: bool, display: nat, parts: nat, legacy: nat, shown: nat)

  function EvidenceFor(name: string, user: MatrixUser): Evidence {
    var words, localpart := NameWords(name), Localpart(user.userId);
    var clean := WithoutSeparators(Lower(localpart));
    var found, foundNoYo := CountFound(clean, words), CountFound(clean, AllNoYo(words));
    Evidence(
      |words|, user.displayName != "",
      if user.displayName != "" then DisplayMatches(words, user.displayName) else 0,
      CountMatched(Parts(localpart), words),
      if found < foundNoYo then foundNoYo else found,
      if user.displayName != "" then CountShown(Fields(Spaced(Lower(user.displayName)), IsSpace), words) else 0)
  }

  /** Fewer than two matching parts count for nothing, unless the name has only one word. */
  function Weigh(e: Evidence): (score: real)
    ensures score >= 0.0
  {
    if e.total >= 2 && e.display < 2 && e.parts < 2 && e.legacy < 2 then 0.0
    else
      (if e.hasDisplay && e.display >= 2 then e.display as real * 2.0 else 0.0)
      + (if e.parts >= 2 then e.parts as real * 2.0 else if e.parts == 1 then 0.5 else 0.0)
      + (if e.legacy >= 2 && e.legacy > e.parts then e.legacy as real * 1.5 else 0.0)
      + (if e.hasDisplay && e.shown >= 2 then e.shown as real else 0.0)
  }

  function Score(name: string, user: MatrixUser): real {
    Weigh(EvidenceFor(name, user))
  }

  method CountTranslitMatches(clean: string, nameParts: seq<string>) returns (matches: nat)
    ensures matches == CountFound(clean, nameParts)
  {
    hide Variants, Contains;
    matches := 0;
    for i := 0 to |nameParts|
      invariant matches == CountFound(clean, nameParts[..i])
    {
      var part := nameParts[i];
      assert nameParts[..i + 1][..i] == nameParts[..i];
      if |part| < 2 { continue; }
      var variants := TransliterateVariants(part);
      if exists v :: v in variants && Contains(clean, v) {
        matches := matches + 1;
      }
    }
    assert nameParts[..|nameParts|] == nameParts;
  }

  /** Some word of the name accounts for the part. */
  method MatchesSomeWord(part: string, words: seq<string>) returns (found: bool)
    requires |part| >= 2
    ensures found == Matched(part, words)
  {
    hide Variants, Contains, Transliterate, NormalizeYo;
    for i := 0 to |words|
      invariant forall w | w in words[..i] :: !Recognises(w, part)
    {
      var word := words[i];
      assert forall w :: w in words[..i + 1] <==> w in words[..i] || w == word;
      if |word| < 2 { continue; }
      var translit, translitNoYo := Transliterate(word), Transliterate(NormalizeYo(word));
      var variants := TransliterateVariants(word);
      var variantsNoYo := TransliterateVariants(NormalizeYo(word));
      if || part == translit || part == translitNoYo || part in variants + variantsNoYo
         || Contains(part, translit) || Contains(part, translitNoYo)
      {
        assert word in words && Recognises(word, part);
        return true;
      }
    }
    assert words[..|words|] == words;
    return false;
  }

  method CountLocalpartMatches(parts: seq<string>, words: seq<string>) returns (matched: nat)
    ensures matched == CountMatched(parts, words)
  {
    hide Recognises;
    matched := 0;
    for i := 0 to |parts|
      invariant matched == CountMatched(parts[..i], words)
    {
      assert parts[..i + 1][..i] == parts[..i];
      if |parts[i]| < 2 { continue; }
      var found := MatchesSomeWord(parts[i], words);
      if found {
        matched := matched + 1;
      }
    }
    assert parts[..|parts|] == parts;
  }

  method CountTranslitDisplay(displayParts: seq<string>, words: seq<string>) returns (shown: nat)
    ensures shown == CountShown(displayParts, words)
  {
    hide Variants, AppearsIn, NormalizeYo;
    shown := 0;
    for i := 0 to |words|
      invariant shown == CountShown(displayParts, words[..i])
    {
      var word := words[i];
      assert words[..i + 1][..i] == words[..i];
      if |word| < 2 { continue; }
      var variants := TransliterateVariants(word);
      var variantsNoYo := TransliterateVariants(NormalizeYo(word));
      if exists v :: v in variants + variantsNoYo && AppearsIn(v, displayParts) {
        shown := shown + 1;
      }
    }
    assert words[..|words|] == words;
  }

  method ScoreMatrixCandidate(name: string, user: MatrixUser) returns (score: real)
    ensures score == Score(name, user)
  {
    hide NameWords, Localpart, Parts, WithoutSeparators, CountFound, CountMatched, CountShown, DisplayMatches, Lower;
    var display, localpart := user.displayName, Localpart(user.userId);
    var rnParts := NameWords(name);
    var localpartClean := WithoutSeparators(Lower(localpart));
    score := 0.0;
    var displayMatchedParts := 0;
    if display != "" {
      displayMatchedParts := DisplayMatches(rnParts, display);
      if displayMatchedParts >= 2 {
        score := score + displayMatchedParts as real * 2.0;
      }
    }
    var localpartMatchedParts := CountLocalpartMatches(Parts(localpart), rnParts);
    if localpartMatchedParts >= 2 {
      score := score + localpartMatchedParts as real * 2.0;
    } else if localpartMatchedParts == 1 {
      score := score + 0.5;
    }
    var lpMatches := CountTranslitMatches(localpartClean, rnParts);
    var lpMatchesNoYo := CountTranslitMatches(localpartClean, AllNoYo(rnParts));
    var legacyMatched := if lpMatches < lpMatchesNoYo then lpMatchesNoYo else lpMatches;
    if legacyMatched >= 2 && legacyMatched > localpartMatchedParts {
      score := score + legacyMatched as real * 1.5;
    }
    if display != "" {
      var shown := CountTranslitDisplay(Fields(Spaced(Lower(display)), IsSpace), rnParts);
      if shown >= 2 {
        score := score + shown as real * 1.0;
      }
    }
    if displayMatchedParts < 2 && localpartMatchedParts < 2 && legacyMatched < 2 && |rnParts| >= 2 {
      return 0.0;
    }
  }

  // ---- the best candidate ----

  const MIN_SCORE := 0.5

  datatype Candidate = Candidate(score: real, user: MatrixUser)

  function Qualified(name: string, users: seq<MatrixUser>, minScore: real): seq<Candidate> {
    if users == [] then []
    else
      var user := users[|users| - 1];
      Qualified(name, users[..|users| - 1], minScore)
      + if Score(name, user) >= minScore then [Candidate(Score(name, user), user)] else []
  }

  /** Behind everything that scores at least as high. */
  function Inserted(c: Candidate, ranked: seq<Candidate>): seq<Candidate> {
    if ranked == [] || ranked[0].score < c.score then [c] + ranked
    else [ranked[0]] + Inserted(c, ranked[1..])
  }

  /** Highest score first; `sort` is stable. */
  function Ranked(candidates: seq<Candidate>): seq<Candidate> {
    if candidates == [] then []
    else Inserted(candidates[|candidates| - 1], Ranked(candidates[..|candidates| - 1]))
  }

  predicate Descending(candidates: seq<Candidate>) {
    forall a, b | 0 <= a < b < |candidates| :: candidates[a].score >= candidates[b].score
  }

  function WithScore(candidates: seq<Candidate>, score: real): seq<Candidate> {
    if candidates == [] then []
    else (if candidates[0].score == score then [candidates[0]] else []) + WithScore(candidates[1..], score)
  }

  lemma {:induction false} WithScoreSplit(a: seq<Candidate>, b: seq<Candidate>, score: real)
    ensures WithScore(a + b, score) == WithScore(a, score) + WithScore(b, score)
  {
    if a == [] {
      assert a + b == b;
    } else {
      var s := a + b;
      assert s[1..] == a[1..] + b && s[0] == a[0];
      WithScoreSplit(a[1..], b, score);
      if a[0].score != score {
        assert WithScore(s, score) == WithScore(s[1..], score);
        assert WithScore(a, score) == WithScore(a[1..], score);
      }
    }
  }

  lemma {:induction false} InsertedDescends(c: Candidate, ranked: seq<Candidate>)
    requires Descending(ranked)
    ensures var r := Inserted(c, ranked);
            Descending(r) && r != [] && (r[0] == c || (ranked != [] && r[0] == ranked[0]))
  {
    if ranked != [] && ranked[0].score >= c.score {
      var rest := Inserted(c, ranked[1..]);
      InsertedDescends(c, ranked[1..]);
      assert ranked[0].score >= rest[0].score;
      Prepended(ranked[0], rest);
    } else if ranked != [] {
      Prepended(c, ranked);
    }
  }

  lemma Prepended(c: Candidate, ranked: seq<Candidate>)
    requires Descending(ranked) && ranked != [] && c.score >= ranked[0].score
    ensures Descending([c] + ranked)
  {
    assert forall k | 0 <= k < |ranked| :: ranked[0].score >= ranked[k].score;
  }

  lemma {:induction false} InsertedBehindTies(c: Candidate, ranked: seq<Candidate>, score: real)
    requires Descending(ranked)
    ensures WithScore(Inserted(c, ranked), score) == WithScore(ranked, score) + WithScore([c], score)
  {
    if ranked == [] {
      assert [c] + ranked == [c];
    } else if ranked[0].score < c.score {
      WithScoreSplit([c], ranked, score);
      if c.score == score {
        NoneBelow(ranked, c.score);
      } else {
        assert WithScore([c], score) == [];
      }
    } else {
      var rest := Inserted(c, ranked[1..]);
      InsertedBehindTies(c, ranked[1..], score);
      assert ([ranked[0]] + rest)[1..] == rest;
    }
  }

  lemma {:induction false} NoneBelow(ranked: seq<Candidate>, score: real)
    requires Descending(ranked) && ranked != [] && ranked[0].score < score
    ensures WithScore(ranked, score) == []
  {
    if |ranked| > 1 {
      NoneBelow(ranked[1..], score);
    }
  }

  /** The ranking is a stable sort: descending, and equal scores keep their order. */
  lemma {:induction false} RankedIsStableSort(candidates: seq<Candidate>, score: real)
    ensures Descending(Ranked(candidates))
    ensures WithScore(Ranked(candidates), score) == WithScore(candidates, score)
  {
    if candidates != [] {
      var n := |candidates| - 1;
      RankedIsStableSort(candidates[..n], score);
      InsertedDescends(candidates[n], Ranked(candidates[..n]));
      InsertedBehindTies(candidates[n], Ranked(candidates[..n]), score);
      WithScoreSplit(candidates[..n], [candidates[n]], score);
      assert candidates == candidates[..n] + [candidates[n]];
    }
  }

  function BestMatch(name: string, users: seq<MatrixUser>, minScore: real): Option<MatrixUser> {
    var ranked := Ranked(Qualified(name, users, minScore));
    if ranked == [] then None else Some(ranked[0].user)
  }

  method FindBestMatch(name: string, users: seq<MatrixUser>, minScore: real) returns (best: Option<MatrixUser>)
    ensures best == BestMatch(name, users, minScore)
  {
    hide Score;
    var candidates: seq<Candidate> := [];
    for i := 0 to |users|
      invariant candidates == Qualified(name, users[..i], minScore)
    {
      assert users[..i + 1][..i] == users[..i];
      var score := ScoreMatrixCandidate(name, users[i]);
      if score >= minScore {
        candidates := candidates + [Candidate(score, users[i])];
      }
    }
    assert users[..|users|] == users;
    if candidates == [] { return None; }
    candidates := Ranked(candidates);
    RankedKeepsSize(Qualified(name, users, minScore));
    return Some(candidates[0].user);
  }

  lemma {:induction false} RankedKeepsSize(candidates: seq<Candidate>)
    ensures |Ranked(candidates)| == |candidates|
  {
    if candidates != [] {
      var n := |candidates| - 1;
      RankedKeepsSize(candidates[..n]);
      InsertedSize(candidates[n], Ranked(candidates[..n]));
    }
  }

  lemma {:induction false} InsertedSize(c: Candidate, ranked: seq<Candidate>)
    ensures |Inserted(c, ranked)| == |ranked| + 1
  {
    if ranked != [] {
      InsertedSize(c, ranked[1..]);
    }
  }

  /** The candidate at `i` is the earliest of those that score highest, and scores enough. */
  predicate EarliestBest(name: string, users: seq<MatrixUser>, minScore: real, i: nat) {
    && i < |users|
    && Score(name, users[i]) >= minScore
    && (forall j | 0 <= j < |users| :: Score(name, users[j]) <= Score(name, users[i]))
    && (forall j | 0 <= j < i :: Score(name, users[j]) < Score(name, users[i]))
  }

  lemma LeaderStays(name: string, users: seq<MatrixUser>, minScore: real, i: nat)
    requires users != [] && EarliestBest(name, users[..|users| - 1], minScore, i)
    requires Score(name, users[|users| - 1]) <= Score(name, users[i])
    ensures EarliestBest(name, users, minScore, i)
  {
    hide Score;
    assert forall j | 0 <= j < |users| - 1 :: users[..|users| - 1][j] == users[j];
  }

  lemma LeaderChanges(name: string, users: seq<MatrixUser>, minScore: real, i: nat)
    requires users != [] && EarliestBest(name, users[..|users| - 1], minScore, i)
    requires Score(name, users[|users| - 1]) > Score(name, users[i])
    ensures EarliestBest(name, users, minScore, |users| - 1)
  {
    hide Score;
    assert forall j | 0 <= j < |users| - 1 :: users[..|users| - 1][j] == users[j];
  }

  lemma FirstLeader(name: string, users: seq<MatrixUser>, minScore: real)
    requires users != [] && forall user <- users[..|users| - 1] :: Score(name, user) < minScore
    requires Score(name, users[|users| - 1]) >= minScore
    ensures EarliestBest(name, users, minScore, |users| - 1)
  {
    hide Score;
    assert forall j | 0 <= j < |users| - 1 :: users[j] in users[..|users| - 1];
  }

  predicate NobodyScores(name: string, users: seq<MatrixUser>, minScore: real) {
    forall user <- users :: Score(name, user) < minScore
  }

  lemma NobodySnoc(name: string, users: seq<MatrixUser>, minScore: real)
    requires users != []
    ensures NobodyScores(name, users, minScore) <==>
      NobodyScores(name, users[..|users| - 1], minScore) && Score(name, users[|users| - 1]) < minScore
  {
    hide Score;
    assert users == users[..|users| - 1] + [users[|users| - 1]];
  }

  lemma RankedSnoc(name: string, users: seq<MatrixUser>, minScore: real)
    requires users != []
    ensures var user, earlier := users[|users| - 1], Ranked(Qualified(name, users[..|users| - 1], minScore));
            Ranked(Qualified(name, users, minScore))
              == if Score(name, user) >= minScore then Inserted(Candidate(Score(name, user), user), earlier)
                  else earlier
  {
    hide Score;
    var earlier := Qualified(name, users[..|users| - 1], minScore);
    var all := Qualified(name, users, minScore);
    if Score(name, users[|users| - 1]) >= minScore {
      assert all[..|earlier|] == earlier;
    } else {
      assert all == earlier;
    }
  }

  /** The one that leads the ranking so far. */
  lemma {:induction false} RankingLeader(name: string, users: seq<MatrixUser>, minScore: real) returns (i: nat)
    ensures var ranked := Ranked(Qualified(name, users, minScore));
            && (ranked == [] <==> NobodyScores(name, users, minScore))
            && (ranked != [] ==> EarliestBest(name, users, minScore, i) && i < |users|
                                 && ranked[0] == Candidate(Score(name, users[i]), users[i]))
  {
    hide Score, Ranked, EarliestBest, NobodyScores, Qualified;
    i := 0;
    if users == [] {
      NobodyYet(name, minScore);
    } else {
      var n := |users| - 1;
      i := RankingLeader(name, users[..n], minScore);
      RankedSnoc(name, users, minScore);
      NobodySnoc(name, users, minScore);
      var earlier := Ranked(Qualified(name, users[..n], minScore));
      if earlier == [] {
        if Score(name, users[n]) >= minScore {
          NobodyMeans(name, users[..n], minScore);
          FirstLeader(name, users, minScore);
          i := n;
        }
      } else if Score(name, users[n]) > Score(name, users[i]) {
        LeaderChanges(name, users, minScore, i);
        ScoresEnough(name, users[..n], minScore, i);
        i := n;
      } else {
        LeaderStays(name, users, minScore, i);
      }
    }
  }

  lemma NobodyYet(name: string, minScore: real)
    ensures Ranked(Qualified(name, [], minScore)) == [] && NobodyScores(name, [], minScore)
  {
  }

  lemma NobodyMeans(name: string, users: seq<MatrixUser>, minScore: real)
    requires NobodyScores(name, users, minScore)
    ensures forall user <- users :: Score(name, user) < minScore
  {
  }

  lemma ScoresEnough(name: string, users: seq<MatrixUser>, minScore: real, i: nat)
    requires EarliestBest(name, users, minScore, i)
    ensures Score(name, users[i]) >= minScore
  {
  }

  /** Nobody is returned exactly when nobody scores enough; otherwise it is the
      earliest candidate of maximal score. */
  lemma BestMatchIsEarliestMaximum(name: string, users: seq<MatrixUser>, minScore: real)
    ensures BestMatch(name, users, minScore).None? <==> NobodyScores(name, users, minScore)
    ensures BestMatch(name, users, minScore).Some? ==>
      exists i: nat :: EarliestBest(name, users, minScore, i) && BestMatch(name, users, minScore) == Some(users[i])
  {
    hide Score, EarliestBest, Ranked, Qualified, NobodyScores;
    var i := RankingLeader(name, users, minScore);
    if BestMatch(name, users, minScore).Some? {
      assert EarliestBest(name, users, minScore, i);
    }
  }

  // ---- canonical localparts ----

  function Translits(words: seq<string>): (r: seq<string>)
    ensures |r| == |words| && forall k | 0 <= k < |words| :: r[k] == Transliterate(words[k])
  {
    seq(|words|, k requires 0 <= k < |words| => Transliterate(words[k]))
  }

  /** Can stand in a localpart: two characters or more, no separator, no colon. */
  predicate Plain(part: string) {
    |part| >= 2 && forall c <- part :: !IsSeparator(c) && c != ':'
  }

  /** The account id is made of the transliterated words of the name, in any
      order, joined by one of the separators. */
  predicate Canonical(name: string, userId: string, parts: seq<string>, sep: char, server: string) {
    && multiset(parts) == multiset(Translits(NameWords(name)))
    && (forall part <- parts :: Plain(part))
    && IsSeparator(sep)
    && userId == "@" + Joined(parts, sep) + ":" + server
  }

  /** The words of two letters or more. */
  function LongWords(words: seq<string>): (n: nat)
    ensures n <= |words|
  {
    if words == [] then 0
    else LongWords(words[..|words| - 1]) + if |words[|words| - 1]| >= 2 then 1 else 0
  }

  predicate IsLower(s: string) {
    forall c <- s :: LowerChar(c) == c
  }

  lemma LowerFixed(s: string)
    requires IsLower(s)
    ensures Lower(s) == s
  {
    forall k | 0 <= k < |s|
      ensures Lower(s)[k] == s[k]
    {
      assert s[k] in s;
    }
  }

  lemma TranslitCharIsLower(c: char)
    requires LowerChar(c) == c
    ensures IsLower(TranslitChar(c))
  {
  }

  lemma {:induction false} TranslitIsLower(s: string)
    ensures IsLower(Transliterate(s))
  {
    hide TranslitChar, LowerChar;
    if s != [] {
      TranslitIsLower(s[..|s| - 1]);
      LowerCharTwice(s[|s| - 1]);
      TranslitCharIsLower(LowerChar(s[|s| - 1]));
    }
  }

  lemma LowerCharTwice(c: char)
    ensures LowerChar(LowerChar(c)) == LowerChar(c)
  {
  }

  lemma {:induction false} JoinedChars(parts: seq<string>, sep: char, ok: char -> bool)
    requires ok(sep) && forall part <- parts :: forall c <- part :: ok(c)
    ensures forall c <- Joined(parts, sep) :: ok(c)
  {
    if parts != [] {
      assert parts[0] in parts && forall part <- parts[1..] :: part in parts;
    }
    if |parts| > 1 {
      JoinedChars(parts[1..], sep, ok);
    }
  }

  lemma SeparatorIsLower(sep: char)
    requires IsSeparator(sep)
    ensures LowerChar(sep) == sep && sep != ':'
  {
  }

  lemma ColonAt(s: string, server: string)
    requires ':' !in s
    ensures FirstColon(s + ":" + server) == |s|
    decreases |s|
  {
    if s != [] {
      assert s[0] in s && forall c <- s[1..] :: c in s;
      assert (s + ":" + server)[1..] == s[1..] + ":" + server;
      ColonAt(s[1..], server);
    }
  }

  lemma LocalpartOf(s: string, server: string)
    requires ':' !in s
    ensures Localpart("@" + s + ":" + server) == s
  {
    var id := "@" + s + ":" + server;
    assert id[1..] == s + ":" + server;
    ColonAt(s, server);
  }

  /** The parts that are compared are the parts that were joined. */
  lemma CanonicalParts(name: string, userId: string, parts: seq<string>, sep: char, server: string)
    requires Canonical(name, userId, parts, sep, server)
    ensures Parts(Localpart(userId)) == parts
  {
    hide Fields, Transliterate, LowerChar, IsSeparator, Localpart, NameWords;
    SeparatorIsLower(sep);
    var s := Joined(parts, sep);
    forall part | part in parts
      ensures IsLower(part)
    {
      PartIsTranslit(NameWords(name), parts, part);
    }
    JoinedChars(parts, sep, c => c != ':');
    LocalpartOf(s, server);
    JoinedChars(parts, sep, c => LowerChar(c) == c);
    LowerFixed(s);
    FieldsOfJoined(parts, sep, IsSeparator);
  }

  lemma PartIsTranslit(words: seq<string>, parts: seq<string>, part: string)
    requires multiset(parts) == multiset(Translits(words)) && part in parts
    ensures IsLower(part) && exists w :: w in words && part == Transliterate(w)
  {
    hide Transliterate;
    var t := Translits(words);
    assert part in multiset(parts);
    assert part in multiset(t);
    var k :| 0 <= k < |t| && t[k] == part;
    TranslitIsLower(words[k]);
    assert words[k] in words;
  }

  // ---- counting over any order ----

  lemma {:induction false} CountSplit(a: seq<string>, b: seq<string>, words: seq<string>)
    ensures CountMatched(a + b, words) == CountMatched(a, words) + CountMatched(b, words)
  {
    hide Matched;
    if b == [] {
      assert a + b == a;
    } else {
      assert (a + b)[..|a + b| - 1] == a + b[..|b| - 1];
      CountSplit(a, b[..|b| - 1], words);
    }
  }

  lemma {:induction false} CountIgnoresOrder(a: seq<string>, b: seq<string>, words: seq<string>)
    requires multiset(a) == multiset(b)
    ensures CountMatched(a, words) == CountMatched(b, words)
  {
    hide Matched;
    if a == [] {
      assert |multiset(b)| == |b|;
    } else {
      var x := a[|a| - 1];
      assert a == a[..|a| - 1] + [x];
      assert x in multiset(b);
      var k :| 0 <= k < |b| && b[k] == x;
      var rest := b[..k] + b[k + 1..];
      assert b == b[..k] + ([x] + b[k + 1..]);
      CountSplit(b[..k], [x] + b[k + 1..], words);
      CountSplit([x], b[k + 1..], words);
      CountSplit(b[..k], b[k + 1..], words);
      CountSplit(a[..|a| - 1], [x], words);
      assert multiset(rest) == multiset(b) - multiset{x};
      assert multiset(a[..|a| - 1]) == multiset(a) - multiset{x};
      CountIgnoresOrder(a[..|a| - 1], rest, words);
    }
  }

  lemma {:induction false} AllCounted(parts: seq<string>, words: seq<string>)
    ensures CountMatched(parts, words) == |parts| <==> forall part <- parts :: Matched(part, words)
  {
    hide Matched;
    if parts != [] {
      var n := |parts| - 1;
      AllCounted(parts[..n], words);
      assert parts == parts[..n] + [parts[n]];
    }
  }

  /** A word of two letters accounts for its own transliteration. */
  lemma OwnPartMatches(word: string, words: seq<string>)
    requires word in words && |word| >= 2 && Plain(Transliterate(word))
    ensures Matched(Transliterate(word), words)
  {
    hide Transliterate, Variants, NormalizeYo;
    assert Recognises(word, Transliterate(word));
  }

  lemma {:induction false} LongWordsMatch(some: seq<string>, words: seq<string>)
    requires forall w <- some :: w in words && Plain(Transliterate(w))
    ensures CountMatched(Translits(some), words) >= LongWords(some)
  {
    hide Matched, Transliterate, Plain;
    if some != [] {
      var n := |some| - 1;
      assert some[n] in some && forall w <- some[..n] :: w in some;
      LongWordsMatch(some[..n], words);
      assert Translits(some)[..n] == Translits(some[..n]);
      if |some[n]| >= 2 {
        OwnPartMatches(some[n], words);
      }
    }
  }

  /** One-letter words are never found in the joined localpart either. */
  lemma {:induction false} FoundAreLong(clean: string, words: seq<string>)
    ensures CountFound(clean, words) <= LongWords(words)
  {
    hide Variants, Contains;
    if words != [] {
      FoundAreLong(clean, words[..|words| - 1]);
    }
  }

  lemma {:induction false} NoYoAsLong(words: seq<string>)
    ensures LongWords(AllNoYo(words)) == LongWords(words)
  {
    if words != [] {
      NoYoAsLong(words[..|words| - 1]);
      assert AllNoYo(words)[..|words| - 1] == AllNoYo(words[..|words| - 1]);
    }
  }

  /** What is counted for a canonical account. */
  lemma CanonicalEvidence(name: string, user: MatrixUser, parts: seq<string>, sep: char, server: string)
    requires Canonical(name, user.userId, parts, sep, server)
    ensures var e, words := EvidenceFor(name, user), NameWords(name);
            && e.parts == CountMatched(Translits(words), words)
            && e.total == |words|
            && LongWords(words) <= e.parts <= |words|
            && e.legacy <= LongWords(words)
  {
    hide NameWords, Localpart, CountMatched, CountFound, LongWords, Transliterate, WithoutSeparators, Parts,
         Joined, DisplayMatches, CountShown, Plain, Lower;
    var words := NameWords(name);
    var clean := WithoutSeparators(Lower(Localpart(user.userId)));
    CanonicalParts(name, user.userId, parts, sep, server);
    CountIgnoresOrder(parts, Translits(words), words);
    WordsArePlain(words, parts);
    LongWordsMatch(words, words);
    FoundAreLong(clean, words);
    FoundAreLong(clean, AllNoYo(words));
    NoYoAsLong(words);
  }

  lemma WordsArePlain(words: seq<string>, parts: seq<string>)
    requires multiset(parts) == multiset(Translits(words)) && forall part <- parts :: Plain(part)
    ensures forall w <- words :: Plain(Transliterate(w))
  {
    hide Transliterate, Plain;
    var t := Translits(words);
    forall w | w in words
      ensures Plain(Transliterate(w))
    {
      var k :| 0 <= k < |words| && words[k] == w;
      assert t[k] in multiset(t);
      assert t[k] in multiset(parts);
    }
  }

  /** The words of the name that account for a part of the canonical localpart. */
  function RecognisedWords(name: string): (n: nat)
    ensures n <= |NameWords(name)|
  {
    CountMatched(Translits(NameWords(name)), NameWords(name))
  }

  /** A canonical account scores two points for every recognised word, if there
      are two of them, whatever its display name; without a display name it
      scores exactly that. A word of two letters or more is always recognised. */
  lemma CanonicalScores(name: string, user: MatrixUser, parts: seq<string>, sep: char, server: string)
    requires Canonical(name, user.userId, parts, sep, server)
    ensures LongWords(NameWords(name)) <= RecognisedWords(name)
    ensures RecognisedWords(name) >= 2 ==> Score(name, user) >= 2.0 * RecognisedWords(name) as real
    ensures user.displayName == "" && |NameWords(name)| >= 2 ==>
      Score(name, user) == if RecognisedWords(name) >= 2 then 2.0 * RecognisedWords(name) as real else 0.0
  {
    hide EvidenceFor, NameWords, LongWords, Canonical, CountMatched, Translits;
    CanonicalEvidence(name, user, parts, sep, server);
    if user.displayName == "" { NoDisplayEvidence(name, user); }
  }

  /** The account with this id, under some display name. */
  function WithName(display: string, userId: string): MatrixUser {
    MatrixUser(display, userId)
  }

  lemma CanonicalIsMatched(name: string, users: seq<MatrixUser>, i: nat, parts: seq<string>, sep: char,
                           server: string, minScore: real)
    requires i < |users| && Canonical(name, users[i].userId, parts, sep, server)
    requires RecognisedWords(name) >= 2 && minScore <= 2.0 * RecognisedWords(name) as real
    ensures BestMatch(name, users, minScore).Some?
  {
    hide NameWords, RecognisedWords, Canonical, BestMatch, Score;
    CanonicalScores(name, users[i], parts, sep, server);
    BestMatchIsEarliestMaximum(name, users, minScore);
    assert users[i] in users;
  }

  /** For a name of two words or more: a canonical account keeps the search from
      coming back empty, among any candidates and whatever its display name, if
      and only if at least two words of the name are recognised. */
  lemma CanonicalIsAlwaysMatched(name: string, userId: string, parts: seq<string>, sep: char, server: string)
    requires Canonical(name, userId, parts, sep, server) && |NameWords(name)| >= 2
    ensures (forall users: seq<MatrixUser>, display: string | WithName(display, userId) in users ::
               BestMatch(name, users, MIN_SCORE).Some?)
       <==> RecognisedWords(name) >= 2
  {
    hide NameWords, RecognisedWords, Canonical, BestMatch, Score;
    var plain := WithName("", userId);
    if RecognisedWords(name) >= 2 {
      forall users: seq<MatrixUser>, display: string | WithName(display, userId) in users
        ensures BestMatch(name, users, MIN_SCORE).Some?
      {
        var i :| 0 <= i < |users| && users[i] == WithName(display, userId);
        CanonicalIsMatched(name, users, i, parts, sep, server, MIN_SCORE);
      }
    } else {
      CanonicalScores(name, plain, parts, sep, server);
      OnlyOne(name, plain, MIN_SCORE);
      assert plain in [plain];
    }
  }

  /** A canonical account gets two points for every word of the name, whatever its
      display name, if and only if each one-letter word's transliteration
      happens to be accounted for by a longer word. */
  lemma CanonicalScoresExactly(name: string, userId: string, parts: seq<string>, sep: char, server: string)
    requires Canonical(name, userId, parts, sep, server) && |NameWords(name)| >= 2
    ensures (forall display: string ::
               Score(name, WithName(display, userId)) >= 2.0 * |NameWords(name)| as real)
       <==> forall w | w in NameWords(name) && |w| < 2 :: Matched(Transliterate(w), NameWords(name))
  {
    hide Score, NameWords, LongWords, CountMatched, Transliterate, Matched, Joined, Plain;
    var words := NameWords(name);
    WordsArePlain(words, parts);
    AllCounted(Translits(words), words);
    ShortOnesDecide(words);
    forall display: string
      ensures RecognisedWords(name) == |words| ==> Score(name, WithName(display, userId)) >= 2.0 * |words| as real
    {
      CanonicalScores(name, WithName(display, userId), parts, sep, server);
    }
    CanonicalScores(name, WithName("", userId), parts, sep, server);
    assert WithName("", userId).displayName == "";
  }

  lemma NoDisplayEvidence(name: string, user: MatrixUser)
    requires user.displayName == ""
    ensures var e := EvidenceFor(name, user); !e.hasDisplay && e.display == 0
  {
  }

  lemma ShortOnesDecide(words: seq<string>)
    requires forall w <- words :: Plain(Transliterate(w))
    ensures (forall part <- Translits(words) :: Matched(part, words))
       <==> forall w | w in words && |w| < 2 :: Matched(Transliterate(w), words)
  {
    hide Transliterate, Matched, Plain;
    var t := Translits(words);
    forall w | w in words && |w| >= 2
      ensures Matched(Transliterate(w), words)
    {
      OwnPartMatches(w, words);
    }
    if forall part <- t :: Matched(part, words) {
      forall w | w in words
        ensures Matched(Transliterate(w), words)
      {
        var k :| 0 <= k < |words| && words[k] == w;
        assert t[k] in t;
      }
    }
    if forall w | w in words && |w| < 2 :: Matched(Transliterate(w), words) {
      forall part | part in t
        ensures Matched(part, words)
      {
        var k :| 0 <= k < |t| && t[k] == part;
        assert words[k] in words;
      }
    }
  }

  // ---- where a canonical account is missed ----

  lemma {:induction false} NoLongWords(words: seq<string>)
    ensures LongWords(words) == 0 <==> forall w <- words :: |w| < 2
  {
    if words != [] {
      NoLongWords(words[..|words| - 1]);
      assert words == words[..|words| - 1] + [words[|words| - 1]];
    }
  }

  lemma {:induction false} NothingMatches(parts: seq<string>, words: seq<string>)
    requires forall w <- words :: |w| < 2
    ensures CountMatched(parts, words) == 0
  {
    hide Transliterate, Variants, Contains, NormalizeYo;
    if parts != [] {
      NothingMatches(parts[..|parts| - 1], words);
    }
  }

  /** A name of one-letter words scores nothing against any account without a display name. */
  lemma InitialsScoreNothing(name: string, user: MatrixUser)
    requires user.displayName == "" && |NameWords(name)| >= 2 && LongWords(NameWords(name)) == 0
    ensures Score(name, user) == 0.0
  {
    hide NameWords, Localpart, CountMatched, CountFound, LongWords, Parts, WithoutSeparators, Lower;
    var words := NameWords(name);
    var clean := WithoutSeparators(Lower(Localpart(user.userId)));
    NoLongWords(words);
    NothingMatches(Parts(Localpart(user.userId)), words);
    FoundAreLong(clean, words);
    FoundAreLong(clean, AllNoYo(words));
    NoYoAsLong(words);
  }

  const INITIALS := "щ ю"
  const INITIAL_WORDS := ["щ", "ю"]
  const SHCH_YU := MatrixUser("", "@shch.yu:h")

  lemma InitialsSplit()
    ensures NameWords(INITIALS) == INITIAL_WORDS
  {
    hide Fields;
    assert IsLower(INITIALS) by { assert LowerChar('щ') == 'щ' && LowerChar('ю') == 'ю' && LowerChar(' ') == ' '; }
    LowerFixed(INITIALS);
    assert INITIAL_WORDS[1..] == ["ю"];
    assert Joined(INITIAL_WORDS, ' ') == INITIALS;
    assert !IsSpace('щ') && !IsSpace('ю');
    FieldsOfJoined(INITIAL_WORDS, ' ', IsSpace);
  }

  lemma InitialsAreShort()
    ensures LongWords(INITIAL_WORDS) == 0
  {
    NoLongWords(INITIAL_WORDS);
  }

  lemma InitialsTransliterate()
    ensures Translits(INITIAL_WORDS) == ["shch", "yu"]
  {
    OneLetter('щ');
    OneLetter('ю');
  }

  lemma OneLetter(c: char)
    ensures Transliterate([c]) == TranslitChar(LowerChar(c))
  {
    assert [c][..0] == [];
    assert Transliterate([]) + TranslitChar(LowerChar(c)) == TranslitChar(LowerChar(c));
  }

  lemma InitialsAreCanonical()
    ensures Canonical(INITIALS, SHCH_YU.userId, ["shch", "yu"], '.', "h")
  {
    hide NameWords, Transliterate;
    InitialsSplit();
    InitialsTransliterate();
    assert "@" + Joined(["shch", "yu"], '.') + ":" + "h" == "@shch.yu:h";
  }

  /** Long transliterations are not enough: each letter of this name is written
      with two characters or more, and still its canonical account is not found. */
  lemma OneLetterWordsAreMissed()
    ensures Canonical(INITIALS, SHCH_YU.userId, ["shch", "yu"], '.', "h")
    ensures Score(INITIALS, SHCH_YU) == 0.0
    ensures BestMatch(INITIALS, [SHCH_YU], MIN_SCORE).None?
  {
    hide *;
    InitialsAreCanonical();
    InitialsScore();
    OnlyOne(INITIALS, SHCH_YU, MIN_SCORE);
  }

  lemma InitialsScore()
    ensures Score(INITIALS, SHCH_YU) == 0.0 < MIN_SCORE
  {
    hide NameWords, LongWords, Score;
    InitialsSplit();
    InitialsAreShort();
    InitialsScoreNothing(INITIALS, SHCH_YU);
  }

  lemma OnlyOne(name: string, user: MatrixUser, minScore: real)
    requires Score(name, user) < minScore
    ensures BestMatch(name, [user], minScore).None?
  {
    hide Score, BestMatch;
    BestMatchIsEarliestMaximum(name, [user], minScore);
  }
}

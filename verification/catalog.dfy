/** Normalising the catalog of notification types (src/admin/helpers_ext.py). */
module Catalog {
  import opened Text

  // ---- keys made from labels ----

  predicate IsSlugChar(c: char) {
    'a' <= c <= 'z' || '0' <= c <= '9'
  }

  /** Every run of other characters becomes one underscore. */
  function Underscored(s: string): (r: string)
    ensures forall c <- r :: IsSlugChar(c) || c == '_'
  {
    if s == [] then []
    else
      var r, c := Underscored(s[..|s| - 1]), s[|s| - 1];
      if IsSlugChar(c) then r + [c]
      else if r != [] && r[|r| - 1] == '_' then r
      else r + ['_']
  }

  function TrimLeft(s: string): (r: string)
    ensures |r| <= |s| && r == s[|s| - |r|..]
    ensures r != [] ==> r[0] != '_'
  {
    if s != [] && s[0] == '_' then TrimLeft(s[1..]) else s
  }

  function TrimRight(s: string): (r: string)
    ensures |r| <= |s| && r == s[..|r|]
    ensures r != [] ==> r[|r| - 1] != '_'
  {
    if s != [] && s[|s| - 1] == '_' then TrimRight(s[..|s| - 1]) else s
  }

  function Slug(title: string): string {
    TrimRight(TrimLeft(Underscored(Lower(title))))
  }

  /** No two underscores stand together. */
  predicate SinglyJoined(s: string) {
    forall k | 0 < k < |s| :: s[k - 1] != '_' || s[k] != '_'
  }

  /** Words of [a-z0-9] joined by single underscores. */
  predicate IsSlug(s: string) {
    && (forall c <- s :: IsSlugChar(c) || c == '_')
    && SinglyJoined(s)
    && (s != [] ==> s[0] != '_' && s[|s| - 1] != '_')
  }

  function SlugChars(s: string): string {
    if s == [] then []
    else SlugChars(s[..|s| - 1]) + if IsSlugChar(s[|s| - 1]) then [s[|s| - 1]] else []
  }

  lemma {:induction false} SingleUnderscores(s: string)
    ensures SinglyJoined(Underscored(s))
  {
    if s != [] {
      SingleUnderscores(s[..|s| - 1]);
    }
  }

  lemma {:induction false} UnderscoringKeepsChars(s: string)
    ensures SlugChars(Underscored(s)) == SlugChars(s)
  {
    if s != [] {
      var r, c := Underscored(s[..|s| - 1]), s[|s| - 1];
      UnderscoringKeepsChars(s[..|s| - 1]);
      if IsSlugChar(c) {
        SlugCharsSnoc(r, c);
      } else {
        SlugCharsSnoc(r, '_');
      }
    }
  }

  lemma SlugCharsSnoc(s: string, c: char)
    ensures SlugChars(s + [c]) == SlugChars(s) + if IsSlugChar(c) then [c] else []
  {
    assert (s + [c])[..|s|] == s;
  }

  lemma {:induction false} SlugCharsSplit(a: string, b: string)
    ensures SlugChars(a + b) == SlugChars(a) + SlugChars(b)
  {
    if b == [] {
      assert a + b == a;
    } else {
      assert (a + b)[..|a + b| - 1] == a + b[..|b| - 1];
      SlugCharsSplit(a, b[..|b| - 1]);
    }
  }

  lemma {:induction false} LeftTrimmed(s: string)
    ensures SlugChars(TrimLeft(s)) == SlugChars(s)
  {
    if s != [] && s[0] == '_' {
      assert s == [s[0]] + s[1..];
      SlugCharsSplit([s[0]], s[1..]);
      assert SlugChars([s[0]]) == [];
      LeftTrimmed(s[1..]);
    }
  }

  lemma {:induction false} RightTrimmed(s: string)
    ensures SlugChars(TrimRight(s)) == SlugChars(s)
  {
    if s != [] && s[|s| - 1] == '_' {
      RightTrimmed(s[..|s| - 1]);
    }
  }

  lemma PartJoined(s: string, from: nat, upto: nat)
    requires SinglyJoined(s) && from <= upto <= |s|
    ensures SinglyJoined(s[from..upto])
    ensures forall c <- s[from..upto] :: c in s
  {
    var p := s[from..upto];
    forall k | 0 < k < |p|
      ensures p[k - 1] != '_' || p[k] != '_'
    {
      assert p[k - 1] == s[from + k - 1] && p[k] == s[from + k];
    }
  }

  /** A slug is well formed and keeps the letters and digits of the label, in order. */
  lemma SlugKeepsWords(title: string)
    ensures IsSlug(Slug(title)) && SlugChars(Slug(title)) == SlugChars(Lower(title))
  {
    hide Underscored, TrimLeft, TrimRight, SlugChars, SinglyJoined, Lower, IsSlugChar;
    var u := Underscored(Lower(title));
    var l := TrimLeft(u);
    var r := TrimRight(l);
    SingleUnderscores(Lower(title));
    UnderscoringKeepsChars(Lower(title));
    LeftTrimmed(u);
    RightTrimmed(l);
    assert u[|u| - |l|..|u|] == l;
    assert l[0..|r|] == r;
    PartJoined(u, |u| - |l|, |u|);
    PartJoined(l, 0, |r|);
    assert r != [] ==> r[0] == l[0];
  }

  function Base(title: string): (r: string)
    ensures r != []
  {
    if Slug(title) == [] then "opt" else Slug(title)
  }

  // ---- numbered names ----

  function Digit(n: nat): (c: char)
    requires n < 10
    ensures '0' <= c <= '9' && c as int == '0' as int + n
  {
    ('0' as int + n) as char
  }

  function Decimal(n: nat): (r: string)
    ensures r != []
  {
    if n < 10 then [Digit(n)] else Decimal(n / 10) + [Digit(n % 10)]
  }

  lemma {:induction false} DecimalInjective(a: nat, b: nat)
    requires Decimal(a) == Decimal(b)
    ensures a == b
  {
    var s := Decimal(a);
    assert s[|s| - 1] == Digit(a % 10) == Digit(b % 10);
    if a >= 10 && b >= 10 {
      assert s[..|s| - 1] == Decimal(a / 10) == Decimal(b / 10);
      DecimalInjective(a / 10, b / 10);
    }
  }

  /** base, base_2, base_3, ... */
  function Candidate(base: string, k: nat): string {
    if k == 0 then base else base + "_" + Decimal(k + 1)
  }

  lemma CandidatesDiffer(base: string, a: nat, b: nat)
    requires Candidate(base, a) == Candidate(base, b)
    ensures a == b
  {
    if a != 0 && b != 0 {
      var n := |base| + 1;
      assert Candidate(base, a)[n..] == Decimal(a + 1);
      assert Candidate(base, b)[n..] == Decimal(b + 1);
      DecimalInjective(a + 1, b + 1);
    }
  }

  predicate AllTaken(base: string, used: set<string>, k: nat) {
    forall j: nat | j < k :: Candidate(base, j) in used
  }

  /** Pigeonhole: so many different names cannot all be taken. */
  lemma {:induction false} TakenAtMost(base: string, used: set<string>, k: nat)
    requires AllTaken(base, used, k)
    ensures k <= |used|
  {
    if k > 0 {
      var last := Candidate(base, k - 1);
      forall j: nat | j < k - 1
        ensures Candidate(base, j) in used - {last}
      {
        if Candidate(base, j) == last {
          CandidatesDiffer(base, j, k - 1);
        }
      }
      TakenAtMost(base, used - {last}, k - 1);
    }
  }

  /** The least free name at or after number k. */
  function FreeIndex(base: string, used: set<string>, k: nat): (r: nat)
    requires AllTaken(base, used, k)
    ensures k <= r <= |used|
    ensures AllTaken(base, used, r) && Candidate(base, r) !in used
    decreases |used| - k
  {
    TakenAtMost(base, used, k);
    if Candidate(base, k) in used then
      assert AllTaken(base, used, k + 1);
      TakenAtMost(base, used, k + 1);
      FreeIndex(base, used, k + 1)
    else k
  }

  function KeyFor(title: string, used: set<string>): (key: string)
    ensures key != [] && key !in used
  {
    Candidate(Base(title), FreeIndex(Base(title), used, 0))
  }

  /** Searches name by name; `tries` is the number of increments. */
  method CatalogKeyFromLabel(title: string, used: set<string>) returns (key: string, tries: nat)
    ensures key == Candidate(Base(title), tries) == KeyFor(title, used)
    ensures key !in used && AllTaken(Base(title), used, tries) && tries <= |used|
  {
    hide Slug, Candidate;
    var base := Slug(title);
    if base == [] {
      base := "opt";
    }
    key, tries := base, 0;
    assert key == Candidate(base, 0) by { FirstCandidate(base); }
    var i := 2;
    while key in used
      invariant i == tries + 2
      invariant key == Candidate(base, tries) && AllTaken(base, used, tries)
      decreases |used| - tries
    {
      TakenAtMost(base, used, tries + 1);
      key := base + "_" + Decimal(i);
      tries, i := tries + 1, i + 1;
      assert key == Candidate(base, tries) by { LaterCandidate(base, tries); }
    }
    LeastIsUnique(base, used, tries);
    TakenAtMost(base, used, tries);
  }

  lemma FirstCandidate(base: string)
    ensures Candidate(base, 0) == base
  {
  }

  lemma LaterCandidate(base: string, k: nat)
    requires k > 0
    ensures Candidate(base, k) == base + "_" + Decimal(k + 1)
  {
  }

  lemma LeastIsUnique(base: string, used: set<string>, k: nat)
    requires AllTaken(base, used, k) && Candidate(base, k) !in used
    ensures FreeIndex(base, used, 0) == k
  {
    var r := FreeIndex(base, used, 0);
    assert Candidate(base, r) !in used;
  }

  // ---- the catalog ----

  /** An item of the stored list: a dictionary's label (`title`) and `key` ("" if absent), or anything else as text. */
  datatype Item = Dict(title: string, key: string) | Plain(text: string)

  datatype Data = NotAList | List(items: seq<Item>)

  datatype Option = Option(key: string, title: string)

  function LabelOf(item: Item): (r: string)
    ensures Stripped(r)
  {
    match item
    case Dict(title, _) => Strip(title)
    case Plain(text) => Strip(text)
  }

  function KeyOf(item: Item): (r: string)
    ensures Stripped(r) && Lower(r) == r
  {
    match item
    case Dict(_, key) =>
      LowerIdempotent(Strip(key));
      Lower(Strip(key))
    case Plain(_) => ""
  }

  function KeysOf(options: seq<Option>): set<string> {
    set o | o in options :: o.key
  }

  /** The key an item gets, after the options that came before. */
  function KeyGiven(item: Item, used: set<string>): string {
    if KeyOf(item) == "" then KeyFor(LabelOf(item), used) else KeyOf(item)
  }

  /** Items without a label are dropped, and so is a key that is taken. */
  predicate Drops(item: Item, used: set<string>) {
    LabelOf(item) == "" || KeyGiven(item, used) in used
  }

  function Normalised(items: seq<Item>): seq<Option> {
    if items == [] then []
    else
      var earlier, item := Normalised(items[..|items| - 1]), items[|items| - 1];
      if Drops(item, KeysOf(earlier)) then earlier
      else earlier + [Option(KeyGiven(item, KeysOf(earlier)), LabelOf(item))]
  }

  function NormalisedData(data: Data): seq<Option> {
    if data.NotAList? then [] else Normalised(data.items)
  }

  lemma KeysSnoc(options: seq<Option>, o: Option)
    ensures KeysOf(options + [o]) == KeysOf(options) + {o.key}
  {
    assert forall p :: p in options + [o] <==> p in options || p == o;
  }

  method NormalizeNotifyCatalog(data: Data) returns (out: seq<Option>)
    ensures out == NormalisedData(data)
  {
    hide KeyOf, LabelOf, KeyFor;
    out := [];
    if data.NotAList? { return; }
    var items := data.items;
    var used: set<string> := {};
    for i := 0 to |items|
      invariant out == Normalised(items[..i])
      invariant used == KeysOf(out)
    {
      var item := items[i];
      assert items[..i + 1][..i] == items[..i];
      var title, key := LabelOf(item), KeyOf(item);
      if title == "" { continue; }
      if key == "" {
        var made, _ := CatalogKeyFromLabel(title, used);
        key := made;
      }
      if key in used { continue; }
      used := used + {key};
      KeysSnoc(out, Option(key, title));
      out := out + [Option(key, title)];
    }
    assert items[..|items|] == items;
  }

  // ---- what normalising guarantees ----

  predicate DistinctKeys(options: seq<Option>) {
    forall a, b | 0 <= a < b < |options| :: options[a].key != options[b].key
  }

  lemma {:induction false} KeysAreDistinct(items: seq<Item>)
    ensures DistinctKeys(Normalised(items))
  {
    hide KeyGiven, LabelOf;
    if items != [] {
      KeysAreDistinct(items[..|items| - 1]);
      var earlier := Normalised(items[..|items| - 1]);
      assert forall a | 0 <= a < |earlier| :: earlier[a] in earlier && earlier[a].key in KeysOf(earlier);
    }
  }

  /** The item contributes its own option, after those of the items before it. */
  predicate Contributes(items: seq<Item>, i: nat)
    requires i < |items|
  {
    var p, out := |Normalised(items[..i])|, Normalised(items);
    && p < |out|
    && Normalised(items[..i + 1]) == out[..p + 1]
    && out[p].title == LabelOf(items[i])
    && (KeyOf(items[i]) != "" ==> out[p].key == KeyOf(items[i]))
  }

  lemma {:induction false} PrefixStays(items: seq<Item>, i: nat)
    requires i <= |items|
    ensures Normalised(items[..i]) <= Normalised(items)
  {
    hide Drops, KeyGiven;
    if i == |items| {
      assert items[..i] == items;
    } else {
      var n := |items| - 1;
      assert items[..n][..i] == items[..i];
      PrefixStays(items[..n], i);
    }
  }

  /** An item is dropped if and only if it has no label, or brings a key already given to an earlier option. */
  lemma DroppedExactly(items: seq<Item>, i: nat)
    requires i < |items|
    ensures Contributes(items, i)
       <==> (LabelOf(items[i]) != "" && (KeyOf(items[i]) == "" || KeyOf(items[i]) !in KeysOf(Normalised(items[..i]))))
  {
    hide LabelOf, KeyOf, KeyFor;
    var earlier := Normalised(items[..i]);
    assert items[..i + 1][..i] == items[..i];
    PrefixStays(items, i + 1);
    if !Drops(items[i], KeysOf(earlier)) {
      assert Normalised(items[..i + 1]) == Normalised(items)[..|earlier| + 1];
    }
    FreshKey(LabelOf(items[i]), KeysOf(earlier));
  }

  lemma FreshKey(title: string, used: set<string>)
    ensures KeyFor(title, used) !in used
  {
  }

  /** No item with a label and without a key of its own is ever lost. */
  lemma KeylessNeverDropped(items: seq<Item>, i: nat)
    requires i < |items| && LabelOf(items[i]) != "" && KeyOf(items[i]) == ""
    ensures Contributes(items, i)
    ensures exists o :: o in Normalised(items) && o.title == LabelOf(items[i])
  {
    DroppedExactly(items, i);
    var o := Normalised(items)[|Normalised(items[..i])|];
    assert o in Normalised(items);
  }

  /** Nothing is made up: every option is some item's contribution, in item order. */
  lemma {:induction false} EveryOptionHasItem(items: seq<Item>, p: nat)
    requires p < |Normalised(items)|
    ensures exists i: nat :: i < |items| && |Normalised(items[..i])| == p && Contributes(items, i)
  {
    hide LabelOf, KeyOf, KeyFor, Contributes;
    var n := |items| - 1;
    var earlier := Normalised(items[..n]);
    if p < |earlier| {
      EveryOptionHasItem(items[..n], p);
      var i: nat :| i < n && |Normalised(items[..n][..i])| == p && Contributes(items[..n], i);
      assert items[..n][..i] == items[..i];
      ContributesLonger(items, i);
      assert i < |items| && |Normalised(items[..i])| == p && Contributes(items, i);
    } else {
      DroppedExactly(items, n);
      assert n < |items| && |Normalised(items[..n])| == p && Contributes(items, n);
    }
  }

  lemma ContributesLonger(items: seq<Item>, i: nat)
    requires i < |items| - 1 && Contributes(items[..|items| - 1], i)
    ensures Contributes(items, i)
  {
    hide LabelOf, KeyOf, KeyFor, Normalised;
    var n := |items| - 1;
    assert items[..n][..i] == items[..i] && items[..n][..i + 1] == items[..i + 1];
    PrefixStays(items, n);
    PrefixStays(items, i + 1);
  }

  // ---- normalising twice ----

  function AsItems(options: seq<Option>): seq<Item> {
    if options == [] then []
    else AsItems(options[..|options| - 1]) + [Dict(options[|options| - 1].title, options[|options| - 1].key)]
  }

  /** An option whose label and key are read back as they are. */
  predicate Settled(o: Option) {
    o.title != "" && o.key != "" && Stripped(o.title) && Stripped(o.key) && Lower(o.key) == o.key
  }

  lemma SlugSettled(s: string)
    requires forall c <- s :: IsSlugChar(c) || c == '_'
    ensures Stripped(s) && Lower(s) == s
  {
    forall k | 0 <= k < |s|
      ensures Lower(s)[k] == s[k] && !IsSpace(s[k])
    {
      assert s[k] in s;
    }
  }

  lemma {:induction false} DecimalChars(n: nat)
    ensures forall c <- Decimal(n) :: IsSlugChar(c)
  {
    if n >= 10 {
      DecimalChars(n / 10);
    }
  }

  lemma BaseChars(title: string)
    ensures forall c <- Base(title) :: IsSlugChar(c) || c == '_'
  {
    hide Slug;
    SlugKeepsWords(title);
  }

  lemma CandidateChars(title: string, k: nat)
    ensures forall c <- Candidate(Base(title), k) :: IsSlugChar(c) || c == '_'
  {
    hide Base, Decimal, IsSlugChar;
    BaseChars(title);
    DecimalChars(k + 1);
    if k > 0 {
      assert forall c <- Candidate(Base(title), k) :: c in Base(title) || c == '_' || c in Decimal(k + 1);
    }
  }

  lemma GivenSettled(item: Item, used: set<string>)
    requires !Drops(item, used)
    ensures Settled(Option(KeyGiven(item, used), LabelOf(item)))
  {
    hide LabelOf, Base, Candidate, IsSlugChar, IsSpace;
    if KeyOf(item) == "" {
      var k := FreeIndex(Base(LabelOf(item)), used, 0);
      CandidateChars(LabelOf(item), k);
      SlugSettled(KeyFor(LabelOf(item), used));
    }
  }

  lemma {:induction false} AllSettled(items: seq<Item>)
    ensures forall o <- Normalised(items) :: Settled(o)
  {
    hide Settled, Drops, KeyGiven, LabelOf;
    if items != [] {
      var n := |items| - 1;
      AllSettled(items[..n]);
      if !Drops(items[n], KeysOf(Normalised(items[..n]))) {
        GivenSettled(items[n], KeysOf(Normalised(items[..n])));
      }
    }
  }

  lemma ReadBack(o: Option, used: set<string>)
    requires Settled(o) && o.key !in used
    ensures var item := Dict(o.title, o.key);
            !Drops(item, used) && LabelOf(item) == o.title && KeyGiven(item, used) == o.key
  {
    StripFixpoint(o.title);
    StripFixpoint(o.key);
  }

  lemma NewKey(options: seq<Option>)
    requires DistinctKeys(options) && options != []
    ensures DistinctKeys(options[..|options| - 1])
    ensures options[|options| - 1].key !in KeysOf(options[..|options| - 1])
    ensures options[|options| - 1] in options && forall o <- options[..|options| - 1] :: o in options
  {
  }

  lemma NormalisedSnoc(items: seq<Item>, item: Item)
    requires !Drops(item, KeysOf(Normalised(items)))
    ensures Normalised(items + [item])
         == Normalised(items) + [Option(KeyGiven(item, KeysOf(Normalised(items))), LabelOf(item))]
  {
    assert (items + [item])[..|items|] == items;
  }

  lemma {:induction false} SettledStays(options: seq<Option>)
    requires DistinctKeys(options) && forall o <- options :: Settled(o)
    ensures Normalised(AsItems(options)) == options
  {
    hide Settled, LabelOf, Drops, KeyGiven, KeysOf, DistinctKeys, Normalised;
    if options == [] {
      NothingNormalised();
    } else {
      var n := |options| - 1;
      var o := options[n];
      NewKey(options);
      SettledStays(options[..n]);
      ReadBack(o, KeysOf(options[..n]));
      NormalisedSnoc(AsItems(options[..n]), Dict(o.title, o.key));
      assert options == options[..n] + [o];
    }
  }

  lemma NothingNormalised()
    ensures Normalised([]) == []
  {
  }

  /** Normalising what has been normalised changes nothing. */
  lemma NormalisingIsIdempotent(data: Data)
    ensures NormalisedData(List(AsItems(NormalisedData(data)))) == NormalisedData(data)
  {
    if data.List? {
      KeysAreDistinct(data.items);
      AllSettled(data.items);
      SettledStays(Normalised(data.items));
    }
  }
}

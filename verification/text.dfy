/** The string operations the program relies on: whitespace, stripping,
    lower-casing (Latin and Cyrillic letters), substring search. */
module Text {

  /** The characters for which Python's `str.isspace` holds. */
  predicate IsSpace(c: char) {
    var n := c as int;
    || 0x09 <= n <= 0x0D
    || 0x1C <= n <= 0x20
    || n == 0x85 || n == 0xA0 || n == 0x1680
    || 0x2000 <= n <= 0x200A
    || n == 0x2028 || n == 0x2029 || n == 0x202F || n == 0x205F || n == 0x3000
  }

  function StripLeft(s: string): (r: string)
    ensures |r| <= |s| && r == s[|s| - |r|..]
    ensures r != [] ==> !IsSpace(r[0])
  {
    if s != [] && IsSpace(s[0]) then StripLeft(s[1..]) else s
  }

  function StripRight(s: string): (r: string)
    ensures |r| <= |s| && r == s[..|r|]
    ensures r != [] ==> !IsSpace(r[|r| - 1])
  {
    if s != [] && IsSpace(s[|s| - 1]) then StripRight(s[..|s| - 1]) else s
  }

  function Strip(s: string): (r: string)
    ensures Stripped(r)
  {
    StripRight(StripLeft(s))
  }

  predicate Stripped(s: string) {
    s != [] ==> !IsSpace(s[0]) && !IsSpace(s[|s| - 1])
  }

  lemma StripFixpoint(s: string)
    ensures Stripped(s) <==> Strip(s) == s
  {
    if Stripped(s) {
      assert StripLeft(s) == s;
      assert StripRight(s) == s;
    }
  }

  predicate Blank(s: string) {
    forall c <- s :: IsSpace(c)
  }

  lemma {:induction false} LeftStripped(left: string, rest: string)
    requires Blank(left) && (rest != [] ==> !IsSpace(rest[0]))
    ensures StripLeft(left + rest) == rest
  {
    if left == [] {
      assert left + rest == rest;
    } else {
      assert left[0] in left && (left + rest)[1..] == left[1..] + rest;
      LeftStripped(left[1..], rest);
    }
  }

  lemma {:induction false} RightStripped(rest: string, right: string)
    requires Blank(right) && (rest != [] ==> !IsSpace(rest[|rest| - 1]))
    ensures StripRight(rest + right) == rest
  {
    if right == [] {
      assert rest + right == rest;
    } else {
      var n := |right| - 1;
      assert right[n] in right && (rest + right)[..|rest + right| - 1] == rest + right[..n];
      RightStripped(rest, right[..n]);
    }
  }

  /** Stripping takes the white space at both ends and nothing else. */
  lemma StripOf(left: string, core: string, right: string)
    requires Blank(left) && Blank(right) && Stripped(core)
    ensures Strip(left + core + right) == core
  {
    var s := left + core + right;
    if core == [] {
      var gap := left + right;
      assert Blank(gap) && s == gap + [];
      LeftStripped(gap, []);
    } else {
      assert s == left + (core + right);
      LeftStripped(left, core + right);
      RightStripped(core, right);
    }
  }

  function LowerChar(c: char): (r: char)
    ensures IsSpace(c) <==> IsSpace(r)
  {
    if 'A' <= c <= 'Z' then (c as int + 0x20) as char
    else if 'А' <= c <= 'Я' then (c as int + 0x20) as char
    else if c == 'Ё' then 'ё'
    else c
  }

  function Lower(s: string): (r: string)
    ensures |r| == |s|
    ensures forall k | 0 <= k < |s| :: r[k] == LowerChar(s[k])
  {
    seq(|s|, k requires 0 <= k < |s| => LowerChar(s[k]))
  }

  lemma LowerIdempotent(s: string)
    ensures Lower(Lower(s)) == Lower(s)
  {
    assert forall k | 0 <= k < |s| :: Lower(Lower(s))[k] == LowerChar(LowerChar(s[k]));
  }

  /** The capital letters of the two alphabets become the small ones. */
  lemma LatinLowered()
    ensures Lower("ABCDEFGHIJKLM") == "abcdefghijklm" && Lower("NOPQRSTUVWXYZ") == "nopqrstuvwxyz"
  {
  }

  lemma CyrillicLowered()
    ensures Lower("АБВГДЕЁЖЗИЙКЛМНО") == "абвгдеёжзийклмно"
    ensures Lower("ПРСТУФХЦЧШЩЪЫЬЭЮЯ") == "прстуфхцчшщъыьэюя"
  {
  }

  /** Whatever is no capital letter of theirs stays. */
  lemma OthersStay(c: char)
    ensures c in "ABCDEFGHIJKLMNOPQRSTUVWXYZ" || c in "АБВГДЕЁЖЗИЙКЛМНОПРСТУФХЦЧШЩЪЫЬЭЮЯ" || LowerChar(c) == c
  {
    if 'A' <= c <= 'Z' {
      assert "ABCDEFGHIJKLMNOPQRSTUVWXYZ"[c as int - 'A' as int] == c;
    }
    if 'А' <= c <= 'Е' {
      assert "АБВГДЕЁЖЗИЙКЛМНОПРСТУФХЦЧШЩЪЫЬЭЮЯ"[c as int - 'А' as int] == c;
    }
    if c == 'Ё' {
      assert "АБВГДЕЁЖЗИЙКЛМНОПРСТУФХЦЧШЩЪЫЬЭЮЯ"[6] == c;
    }
    if 'Ж' <= c <= 'Я' {
      assert "АБВГДЕЁЖЗИЙКЛМНОПРСТУФХЦЧШЩЪЫЬЭЮЯ"[c as int - 'А' as int + 1] == c;
    }
  }

  predicate OccursAt(hay: string, needle: string, k: nat) {
    k + |needle| <= |hay| && hay[k..k + |needle|] == needle
  }

  /** `needle in hay` for strings. */
  predicate Contains(hay: string, needle: string) {
    exists k | 0 <= k <= |hay| :: OccursAt(hay, needle, k)
  }

  // ---- splitting and joining ----

  function FieldLength(s: string, separator: char -> bool): (n: nat)
    ensures n <= |s| && (forall k | 0 <= k < n :: !separator(s[k])) && (n < |s| ==> separator(s[n]))
  {
    if s == [] || separator(s[0]) then 0 else 1 + FieldLength(s[1..], separator)
  }

  /** The maximal pieces free of separators. */
  function Fields(s: string, separator: char -> bool): (r: seq<string>)
    ensures forall f <- r :: f != [] && forall c <- f :: c in s && !separator(c)
    decreases |s|
  {
    if s == [] then []
    else if separator(s[0]) then Fields(s[1..], separator)
    else
      var n := FieldLength(s, separator);
      [s[..n]] + Fields(s[n..], separator)
  }

  function Joined(parts: seq<string>, sep: char): string {
    if |parts| == 0 then []
    else if |parts| == 1 then parts[0]
    else parts[0] + [sep] + Joined(parts[1..], sep)
  }

  lemma {:induction false} FirstField(part: string, rest: string, separator: char -> bool)
    requires forall c <- part :: !separator(c)
    requires rest == [] || separator(rest[0])
    ensures FieldLength(part + rest, separator) == |part|
    decreases |part|
  {
    if part == [] {
      assert part + rest == rest;
    } else {
      assert (part + rest)[1..] == part[1..] + rest && part[0] in part;
      FirstField(part[1..], rest, separator);
    }
  }

  /** Splitting undoes joining. */
  lemma {:induction false} FieldsOfJoined(parts: seq<string>, sep: char, separator: char -> bool)
    requires separator(sep)
    requires forall part <- parts :: part != [] && forall c <- part :: !separator(c)
    ensures Fields(Joined(parts, sep), separator) == parts
  {
    if parts != [] {
      var rest := if |parts| == 1 then [] else [sep] + Joined(parts[1..], sep);
      var s := parts[0] + rest;
      assert Joined(parts, sep) == s;
      assert parts[0] in parts && s[0] == parts[0][0];
      assert parts[0][0] in parts[0];
      FirstField(parts[0], rest, separator);
      assert s[..|parts[0]|] == parts[0] && s[|parts[0]|..] == rest;
      if |parts| > 1 {
        assert forall part <- parts[1..] :: part in parts;
        FieldsOfJoined(parts[1..], sep, separator);
        assert rest[1..] == Joined(parts[1..], sep);
      }
    }
  }
}

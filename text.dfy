/** The string operations the modelled code calls: Python's `str.strip()`,
    `str.split(sep)`, `str.lower()`, `str.isalnum()` and `str.endswith()`,
    and SQLite's case-insensitive match `lower(s) LIKE lower(p)`. Python's
    case mapping and `isalnum` are exact for the Latin-1 range (U+0000 to
    U+00FF); SQLite's `lower()` folds only A-Z; `isspace` is exact for all
    of Unicode. */
module Text {
  import opened Seqs

  /** `c.isspace()`: the characters Python counts as whitespace. */
  predicate IsSpace(c: char)
  {
    var n := c as int;
    (0x09 <= n <= 0x0D) || (0x1C <= n <= 0x20) || n == 0x85 || n == 0xA0
    || n == 0x1680 || (0x2000 <= n <= 0x200A) || n == 0x2028 || n == 0x2029
    || n == 0x202F || n == 0x205F || n == 0x3000
  }

  /** `s.lstrip()` */
  function StripLeft(s: string): (r: string)
    ensures |r| <= |s| && r == s[|s| - |r|..]
    ensures r == [] || !IsSpace(r[0])
    ensures forall i :: 0 <= i < |s| - |r| ==> IsSpace(s[i])
  {
    if s != [] && IsSpace(s[0]) then StripLeft(s[1..]) else s
  }

  /** `s.rstrip()` */
  function StripRight(s: string): (r: string)
    ensures |r| <= |s| && r == s[..|r|]
    ensures r == [] || !IsSpace(r[|r| - 1])
    ensures forall i :: |r| <= i < |s| ==> IsSpace(s[i])
  {
    if s != [] && IsSpace(s[|s| - 1]) then StripRight(s[..|s| - 1]) else s
  }

  /** `s.strip()` */
  function Strip(s: string): string
  {
    StripRight(StripLeft(s))
  }

  /** A string strips to nothing exactly when it is all whitespace. */
  lemma StripEmpty(s: string)
    ensures Strip(s) == [] <==> forall i :: 0 <= i < |s| ==> IsSpace(s[i])
  {
    var l := StripLeft(s);
    if Strip(s) == [] {
      assert l == [];
    }
  }

  /** Stripping a stripped string changes nothing. */
  lemma StripIdempotent(s: string)
    ensures Strip(Strip(s)) == Strip(s)
  {
    var r := Strip(s);
    if r != [] {
      assert StripLeft(r) == r;
    }
  }

  /** `s.split(sep)`: the pieces between the separators, empty pieces
      included, so that there is always at least one. */
  function Split(s: string, sep: char): (r: seq<string>)
    ensures |r| >= 1
    ensures forall i :: 0 <= i < |r| ==> sep !in r[i]
  {
    if s == [] then [[]]
    else
      var parts := Split(DropLast(s), sep);
      if Last(s) == sep then parts + [[]]
      else parts[..|parts| - 1] + [Last(parts) + [Last(s)]]
  }

  /** `sep.join(parts)` */
  function Join(parts: seq<string>, sep: char): string
    requires |parts| >= 1
  {
    if |parts| == 1 then parts[0] else Join(DropLast(parts), sep) + [sep] + Last(parts)
  }

  /** Joining the pieces of a split with the separator gives the string back. */
  lemma {:induction false} JoinSplit(s: string, sep: char)
    ensures Join(Split(s, sep), sep) == s
  {
    if s != [] {
      var parts := Split(DropLast(s), sep);
      JoinSplit(DropLast(s), sep);
      if Last(s) != sep {
        var r := Split(s, sep);
        if |parts| > 1 {
          assert DropLast(r) == DropLast(parts);
        }
      }
      assert s == DropLast(s) + [Last(s)];
    }
  }

  /** A string without the separator splits into itself alone. */
  lemma {:induction false} SplitWithoutSep(s: string, sep: char)
    requires sep !in s
    ensures Split(s, sep) == [s]
  {
    if s != [] {
      SplitWithoutSep(DropLast(s), sep);
      assert s == DropLast(s) + [Last(s)];
    }
  }

  /** `c.lower()` for Latin-1: A-Z and the accented capitals U+00C0 to
      U+00DE (except the multiplication sign U+00D7) move up by 32. */
  function LowerChar(c: char): char
  {
    var n := c as int;
    if (0x41 <= n <= 0x5A) || (0xC0 <= n <= 0xDE && n != 0xD7) then (n + 32) as char else c
  }

  /** `s.lower()` */
  function Lower(s: string): (r: string)
    ensures |r| == |s|
    ensures forall i :: 0 <= i < |s| ==> r[i] == LowerChar(s[i])
  {
    if s == [] then [] else [LowerChar(s[0])] + Lower(s[1..])
  }

  /** Lower-casing twice is lower-casing once. */
  lemma LowerIdempotent(s: string)
    ensures Lower(Lower(s)) == Lower(s)
  {
    var l := Lower(s);
    forall i | 0 <= i < |s| ensures Lower(l)[i] == l[i] {
      var c := s[i];
      assert l[i] == LowerChar(c);
    }
  }

  /** `c.isalnum()` for Latin-1: ASCII letters and digits, the feminine and
      masculine ordinals, the superscript digits, micro, the vulgar
      fractions and the accented letters. */
  predicate IsAlnum(c: char)
  {
    var n := c as int;
    (0x30 <= n <= 0x39) || (0x41 <= n <= 0x5A) || (0x61 <= n <= 0x7A)
    || n == 0xAA || n == 0xB2 || n == 0xB3 || n == 0xB5 || n == 0xB9 || n == 0xBA
    || (0xBC <= n <= 0xBE) || (0xC0 <= n <= 0xFF && n != 0xD7 && n != 0xF7)
  }

  /** `s.endswith(suffix)` */
  predicate EndsWith(s: string, suffix: string)
  {
    |suffix| <= |s| && s[|s| - |suffix|..] == suffix
  }

  /** SQL `s LIKE p`: `%` matches any run of characters, `_` exactly one,
      any other character itself. */
  function LikeMatch(s: string, p: string): bool
    decreases |p|, |s|
  {
    if p == [] then s == []
    else if p[0] == '%' then LikeMatch(s, p[1..]) || (s != [] && LikeMatch(s[1..], p))
    else if p[0] == '_' then s != [] && LikeMatch(s[1..], p[1..])
    else s != [] && s[0] == p[0] && LikeMatch(s[1..], p[1..])
  }

  /** SQLite's built-in `lower(c)`: only A-Z move to a-z; every other
      character, accented capitals included, is left as it is. */
  function AsciiLowerChar(c: char): char
  {
    var n := c as int;
    if 0x41 <= n <= 0x5A then (n + 32) as char else c
  }

  /** SQLite's built-in `lower(s)` */
  function AsciiLower(s: string): (r: string)
    ensures |r| == |s|
    ensures forall i :: 0 <= i < |s| ==> r[i] == AsciiLowerChar(s[i])
  {
    if s == [] then [] else [AsciiLowerChar(s[0])] + AsciiLower(s[1..])
  }

  /** `s.ilike(p)` on SQLite, which SQLAlchemy renders as
      `lower(s) LIKE lower(p)`: LIKE after folding A-Z on both sides. */
  predicate ILike(s: string, p: string)
  {
    LikeMatch(AsciiLower(s), AsciiLower(p))
  }

  predicate NoWildcards(q: string)
  {
    forall i :: 0 <= i < |q| ==> q[i] != '%' && q[i] != '_'
  }

  /** A pattern starting with `%` matches when its remainder matches some
      suffix. */
  lemma {:induction false} LeadingPercent(s: string, rest: string)
    ensures LikeMatch(s, "%" + rest) <==> exists k :: 0 <= k <= |s| && LikeMatch(s[k..], rest)
    decreases |s|
  {
    var p := "%" + rest;
    assert p[1..] == rest;
    assert s[0..] == s;
    if s != [] {
      LeadingPercent(s[1..], rest);
      forall k | 1 <= k <= |s| ensures s[1..][k - 1..] == s[k..] { }
      if exists k :: 0 <= k <= |s| && LikeMatch(s[k..], rest) {
        var k :| 0 <= k <= |s| && LikeMatch(s[k..], rest);
        if k > 0 {
          assert LikeMatch(s[1..][k - 1..], rest);
        }
      }
    }
  }

  /** `%` alone matches every string. */
  lemma PercentMatchesAll(s: string)
    ensures LikeMatch(s, "%")
  {
    LeadingPercent(s, "");
    assert LikeMatch(s[|s|..], "");
  }

  /** A literal prefix in a pattern must appear literally at the start. */
  lemma {:induction false} LiteralPrefix(t: string, q: string, rest: string)
    requires NoWildcards(q)
    ensures LikeMatch(t, q + rest) <==> |q| <= |t| && t[..|q|] == q && LikeMatch(t[|q|..], rest)
  {
    if q != [] {
      var p := q + rest;
      assert p[0] == q[0] && p[1..] == q[1..] + rest;
      LiteralPrefix(if t == [] then t else t[1..], q[1..], rest);
      if t != [] && |q| <= |t| {
        assert t[1..][|q| - 1..] == t[|q|..];
        assert t[..|q|] == [t[0]] + t[1..][..|q| - 1];
      }
    } else {
      assert q + rest == rest;
    }
  }

  /** `q` occurs in `s` at position `i`. */
  predicate OccursAt(s: string, q: string, i: int)
  {
    0 <= i && i + |q| <= |s| && s[i..i + |q|] == q
  }

  /** A search pattern `%q%` with a literal `q` (no `%`, no `_`) matches
      exactly the strings that contain `q`. */
  lemma ContainsPattern(s: string, q: string)
    requires NoWildcards(q)
    ensures LikeMatch(s, "%" + q + "%") <==> exists i :: OccursAt(s, q, i)
  {
    var rest := q + "%";
    assert "%" + q + "%" == "%" + rest;
    LeadingPercent(s, rest);
    if LikeMatch(s, "%" + rest) {
      var k :| 0 <= k <= |s| && LikeMatch(s[k..], rest);
      MatchHasSubstring(s, q, k);
    }
    if exists i :: OccursAt(s, q, i) {
      var i :| OccursAt(s, q, i);
      SubstringMatches(s, q, i);
    }
  }

  lemma MatchHasSubstring(s: string, q: string, k: int)
    requires NoWildcards(q) && 0 <= k <= |s| && LikeMatch(s[k..], q + "%")
    ensures OccursAt(s, q, k)
  {
    LiteralPrefix(s[k..], q, "%");
    assert s[k..k + |q|] == s[k..][..|q|];
  }

  lemma SubstringMatches(s: string, q: string, i: int)
    requires NoWildcards(q) && OccursAt(s, q, i)
    ensures LikeMatch(s[i..], q + "%")
  {
    LiteralPrefix(s[i..], q, "%");
    PercentMatchesAll(s[i..][|q|..]);
    assert s[i..][..|q|] == s[i..i + |q|];
  }

  /** Case folding turns no character into a wildcard. */
  lemma LowerNoWildcards(q: string)
    requires NoWildcards(q)
    ensures NoWildcards(AsciiLower(q))
  {
  }

  /** `q in s` */
  predicate Contains(s: string, q: string)
  {
    exists k :: 0 <= k <= |s| && OccursAt(s, q, k)
  }

  /** `s ILIKE '%q%'` with a literal `q`: `s` with A-Z folded contains `q`
      with A-Z folded. */
  lemma ILikeContains(s: string, q: string)
    requires NoWildcards(q)
    ensures ILike(s, "%" + q + "%") <==> Contains(AsciiLower(s), AsciiLower(q))
  {
    var p := "%" + q + "%";
    assert AsciiLower(p) == "%" + AsciiLower(q) + "%";
    assert ILike(s, p) == LikeMatch(AsciiLower(s), "%" + AsciiLower(q) + "%");
    LowerNoWildcards(q);
    ContainsPattern(AsciiLower(s), AsciiLower(q));
  }
}

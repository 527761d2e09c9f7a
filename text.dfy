/** String operations of the JavaScript runtime that the activity feed relies on:
    `toLowerCase` on ASCII letters, `includes`, `slice(0, n)`, `split` on one
    separator character, `endsWith`, and the decimal rendering of an integer in a
    template literal. A string is a sequence of Unicode scalar values; where JavaScript
    sees UTF-16 code units (the default string sort), the model works on `Utf16Of`. */
module Text {
  import Seqs

  /** ASCII lower-casing of one character. */
  function LowerChar(c: char): char {
    if 'A' <= c <= 'Z' then (c as int + 32) as char else c
  }

  function Lower(s: string): (r: string)
    ensures |r| == |s|
    ensures forall i :: 0 <= i < |s| ==> r[i] == LowerChar(s[i])
  {
    seq(|s|, i requires 0 <= i < |s| => LowerChar(s[i]))
  }

  /** `lit` occurs in `s` at position `p`. */
  predicate StartsAt(s: string, p: nat, lit: string) {
    p + |lit| <= |s| && s[p..p + |lit|] == lit
  }

  /** `lit` occurs at position `p` when ASCII letters are compared without case, as a
      JavaScript `/i` pattern without the `u` flag compares an ASCII literal. */
  predicate StartsAtIgnoreCase(s: string, p: nat, lit: string) {
    p + |lit| <= |s| && forall i :: 0 <= i < |lit| ==> LowerChar(s[p + i]) == LowerChar(lit[i])
  }

  /** `s.includes(lit)`. */
  predicate Contains(s: string, lit: string) {
    exists p: nat | p <= |s| :: StartsAt(s, p, lit)
  }

  /** `s.slice(0, n)`. */
  function Truncate(s: string, n: nat): (r: string)
    ensures |r| <= n && r <= s
    ensures |s| <= n ==> r == s
    ensures |s| > n ==> |r| == n
  {
    if |s| <= n then s else s[..n]
  }

  /** `s.endsWith(suffix)`. */
  predicate EndsWith(s: string, suffix: string) {
    |suffix| <= |s| && s[|s| - |suffix|..] == suffix
  }

  /** `s.split(sep)` for a one-character separator: the pieces between separators,
      empty pieces included, so there is always at least one. */
  function Split(s: string, sep: char): (r: seq<string>)
    ensures |r| >= 1
    ensures forall i :: 0 <= i < |r| ==> sep !in r[i]
  {
    if s == [] then [[]]
    else
      var rest := Split(s[1..], sep);
      if s[0] == sep then [[]] + rest
      else [[s[0]] + rest[0]] + rest[1..]
  }

  /** `parts.join(sep)`. */
  function Join(parts: seq<string>, sep: char): string {
    if |parts| == 0 then []
    else if |parts| == 1 then parts[0]
    else parts[0] + [sep] + Join(parts[1..], sep)
  }

  /** Splitting loses nothing: joining the pieces gives the string back. */
  lemma {:induction false} JoinSplit(s: string, sep: char)
    ensures Join(Split(s, sep), sep) == s
  {
    if s != [] {
      var rest := Split(s[1..], sep);
      JoinSplit(s[1..], sep);
      if s[0] == sep {
        assert Split(s, sep)[1..] == rest;
      } else {
        var parts := Split(s, sep);
        assert parts[0] == [s[0]] + rest[0] && parts[1..] == rest[1..];
        if |rest| > 1 {
          assert Join(rest, sep) == rest[0] + [sep] + Join(rest[1..], sep);
        }
      }
    }
  }

  predicate NonEmpty(s: string) {
    s != []
  }

  /** `s.split(sep).filter(Boolean)`: the non-empty pieces. */
  function Fragments(s: string, sep: char): (r: seq<string>)
    ensures forall i :: 0 <= i < |r| ==> r[i] != [] && sep !in r[i]
  {
    var r := Seqs.Filter(Split(s, sep), NonEmpty);
    assert forall i :: 0 <= i < |r| ==> r[i] in Split(s, sep);
    r
  }

  /** The concatenation of the pieces. */
  function Concat(parts: seq<string>): string {
    if parts == [] then [] else parts[0] + Concat(parts[1..])
  }

  /** `s` without any occurrence of `c`. */
  function Without(s: string, c: char): (r: string)
    ensures c !in r
  {
    if s == [] then [] else (if s[0] == c then [] else [s[0]]) + Without(s[1..], c)
  }

  /** The fragments keep every character that is not a separator, in order:
      gluing them together gives `s` with its separators removed. */
  lemma FragmentsKeepText(s: string, sep: char)
    ensures Concat(Fragments(s, sep)) == Without(s, sep)
  {
    ConcatSplit(s, sep);
    ConcatDropsEmpty(Split(s, sep));
  }

  lemma {:induction false} ConcatSplit(s: string, sep: char)
    ensures Concat(Split(s, sep)) == Without(s, sep)
  {
    if s != [] {
      var rest := Split(s[1..], sep);
      ConcatSplit(s[1..], sep);
      if s[0] == sep {
        assert Split(s, sep)[1..] == rest;
        assert Concat(Split(s, sep)) == [] + Concat(rest);
      } else {
        var parts := Split(s, sep);
        assert parts[1..] == rest[1..];
        assert Concat(rest) == rest[0] + Concat(rest[1..]);
        assert Concat(parts) == ([s[0]] + rest[0]) + Concat(rest[1..]);
      }
    }
  }

  lemma {:induction false} ConcatDropsEmpty(parts: seq<string>)
    ensures Concat(Seqs.Filter(parts, NonEmpty)) == Concat(parts)
  {
    if parts != [] {
      ConcatDropsEmpty(parts[1..]);
      if NonEmpty(parts[0]) {
        var f := Seqs.Filter(parts, NonEmpty);
        assert f == [parts[0]] + Seqs.Filter(parts[1..], NonEmpty);
        assert f[1..] == Seqs.Filter(parts[1..], NonEmpty);
      } else {
        assert Seqs.Filter(parts, NonEmpty) == Seqs.Filter(parts[1..], NonEmpty);
        assert Concat(parts) == [] + Concat(parts[1..]);
      }
    }
  }

  /** Text that ends with a separator splits apart from what follows it: its pieces end
      with an empty one, and the pieces of the whole are its other pieces followed by
      the pieces of the rest. */
  lemma {:induction false} SplitAfterSeparator(a: string, b: string, sep: char)
    requires a != [] && a[|a| - 1] == sep
    ensures var pa := Split(a, sep);
      && |pa| >= 2 && pa[|pa| - 1] == []
      && Split(a + b, sep) == pa[..|pa| - 1] + Split(b, sep)
  {
    assert (a + b)[1..] == a[1..] + b;
    if |a| == 1 {
      assert a[1..] == [];
      assert Split(a, sep) == [[]] + Split([], sep);
    } else {
      SplitAfterSeparator(a[1..], b, sep);
      var r := Split(a[1..], sep);
      var init := r[..|r| - 1];
      assert Split(a[1..] + b, sep) == init + Split(b, sep);
      if a[0] == sep {
        SplitSepHead(a, b, sep, r, init);
      } else {
        SplitCharHead(a, b, sep, r, init);
      }
    }
  }

  lemma SplitSepHead(a: string, b: string, sep: char, r: seq<string>, init: seq<string>)
    requires |a| > 1 && a[0] == sep && r == Split(a[1..], sep) && |r| >= 2 && init == r[..|r| - 1]
    requires (a + b)[1..] == a[1..] + b && Split(a[1..] + b, sep) == init + Split(b, sep)
    ensures var pa := Split(a, sep); pa[..|pa| - 1] == [[]] + init && Split(a + b, sep) == [[]] + init + Split(b, sep)
  {
  }

  lemma SplitCharHead(a: string, b: string, sep: char, r: seq<string>, init: seq<string>)
    requires |a| > 1 && a[0] != sep && r == Split(a[1..], sep) && |r| >= 2 && init == r[..|r| - 1]
    requires (a + b)[1..] == a[1..] + b && Split(a[1..] + b, sep) == init + Split(b, sep)
    ensures var pa := Split(a, sep); var head := [[a[0]] + r[0]];
      && pa[..|pa| - 1] == head + init[1..]
      && Split(a + b, sep) == head + init[1..] + Split(b, sep)
  {
    SplitCharInit(a, sep, r, init);
    SplitCharWhole(a, b, sep, r, init);
  }

  lemma SplitCharInit(a: string, sep: char, r: seq<string>, init: seq<string>)
    requires |a| > 1 && a[0] != sep && r == Split(a[1..], sep) && |r| >= 2 && init == r[..|r| - 1]
    ensures var pa := Split(a, sep); pa[..|pa| - 1] == [[a[0]] + r[0]] + init[1..]
  {
    var head := [[a[0]] + r[0]];
    var pa := Split(a, sep);
    assert pa == head + r[1..];
    assert r[1..][..|r| - 2] == init[1..];
    assert pa[..|pa| - 1] == head + r[1..][..|r| - 2];
  }

  lemma SplitCharWhole(a: string, b: string, sep: char, r: seq<string>, init: seq<string>)
    requires |a| > 1 && a[0] != sep && |r| >= 2 && init == r[..|r| - 1]
    requires (a + b)[1..] == a[1..] + b && Split(a[1..] + b, sep) == init + Split(b, sep)
    ensures Split(a + b, sep) == [[a[0]] + r[0]] + init[1..] + Split(b, sep)
  {
    var ab := a + b;
    var rest := Split(ab[1..], sep);
    assert ab[0] == a[0];
    assert Split(ab, sep) == [[a[0]] + rest[0]] + rest[1..];
    var pb := Split(b, sep);
    assert rest == init + pb;
    assert rest[0] == init[0] == r[0];
    assert rest[1..] == init[1..] + pb;
    var head := [[a[0]] + r[0]];
    assert head + (init[1..] + pb) == head + init[1..] + pb;
  }

  /** Reading text that ends at a line break and then the text after it gives the same
      non-empty lines as reading both at once. */
  lemma FragmentsAfterSeparator(a: string, b: string, sep: char)
    requires a == [] || a[|a| - 1] == sep
    ensures Fragments(a + b, sep) == Fragments(a, sep) + Fragments(b, sep)
  {
    if a == [] {
      assert a + b == b;
      assert Fragments(a, sep) == [];
    } else {
      SplitAfterSeparator(a, b, sep);
      var pa := Split(a, sep);
      var init := pa[..|pa| - 1];
      assert pa == init + [[]];
      Seqs.FilterConcat(init, Split(b, sep), NonEmpty);
      Seqs.FilterConcat(init, [[]], NonEmpty);
      assert Seqs.Filter([[]], NonEmpty) == [];
      assert Fragments(a, sep) == Seqs.Filter(init, NonEmpty);
    }
  }

  /** The part of `s` before the first `c`: `s.split(c)[0]`. */
  function Before(s: string, c: char): (r: string)
    ensures r <= s && c !in r
    ensures r == Split(s, c)[0]
  {
    if s == [] || s[0] == c then [] else [s[0]] + Before(s[1..], c)
  }

  function DigitChar(d: nat): char
    requires d < 10
  {
    ('0' as int + d) as char
  }

  predicate IsDigit(c: char) {
    '0' <= c <= '9'
  }

  /** The decimal digits of `n`, as `${n}` renders a non-negative integer. */
  function NatToDecimal(n: nat): (r: string)
    ensures |r| >= 1
    ensures forall i :: 0 <= i < |r| ==> IsDigit(r[i])
    decreases n
  {
    if n < 10 then [DigitChar(n)] else NatToDecimal(n / 10) + [DigitChar(n % 10)]
  }

  /** `${i}` for an integer. */
  function IntToDecimal(i: int): (r: string)
    ensures r != [] && '-' !in r[1..]
  {
    if i < 0 then "-" + NatToDecimal(-i) else NatToDecimal(i)
  }

  /** The UTF-16 code units of a character: one below U+10000, else a surrogate pair. */
  function Utf16(c: char): (u: seq<int>)
    ensures 1 <= |u| <= 2
  {
    var n := c as int;
    if n < 0x1_0000 then [n] else [0xD800 + (n - 0x1_0000) / 0x400, 0xDC00 + (n - 0x1_0000) % 0x400]
  }

  /** The UTF-16 encoding of a string: what JavaScript's string operations see. */
  function Utf16Of(s: string): seq<int> {
    if s == [] then [] else Utf16(s[0]) + Utf16Of(s[1..])
  }

  /** Lexicographic order of code-unit sequences, a proper prefix first. */
  predicate UnitsLess(a: seq<int>, b: seq<int>) {
    if a == [] then b != []
    else if b == [] then false
    else if a[0] != b[0] then a[0] < b[0]
    else UnitsLess(a[1..], b[1..])
  }

  /** Where a character's code units fall among all others' in UTF-16 order: the
      characters below U+D800, then those above U+FFFF (led by a high surrogate), then
      U+E000 to U+FFFF. */
  function UnitRank(c: char): int {
    var n := c as int;
    if n < 0xD800 then n else if n < 0x1_0000 then n + 0x11_0000 else n
  }

  /** Code-unit order of strings, as the default `Array.prototype.sort` compares them
      (`LexLessIsCodeUnitOrder`): character by character on the rank of its units. */
  predicate LexLess(a: string, b: string) {
    if a == [] then b != []
    else if b == [] then false
    else if a[0] != b[0] then UnitRank(a[0]) < UnitRank(b[0])
    else LexLess(a[1..], b[1..])
  }

  /** The order on strings is the order on their UTF-16 encodings. */
  lemma {:induction false} LexLessIsCodeUnitOrder(a: string, b: string)
    ensures LexLess(a, b) <==> UnitsLess(Utf16Of(a), Utf16Of(b))
  {
    if a == [] {
      if b != [] {
        assert Utf16Of(b)[0] == Utf16(b[0])[0];
      }
    } else if b == [] {
      assert Utf16Of(a)[0] == Utf16(a[0])[0];
    } else if a[0] == b[0] {
      LexLessIsCodeUnitOrder(a[1..], b[1..]);
      UnitsLessCommonPrefix(Utf16(a[0]), Utf16Of(a[1..]), Utf16Of(b[1..]));
    } else {
      FirstCharDecides(a[0], b[0], Utf16Of(a[1..]), Utf16Of(b[1..]));
    }
  }

  lemma {:induction false} UnitsLessCommonPrefix(u: seq<int>, x: seq<int>, y: seq<int>)
    ensures UnitsLess(u + x, u + y) <==> UnitsLess(x, y)
  {
    if u != [] {
      assert (u + x)[1..] == u[1..] + x && (u + y)[1..] == u[1..] + y;
      UnitsLessCommonPrefix(u[1..], x, y);
    } else {
      assert u + x == x && u + y == y;
    }
  }

  /** Two different characters are ordered by their code units whatever follows them. */
  lemma FirstCharDecides(c: char, d: char, x: seq<int>, y: seq<int>)
    requires c != d
    ensures UnitsLess(Utf16(c) + x, Utf16(d) + y) <==> UnitRank(c) < UnitRank(d)
  {
    var u, v := Utf16(c) + x, Utf16(d) + y;
    var n, m := c as int, d as int;
    assert u[0] == Utf16(c)[0] && v[0] == Utf16(d)[0];
    if n >= 0x1_0000 && m >= 0x1_0000 {
      SplitOrder(n - 0x1_0000, m - 0x1_0000);
      if u[0] == v[0] {
        assert u[1..][0] == Utf16(c)[1] && v[1..][0] == Utf16(d)[1];
      }
    } else if n >= 0x1_0000 {
      assert (n - 0x1_0000) / 0x400 < 0x400;
    } else if m >= 0x1_0000 {
      assert (m - 0x1_0000) / 0x400 < 0x400;
    }
  }

  /** Numbers below 2^20 compare as their high and low ten bits do. */
  lemma SplitOrder(x: nat, y: nat)
    requires x < 0x10_0000 && y < 0x10_0000
    ensures x / 0x400 < 0x400 && y / 0x400 < 0x400
    ensures x < y <==> x / 0x400 < y / 0x400 || (x / 0x400 == y / 0x400 && x % 0x400 < y % 0x400)
    ensures x == y <==> x / 0x400 == y / 0x400 && x % 0x400 == y % 0x400
  {
    assert x == 0x400 * (x / 0x400) + x % 0x400;
    assert y == 0x400 * (y / 0x400) + y % 0x400;
  }

  /** The emoji U+1F600 sorts before U+FF01, because its high surrogate U+D83D is
      smaller, though the scalar value is larger. */
  lemma SurrogatesSortFirst()
    ensures LexLess("\U{1F600}", "\U{FF01}") && !LexLess("\U{FF01}", "\U{1F600}")
    ensures LexLess("a", "\U{1F600}")
  {
  }

  lemma {:induction false} LexLessIrreflexive(a: string)
    ensures !LexLess(a, a)
  {
    if a != [] {
      LexLessIrreflexive(a[1..]);
    }
  }

  lemma {:induction false} LexLessTransitive(a: string, b: string, c: string)
    requires LexLess(a, b) && LexLess(b, c)
    ensures LexLess(a, c)
  {
    if a != [] && a[0] == b[0] && b[0] == c[0] {
      LexLessTransitive(a[1..], b[1..], c[1..]);
    }
  }

  lemma {:induction false} LexLessTotal(a: string, b: string)
    ensures a == b || LexLess(a, b) || LexLess(b, a)
  {
    if a != [] && b != [] && a[0] == b[0] {
      LexLessTotal(a[1..], b[1..]);
      if a[1..] == b[1..] {
        assert a == [a[0]] + a[1..] && b == [b[0]] + b[1..];
      }
    }
  }

  /** No later string sorts before an earlier one. */
  predicate LexSorted(s: seq<string>) {
    forall i, j :: 0 <= i < j < |s| ==> !LexLess(s[j], s[i])
  }

  /** Every later string sorts after an earlier one. */
  predicate StrictlyLexSorted(s: seq<string>) {
    forall i, j :: 0 <= i < j < |s| ==> LexLess(s[i], s[j])
  }

  lemma LexLessAsym(a: string, b: string)
    requires LexLess(a, b)
    ensures !LexLess(b, a)
  {
    if LexLess(b, a) {
      LexLessTransitive(a, b, a);
      LexLessIrreflexive(a);
    }
  }

  function InsertLex(x: string, s: seq<string>): (r: seq<string>)
    ensures |r| == |s| + 1
    ensures multiset(r) == multiset(s) + multiset{x}
    ensures LexSorted(s) ==> LexSorted(r)
  {
    if s == [] then [x]
    else if LexLess(s[0], x) then
      var rest := InsertLex(x, s[1..]);
      assert s == [s[0]] + s[1..];
      InsertLexHead(x, s, rest);
      [s[0]] + rest
    else
      InsertLexFront(x, s);
      [x] + s
  }

  lemma InsertLexHead(x: string, s: seq<string>, rest: seq<string>)
    requires s != [] && LexLess(s[0], x)
    requires multiset(rest) == multiset(s[1..]) + multiset{x}
    requires LexSorted(s) ==> LexSorted(rest)
    ensures LexSorted(s) ==> LexSorted([s[0]] + rest)
  {
    if LexSorted(s) {
      forall j | 0 < j < |[s[0]] + rest| ensures !LexLess(([s[0]] + rest)[j], s[0]) {
        var y := rest[j - 1];
        assert y in multiset(rest);
        if y == x {
          LexLessAsym(s[0], x);
        } else {
          assert y in multiset(s[1..]);
          var k :| 0 <= k < |s[1..]| && s[1..][k] == y;
          assert s[k + 1] == y;
        }
      }
    }
  }

  lemma InsertLexFront(x: string, s: seq<string>)
    requires s != [] && !LexLess(s[0], x)
    ensures LexSorted(s) ==> LexSorted([x] + s)
  {
    if LexSorted(s) {
      forall j | 0 <= j < |s| ensures !LexLess(s[j], x) {
        LexLessTotal(x, s[0]);
        if LexLess(s[j], x) && j > 0 {
          if LexLess(x, s[0]) {
            LexLessTransitive(s[j], x, s[0]);
          }
        } else if LexLess(s[j], x) {
          LexLessAsym(s[j], x);
        }
      }
    }
  }

  /** `Array.prototype.sort()` without a comparator on strings: ascending by UTF-16 code
      units. */
  function SortStrings(s: seq<string>): (r: seq<string>)
    ensures multiset(r) == multiset(s)
    ensures LexSorted(r)
  {
    if s == [] then []
    else
      assert s == [s[0]] + s[1..];
      InsertLex(s[0], SortStrings(s[1..]))
  }

  /** Sorting strings that are all different leaves each later one strictly after each
      earlier one. */
  lemma SortedDistinctIsStrict(s: seq<string>)
    requires LexSorted(s)
    requires forall i, j :: 0 <= i < j < |s| ==> s[i] != s[j]
    ensures StrictlyLexSorted(s)
  {
    forall i, j | 0 <= i < j < |s| ensures LexLess(s[i], s[j]) {
      LexLessTotal(s[i], s[j]);
    }
  }
}

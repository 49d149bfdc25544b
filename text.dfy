/** String operations the components use: the code-unit order of
    JavaScript's default `sort`, `toLowerCase`, `includes`, `join`, and
    `toFixed(2)` on an amount held in cents. */
module Text {
  import opened Seqs

  // ---------------------------------------------------------------------
  // lexicographic order (default `Array.prototype.sort` on strings, and the
  // order of `new Date(d).getTime()` on YYYY-MM-DD dates)

  predicate StrLe(a: string, b: string) {
    a == [] || (b != [] && (a[0] < b[0] || (a[0] == b[0] && StrLe(a[1..], b[1..]))))
  }

  predicate StrLt(a: string, b: string) {
    StrLe(a, b) && a != b
  }

  lemma {:induction false} StrLeTotal(a: string, b: string)
    ensures StrLe(a, b) || StrLe(b, a)
  {
    if a != [] && b != [] && a[0] == b[0] {
      StrLeTotal(a[1..], b[1..]);
    }
  }

  lemma {:induction false} StrLeTransitive(a: string, b: string, c: string)
    requires StrLe(a, b) && StrLe(b, c)
    ensures StrLe(a, c)
  {
    if a != [] && b != [] && c != [] && a[0] == b[0] == c[0] {
      StrLeTransitive(a[1..], b[1..], c[1..]);
    }
  }

  lemma {:induction false} StrLeAntisymmetric(a: string, b: string)
    requires StrLe(a, b) && StrLe(b, a)
    ensures a == b
  {
    if a != [] && b != [] {
      StrLeAntisymmetric(a[1..], b[1..]);
      assert a == [a[0]] + a[1..] && b == [b[0]] + b[1..];
    }
  }

  lemma StrLeTotalPreorder()
    ensures TotalPreorder(StrLe)
  {
    forall a, b ensures StrLe(a, b) || StrLe(b, a) {
      StrLeTotal(a, b);
    }
    forall a, b, c | StrLe(a, b) && StrLe(b, c) ensures StrLe(a, c) {
      StrLeTransitive(a, b, c);
    }
  }

  /** A sorted list without repetitions is strictly increasing. */
  lemma SortedNoDupIsStrict(s: seq<string>)
    requires SortedBy(s, StrLe) && NoDup(s)
    ensures forall i, j :: 0 <= i < j < |s| ==> StrLt(s[i], s[j])
  {
  }

  // ---------------------------------------------------------------------
  // toLowerCase, on the ASCII letters

  function LowerChar(c: char): char {
    if 'A' <= c <= 'Z' then (c as int + 32) as char else c
  }

  /** `s.toLowerCase()`, folding the ASCII capitals only. */
  function Lower(s: string): (r: string)
    ensures |r| == |s|
    ensures forall i :: 0 <= i < |r| ==> !('A' <= r[i] <= 'Z')
    ensures forall i :: 0 <= i < |r| ==> r[i] == s[i] || ('A' <= s[i] <= 'Z' && r[i] as int == s[i] as int + 32)
  {
    seq(|s|, i requires 0 <= i < |s| => LowerChar(s[i]))
  }

  /** Folding twice is folding once. */
  lemma LowerIdempotent(s: string)
    ensures Lower(Lower(s)) == Lower(s)
  {
    var l := Lower(s);
    forall i | 0 <= i < |l| ensures Lower(l)[i] == l[i] {
      assert LowerChar(l[i]) == l[i];
    }
  }

  // ---------------------------------------------------------------------
  // includes

  /** needle occurs in hay at position i. */
  predicate OccursAt(hay: string, needle: string, i: nat) {
    i + |needle| <= |hay| && hay[i..i + |needle|] == needle
  }

  /** `hay.includes(needle)`: tries each start position in turn. */
  predicate Contains(hay: string, needle: string) {
    OccursAt(hay, needle, 0) || (hay != [] && Contains(hay[1..], needle))
  }

  /** Contains finds exactly the occurrences OccursAt describes. */
  lemma {:induction false} ContainsIff(hay: string, needle: string)
    ensures Contains(hay, needle) <==> exists i :: 0 <= i <= |hay| && OccursAt(hay, needle, i)
  {
    if hay != [] {
      ContainsIff(hay[1..], needle);
      if Contains(hay[1..], needle) {
        var i :| 0 <= i <= |hay[1..]| && OccursAt(hay[1..], needle, i);
        assert hay[i + 1..i + 1 + |needle|] == hay[1..][i..i + |needle|];
        assert OccursAt(hay, needle, i + 1);
      }
      if i :| 0 <= i <= |hay| && OccursAt(hay, needle, i) {
        if i > 0 {
          assert hay[1..][i - 1..i - 1 + |needle|] == hay[i..i + |needle|];
          assert OccursAt(hay[1..], needle, i - 1);
        }
      }
    } else {
      if i :| 0 <= i <= |hay| && OccursAt(hay, needle, i) {
        assert i == 0;
      }
    }
  }

  /** Whatever contains a needle contains every prefix of it. */
  lemma ContainsPrefix(hay: string, a: string, b: string)
    requires Contains(hay, a + b)
    ensures Contains(hay, a)
  {
    ContainsIff(hay, a + b);
    ContainsIff(hay, a);
    var i :| 0 <= i <= |hay| && OccursAt(hay, a + b, i);
    assert hay[i..i + |a|] == hay[i..i + |a + b|][..|a|];
    assert OccursAt(hay, a, i);
  }

  // ---------------------------------------------------------------------
  // join, and the split that undoes it

  /** `parts.join(sep)`. */
  function Join(parts: seq<string>, sep: char): string {
    if parts == [] then ""
    else if |parts| == 1 then parts[0]
    else Join(parts[..|parts| - 1], sep) + [sep] + parts[|parts| - 1]
  }

  /** `s.split(sep)`: the pieces between occurrences of sep (at least one). */
  function Split(s: string, sep: char): (parts: seq<string>)
    ensures |parts| >= 1
  {
    if s == [] then [""]
    else
      var rest := Split(s[..|s| - 1], sep);
      if s[|s| - 1] == sep then rest + [""]
      else rest[..|rest| - 1] + [rest[|rest| - 1] + [s[|s| - 1]]]
  }

  lemma {:induction false} SplitNoSeparator(s: string, sep: char)
    requires sep !in s
    ensures Split(s, sep) == [s]
  {
    if s != [] {
      SplitNoSeparator(s[..|s| - 1], sep);
      assert s[..|s| - 1] + [s[|s| - 1]] == s;
    }
  }

  lemma {:induction false} SplitAfterSeparator(a: string, sep: char, b: string)
    requires sep !in b
    ensures Split(a + [sep] + b, sep) == Split(a, sep) + [b]
  {
    if b == [] {
      assert a + [sep] + b == a + [sep];
      assert (a + [sep])[..|a|] == a;
    } else {
      var init, last := b[..|b| - 1], b[|b| - 1];
      SplitAfterSeparator(a, sep, init);
      var s := a + [sep] + b;
      assert s[..|s| - 1] == a + [sep] + init;
      assert init + [last] == b;
    }
  }

  /** Splitting a join gives back the parts, when no part holds the separator. */
  lemma {:induction false} SplitJoin(parts: seq<string>, sep: char)
    requires |parts| >= 1
    requires forall i :: 0 <= i < |parts| ==> sep !in parts[i]
    ensures Split(Join(parts, sep), sep) == parts
  {
    if |parts| == 1 {
      SplitNoSeparator(parts[0], sep);
    } else {
      var init := parts[..|parts| - 1];
      SplitJoin(init, sep);
      SplitAfterSeparator(Join(init, sep), sep, parts[|parts| - 1]);
    }
  }

  /** A join holds a character other than the separator only where one of
      the parts holds it. */
  lemma {:induction false} JoinAvoids(parts: seq<string>, sep: char, c: char)
    requires c != sep
    requires forall i :: 0 <= i < |parts| ==> c !in parts[i]
    ensures c !in Join(parts, sep)
  {
    if |parts| > 1 {
      JoinAvoids(parts[..|parts| - 1], sep, c);
    }
  }

  // ---------------------------------------------------------------------
  // toFixed(2) on an amount held in cents

  function DigitChar(d: nat): char
    requires d < 10
  {
    ('0' as int + d) as char
  }

  predicate IsDigit(c: char) {
    '0' <= c <= '9'
  }

  function DigitValue(c: char): nat
    requires IsDigit(c)
  {
    c as int - '0' as int
  }

  /** The decimal numeral of n, without leading zeros ("0" for zero). */
  function Decimal(n: nat): (r: string)
    ensures |r| >= 1
    ensures forall i :: 0 <= i < |r| ==> IsDigit(r[i])
  {
    if n < 10 then [DigitChar(n)] else Decimal(n / 10) + [DigitChar(n % 10)]
  }

  /** The value of a numeral. */
  function DecimalValue(s: string): nat
    requires forall i :: 0 <= i < |s| ==> IsDigit(s[i])
  {
    if s == [] then 0 else 10 * DecimalValue(s[..|s| - 1]) + DigitValue(s[|s| - 1])
  }

  lemma {:induction false} DecimalRoundTrip(n: nat)
    ensures DecimalValue(Decimal(n)) == n
  {
    if n >= 10 {
      DecimalRoundTrip(n / 10);
      var s := Decimal(n);
      assert s[..|s| - 1] == Decimal(n / 10);
    }
  }

  /** A numeral with exactly two digits after a '.'. */
  predicate IsFixed2(s: string) {
    && |s| >= 4 && s[|s| - 3] == '.'
    && (forall i :: 0 <= i < |s| ==> i == |s| - 3 || IsDigit(s[i]))
  }

  /** `(m / 100).toFixed(2)` for m cents, m >= 0. */
  function Fixed2(m: nat): (r: string)
    ensures IsFixed2(r)
  {
    Decimal(m / 100) + ['.', DigitChar(m % 100 / 10), DigitChar(m % 10)]
  }

  function Fixed2Value(s: string): nat
    requires IsFixed2(s)
  {
    100 * DecimalValue(s[..|s| - 3]) + 10 * DigitValue(s[|s| - 2]) + DigitValue(s[|s| - 1])
  }

  lemma Fixed2RoundTrip(m: nat)
    ensures Fixed2Value(Fixed2(m)) == m
  {
    var q, d1, d2 := m / 100, m % 100 / 10, m % 10;
    assert m == 100 * q + 10 * d1 + d2;
    DecimalRoundTrip(q);
    var s := Fixed2(m);
    assert s[..|s| - 3] == Decimal(q);
    assert DigitValue(s[|s| - 2]) == d1 && DigitValue(s[|s| - 1]) == d2;
  }

  /** `(c / 100).toFixed(2)`: a '-' for a negative amount, then whole
      units, '.', and exactly two digits. */
  function FormatCents(c: int): (r: string)
    ensures |r| >= 4 && r[|r| - 3] == '.'
    ensures ',' !in r && '\n' !in r
  {
    if c < 0 then "-" + Fixed2(-c) else Fixed2(c)
  }

  /** Reads back a string FormatCents produced. */
  function ParseCents(s: string): int
    requires IsFixed2(s) || (|s| >= 1 && s[0] == '-' && IsFixed2(s[1..]))
  {
    if s[0] == '-' then -(Fixed2Value(s[1..]) as int) else Fixed2Value(s)
  }

  /** The formatted amount is exact: it reads back as the same number of cents. */
  lemma FormatCentsRoundTrip(c: int)
    ensures var s := FormatCents(c);
      (IsFixed2(s) || (s[0] == '-' && IsFixed2(s[1..]))) && ParseCents(s) == c
  {
    if c < 0 {
      Fixed2RoundTrip(-c);
      assert FormatCents(c)[1..] == Fixed2(-c);
    } else {
      Fixed2RoundTrip(c);
      assert Fixed2(c)[0] != '-';
    }
  }
}

/**
 * String operations the scripts use on file names: Python's `str.endswith`,
 * substring `in`, `str.replace`, `str(n)`, the `{n:02d}` format, the
 * lexicographic order of `sorted`, and the digit runs a regular expression
 * `\d{8}` finds.  Digits are the ASCII digits '0'..'9'.
 */
module Text {

  predicate IsDigit(c: char)
  {
    '0' <= c <= '9'
  }

  predicate AllDigits(s: string)
  {
    forall i :: 0 <= i < |s| ==> IsDigit(s[i])
  }

  function DigitValue(c: char): nat
    requires IsDigit(c)
  {
    c as int - '0' as int
  }

  function DigitChar(n: nat): (c: char)
    requires n < 10
    ensures IsDigit(c) && DigitValue(c) == n
  {
    ('0' as int + n) as char
  }

  /** The number a string of decimal digits denotes. */
  function Value(s: string): nat
    requires AllDigits(s)
  {
    if |s| == 0 then 0 else Value(s[..|s| - 1]) * 10 + DigitValue(s[|s| - 1])
  }

  /** `str(n)`: the decimal numeral of `n`, without leading zeros, reads back as `n`. */
  function Decimal(n: nat): (r: string)
    ensures |r| > 0 && AllDigits(r) && Value(r) == n
    ensures r[0] != '0' || n == 0
  {
    if n < 10 then [DigitChar(n)]
    else
      var r := Decimal(n / 10) + [DigitChar(n % 10)];
      assert r[..|r| - 1] == Decimal(n / 10);
      r
  }

  /** A numeral without a leading zero reads back to itself. */
  lemma {:induction false} DecimalOfValue(s: string)
    requires |s| > 0 && AllDigits(s) && s[0] != '0'
    ensures Decimal(Value(s)) == s
  {
    if |s| > 1 {
      var p := s[..|s| - 1];
      assert AllDigits(p) && p[0] == s[0];
      ValuePositive(p);
      DecimalOfValue(p);
      assert Value(s) / 10 == Value(p) && Value(s) % 10 == DigitValue(s[|s| - 1]);
      assert s == p + [s[|s| - 1]];
    }
  }

  lemma {:induction false} ValuePositive(s: string)
    requires |s| > 0 && AllDigits(s) && s[0] != '0'
    ensures Value(s) >= 1
  {
    if |s| > 1 {
      ValuePositive(s[..|s| - 1]);
    }
  }

  /** `f"{n:02d}"`: at least two digits, zero-padded on the left. */
  function ZeroPad2(n: nat): string
  {
    if n < 10 then "0" + Decimal(n) else Decimal(n)
  }

  /** Any two-digit field `s` (a month's 01..12 among them) is what `{n:02d}` prints for its value. */
  lemma ZeroPad2OfValue(s: string)
    requires |s| == 2 && AllDigits(s)
    ensures ZeroPad2(Value(s)) == s
  {
    assert s[..1][..0] == [] && s[..1][0] == s[0];
    assert Value(s[..1]) == DigitValue(s[0]);
    assert Value(s) == DigitValue(s[0]) * 10 + DigitValue(s[1]);
    if s[0] == '0' {
      assert Decimal(Value(s)) == [s[1]];
    } else {
      DecimalOfValue(s);
    }
  }

  predicate EndsWith(s: string, suffix: string)
  {
    |suffix| <= |s| && s[|s| - |suffix|..] == suffix
  }

  /** Python's `p in s` for strings: `p` occurs at some position of `s`. */
  predicate Contains(s: string, p: string)
  {
    exists i :: 0 <= i <= |s| - |p| && OccursAt(s, p, i)
  }

  predicate OccursAt(s: string, p: string, i: nat)
  {
    i + |p| <= |s| && s[i..i + |p|] == p
  }

  /** `s.replace(pat, rep)`: every occurrence of `pat`, scanning from the left without overlaps. */
  function ReplaceAll(s: string, pat: string, rep: string): string
    requires |pat| > 0
    decreases |s|
  {
    if |s| < |pat| then s
    else if s[..|pat|] == pat then rep + ReplaceAll(s[|pat|..], pat, rep)
    else [s[0]] + ReplaceAll(s[1..], pat, rep)
  }

  /** Replacing with a string of the same length keeps the length. */
  lemma {:induction false} ReplaceAllLength(s: string, pat: string, rep: string)
    requires |pat| > 0 && |rep| == |pat|
    ensures |ReplaceAll(s, pat, rep)| == |s|
    decreases |s|
  {
    if |s| >= |pat| {
      if s[..|pat|] == pat {
        ReplaceAllLength(s[|pat|..], pat, rep);
      } else {
        ReplaceAllLength(s[1..], pat, rep);
      }
    }
  }

  /** The first character of a replacement result. */
  lemma ReplaceAllHead(s: string, a: char, b: char, c: char)
    requires |s| > 0
    ensures |ReplaceAll(s, [a, b], [a, c])| > 0
    ensures ReplaceAll(s, [a, b], [a, c])[0] == if |s| >= 2 && s[..2] == [a, b] then a else s[0]
  {
  }

  /**
   * Replacing the two-character pattern `ab` by `ac`, where `a`, `b` and `c`
   * are pairwise different, leaves no occurrence of `ab` behind.
   */
  lemma {:induction false} ReplaceAllRemovesPattern(s: string, a: char, b: char, c: char)
    requires a != b && a != c && b != c
    ensures !Contains(ReplaceAll(s, [a, b], [a, c]), [a, b])
    decreases |s|
  {
    var r := ReplaceAll(s, [a, b], [a, c]);
    if |s| < 2 {
      assert |r| < 2;
    } else if s[..2] == [a, b] {
      var rest := ReplaceAll(s[2..], [a, b], [a, c]);
      ReplaceAllRemovesPattern(s[2..], a, b, c);
      assert r == [a, c] + rest;
      forall i: nat ensures !OccursAt(r, [a, b], i) {
        if i == 0 {
          assert r[0..2] == [a, c];
        } else if i == 1 {
          assert r[1] == c;
        } else if i + 2 <= |r| {
          assert r[i..i + 2] == rest[i - 2..i];
          assert !OccursAt(rest, [a, b], i - 2);
        }
      }
    } else {
      var rest := ReplaceAll(s[1..], [a, b], [a, c]);
      ReplaceAllRemovesPattern(s[1..], a, b, c);
      assert r == [s[0]] + rest;
      forall i: nat ensures !OccursAt(r, [a, b], i) {
        if i == 0 {
          if |r| >= 2 {
            ReplaceAllHead(s[1..], a, b, c);
            if s[0] == a {
              assert s[1] != b;
              assert rest[0] == a || rest[0] == s[1];
            }
            assert r[0..2] == [s[0], rest[0]];
          }
        } else if i + 2 <= |r| {
          assert r[i..i + 2] == rest[i - 1..i + 1];
          assert !OccursAt(rest, [a, b], i - 1);
        }
      }
    }
  }

  /** Python's string order: the first differing character decides; a proper prefix comes first. */
  predicate LexLe(a: string, b: string)
  {
    |a| == 0 || (|b| > 0 && (a[0] < b[0] || (a[0] == b[0] && LexLe(a[1..], b[1..]))))
  }

  lemma {:induction false} LexLeTotal(a: string, b: string)
    ensures LexLe(a, b) || LexLe(b, a)
  {
    if |a| > 0 && |b| > 0 && a[0] == b[0] {
      LexLeTotal(a[1..], b[1..]);
    }
  }

  lemma {:induction false} LexLeTransitive(a: string, b: string, c: string)
    requires LexLe(a, b) && LexLe(b, c)
    ensures LexLe(a, c)
  {
    if |a| > 0 && a[0] == b[0] && b[0] == c[0] {
      LexLeTransitive(a[1..], b[1..], c[1..]);
    }
  }

  predicate SortedNames(s: seq<string>)
  {
    forall i, j :: 0 <= i < j < |s| ==> LexLe(s[i], s[j])
  }

  function InsertName(x: string, s: seq<string>): (r: seq<string>)
    requires SortedNames(s)
    ensures SortedNames(r)
    ensures multiset(r) == multiset(s) + multiset{x}
  {
    if |s| == 0 then [x]
    else if LexLe(x, s[0]) then
      InsertFront(x, s);
      [x] + s
    else
      var t := InsertName(x, s[1..]);
      InsertBehind(x, s, t);
      [s[0]] + t
  }

  /** A name no later than the first of a sorted list goes in front of it. */
  lemma InsertFront(x: string, s: seq<string>)
    requires SortedNames(s) && |s| > 0 && LexLe(x, s[0])
    ensures SortedNames([x] + s)
  {
    var r := [x] + s;
    forall i, j | 0 <= i < j < |r| ensures LexLe(r[i], r[j]) {
      if i == 0 && j > 1 {
        LexLeTransitive(x, s[0], s[j - 1]);
      }
    }
  }

  /** A name later than the head of a sorted list goes into its tail. */
  lemma InsertBehind(x: string, s: seq<string>, t: seq<string>)
    requires SortedNames(s) && |s| > 0 && !LexLe(x, s[0])
    requires SortedNames(t) && multiset(t) == multiset(s[1..]) + multiset{x}
    ensures SortedNames([s[0]] + t)
    ensures multiset([s[0]] + t) == multiset(s) + multiset{x}
  {
    LexLeTotal(x, s[0]);
    assert s == [s[0]] + s[1..];
    forall j | 0 <= j < |t| ensures LexLe(s[0], t[j]) {
      assert t[j] in multiset(t);
      if t[j] != x {
        assert t[j] in s[1..];
      }
    }
    var r := [s[0]] + t;
    forall i, j | 0 <= i < j < |r| ensures LexLe(r[i], r[j]) {
      if i == 0 {
        assert r[j] == t[j - 1];
      } else {
        assert r[i] == t[i - 1] && r[j] == t[j - 1];
      }
    }
  }

  /** `sorted(names)`: a sorted permutation of the names. */
  function SortNames(names: seq<string>): (r: seq<string>)
    ensures SortedNames(r)
    ensures multiset(r) == multiset(names)
  {
    if |names| == 0 then []
    else
      assert names == [names[0]] + names[1..];
      InsertName(names[0], SortNames(names[1..]))
  }
}

/**
 * Text operations the database performs for the catalog: the case-insensitive
 * substring test behind `icontains`, and the decimal rendering of a primary key
 * used when a throttle cache key is formatted.
 */
module Text {

  /**
   * Upper-case mapping of one character, for Latin and Russian letters (the
   * catalog's languages); every other character maps to itself.
   */
  function Upper(c: char): char
  {
    if 'a' <= c <= 'z' then (c as int - 32) as char
    else if 'а' <= c <= 'я' then (c as int - 32) as char
    else if c == 'ё' then 'Ё'
    else c
  }

  /** The string with every character upper-cased. */
  function Fold(s: string): string
  {
    seq(|s|, i requires 0 <= i < |s| => Upper(s[i]))
  }

  /** `t` occurs in `s` starting at index `i`. */
  ghost predicate OccursAt(t: string, s: string, i: int)
  {
    0 <= i && i + |t| <= |s| && s[i..i + |t|] == t
  }

  /** `t` is a prefix of `s`. */
  predicate IsPrefix(t: string, s: string)
  {
    |t| <= |s| && s[..|t|] == t
  }

  /** Substring test (SQL `LIKE '%t%'`), decided by scanning `s` from the left. */
  function Contains(s: string, t: string): (b: bool)
    ensures b <==> exists i :: OccursAt(t, s, i)
    decreases |s|
  {
    if |t| > |s| then
      false
    else if IsPrefix(t, s) then
      assert OccursAt(t, s, 0);
      true
    else
      var rest := Contains(s[1..], t);
      assert rest ==> exists i :: OccursAt(t, s, i) by {
        if rest {
          var i :| OccursAt(t, s[1..], i);
          assert s[i + 1..i + 1 + |t|] == s[1..][i..i + |t|];
          assert OccursAt(t, s, i + 1);
        }
      }
      assert (exists i :: OccursAt(t, s, i)) ==> rest by {
        if exists i :: OccursAt(t, s, i) {
          var i :| OccursAt(t, s, i);
          assert i != 0;
          assert s[1..][i - 1..i - 1 + |t|] == s[i..i + |t|];
          assert OccursAt(t, s[1..], i - 1);
        }
      }
      rest
  }

  /** `icontains`: `q` occurs in `s` when both are upper-cased. */
  predicate IContains(s: string, q: string)
  {
    Contains(Fold(s), Fold(q))
  }

  /** The empty query is contained in every string. */
  lemma EmptyQueryMatchesAll(s: string)
    ensures IContains(s, "")
  {
    assert OccursAt(Fold(""), Fold(s), 0);
  }

  /** An exact occurrence is also a case-insensitive one. */
  lemma ContainsImpliesIContains(s: string, q: string)
    requires Contains(s, q)
    ensures IContains(s, q)
  {
    var i :| OccursAt(q, s, i);
    assert Fold(s)[i..i + |q|] == Fold(q);
    assert OccursAt(Fold(q), Fold(s), i);
  }

  /** Case does not matter: upper-casing the text or the query never changes the answer. */
  lemma IContainsIgnoresCase(s: string, q: string)
    ensures IContains(s, q) == IContains(Fold(s), q) == IContains(s, Fold(q))
  {
    UpperIdempotent(s);
    UpperIdempotent(q);
  }

  /** Upper-casing twice is upper-casing once. */
  lemma UpperIdempotent(s: string)
    ensures Fold(Fold(s)) == Fold(s)
  {
    forall i | 0 <= i < |s| ensures Upper(Upper(s[i])) == Upper(s[i]) {
    }
  }

  predicate IsDigit(c: char)
  {
    '0' <= c <= '9'
  }

  function DigitChar(d: nat): (c: char)
    requires d < 10
    ensures IsDigit(c)
  {
    ('0' as int + d) as char
  }

  /** Python's `str(n)` for a non-negative integer: its decimal digits. */
  function NatToString(n: nat): (s: string)
    ensures |s| >= 1
    ensures forall i :: 0 <= i < |s| ==> IsDigit(s[i])
    ensures n >= 10 ==> |s| >= 2
  {
    if n < 10 then [DigitChar(n)] else NatToString(n / 10) + [DigitChar(n % 10)]
  }

  /** Distinct numbers have distinct decimal renderings. */
  lemma {:induction false} NatToStringInjective(a: nat, b: nat)
    requires NatToString(a) == NatToString(b)
    ensures a == b
  {
    if a >= 10 && b >= 10 {
      var sa, sb := NatToString(a), NatToString(b);
      assert sa[|sa| - 1] == DigitChar(a % 10);
      assert sb[|sb| - 1] == DigitChar(b % 10);
      assert sa[..|sa| - 1] == NatToString(a / 10);
      assert sb[..|sb| - 1] == NatToString(b / 10);
      NatToStringInjective(a / 10, b / 10);
    }
  }
}

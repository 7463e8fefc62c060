/**
 * The string operations the store's search and log messages rely on:
 * lower-casing, substring search and the decimal rendering of a count.
 */
module Text {

  /** Lower-cases one ASCII letter; every other character is kept. */
  function LowerChar(c: char): char
  {
    if 'A' <= c <= 'Z' then (c as int + 32) as char else c
  }

  /** `String.prototype.toLowerCase`, on the ASCII letters. */
  function Lower(s: string): (r: string)
    ensures |r| == |s|
    ensures forall k :: 0 <= k < |r| ==> !('A' <= r[k] <= 'Z')
    ensures forall k :: 0 <= k < |r| && !('A' <= s[k] <= 'Z') ==> r[k] == s[k]
    ensures forall k :: 0 <= k < |r| && 'A' <= s[k] <= 'Z' ==> r[k] == (s[k] as int + 32) as char
  {
    seq(|s|, k requires 0 <= k < |s| => LowerChar(s[k]))
  }

  /** `c` and `d` are the same character up to ASCII case. */
  predicate SameLetter(c: char, d: char)
  {
    || c == d
    || ('A' <= c <= 'Z' && d as int == c as int + 32)
    || ('A' <= d <= 'Z' && c as int == d as int + 32)
  }

  /** Strings that differ only in the case of their letters lower-case to the same string. */
  lemma LowerIgnoresCase(a: string, b: string)
    requires |a| == |b| && forall k :: 0 <= k < |a| ==> SameLetter(a[k], b[k])
    ensures Lower(a) == Lower(b)
  {
    forall k | 0 <= k < |a|
      ensures Lower(a)[k] == Lower(b)[k]
    {
      assert SameLetter(a[k], b[k]);
    }
  }

  lemma LowerIdempotent(s: string)
    ensures Lower(Lower(s)) == Lower(s)
  {
  }

  /** `needle` occurs in `hay` starting at position `i`. */
  predicate OccursAt(hay: string, needle: string, i: int)
  {
    0 <= i && i + |needle| <= |hay| && hay[i..i + |needle|] == needle
  }

  /** `String.prototype.includes`: does `needle` occur anywhere in `hay`? */
  function Includes(hay: string, needle: string): (r: bool)
    ensures r ==> |needle| <= |hay|
    decreases |hay|
  {
    if |needle| > |hay| then false
    else if needle <= hay then true
    else Includes(hay[1..], needle)
  }

  /** `Includes` finds an occurrence exactly when there is one. */
  lemma {:induction false} IncludesIff(hay: string, needle: string)
    ensures Includes(hay, needle) <==> exists i :: OccursAt(hay, needle, i)
    decreases |hay|
  {
    if |needle| > |hay| {
      forall i | OccursAt(hay, needle, i) ensures false { }
    } else if needle <= hay {
      assert OccursAt(hay, needle, 0);
    } else {
      IncludesIff(hay[1..], needle);
      if Includes(hay[1..], needle) {
        var i :| OccursAt(hay[1..], needle, i);
        assert hay[i + 1..i + 1 + |needle|] == hay[1..][i..i + |needle|];
        assert OccursAt(hay, needle, i + 1);
      } else {
        forall i | OccursAt(hay, needle, i) ensures false {
          if i > 0 {
            assert hay[1..][i - 1..i - 1 + |needle|] == hay[i..i + |needle|];
            assert OccursAt(hay[1..], needle, i - 1);
          }
        }
      }
    }
  }

  /** The empty string occurs in every string, so an empty search term matches everything. */
  lemma IncludesEmpty(hay: string)
    ensures Includes(hay, "")
  {
  }

  function DigitChar(d: nat): char
    requires d < 10
  {
    ('0' as int + d) as char
  }

  /** The decimal rendering of a count, as a template string `${n}` gives it. */
  function Decimal(n: nat): (r: string)
    ensures |r| >= 1
    ensures forall k :: 0 <= k < |r| ==> '0' <= r[k] <= '9'
    ensures n > 0 ==> r[0] != '0'
    decreases n
  {
    if n < 10 then [DigitChar(n)] else Decimal(n / 10) + [DigitChar(n % 10)]
  }

  /** The number a string of decimal digits denotes. */
  function DecimalValue(s: string): int
  {
    if s == [] then 0
    else DecimalValue(s[..|s| - 1]) * 10 + (s[|s| - 1] as int - '0' as int)
  }

  /** The rendering of a count reads back as that count. */
  lemma {:induction false} DecimalRoundTrip(n: nat)
    ensures DecimalValue(Decimal(n)) == n
    decreases n
  {
    if n >= 10 {
      var s := Decimal(n);
      assert s[..|s| - 1] == Decimal(n / 10);
      DecimalRoundTrip(n / 10);
    }
  }
}

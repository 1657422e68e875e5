/** String operations the analysis script relies on: Python's `str.split`
    with a one-character separator, the substring test `pat in s`, and the
    decimal digit fields that `strptime` reads. */
module Text {

  /** `s.split(sep)` for a one-character separator: the pieces between
      occurrences of `sep`, always at least one (possibly empty) piece. */
  function Split(s: string, sep: char): (parts: seq<string>)
    ensures |parts| >= 1
    ensures forall i :: 0 <= i < |parts| ==> sep !in parts[i]
    decreases |s|
  {
    if s == [] then [[]]
    else
      var tail := Split(s[1..], sep);
      if s[0] == sep then [[]] + tail
      else [[s[0]] + tail[0]] + tail[1..]
  }

  /** `sep.join(parts)`, the inverse of `Split`. */
  function Join(parts: seq<string>, sep: char): string
    requires |parts| >= 1
  {
    if |parts| == 1 then parts[0] else parts[0] + [sep] + Join(parts[1..], sep)
  }

  /** Number of occurrences of `c` in `s`. */
  function CountOf(s: string, c: char): nat
  {
    if s == [] then 0 else (if s[0] == c then 1 else 0) + CountOf(s[1..], c)
  }

  /** Splitting loses nothing: joining the pieces gives back the string. */
  lemma {:induction false} JoinSplit(s: string, sep: char)
    ensures Join(Split(s, sep), sep) == s
    decreases |s|
  {
    if s != [] {
      JoinSplit(s[1..], sep);
      var tail := Split(s[1..], sep);
      if s[0] == sep {
        assert Split(s, sep)[1..] == tail;
      } else {
        var parts := Split(s, sep);
        assert parts[1..] == tail[1..];
        if |tail| == 1 {
          assert Join(parts, sep) == [s[0]] + tail[0];
        } else {
          assert Join(tail, sep) == tail[0] + [sep] + Join(tail[1..], sep);
          assert Join(parts, sep) == ([s[0]] + tail[0]) + [sep] + Join(tail[1..], sep);
        }
      }
    }
  }

  /** There is one more piece than there are separators. */
  lemma {:induction false} SplitCount(s: string, sep: char)
    ensures |Split(s, sep)| == CountOf(s, sep) + 1
    decreases |s|
  {
    if s != [] {
      SplitCount(s[1..], sep);
    }
  }

  /** `s.split(sep)[0]` is the text before the first `sep`: a prefix of `s`
      free of `sep`, followed in `s` by `sep` unless it is all of `s`, and it
      is all of `s` exactly when `s` holds no `sep`. */
  lemma {:induction false} SplitHead(s: string, sep: char)
    ensures var head := Split(s, sep)[0];
      && head <= s
      && sep !in head
      && (|head| < |s| ==> s[|head|] == sep)
      && (head == s <==> sep !in s)
    decreases |s|
  {
    if s != [] && s[0] != sep {
      SplitHead(s[1..], sep);
      var head := Split(s, sep)[0];
      assert head == [s[0]] + Split(s[1..], sep)[0];
      assert sep in s[1..] ==> sep in s by {
        if sep in s[1..] {
          var k :| 0 <= k < |s[1..]| && s[1..][k] == sep;
          assert s[k + 1] == sep;
        }
      }
      assert sep in s ==> sep in s[1..] by {
        if sep in s {
          var k :| 0 <= k < |s| && s[k] == sep;
          assert k > 0 && s[1..][k - 1] == sep;
        }
      }
    }
  }

  /** A separator-free prefix followed by the separator splits off as the
      first piece. */
  lemma {:induction false} SplitCons(a: string, sep: char, rest: string)
    requires sep !in a
    ensures Split(a + [sep] + rest, sep) == [a] + Split(rest, sep)
    decreases |a|
  {
    if a == [] {
      assert a + [sep] + rest == [sep] + rest;
      assert ([sep] + rest)[1..] == rest;
    } else {
      SplitCons(a[1..], sep, rest);
      assert (a + [sep] + rest)[1..] == a[1..] + [sep] + rest;
      assert [a[0]] + a[1..] == a;
    }
  }

  /** A string without the separator splits into itself alone. */
  lemma {:induction false} SplitNone(s: string, sep: char)
    requires sep !in s
    ensures Split(s, sep) == [s]
    decreases |s|
  {
    if s != [] {
      SplitNone(s[1..], sep);
      assert [s[0]] + s[1..] == s;
    }
  }

  /** Python's `pat in s`: `pat` occurs somewhere in `s` as a contiguous
      run (the empty pattern occurs everywhere). */
  function Contains(s: string, pat: string): (found: bool)
    ensures found ==> |pat| <= |s|
    ensures |pat| <= |s| && s[|s| - |pat|..] == pat ==> found
    decreases |s|
  {
    if |s| < |pat| then false
    else if s[..|pat|] == pat then true
    else
      assert |s| == |pat| ==> s[|s| - |pat|..] == s[..|pat|];
      assert |s| > |pat| ==> s[1..][|s| - 1 - |pat|..] == s[|s| - |pat|..];
      Contains(s[1..], pat)
  }

  /** `pat` occurs in `s` starting at index `i`. */
  ghost predicate OccursAt(s: string, pat: string, i: int)
  {
    0 <= i && i + |pat| <= |s| && s[i..i + |pat|] == pat
  }

  /** The scanning test agrees with the positional definition of a
      substring, in both directions. */
  lemma {:induction false} ContainsIff(s: string, pat: string)
    ensures Contains(s, pat) <==> exists i :: OccursAt(s, pat, i)
    decreases |s|
  {
    if s == [] {
      if pat == [] {
        assert OccursAt(s, pat, 0);
      }
    } else if |s| >= |pat| {
      ContainsIff(s[1..], pat);
      if Contains(s, pat) {
        if s[..|pat|] == pat {
          assert OccursAt(s, pat, 0);
        } else {
          var i :| OccursAt(s[1..], pat, i);
          assert s[i + 1..i + 1 + |pat|] == s[1..][i..i + |pat|];
          assert OccursAt(s, pat, i + 1);
        }
      }
      if exists i :: OccursAt(s, pat, i) {
        var i :| OccursAt(s, pat, i);
        if i > 0 {
          assert s[1..][i - 1..i - 1 + |pat|] == s[i..i + |pat|];
          assert OccursAt(s[1..], pat, i - 1);
        }
      }
    }
  }

  predicate IsDigit(c: char)
  {
    '0' <= c <= '9'
  }

  predicate AllDigits(s: string)
  {
    forall i :: 0 <= i < |s| ==> IsDigit(s[i])
  }

  function Pow10(k: nat): (p: nat)
    ensures p >= 1
  {
    if k == 0 then 1 else 10 * Pow10(k - 1)
  }

  /** Decimal value of a run of ASCII digits, most significant first. */
  function DigitsValue(s: string): (n: nat)
    requires AllDigits(s)
    ensures n < Pow10(|s|)
    decreases |s|
  {
    if s == [] then 0
    else DigitsValue(s[..|s| - 1]) * 10 + (s[|s| - 1] as int - '0' as int)
  }

  /** The `width` lowest decimal digits of `n`, zero-padded on the left. */
  function PadDigits(n: nat, width: nat): (s: string)
    ensures |s| == width && AllDigits(s)
  {
    if width == 0 then []
    else PadDigits(n / 10, width - 1) + [('0' as int + n % 10) as char]
  }

  /** Reading back a zero-padded number that fits its width gives the number. */
  lemma {:induction false} DigitsRoundTrip(n: nat, width: nat)
    requires n < Pow10(width)
    ensures DigitsValue(PadDigits(n, width)) == n
  {
    if width > 0 {
      DigitsRoundTrip(n / 10, width - 1);
      var s := PadDigits(n, width);
      assert s[..|s| - 1] == PadDigits(n / 10, width - 1);
    }
  }

}

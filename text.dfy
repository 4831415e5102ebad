/**
 * The string operations the bot and the web page rely on: lower-casing, substring search,
 * splitting on one character, first-occurrence replacement and decimal digits.
 */
module Text {
  import opened Wrappers

  // ---------------------------------------------------------------------------
  // Lower case
  // ---------------------------------------------------------------------------

  /**
   * One character as Python's `str.lower` maps it, for the alphabets the bot meets:
   * ASCII capitals, Latin-1 capitals (U+00C0..U+00DE except the sign U+00D7) and the
   * Cyrillic capitals U+0400..U+042F (U+0400..U+040F, such as Ё, map 80 code points up;
   * U+0410..U+042F, А..Я, map 32 up). Every other character is left as it is.
   */
  function LowerChar(c: char): char
  {
    if 'A' <= c <= 'Z' then (c as int + 32) as char
    else if '\U{00C0}' <= c <= '\U{00DE}' && c != '\U{00D7}' then (c as int + 32) as char
    else if '\U{0410}' <= c <= '\U{042F}' then (c as int + 32) as char
    else if '\U{0400}' <= c <= '\U{040F}' then (c as int + 80) as char
    else c
  }

  /** Python's `s.lower()`, character by character. */
  function Lower(s: string): (r: string)
    ensures |r| == |s|
    ensures forall i :: 0 <= i < |s| ==> r[i] == LowerChar(s[i])
  {
    if s == [] then [] else [LowerChar(s[0])] + Lower(s[1..])
  }

  /** Lower-casing twice is lower-casing once. */
  lemma LowerIdempotent(s: string)
    ensures Lower(Lower(s)) == Lower(s)
  {
    assert forall i :: 0 <= i < |s| ==> LowerChar(LowerChar(s[i])) == LowerChar(s[i]);
  }

  // ---------------------------------------------------------------------------
  // Substrings
  // ---------------------------------------------------------------------------

  predicate IsPrefix(p: string, s: string)
  {
    |p| <= |s| && s[..|p|] == p
  }

  /** `pat` occurs in `s` starting at index `i`. */
  predicate OccursAt(s: string, pat: string, i: int)
  {
    0 <= i && i + |pat| <= |s| && s[i..i + |pat|] == pat
  }

  /** Python's `pat in s` (and `s.count(pat) >= 1`). */
  predicate Contains(s: string, pat: string)
    decreases |s|
  {
    IsPrefix(pat, s) || (s != [] && Contains(s[1..], pat))
  }

  /** `Contains` is exactly "occurs at some index". */
  lemma {:induction false} ContainsIffOccurs(s: string, pat: string)
    ensures Contains(s, pat) <==> exists i :: OccursAt(s, pat, i)
    decreases |s|
  {
    if s == [] {
      if pat == [] {
        assert OccursAt(s, pat, 0);
      }
    } else {
      ContainsIffOccurs(s[1..], pat);
      if IsPrefix(pat, s) {
        assert OccursAt(s, pat, 0);
      }
      if Contains(s[1..], pat) {
        var i :| OccursAt(s[1..], pat, i);
        assert s[1..][i..i + |pat|] == s[i + 1..i + 1 + |pat|];
        assert OccursAt(s, pat, i + 1);
      }
      forall i | OccursAt(s, pat, i) && 0 < i ensures Contains(s[1..], pat) {
        assert s[1..][i - 1..i - 1 + |pat|] == s[i..i + |pat|];
        assert OccursAt(s[1..], pat, i - 1);
      }
    }
  }

  // ---------------------------------------------------------------------------
  // Split and join
  // ---------------------------------------------------------------------------

  /** Python's `s.split(sep)` and JavaScript's `s.split(sep)` for a one-character separator. */
  function Split(s: string, sep: char): (parts: seq<string>)
    ensures |parts| >= 1
    ensures forall k :: 0 <= k < |parts| ==> sep !in parts[k]
    decreases |s|
  {
    if s == [] then [""]
    else
      var rest := Split(s[1..], sep);
      if s[0] == sep then [""] + rest
      else [[s[0]] + rest[0]] + rest[1..]
  }

  /** Python's `sep.join(parts)`. */
  function Join(parts: seq<string>, sep: string): string
  {
    if parts == [] then ""
    else if |parts| == 1 then parts[0]
    else parts[0] + sep + Join(parts[1..], sep)
  }

  /** Joining the fields of a split restores the string. */
  lemma {:induction false} JoinSplit(s: string, sep: char)
    ensures Join(Split(s, sep), [sep]) == s
    decreases |s|
  {
    if s != [] {
      var rest := Split(s[1..], sep);
      JoinSplit(s[1..], sep);
      if s[0] == sep {
        assert Split(s, sep) == [""] + rest;
        assert ([""] + rest)[1..] == rest;
      } else if |rest| == 1 {
        assert Split(s, sep) == [[s[0]] + rest[0]];
        assert s == [s[0]] + s[1..];
      } else {
        var parts := Split(s, sep);
        assert parts == [[s[0]] + rest[0]] + rest[1..];
        assert parts[1..] == rest[1..];
        assert Join(rest, [sep]) == rest[0] + [sep] + Join(rest[1..], [sep]);
        assert s == [s[0]] + s[1..];
      }
    }
  }

  /** Splitting a separator-free prefix onto what follows it. */
  lemma {:induction false} SplitSeparatorFreePrefix(p: string, t: string, sep: char)
    requires sep !in p
    ensures Split(p + t, sep) == [p + Split(t, sep)[0]] + Split(t, sep)[1..]
    decreases |p|
  {
    if p != [] {
      assert (p + t)[1..] == p[1..] + t;
      assert (p + t)[0] == p[0];
      SplitSeparatorFreePrefix(p[1..], t, sep);
      assert [p[0]] + (p[1..] + Split(t, sep)[0]) == p + Split(t, sep)[0];
    } else {
      var parts := Split(t, sep);
      assert p + t == t;
      assert parts == [parts[0]] + parts[1..];
      assert p + parts[0] == parts[0];
    }
  }

  /** The first field of a split is a prefix of the text. */
  lemma {:induction false} SplitFirstIsPrefix(t: string, sep: char)
    ensures IsPrefix(Split(t, sep)[0], t)
    decreases |t|
  {
    if t != [] && t[0] != sep {
      SplitFirstIsPrefix(t[1..], sep);
      assert t == [t[0]] + t[1..];
    }
  }

  /** Splitting the join of separator-free fields gives back the fields. */
  lemma {:induction false} SplitJoin(parts: seq<string>, sep: char)
    requires |parts| >= 1
    requires forall k :: 0 <= k < |parts| ==> sep !in parts[k]
    ensures Split(Join(parts, [sep]), sep) == parts
    decreases |parts|
  {
    if |parts| == 1 {
      SplitSeparatorFreePrefix(parts[0], "", sep);
      assert parts[0] + "" == parts[0];
    } else {
      var tail := Join(parts[1..], [sep]);
      SplitJoin(parts[1..], sep);
      var t := [sep] + tail;
      assert Split(t, sep) == [""] + Split(tail, sep) by {
        assert t[1..] == tail;
      }
      assert Join(parts, [sep]) == parts[0] + t;
      SplitSeparatorFreePrefix(parts[0], t, sep);
      assert parts[0] + "" == parts[0];
      assert ([""] + parts[1..])[1..] == parts[1..];
    }
  }

  /** JavaScript's `s.split(sep).pop()`: the text after the last separator. */
  function LastField(s: string, sep: char): (r: string)
    ensures sep !in r
  {
    var parts := Split(s, sep);
    parts[|parts| - 1]
  }

  /** A text ending in a separator and a separator-free field splits into at least two fields, the last being that field. */
  lemma {:induction false} SplitEndsWith(p: string, field: string, sep: char)
    requires sep !in field
    ensures var parts := Split(p + [sep] + field, sep); |parts| >= 2 && parts[|parts| - 1] == field
    decreases |p|
  {
    var s := p + [sep] + field;
    if p == [] {
      assert s[1..] == field;
      SplitSeparatorFreePrefix(field, "", sep);
      assert field + "" == field;
    } else {
      SplitEndsWith(p[1..], field, sep);
      assert s[1..] == p[1..] + [sep] + field;
      var rest := Split(s[1..], sep);
      var parts := Split(s, sep);
      if s[0] == sep {
        assert parts == [""] + rest;
      } else {
        assert parts == [[s[0]] + rest[0]] + rest[1..];
      }
      assert parts[|parts| - 1] == rest[|rest| - 1];
    }
  }

  /** The last field of a text is what follows its last separator. */
  lemma LastFieldAfterSeparator(p: string, field: string, sep: char)
    requires sep !in field
    ensures LastField(p + [sep] + field, sep) == field
  {
    SplitEndsWith(p, field, sep);
  }

  // ---------------------------------------------------------------------------
  // Replacement
  // ---------------------------------------------------------------------------

  /** JavaScript's `s.replace(pat, rep)` with a string pattern: only the first occurrence. */
  function ReplaceFirst(s: string, pat: string, rep: string): string
    decreases |s|
  {
    if IsPrefix(pat, s) then rep + s[|pat|..]
    else if s == [] then s
    else [s[0]] + ReplaceFirst(s[1..], pat, rep)
  }

  /** Replacing the first occurrence of a character replaces the one after a text free of it. */
  lemma {:induction false} ReplaceFirstChar(a: string, c: char, t: string, rep: string)
    requires c !in a
    ensures ReplaceFirst(a + [c] + t, [c], rep) == a + rep + t
    decreases |a|
  {
    var s := a + [c] + t;
    if a == [] {
      assert s[..1] == [c];
      assert s[1..] == t;
    } else {
      assert !IsPrefix([c], s) by {
        assert s[..1] == [a[0]] && a[0] != c;
      }
      assert s[1..] == a[1..] + [c] + t;
      ReplaceFirstChar(a[1..], c, t, rep);
      assert ReplaceFirst(s, [c], rep) == [a[0]] + (a[1..] + rep + t);
      assert [a[0]] + (a[1..] + rep + t) == a + rep + t;
    }
  }

  /** Python's `s.replace(c, rep)` for a one-character pattern: every occurrence. */
  function ReplaceChar(s: string, c: char, rep: string): string
  {
    if s == [] then []
    else (if s[0] == c then rep else [s[0]]) + ReplaceChar(s[1..], c, rep)
  }

  // ---------------------------------------------------------------------------
  // Decimal digits
  // ---------------------------------------------------------------------------

  predicate IsDigit(c: char)
  {
    '0' <= c <= '9'
  }

  predicate IsDigits(s: string)
  {
    forall i :: 0 <= i < |s| ==> IsDigit(s[i])
  }

  function DigitValue(c: char): nat
    requires IsDigit(c)
  {
    c as int - '0' as int
  }

  function DigitChar(d: nat): (c: char)
    requires d < 10
    ensures IsDigit(c) && DigitValue(c) == d
  {
    ('0' as int + d) as char
  }

  /** The number a string of decimal digits denotes (leading zeros allowed, as in `int("0800")`). */
  function DigitsValue(s: string): nat
    requires IsDigits(s)
    decreases |s|
  {
    if s == [] then 0 else DigitsValue(s[..|s| - 1]) * 10 + DigitValue(s[|s| - 1])
  }

  /** The value of the first `k + 1` digits extends that of the first `k` by one digit. */
  lemma DigitsValueStep(s: string, k: nat)
    requires IsDigits(s) && k < |s|
    ensures DigitsValue(s[..k + 1]) == DigitsValue(s[..k]) * 10 + DigitValue(s[k])
  {
    assert s[..k + 1][..k] == s[..k];
  }

  /** Python's `int(s)` on a captured group: a number for a non-empty digit string, `None` where `int` raises. */
  function ParseInt(s: string): (r: Option<int>)
    ensures r.Some? <==> s != [] && IsDigits(s)
    ensures r.Some? ==> r.value == DigitsValue(s)
  {
    if s != [] && IsDigits(s) then Some(DigitsValue(s)) else None
  }

  /** Python's `str(n)` for a natural number: no leading zero. */
  function DecimalText(n: nat): (s: string)
    ensures s != [] && IsDigits(s)
    ensures DigitsValue(s) == n
    ensures |s| > 1 ==> s[0] != '0'
    ensures ParseInt(s) == Some(n)
    decreases n
  {
    if n < 10 then [DigitChar(n)]
    else
      var high := DecimalText(n / 10);
      var s := high + [DigitChar(n % 10)];
      assert s[..|s| - 1] == high;
      s
  }

  /** Python's `f"{n:02d}"` (and `strftime`'s `%d` and `%m`) for `0 <= n < 100`. */
  function Pad2(n: nat): (s: string)
    requires n < 100
    ensures |s| == 2 && IsDigits(s) && DigitsValue(s) == n
    ensures ParseInt(s) == Some(n)
  {
    var s := [DigitChar(n / 10), DigitChar(n % 10)];
    assert s[..1] == [DigitChar(n / 10)];
    assert s[..1][..0] == [];
    assert DigitsValue(s[..1]) == n / 10;
    s
  }
}

/** The string operations the source relies on: `toLowerCase`, `includes`,
    `trim`, `split`, `join`, number-to-string conversion, and the order of
    strings character by character, which stands for the order that
    `Array.prototype.sort()` uses when given no comparator. */
module Text {
  import opened Seqs

  /** `toLowerCase` restricted to ASCII letters. */
  function LowerChar(c: char): char {
    if 'A' <= c <= 'Z' then (c as int + 32) as char else c
  }

  function Lower(s: string): (r: string)
    ensures |r| == |s|
  {
    if s == [] then [] else [LowerChar(s[0])] + Lower(s[1..])
  }

  /** Lower-casing works character by character. */
  lemma {:induction false} LowerAt(s: string)
    ensures forall i :: 0 <= i < |s| ==> Lower(s)[i] == LowerChar(s[i])
  {
    if s != [] {
      LowerAt(s[1..]);
    }
  }

  /** Lower-casing twice is lower-casing once. */
  lemma {:induction false} LowerIdempotent(s: string)
    ensures Lower(Lower(s)) == Lower(s)
  {
    if s != [] {
      LowerIdempotent(s[1..]);
      assert Lower(s)[1..] == Lower(s[1..]);
    }
  }

  /** `s.includes(sub)`: `sub` is a prefix of `s` or occurs in its tail. */
  predicate Contains(s: string, sub: string)
    decreases |s|
  {
    sub <= s || (s != [] && Contains(s[1..], sub))
  }

  /** An occurrence at offset `i` is an occurrence. */
  lemma {:induction false} ContainsAt(s: string, sub: string, i: nat)
    requires i <= |s| && sub <= s[i..]
    ensures Contains(s, sub)
    decreases i
  {
    if i > 0 {
      assert s[1..][i - 1..] == s[i..];
      ContainsAt(s[1..], sub, i - 1);
    }
  }

  /** An occurrence has an offset. */
  lemma {:induction false} ContainsOffset(s: string, sub: string) returns (i: nat)
    requires Contains(s, sub)
    ensures i <= |s| && sub <= s[i..]
    decreases |s|
  {
    if sub <= s {
      i := 0;
    } else {
      var j := ContainsOffset(s[1..], sub);
      assert s[1..][j..] == s[j + 1..];
      i := j + 1;
    }
  }

  /** Every string contains itself. */
  lemma ContainsSelf(s: string)
    ensures Contains(s, s)
  {
  }

  /** The characters `String.prototype.trim` removes: ECMAScript's
      WhiteSpace and LineTerminator code points. */
  predicate IsJsWhitespace(c: char) {
    c == '\t' || c == '\n' || c == '\U{000B}' || c == '\U{000C}' || c == '\r' || c == ' '
    || c == '\U{00A0}' || c == '\U{1680}' || ('\U{2000}' <= c <= '\U{200A}')
    || c == '\U{2028}' || c == '\U{2029}' || c == '\U{202F}' || c == '\U{205F}'
    || c == '\U{3000}' || c == '\U{FEFF}'
  }

  /** `!s.trim()`: nothing is left once whitespace is trimmed. */
  predicate IsBlank(s: string) {
    forall i :: 0 <= i < |s| ==> IsJsWhitespace(s[i])
  }

  /** `parts.join(sep)`. */
  function Join(parts: seq<string>, sep: string): string
    decreases |parts|
  {
    if parts == [] then ""
    else if |parts| == 1 then parts[0]
    else parts[0] + sep + Join(parts[1..], sep)
  }

  /** The first part starts the joined string. */
  lemma JoinFirstPart(parts: seq<string>, sep: string)
    requires parts != []
    ensures parts[0] <= Join(parts, sep)
  {
    if |parts| > 1 {
      assert Join(parts, sep) == parts[0] + (sep + Join(parts[1..], sep));
    }
  }

  /** `s.split(sep)` for a one-character separator: the maximal runs of
      characters other than `sep`, empty runs included; joining them back
      with `sep` gives `s`. */
  function Split(s: string, sep: char): (parts: seq<string>)
    ensures |parts| >= 1
    ensures forall p :: p in parts ==> sep !in p
    ensures Join(parts, [sep]) == s
    decreases |s|
  {
    if s == [] then [""]
    else
      var rest := Split(s[1..], sep);
      if s[0] == sep then
        assert Join([""] + rest, [sep]) == [sep] + Join(rest, [sep]) by {
          assert ([""] + rest)[1..] == rest;
        }
        [""] + rest
      else
        var parts := [[s[0]] + rest[0]] + rest[1..];
        assert Join(parts, [sep]) == [s[0]] + Join(rest, [sep]) by {
          assert parts[1..] == rest[1..];
          if |rest| > 1 {
            assert Join(rest, [sep]) == rest[0] + [sep] + Join(rest[1..], [sep]);
          }
        }
        parts
  }

  /** `query.split(' ').filter(term => term.length > 0)`: the non-empty
      space-free pieces of `s`. */
  function Terms(s: string): (terms: seq<string>)
    ensures forall t :: t in terms ==> t != "" && ' ' !in t
  {
    Filter(Split(s, ' '), (t: string) => t != "")
  }

  /** Each term occurs in the string it came from, and a string holding any
      character other than a space has at least one term. */
  lemma TermsOccur(s: string)
    ensures forall t :: t in Terms(s) ==> Contains(s, t)
    ensures (exists i :: 0 <= i < |s| && s[i] != ' ') ==> Terms(s) != []
  {
    JoinContainsPart(Split(s, ' '), " ");
    SomePartNonEmpty(s);
  }

  /** A character other than a space lies in some non-empty piece. */
  lemma SomePartNonEmpty(s: string)
    ensures (exists i :: 0 <= i < |s| && s[i] != ' ') ==> exists p :: p in Split(s, ' ') && p != ""
  {
    if i :| 0 <= i < |s| && s[i] != ' ' {
      JoinMembers(Split(s, ' '), " ", s[i]);
    }
  }

  /** Occurring in is transitive. */
  lemma ContainsTransitive(a: string, b: string, c: string)
    requires Contains(a, b) && Contains(b, c)
    ensures Contains(a, c)
  {
    var i := ContainsOffset(a, b);
    var j := ContainsOffset(b, c);
    assert c <= a[i + j..] by {
      forall k | 0 <= k < |c|
        ensures c[k] == a[i + j + k]
      {
        assert c[k] == b[j + k];
        assert b[j + k] == a[i..][j + k];
      }
    }
    ContainsAt(a, c, i + j);
  }

  /** Every part occurs in the joined string. */
  lemma {:induction false} JoinContainsPart(parts: seq<string>, sep: string)
    ensures forall p :: p in parts ==> Contains(Join(parts, sep), p)
    decreases |parts|
  {
    if parts != [] {
      var whole := Join(parts, sep);
      ContainsAt(whole, parts[0], 0);
      if |parts| > 1 {
        var rest := Join(parts[1..], sep);
        JoinContainsPart(parts[1..], sep);
        var off := |parts[0] + sep|;
        assert rest <= whole[off..];
        ContainsAt(whole, rest, off);
        forall p | p in parts[1..]
          ensures Contains(whole, p)
        {
          ContainsTransitive(whole, rest, p);
        }
      }
    }
  }

  /** A character of a joined string comes from a part or from the separator. */
  lemma {:induction false} JoinMembers(parts: seq<string>, sep: string, c: char)
    requires c in Join(parts, sep)
    ensures c in sep || exists p :: p in parts && c in p
    decreases |parts|
  {
    if |parts| > 1 && c !in parts[0] && c !in sep {
      JoinMembers(parts[1..], sep, c);
    }
  }

  // ---------------------------------------------------------------------
  // Decimal representation of a number, as template literals print it

  function DigitChar(d: nat): char
    requires d < 10
  {
    ('0' as int + d) as char
  }

  predicate IsDigits(s: string) {
    forall i :: 0 <= i < |s| ==> '0' <= s[i] <= '9'
  }

  function Decimal(n: nat): (r: string)
    ensures |r| >= 1
  {
    if n < 10 then [DigitChar(n)] else Decimal(n / 10) + [DigitChar(n % 10)]
  }

  function DecimalValue(s: string): nat
    requires IsDigits(s)
  {
    if s == [] then 0
    else DecimalValue(s[..|s| - 1]) * 10 + (s[|s| - 1] as int - '0' as int)
  }

  /** A printed number is made of digits, and reading it back gives the
      number. */
  lemma {:induction false} DecimalRoundTrip(n: nat)
    ensures IsDigits(Decimal(n)) && DecimalValue(Decimal(n)) == n
  {
    if n >= 10 {
      DecimalRoundTrip(n / 10);
      var d := Decimal(n);
      assert d[..|d| - 1] == Decimal(n / 10);
    }
  }

  // ---------------------------------------------------------------------
  // Code-point order of strings, standing for `Array.prototype.sort()` with
  // no comparator (the two agree on characters up to U+FFFF)

  /** `a` sorts strictly before `b`: `a` is a proper prefix of `b`, or the
      first differing character of `a` has the smaller code point. */
  predicate Less(a: string, b: string)
    decreases |a|
  {
    if a == [] then b != []
    else if b == [] then false
    else if a[0] != b[0] then a[0] < b[0]
    else Less(a[1..], b[1..])
  }

  predicate AtMost(a: string, b: string) {
    a == b || Less(a, b)
  }

  lemma {:induction false} LessIrreflexive(a: string)
    ensures !Less(a, a)
    decreases |a|
  {
    if a != [] {
      LessIrreflexive(a[1..]);
    }
  }

  lemma {:induction false} LessTransitive(a: string, b: string, c: string)
    requires Less(a, b) && Less(b, c)
    ensures Less(a, c)
    decreases |a|
  {
    if a != [] && a[0] == b[0] && b[0] == c[0] {
      LessTransitive(a[1..], b[1..], c[1..]);
    }
  }

  lemma {:induction false} LessTotal(a: string, b: string)
    ensures a == b || Less(a, b) || Less(b, a)
    decreases |a|
  {
    if a != [] && b != [] && a[0] == b[0] {
      LessTotal(a[1..], b[1..]);
      if a[1..] == b[1..] {
        assert a == [a[0]] + a[1..] && b == [b[0]] + b[1..];
      }
    }
  }

  /** `AtMost` is a total order, so sorting with it is well defined. */
  lemma AtMostTotal()
    ensures forall a, b :: AtMost(a, b) || AtMost(b, a)
    ensures forall a, b, c :: AtMost(a, b) && AtMost(b, c) ==> AtMost(a, c)
  {
    forall a, b
      ensures AtMost(a, b) || AtMost(b, a)
    {
      LessTotal(a, b);
    }
    forall a, b, c | AtMost(a, b) && AtMost(b, c)
      ensures AtMost(a, c)
    {
      if a != b && b != c {
        LessTransitive(a, b, c);
      }
    }
  }
}

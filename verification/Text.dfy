/** Rust strings. A `Bytes` value is the UTF-8 byte sequence of a `String`: one char is one
    byte, `|s|` is `len()`, and comparison is bytewise as in `str::cmp`. */
module Text {
  import opened Options

  type Bytes = string

  /** `str::cmp(..) != Greater`: bytewise lexicographic order. */
  predicate StrLeq(a: Bytes, b: Bytes) {
    a == [] || (b != [] && (a[0] < b[0] || (a[0] == b[0] && StrLeq(a[1..], b[1..]))))
  }

  lemma {:induction false} StrLeqTotal(a: Bytes, b: Bytes)
    ensures StrLeq(a, b) || StrLeq(b, a)
  {
    if a != [] && b != [] && a[0] == b[0] {
      StrLeqTotal(a[1..], b[1..]);
    }
  }

  lemma {:induction false} StrLeqAntisymmetric(a: Bytes, b: Bytes)
    requires StrLeq(a, b) && StrLeq(b, a)
    ensures a == b
  {
    if a != [] && b != [] {
      StrLeqAntisymmetric(a[1..], b[1..]);
      assert a == [a[0]] + a[1..] && b == [b[0]] + b[1..];
    }
  }

  lemma {:induction false} StrLeqTransitive(a: Bytes, b: Bytes, c: Bytes)
    requires StrLeq(a, b) && StrLeq(b, c)
    ensures StrLeq(a, c)
  {
    if a != [] && b != [] && c != [] && a[0] == b[0] && b[0] == c[0] {
      StrLeqTransitive(a[1..], b[1..], c[1..]);
    }
  }

  /** `cmp` chained with `then_with` over a list of strings. */
  predicate KeyLeq(a: seq<Bytes>, b: seq<Bytes>) {
    || a == []
    || (b != [] && if a[0] == b[0] then KeyLeq(a[1..], b[1..]) else StrLeq(a[0], b[0]))
  }

  lemma {:induction false} KeyLeqTotal(a: seq<Bytes>, b: seq<Bytes>)
    ensures KeyLeq(a, b) || KeyLeq(b, a)
  {
    if a != [] && b != [] {
      StrLeqTotal(a[0], b[0]);
      KeyLeqTotal(a[1..], b[1..]);
    }
  }

  lemma {:induction false} KeyLeqAntisymmetric(a: seq<Bytes>, b: seq<Bytes>)
    requires KeyLeq(a, b) && KeyLeq(b, a)
    ensures a == b
  {
    if a != [] && b != [] {
      if a[0] == b[0] {
        KeyLeqAntisymmetric(a[1..], b[1..]);
        assert a == [a[0]] + a[1..] && b == [b[0]] + b[1..];
      } else {
        StrLeqAntisymmetric(a[0], b[0]);
      }
    }
  }

  lemma {:induction false} KeyLeqTransitive(a: seq<Bytes>, b: seq<Bytes>, c: seq<Bytes>)
    requires KeyLeq(a, b) && KeyLeq(b, c)
    ensures KeyLeq(a, c)
  {
    if a != [] && b != [] && c != [] {
      if a[0] == b[0] && b[0] == c[0] {
        KeyLeqTransitive(a[1..], b[1..], c[1..]);
      } else if a[0] != b[0] && b[0] != c[0] {
        StrLeqTransitive(a[0], b[0], c[0]);
        if a[0] == c[0] {
          StrLeqAntisymmetric(a[0], b[0]);
        }
      }
    }
  }

  function Digit(d: nat): char
    requires d < 10
  {
    ('0' as int + d) as char
  }

  predicate IsDigit(c: char) {
    '0' <= c <= '9'
  }

  /** `Display` of an unsigned integer. */
  function Digits(n: nat): (r: Bytes)
    ensures r != [] && forall i :: 0 <= i < |r| ==> IsDigit(r[i])
  {
    if n < 10 then [Digit(n)] else Digits(n / 10) + [Digit(n % 10)]
  }

  lemma DigitsHaveNo(c: char, n: nat)
    requires !IsDigit(c)
    ensures c !in Digits(n)
  {
  }

  /** The value of a run of digits, or nothing if some byte is not a digit. */
  function DigitsValue(s: Bytes): Option<nat> {
    if s == [] then Some(0)
    else
      var last := s[|s| - 1];
      var front := DigitsValue(s[..|s| - 1]);
      if front.Some? && IsDigit(last) then Some(10 * front.value + (last as int - '0' as int)) else None
  }

  lemma {:induction false} DigitsValueOfDigits(n: nat)
    ensures DigitsValue(Digits(n)) == Some(n)
  {
    if n >= 10 {
      DigitsValueOfDigits(n / 10);
      assert Digits(n)[..|Digits(n)| - 1] == Digits(n / 10);
    } else {
      assert Digits(n)[..0] == [];
    }
  }

  const USIZE_MAX: nat := 0xFFFF_FFFF_FFFF_FFFF

  /** `str::parse::<usize>`: an optional plus sign, then one or more digits, in range. */
  function ParseUsize(s: Bytes): Option<nat> {
    var digits := if s != [] && s[0] == '+' then s[1..] else s;
    var value := DigitsValue(digits);
    if digits != [] && value.Some? && value.value <= USIZE_MAX then value else None
  }

  lemma ParseUsizeOfDigits(n: nat)
    requires n <= USIZE_MAX
    ensures ParseUsize(Digits(n)) == Some(n)
  {
    DigitsValueOfDigits(n);
    assert IsDigit(Digits(n)[0]);
  }

  lemma DigitsInjective(m: nat, n: nat)
    requires Digits(m) == Digits(n)
    ensures m == n
  {
    DigitsValueOfDigits(m);
    DigitsValueOfDigits(n);
  }

  /** `str::strip_prefix`. */
  function StripPrefix(s: Bytes, prefix: Bytes): Option<Bytes> {
    if prefix <= s then Some(s[|prefix|..]) else None
  }

  /** `str::split_once` on a single byte: the text before and after its first occurrence. */
  function SplitOnce(s: Bytes, c: char): (r: Option<(Bytes, Bytes)>)
    ensures r.None? <==> c !in s
    ensures r.Some? ==> s == r.value.0 + [c] + r.value.1 && c !in r.value.0
  {
    if s == [] then None
    else if s[0] == c then Some(([], s[1..]))
    else
      var rest := SplitOnce(s[1..], c);
      if rest.None? then None else
        assert s == [s[0]] + s[1..];
        Some(([s[0]] + rest.value.0, rest.value.1))
  }

  lemma {:induction false} SplitOnceAt(a: Bytes, c: char, b: Bytes)
    requires c !in a
    ensures SplitOnce(a + [c] + b, c) == Some((a, b))
  {
    var s := a + [c] + b;
    if a == [] {
      assert s[1..] == b;
    } else {
      SplitOnceAt(a[1..], c, b);
      assert s[1..] == a[1..] + [c] + b;
      assert a == [a[0]] + a[1..];
    }
  }

  /** Text cut at its first separator can be cut in only one way. */
  lemma CutIsUnique(a1: Bytes, b1: Bytes, a2: Bytes, b2: Bytes, c: char)
    requires c !in a1 && c !in a2 && a1 + [c] + b1 == a2 + [c] + b2
    ensures a1 == a2 && b1 == b2
  {
    SplitOnceAt(a1, c, b1);
    SplitOnceAt(a2, c, b2);
  }

  /** `[..].join(sep)`. */
  function Join(parts: seq<Bytes>, sep: Bytes): Bytes {
    if parts == [] then []
    else if |parts| == 1 then parts[0]
    else parts[0] + sep + Join(parts[1..], sep)
  }

  lemma {:induction false} JoinHasSeparator(a: seq<Bytes>, c: char)
    requires forall i :: 0 <= i < |a| ==> c !in a[i]
    ensures c in Join(a, [c]) <==> |a| > 1
  {
    if |a| > 1 {
      assert Join(a, [c])[|a[0]|] == c;
    }
  }

  /** Non-empty parts without the separator can be read back from their join. */
  lemma {:induction false} JoinIsInjective(a: seq<Bytes>, b: seq<Bytes>, c: char)
    requires forall i :: 0 <= i < |a| ==> a[i] != [] && c !in a[i]
    requires forall i :: 0 <= i < |b| ==> b[i] != [] && c !in b[i]
    requires Join(a, [c]) == Join(b, [c])
    ensures a == b
  {
    JoinHasSeparator(a, c);
    JoinHasSeparator(b, c);
    if |a| > 1 {
      CutIsUnique(a[0], Join(a[1..], [c]), b[0], Join(b[1..], [c]), c);
      JoinIsInjective(a[1..], b[1..], c);
      assert a == [a[0]] + a[1..] && b == [b[0]] + b[1..];
    } else {
      assert |a| == 1 ==> a == [a[0]];
      assert |b| == 1 ==> b == [b[0]];
    }
  }
}

/**
 * The string and array built-ins of ECMAScript that the application relies on:
 * `String.prototype.trim`, `includes`, `slice` (with negative indices),
 * `split` on a one-character separator, ASCII `toLowerCase`, and the decimal
 * rendering of integers by `String(n)` and reading them back by `parseInt`.
 */
module JsStrings {
  import opened Wrappers

  /** A JavaScript string, as its sequence of characters. */
  type Text = seq<char>

  /** WhiteSpace and LineTerminator code points, the set `trim` removes (ECMAScript sections 12.2 and 12.3). */
  predicate IsWhitespace(c: char)
  {
    c == '\t' || c == '\n' || c == '\U{000B}' || c == '\U{000C}' || c == '\r' || c == ' '
    || c == '\U{00A0}' || c == '\U{1680}' || ('\U{2000}' <= c <= '\U{200A}')
    || c == '\U{2028}' || c == '\U{2029}' || c == '\U{202F}' || c == '\U{205F}'
    || c == '\U{3000}' || c == '\U{FEFF}'
  }

  predicate AllWhitespace(s: seq<char>)
  {
    forall i :: 0 <= i < |s| ==> IsWhitespace(s[i])
  }

  /** `s` without its leading whitespace. */
  function TrimStart(s: seq<char>): seq<char>
  {
    if s != [] && IsWhitespace(s[0]) then TrimStart(s[1..]) else s
  }

  /** TrimStart removes a whitespace prefix and stops at the first other character. */
  lemma {:induction false} TrimStartShape(s: seq<char>)
    ensures |TrimStart(s)| <= |s| && TrimStart(s) == s[|s| - |TrimStart(s)|..]
    ensures AllWhitespace(s[..|s| - |TrimStart(s)|])
    ensures TrimStart(s) == [] || !IsWhitespace(TrimStart(s)[0])
    decreases |s|
  {
    if s != [] && IsWhitespace(s[0]) {
      TrimStartShape(s[1..]);
      var k := |s| - |TrimStart(s)|;
      assert s[1..][..k - 1] == s[1..k];
      assert forall i :: 1 <= i < k ==> s[i] == s[1..k][i - 1];
    }
  }

  /** `s` without its trailing whitespace. */
  function TrimEnd(s: seq<char>): seq<char>
  {
    if s != [] && IsWhitespace(s[|s| - 1]) then TrimEnd(s[..|s| - 1]) else s
  }

  /** TrimEnd removes a whitespace suffix and stops at the last other character. */
  lemma {:induction false} TrimEndShape(s: seq<char>)
    ensures |TrimEnd(s)| <= |s| && TrimEnd(s) == s[..|TrimEnd(s)|]
    ensures AllWhitespace(s[|TrimEnd(s)|..])
    ensures TrimEnd(s) == [] || !IsWhitespace(TrimEnd(s)[|TrimEnd(s)| - 1])
    decreases |s|
  {
    if s != [] && IsWhitespace(s[|s| - 1]) {
      var p := s[..|s| - 1];
      TrimEndShape(p);
      var k := |TrimEnd(s)|;
      assert p[..k] == s[..k];
      assert forall i :: k <= i < |s| - 1 ==> s[i] == p[k..][i - k];
    }
  }

  /** `String.prototype.trim`: both ends stripped of whitespace. */
  function Trim(s: seq<char>): seq<char>
  {
    TrimEnd(TrimStart(s))
  }

  /** `!s || s.trim().length === 0`: empty or whitespace only. */
  predicate IsBlank(s: seq<char>)
  {
    Trim(s) == []
  }

  /** The trimmed text is the slice of `s` between a whitespace prefix and a whitespace suffix. */
  lemma TrimIsInnerSlice(s: seq<char>) returns (a: nat)
    ensures a + |Trim(s)| <= |s| && Trim(s) == s[a..a + |Trim(s)|]
    ensures AllWhitespace(s[..a]) && AllWhitespace(s[a + |Trim(s)|..])
    ensures Trim(s) == [] || (!IsWhitespace(Trim(s)[0]) && !IsWhitespace(Trim(s)[|Trim(s)| - 1]))
  {
    var t := TrimStart(s);
    TrimStartShape(s);
    a := |s| - |t|;
    var r := TrimEnd(t);
    TrimEndShape(t);
    if r != [] {
      assert r[0] == t[0];
    }
    assert s[a..a + |r|] == t[..|r|];
    assert s[a + |r|..] == t[|r|..];
  }

  /** A text is blank exactly when every character is whitespace. */
  lemma BlankIffAllWhitespace(s: seq<char>)
    ensures IsBlank(s) <==> AllWhitespace(s)
  {
    var a := TrimIsInnerSlice(s);
    if IsBlank(s) {
      assert forall i :: 0 <= i < |s| ==> (i < a ==> s[..a][i] == s[i]) && (i >= a ==> s[a..][i - a] == s[i]);
    } else {
      assert s[a] == Trim(s)[0];
    }
  }

  lemma {:induction false} TrimStartOfWhitespacePrefix(w: seq<char>, s: seq<char>)
    requires AllWhitespace(w)
    ensures TrimStart(w + s) == TrimStart(s)
    decreases |w|
  {
    if w != [] {
      var ws := w + s;
      assert ws[0] == w[0] && IsWhitespace(w[0]);
      assert ws[1..] == w[1..] + s;
      TrimStartOfWhitespacePrefix(w[1..], s);
    } else {
      assert w + s == s;
    }
  }

  lemma {:induction false} TrimEndOfWhitespaceSuffix(s: seq<char>, w: seq<char>)
    requires AllWhitespace(w)
    ensures TrimEnd(s + w) == TrimEnd(s)
    decreases |w|
  {
    if w != [] {
      assert (s + w)[|s + w| - 1] == w[|w| - 1] && IsWhitespace(w[|w| - 1]);
      assert (s + w)[..|s + w| - 1] == s + w[..|w| - 1];
      TrimEndOfWhitespaceSuffix(s, w[..|w| - 1]);
    } else {
      assert s + w == s;
    }
  }

  /** Appending after a text that does not trim to nothing leaves its leading trim unchanged. */
  lemma {:induction false} TrimStartAppend(s: seq<char>, t: seq<char>)
    requires TrimStart(s) != []
    ensures TrimStart(s + t) == TrimStart(s) + t
    decreases |s|
  {
    assert (s + t)[0] == s[0];
    if IsWhitespace(s[0]) {
      assert (s + t)[1..] == s[1..] + t;
      TrimStartAppend(s[1..], t);
    }
  }

  /** Surrounding a text with whitespace does not change its trimmed form. */
  lemma TrimOfPadded(pre: seq<char>, s: seq<char>, post: seq<char>)
    requires AllWhitespace(pre) && AllWhitespace(post)
    ensures Trim(pre + s + post) == Trim(s)
  {
    assert pre + s + post == pre + (s + post);
    TrimStartOfWhitespacePrefix(pre, s + post);
    if TrimStart(s) != [] {
      TrimStartAppend(s, post);
      TrimEndOfWhitespaceSuffix(TrimStart(s), post);
    } else {
      TrimStartShape(s);
      assert s == s[..|s|];
      TrimStartOfWhitespacePrefix(s, post);
      var p := TrimStart(post);
      TrimStartShape(post);
    }
  }

  /** Trimming twice is trimming once. */
  lemma TrimIdempotent(s: seq<char>)
    ensures Trim(Trim(s)) == Trim(s)
  {
    var t := Trim(s);
    var a := TrimIsInnerSlice(s);
    if t != [] {
      assert TrimStart(t) == t;
      assert TrimEnd(t) == t;
    }
  }

  /** `sub` occurs in `s` starting at position i. */
  predicate OccursAt(sub: seq<char>, s: seq<char>, i: int)
  {
    0 <= i && i + |sub| <= |s| && s[i..i + |sub|] == sub
  }

  /** `s.includes(sub)`. */
  predicate Includes(s: seq<char>, sub: seq<char>)
  {
    exists i | 0 <= i <= |s| - |sub| :: OccursAt(sub, s, i)
  }

  lemma IncludesEmpty(s: seq<char>)
    ensures Includes(s, [])
  {
    assert OccursAt([], s, 0);
  }

  /** `toLowerCase` on the ASCII letters; every other character is left as is. */
  function LowerChar(c: char): char
  {
    if 'A' <= c <= 'Z' then (c as int + 32) as char else c
  }

  function Lower(s: seq<char>): (r: seq<char>)
    ensures |r| == |s|
  {
    seq(|s|, i requires 0 <= i < |s| => LowerChar(s[i]))
  }

  /** The index `slice` resolves an argument to: negative counts from the end, clamped to [0, len]. */
  function RelativeIndex(i: int, len: nat): (r: nat)
    ensures r <= len
  {
    if i < 0 then (if len + i < 0 then 0 else len + i) else (if i < len then i else len)
  }

  /** `Array.prototype.slice(start, end)` and `String.prototype.slice(start, end)`. */
  function Slice<T>(s: seq<T>, start: int, end: int): seq<T>
  {
    var a := RelativeIndex(start, |s|);
    var b := RelativeIndex(end, |s|);
    if a < b then s[a..b] else []
  }

  /** `slice(0, n)` with n >= 0 keeps the first min(n, |s|) elements. */
  lemma SlicePrefix<T>(s: seq<T>, n: int)
    requires n >= 0
    ensures Slice(s, 0, n) == s[..if n < |s| then n else |s|]
  {
  }

  /** `slice(0, -k)` with k > 0 drops the last k elements. */
  lemma SliceDropLast<T>(s: seq<T>, k: int)
    requires k > 0
    ensures Slice(s, 0, -k) == s[..if k < |s| then |s| - k else 0]
  {
  }

  /** `slice(-k)` with k > 0 keeps the last min(k, |s|) elements. */
  lemma SliceSuffix<T>(s: seq<T>, k: int)
    requires k > 0
    ensures Slice(s, -k, |s|) == s[if k < |s| then |s| - k else 0..]
  {
  }

  /** `s.split(sep)` for a one-character separator. */
  function Split(s: seq<char>, sep: char): (r: seq<seq<char>>)
    ensures |r| >= 1
  {
    if s == [] then [[]]
    else
      var rest := Split(s[1..], sep);
      if s[0] == sep then [[]] + rest else [[s[0]] + rest[0]] + rest[1..]
  }

  /** `pieces.join(sep)`. */
  function Join(pieces: seq<seq<char>>, sep: char): seq<char>
  {
    if pieces == [] then []
    else if |pieces| == 1 then pieces[0]
    else pieces[0] + [sep] + Join(pieces[1..], sep)
  }

  /** `pieces.join(sep)` for a separator of any length. */
  function JoinWith(pieces: seq<seq<char>>, sep: seq<char>): seq<char>
  {
    if pieces == [] then []
    else if |pieces| == 1 then pieces[0]
    else pieces[0] + sep + JoinWith(pieces[1..], sep)
  }

  /** No piece of a split contains the separator. */
  lemma {:induction false} SplitPiecesHaveNoSeparator(s: seq<char>, sep: char)
    ensures forall k :: 0 <= k < |Split(s, sep)| ==> sep !in Split(s, sep)[k]
    decreases |s|
  {
    if s != [] {
      SplitPiecesHaveNoSeparator(s[1..], sep);
    }
  }

  /** A text without the separator splits into itself. */
  lemma {:induction false} SplitWithoutSeparator(s: seq<char>, sep: char)
    requires sep !in s
    ensures Split(s, sep) == [s]
    decreases |s|
  {
    if s != [] {
      SplitWithoutSeparator(s[1..], sep);
      assert [s[0]] + s[1..] == s;
    }
  }

  /** A separator-free piece followed by the separator splits off as the first piece. */
  lemma {:induction false} SplitAfterPiece(a: seq<char>, sep: char, rest: seq<char>)
    requires sep !in a
    ensures Split(a + [sep] + rest, sep) == [a] + Split(rest, sep)
    decreases |a|
  {
    var s := a + [sep] + rest;
    if a == [] {
      assert s[0] == sep && s[1..] == rest;
    } else {
      assert s[0] == a[0] && s[1..] == a[1..] + [sep] + rest;
      SplitAfterPiece(a[1..], sep, rest);
      assert [a[0]] + a[1..] == a;
    }
  }

  /** Joining the pieces of a split with the separator gives back the text. */
  lemma {:induction false} JoinSplit(s: seq<char>, sep: char)
    ensures Join(Split(s, sep), sep) == s
    decreases |s|
  {
    if s != [] {
      var rest := Split(s[1..], sep);
      JoinSplit(s[1..], sep);
      if s[0] == sep {
        assert Split(s, sep) == [[]] + rest;
        assert ([[]] + rest)[1..] == rest;
      } else {
        var r := [[s[0]] + rest[0]] + rest[1..];
        if |rest| == 1 {
          assert Join(r, sep) == [s[0]] + rest[0];
        } else {
          assert r[1..] == rest[1..];
          assert Join(rest, sep) == rest[0] + [sep] + Join(rest[1..], sep);
        }
      }
    }
  }

  function DigitChar(d: nat): char
    requires d < 10
  {
    ('0' as int + d) as char
  }

  function DigitValue(c: char): nat
  {
    if '0' <= c <= '9' then c as int - '0' as int else 0
  }

  /** `String(n)` for a non-negative integer: its decimal digits, no leading zero. */
  function NatToDecimal(n: nat): (r: seq<char>)
    ensures |r| >= 1 && forall i :: 0 <= i < |r| ==> '0' <= r[i] <= '9'
    ensures |r| > 1 ==> r[0] != '0'
  {
    if n < 10 then [DigitChar(n)] else NatToDecimal(n / 10) + [DigitChar(n % 10)]
  }

  /** `String(n)` for any integer: a minus sign before the digits of a negative number. */
  function IntToDecimal(n: int): seq<char>
  {
    if n >= 0 then NatToDecimal(n) else "-" + NatToDecimal(-n)
  }

  /** The value of a string of decimal digits. */
  function ParseDecimal(s: seq<char>): nat
  {
    if s == [] then 0 else 10 * ParseDecimal(s[..|s| - 1]) + DigitValue(s[|s| - 1])
  }

  /** Reading back the decimal rendering gives the number. */
  lemma {:induction false} ParseNatToDecimal(n: nat)
    ensures ParseDecimal(NatToDecimal(n)) == n
  {
    if n >= 10 {
      var r := NatToDecimal(n);
      assert r[..|r| - 1] == NatToDecimal(n / 10);
      ParseNatToDecimal(n / 10);
    }
  }

  /** Distinct numbers have distinct decimal renderings. */
  lemma NatToDecimalInjective(m: nat, n: nat)
    requires NatToDecimal(m) == NatToDecimal(n)
    ensures m == n
  {
    ParseNatToDecimal(m);
    ParseNatToDecimal(n);
  }

  /** No element occurs twice. */
  predicate Distinct<T(==)>(s: seq<T>)
  {
    forall i, j :: 0 <= i < j < |s| ==> s[i] != s[j]
  }

  /** A duplicate-free list without its last element is duplicate-free and lacks that element. */
  lemma DistinctInit<T>(s: seq<T>)
    requires Distinct(s) && s != []
    ensures Distinct(s[..|s| - 1]) && s[|s| - 1] !in s[..|s| - 1]
  {
    var init := s[..|s| - 1];
    forall i | 0 <= i < |init|
      ensures init[i] != s[|s| - 1]
    {
      assert init[i] == s[i];
    }
  }

  /** Appending a new element keeps a list duplicate-free. */
  lemma DistinctAppend<T>(s: seq<T>, x: T)
    requires Distinct(s) && x !in s
    ensures Distinct(s + [x])
  {
    var r := s + [x];
    forall i, j | 0 <= i < j < |r|
      ensures r[i] != r[j]
    {
      assert r[i] == s[i];
      if j < |s| {
        assert r[j] == s[j];
      }
    }
  }

  /** `s.filter(y => y !== x)`: every occurrence of `x` dropped, the rest kept in order. */
  function Remove<T(==,!new)>(s: seq<T>, x: T): (r: seq<T>)
    ensures multiset(r)[x] == 0
    ensures forall y :: y != x ==> multiset(r)[y] == multiset(s)[y]
  {
    if s == [] then []
    else
      var init := Remove(s[..|s| - 1], x);
      assert s == s[..|s| - 1] + [s[|s| - 1]];
      if s[|s| - 1] == x then init else init + [s[|s| - 1]]
  }

  /** `Array.prototype.indexOf`: the first position holding `x`, or -1. */
  function IndexOf<T(==)>(s: seq<T>, x: T): (r: int)
    ensures -1 <= r < |s|
    ensures r == -1 <==> x !in s
    ensures r >= 0 ==> s[r] == x && x !in s[..r]
  {
    if s == [] then -1
    else if s[0] == x then 0
    else
      var k := IndexOf(s[1..], x);
      assert s[1..] == s[1..][..|s| - 1];
      if k < 0 then -1
      else
        assert s[..k + 1] == [s[0]] + s[1..][..k];
        k + 1
  }

  /** The longest prefix of `s` made of decimal digits. */
  function DigitPrefix(s: seq<char>): seq<char>
  {
    if s != [] && '0' <= s[0] <= '9' then [s[0]] + DigitPrefix(s[1..]) else []
  }

  /** `parseInt(s, 10)`: leading whitespace is skipped, then an optional sign,
    * then the longest run of decimal digits; no digit at all gives NaN (None). */
  function ParseInt(s: seq<char>): Option<int>
  {
    ParseSigned(TrimStart(s))
  }

  /** An optional sign and the longest run of digits after it. */
  function ParseSigned(t: seq<char>): Option<int>
  {
    if t != [] && t[0] == '-' then
      match ParseDigits(t[1..])
      case None => None
      case Some(v) => Some(-v)
    else if t != [] && t[0] == '+' then ParseDigits(t[1..])
    else ParseDigits(t)
  }

  /** The value of the longest run of digits at the front, if there is one. */
  function ParseDigits(s: seq<char>): Option<int>
  {
    var digits := DigitPrefix(s);
    if digits == [] then None else Some(ParseDecimal(digits))
  }

  lemma {:induction false} DigitPrefixOfDigits(s: seq<char>)
    requires forall i :: 0 <= i < |s| ==> '0' <= s[i] <= '9'
    ensures DigitPrefix(s) == s
  {
    if s != [] {
      DigitPrefixOfDigits(s[1..]);
    }
  }

  lemma ParseDigitsOfDecimal(m: nat)
    ensures ParseDigits(NatToDecimal(m)) == Some(m)
  {
    DigitPrefixOfDigits(NatToDecimal(m));
    ParseNatToDecimal(m);
  }

  /** Digits read the same after a minus sign, negated. */
  lemma ParseSignedOf(d: seq<char>, v: int)
    requires d != [] && '0' <= d[0] <= '9' && ParseDigits(d) == Some(v)
    ensures ParseSigned(d) == Some(v)
    ensures ParseSigned("-" + d) == Some(-v)
  {
    assert ("-" + d)[1..] == d;
  }

  /** `parseInt(String(n), 10) == n` for every integer n. */
  lemma ParseIntOfDecimal(n: int)
    ensures ParseInt(IntToDecimal(n)) == Some(n)
  {
    var m: nat := if n >= 0 then n else -n;
    var d := NatToDecimal(m);
    ParseDigitsOfDecimal(m);
    ParseSignedOf(d, m);
    var s := IntToDecimal(n);
    assert s[0] == '-' || '0' <= s[0] <= '9';
    assert TrimStart(s) == s;
  }
}

/** Text as the schedule upload uses it: splitting on a separator and joining, decimal
numbers, fixed-width hexadecimal (components/alpha_hwr/schedule_codec.cpp:13-37, 195-197;
tools/write_bench.py:416, 457).
*/
module Text {

  datatype Option<T> = None | Some(value: T)
  datatype Result<T> = Ok(value: T) | Err(reason: string)

  // ---------------------------------------------------------------------------
  // Split and join
  // ---------------------------------------------------------------------------

  // The first position of the character, or the length.
  function IndexOf(s: string, c: char): (i: nat)
    ensures i <= |s|
    ensures c !in s[..i] && (i < |s| ==> s[i] == c)
  {
    if |s| == 0 || s[0] == c then 0
    else
      var i := 1 + IndexOf(s[1..], c);
      assert s[..i] == [s[0]] + s[1..][..i - 1];
      i
  }

  function Split(s: string, c: char): (parts: seq<string>)
    ensures |parts| >= 1
    decreases |s|
  {
    var i := IndexOf(s, c);
    if i == |s| then [s] else [s[..i]] + Split(s[i + 1..], c)
  }

  function Join(parts: seq<string>, c: char): string {
    if |parts| == 0 then ""
    else if |parts| == 1 then parts[0]
    else parts[0] + [c] + Join(parts[1..], c)
  }

  lemma {:induction false} IndexOfFirst(s: string, c: char, i: nat)
    requires i <= |s| && c !in s[..i] && (i < |s| ==> s[i] == c)
    ensures IndexOf(s, c) == i
    decreases i
  {
    if i == 0 {
    } else {
      assert s[..i][0] == s[0];
      assert s[1..][..i - 1] == s[..i][1..];
      IndexOfFirst(s[1..], c, i - 1);
    }
  }

  lemma SplitWhole(s: string, c: char)
    requires c !in s
    ensures Split(s, c) == [s]
  {
    assert s[..|s|] == s;
    IndexOfFirst(s, c, |s|);
  }

  lemma SplitFirst(head: string, c: char, tail: string)
    requires c !in head
    ensures Split(head + [c] + tail, c) == [head] + Split(tail, c)
  {
    var s := head + [c] + tail;
    assert s[..|head|] == head && s[|head| + 1..] == tail;
    IndexOfFirst(s, c, |head|);
  }

  /** Pieces free of the separator survive joining and splitting. */
  lemma {:induction false} SplitJoin(parts: seq<string>, c: char)
    requires |parts| >= 1 && forall p :: p in parts ==> c !in p
    ensures Split(Join(parts, c), c) == parts
    decreases |parts|
  {
    hide Split;
    if |parts| == 1 {
      SplitWhole(parts[0], c);
    } else {
      SplitFirst(parts[0], c, Join(parts[1..], c));
      SplitJoin(parts[1..], c);
    }
  }

  /** Splitting loses nothing, and leaves the separator in no piece. */
  lemma {:induction false} JoinSplit(s: string, c: char)
    ensures Join(Split(s, c), c) == s
    ensures forall p :: p in Split(s, c) ==> c !in p
    decreases |s|
  {
    hide Split;
    var i := IndexOf(s, c);
    if i == |s| {
      assert s[..i] == s;
      SplitWhole(s, c);
    } else {
      var head, tail := s[..i], s[i + 1..];
      assert s == head + [c] + tail;
      SplitFirst(head, c, tail);
      JoinSplit(tail, c);
      JoinCons(head, Split(tail, c), c);
    }
  }

  lemma JoinCons(head: string, parts: seq<string>, c: char)
    requires |parts| >= 1
    ensures Join([head] + parts, c) == head + [c] + Join(parts, c)
  {
    assert ([head] + parts)[1..] == parts;
  }

  /** split: find the next separator, cut, go on behind it. */
  method SplitText(s: string, delim: char) returns (out: seq<string>)
    ensures out == Split(s, delim)
  {
    out := [];
    var start := 0;
    while true
      invariant 0 <= start <= |s|
      invariant out + Split(s[start..], delim) == Split(s, delim)
      decreases |s| - start
    {
      var rest := s[start..];
      var pos := IndexOf(rest, delim);
      if pos == |rest| {
        out := out + [rest];
        return;
      }
      assert rest[pos + 1..] == s[start + pos + 1..];
      assert out + ([rest[..pos]] + Split(rest[pos + 1..], delim)) ==
             (out + [rest[..pos]]) + Split(rest[pos + 1..], delim);
      out := out + [rest[..pos]];
      start := start + pos + 1;
    }
  }

  // ---------------------------------------------------------------------------
  // Decimal numbers
  // ---------------------------------------------------------------------------

  predicate IsDigit(c: char) {
    '0' <= c <= '9'
  }

  function DigitValue(c: char): nat
    requires IsDigit(c)
  {
    c as int - '0' as int
  }

  function Digit(n: nat): (c: char)
    requires n < 10
    ensures IsDigit(c) && DigitValue(c) == n
  {
    (n + '0' as int) as char
  }

  predicate AllDigits(s: string) {
    forall i :: 0 <= i < |s| ==> IsDigit(s[i])
  }

  function Value(s: string): nat
    requires AllDigits(s)
  {
    if |s| == 0 then 0 else Value(s[..|s| - 1]) * 10 + DigitValue(s[|s| - 1])
  }

  // A number as Python's str() prints it.
  function Decimal(n: int): (s: string)
    ensures |s| >= 1
    decreases n < 0, if n < 0 then -n else n
  {
    if n < 0 then "-" + Decimal(-n)
    else if n < 10 then [Digit(n)]
    else Decimal(n / 10) + [Digit(n % 10)]
  }

  // Strict: at most three characters, all of them digits.
  function ParseUint(s: string): Option<nat> {
    if |s| == 0 || |s| > 3 || !AllDigits(s) then None else Some(Value(s))
  }

  /** parse_uint. */
  method ParseUintText(s: string) returns (r: Option<nat>)
    ensures r == ParseUint(s)
  {
    if s == "" || |s| > 3 {
      return None;
    }
    var value := 0;
    for i := 0 to |s|
      invariant AllDigits(s[..i]) && value == Value(s[..i])
    {
      if s[i] < '0' || s[i] > '9' {
        return None;
      }
      assert s[..i + 1][..i] == s[..i];
      value := value * 10 + (s[i] as int - '0' as int);
    }
    assert s[..|s|] == s;
    return Some(value);
  }

  lemma {:induction false} DecimalIsDigits(n: nat)
    ensures AllDigits(Decimal(n)) && Value(Decimal(n)) == n
    ensures |Decimal(n)| <= 3 <==> n < 1000
    decreases n
  {
    if n >= 10 {
      var front := Decimal(n / 10);
      DecimalIsDigits(n / 10);
      assert Decimal(n)[..|Decimal(n)| - 1] == front;
      DecimalLength(n / 10);
    } else {
      assert Decimal(n)[..0] == "";
    }
  }

  lemma {:induction false} DecimalLength(n: nat)
    ensures |Decimal(n)| == 1 <==> n < 10
    ensures |Decimal(n)| <= 2 <==> n < 100
    decreases n
  {
    if n >= 10 {
      DecimalLength(n / 10);
    }
  }

  /** A printed number is read back as itself when it has up to three digits and no sign,
  and is refused otherwise. */
  lemma ParseUintOfDecimal(n: int)
    ensures ParseUint(Decimal(n)) == if 0 <= n < 1000 then Some(n) else None
  {
    if n < 0 {
      assert Decimal(n)[0] == '-';
    } else {
      DecimalIsDigits(n);
    }
  }

  /** Neither separator of the upload grammar occurs in a printed number. */
  lemma DecimalHasNoSeparator(n: int)
    ensures ',' !in Decimal(n) && ';' !in Decimal(n)
  {
    var m := if n < 0 then -n else n;
    DecimalIsDigits(m);
    var s := Decimal(m);
    assert forall i :: 0 <= i < |s| ==> s[i] != ',' && s[i] != ';';
  }

  // ---------------------------------------------------------------------------
  // Hexadecimal
  // ---------------------------------------------------------------------------

  function HexDigit(n: nat): (c: char)
    requires n < 16
    ensures '0' <= c <= '9' <==> n < 10
    ensures n == if n < 10 then c as int - '0' as int else c as int - 'a' as int + 10
  {
    if n < 10 then (n + '0' as int) as char else (n - 10 + 'a' as int) as char
  }

  // The last n hexadecimal digits, lower case, zeros in front.
  function Hex(v: nat, n: nat): (s: string)
    ensures |s| == n
    decreases n
  {
    if n == 0 then "" else Hex(v / 16, n - 1) + [HexDigit(v % 16)]
  }

  function Pow16(n: nat): nat {
    if n == 0 then 1 else 16 * Pow16(n - 1)
  }

  /** Numbers that fit the width are told apart by their digits. */
  lemma {:induction false} HexInjective(a: nat, b: nat, n: nat)
    requires a < Pow16(n) && b < Pow16(n)
    ensures Hex(a, n) == Hex(b, n) <==> a == b
    decreases n
  {
    if n == 0 {
    } else {
      HexInjective(a / 16, b / 16, n - 1);
      if Hex(a, n) == Hex(b, n) {
        assert Hex(a / 16, n - 1) == Hex(a, n)[..n - 1] == Hex(b, n)[..n - 1] == Hex(b / 16, n - 1);
        assert HexDigit(a % 16) == Hex(a, n)[n - 1] == Hex(b, n)[n - 1] == HexDigit(b % 16);
      }
    }
  }

  predicate IsHexDigit(c: char) {
    '0' <= c <= '9' || 'a' <= c <= 'f'
  }

  function HexDigitValue(c: char): nat
    requires IsHexDigit(c)
  {
    if c <= '9' then c as int - '0' as int else c as int - 'a' as int + 10
  }

  function HexValue(s: string): nat
    requires forall i :: 0 <= i < |s| ==> IsHexDigit(s[i])
  {
    if |s| == 0 then 0 else 16 * HexValue(s[..|s| - 1]) + HexDigitValue(s[|s| - 1])
  }

  /** ... and the digits spell the number. */
  lemma {:induction false} HexReadsBack(v: nat, n: nat)
    requires v < Pow16(n)
    ensures forall i :: 0 <= i < n ==> IsHexDigit(Hex(v, n)[i])
    ensures HexValue(Hex(v, n)) == v
    decreases n
  {
    if n == 0 {
    } else {
      HexReadsBack(v / 16, n - 1);
      assert Hex(v, n)[..n - 1] == Hex(v / 16, n - 1);
      assert Hex(v, n)[n - 1] == HexDigit(v % 16);
    }
  }
}

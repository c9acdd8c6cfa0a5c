/** String helpers the report engine relies on: joining lists, splitting a
    sort token into column and direction, finding the last occurrence of a
    name, C's `atoi` and the decimal rendering of a count. */
module Strings {

  /** The items joined into one string, separated by `sep`, as the `join`
      helper does. */
  function Join(items: seq<string>, sep: string): string
  {
    if |items| == 0 then ""
    else if |items| == 1 then items[0]
    else items[0] + sep + Join(items[1..], sep)
  }

  /** A sort token without its trailing direction character. For the empty
      token the source's length arithmetic wraps round to the largest size,
      so the whole (empty) token is kept. */
  function ColumnPart(token: string): (column: string)
    ensures |token| > 0 ==> token == column + [token[|token| - 1]]
    ensures |token| == 0 ==> column == ""
  {
    if |token| == 0 then token else token[..|token| - 1]
  }

  /** The largest index at which `x` occurs in `xs`, or -1 when it does not
      occur: the index a `std::map` keeps when it is filled in list order
      and later entries overwrite earlier ones. */
  function LastIndexOf<T(==)>(xs: seq<T>, x: T): (r: int)
    ensures r == -1 <==> x !in xs
    ensures r != -1 ==> 0 <= r < |xs| && xs[r] == x
  {
    if |xs| == 0 then -1
    else if xs[|xs| - 1] == x then |xs| - 1
    else
      assert forall k :: 0 <= k < |xs| - 1 ==> xs[..|xs| - 1][k] == xs[k];
      LastIndexOf(xs[..|xs| - 1], x)
  }

  /** No occurrence of `x` comes after the index LastIndexOf finds. */
  lemma {:induction false} LastIndexOfIsLast<T>(xs: seq<T>, x: T)
    ensures forall k :: LastIndexOf(xs, x) < k < |xs| ==> xs[k] != x
  {
    if |xs| > 0 && xs[|xs| - 1] != x {
      var init := xs[..|xs| - 1];
      LastIndexOfIsLast(init, x);
      assert forall k :: 0 <= k < |init| ==> init[k] == xs[k];
    }
  }

  /** The last index below `end` holding `x`, or -1 when there is none. */
  function LastIndexBefore<T(==)>(xs: seq<T>, x: T, end: nat): int
    requires end <= |xs|
  {
    if end == 0 then -1
    else if xs[end - 1] == x then end - 1
    else LastIndexBefore(xs, x, end - 1)
  }

  /** Searching below the end is searching the whole sequence. */
  lemma {:induction false} LastIndexBeforeEnd<T>(xs: seq<T>, x: T, end: nat)
    requires end <= |xs|
    ensures LastIndexBefore(xs, x, end) == LastIndexOf(xs[..end], x)
  {
    if end > 0 {
      LastIndexBeforeEnd(xs, x, end - 1);
      assert xs[..end][..end - 1] == xs[..end - 1];
    }
  }

  /** Appending an element: it is the last occurrence of itself, and the
      last occurrence of anything else does not move. */
  lemma LastIndexOfSnoc<T>(xs: seq<T>, y: T, x: T)
    ensures LastIndexOf(xs + [y], x) == if y == x then |xs| else LastIndexOf(xs, x)
  {
    assert (xs + [y])[..|xs|] == xs;
  }

  // ---------------------------------------------------------------------
  // C's atoi: leading white space, an optional sign, then decimal digits up
  // to the first character that is not a digit. Overflow is not modelled.

  predicate IsSpace(c: char)
  {
    c == ' ' || c == '\t' || c == '\n' || c == '\U{0B}' || c == '\U{0C}' || c == '\r'
  }

  predicate IsDigit(c: char)
  {
    '0' <= c <= '9'
  }

  predicate AllDigits(s: string)
  {
    forall i :: 0 <= i < |s| ==> IsDigit(s[i])
  }

  /** Where `s` stops being white space, looking from index `i` on. */
  function SkipSpace(s: string, i: nat): (j: nat)
    requires i <= |s|
    ensures i <= j <= |s|
    ensures j < |s| ==> !IsSpace(s[j])
    decreases |s| - i
  {
    if i < |s| && IsSpace(s[i]) then SkipSpace(s, i + 1) else i
  }

  /** The end of the run of digits that starts at index `i`. */
  function DigitsEnd(s: string, i: nat): (j: nat)
    requires i <= |s|
    ensures i <= j <= |s|
    ensures j < |s| ==> !IsDigit(s[j])
    decreases |s| - i
  {
    if i < |s| && IsDigit(s[i]) then DigitsEnd(s, i + 1) else i
  }

  /** The decimal value of the digits s[i..j]. */
  function DigitsValue(s: string, i: nat, j: nat): int
    requires i <= j <= |s|
    decreases j - i
  {
    if j == i then 0 else DigitsValue(s, i, j - 1) * 10 + (s[j - 1] as int - '0' as int)
  }

  /** C's `atoi`: skip leading white space, read an optional sign, then the
      digits up to the first character that is not one. */
  function Atoi(s: string): int
  {
    var i := SkipSpace(s, 0);
    if i < |s| && s[i] == '-' then -DigitsValue(s, i + 1, DigitsEnd(s, i + 1))
    else if i < |s| && s[i] == '+' then DigitsValue(s, i + 1, DigitsEnd(s, i + 1))
    else DigitsValue(s, i, DigitsEnd(s, i))
  }

  /** A run of digits from `i` that stops at `j` (at the end of `s` or at a
      character that is not a digit) ends at `j`. */
  lemma {:induction false} DigitsEndAt(s: string, i: nat, j: nat)
    requires i <= j <= |s|
    requires forall k :: i <= k < j ==> IsDigit(s[k])
    requires j < |s| ==> !IsDigit(s[j])
    ensures DigitsEnd(s, i) == j
    decreases j - i
  {
    if i < j {
      DigitsEndAt(s, i + 1, j);
    }
  }

  /** The value of a run of digits depends on those digits alone. */
  lemma {:induction false} DigitsValueShift(p: string, s: string, q: string, j: nat)
    requires j <= |s|
    ensures DigitsValue(p + s + q, |p|, |p| + j) == DigitsValue(s, 0, j)
  {
    if j > 0 {
      DigitsValueShift(p, s, q, j - 1);
      assert (p + s + q)[|p| + j - 1] == s[j - 1];
    }
  }
  function DigitChar(d: nat): (c: char)
    requires d < 10
    ensures IsDigit(c) && c as int - '0' as int == d
  {
    ('0' as int + d) as char
  }

  /** The decimal text of a count, as a stream writes it. */
  function NatToString(n: nat): (s: string)
    ensures |s| > 0 && AllDigits(s)
  {
    if n < 10 then [DigitChar(n)] else NatToString(n / 10) + [DigitChar(n % 10)]
  }

  lemma {:induction false} DigitsValueOfDecimal(n: nat)
    ensures DigitsValue(NatToString(n), 0, |NatToString(n)|) == n
  {
    if n >= 10 {
      var p := NatToString(n / 10);
      var d := [DigitChar(n % 10)];
      DigitsValueOfDecimal(n / 10);
      DigitsValueShift([], p, d, |p|);
      assert [] + p + d == NatToString(n);
    }
  }

  /** atoi reads back the decimal text of every natural number, whatever
      text that is not a digit follows it. */
  lemma AtoiOfDecimalThen(n: nat, rest: string)
    requires |rest| == 0 || !IsDigit(rest[0])
    ensures Atoi(NatToString(n) + rest) == n
  {
    var digits := NatToString(n);
    var s := digits + rest;
    assert s[0] == digits[0];
    DigitsEndAt(s, 0, |digits|);
    DigitsValueShift([], digits, rest, |digits|);
    assert [] + digits + rest == s;
    DigitsValueOfDecimal(n);
  }

  /** atoi reads back the decimal text of every natural number. */
  lemma AtoiOfDecimal(n: nat)
    ensures Atoi(NatToString(n)) == n
  {
    AtoiOfDecimalThen(n, []);
    assert NatToString(n) + [] == NatToString(n);
  }

  /** ... and of a minus sign followed by it. */
  lemma AtoiOfNegativeDecimal(n: nat)
    ensures Atoi("-" + NatToString(n)) == -(n as int)
  {
    var digits := NatToString(n);
    var s := "-" + digits;
    DigitsEndAt(s, 1, |s|);
    DigitsValueShift("-", digits, [], |digits|);
    assert "-" + digits + [] == s;
    DigitsValueOfDecimal(n);
  }
}

/**
 * The two pieces of JavaScript string handling the collector relies on:
 * `String.prototype.split` with a one-character separator, and `Number(s)`
 * restricted to strings of decimal digits.
 */
module JsText {
  import opened Wrappers

  /** `parts` glued back together with `sep` between neighbours. */
  function Join(parts: seq<string>, sep: char): string
    requires |parts| >= 1
    decreases |parts|
  {
    if |parts| == 1 then parts[0] else parts[0] + [sep] + Join(parts[1..], sep)
  }

  /**
   * `s.split(sep)`: the maximal runs of non-separator characters. There is always
   * at least one part (the empty string splits into `[""]`), no part contains the
   * separator, and joining the parts gives back `s`.
   */
  function Split(s: string, sep: char): (parts: seq<string>)
    ensures |parts| >= 1
    ensures forall i :: 0 <= i < |parts| ==> sep !in parts[i]
    ensures Join(parts, sep) == s
    decreases |s|
  {
    if s == [] then [""]
    else
      var rest := Split(s[1..], sep);
      if s[0] == sep then
        assert ([""] + rest)[1..] == rest;
        [""] + rest
      else
        var parts := [[s[0]] + rest[0]] + rest[1..];
        assert |rest| > 1 ==> parts[1..] == rest[1..];
        assert [s[0]] + s[1..] == s;
        parts
  }

  /** Splitting a string that starts with a separator-free run extends that run. */
  lemma {:induction false} SplitCons(x: string, t: string, sep: char)
    requires sep !in x
    ensures Split(x + t, sep) == [x + Split(t, sep)[0]] + Split(t, sep)[1..]
    decreases |x|
  {
    if x != [] {
      assert (x + t)[1..] == x[1..] + t;
      SplitCons(x[1..], t, sep);
      assert [x[0]] + (x[1..] + Split(t, sep)[0]) == x + Split(t, sep)[0];
    } else {
      var parts := Split(t, sep);
      assert x + t == t;
      assert x + parts[0] == parts[0];
      assert [parts[0]] + parts[1..] == parts;
    }
  }

  /** A leading separator closes an empty first part. */
  lemma SplitSep(t: string, sep: char)
    ensures Split([sep] + t, sep) == [""] + Split(t, sep)
  {
    assert ([sep] + t)[1..] == t;
  }

  /** Splitting undoes joining, when no part contains the separator. */
  lemma {:induction false} SplitJoin(parts: seq<string>, sep: char)
    requires |parts| >= 1
    requires forall i :: 0 <= i < |parts| ==> sep !in parts[i]
    ensures Split(Join(parts, sep), sep) == parts
    decreases |parts|
  {
    var first := parts[0];
    if |parts| == 1 {
      SplitCons(first, "", sep);
      assert first + "" == first;
    } else {
      var tail := Join(parts[1..], sep);
      var rest := [sep] + tail;
      assert Join(parts, sep) == first + rest;
      SplitJoin(parts[1..], sep);
      SplitSep(tail, sep);
      SplitCons(first, rest, sep);
      assert Split(rest, sep)[0] == "" && Split(rest, sep)[1..] == parts[1..];
      assert first + "" == first;
      assert [first] + parts[1..] == parts;
    }
  }

  predicate IsDigit(c: char) { '0' <= c <= '9' }

  predicate AllDigits(s: string) { forall i :: 0 <= i < |s| ==> IsDigit(s[i]) }

  /** The value of a string of decimal digits, most significant first; "" is 0. */
  function DigitsValue(s: string): nat
    requires AllDigits(s)
    decreases |s|
  {
    if s == [] then 0
    else DigitsValue(s[..|s| - 1]) * 10 + (s[|s| - 1] as int - '0' as int)
  }

  /**
   * `Number(s)` on the strings the collector meets: a run of decimal digits
   * (including the empty run, which JavaScript converts to 0) gives its value,
   * anything else gives `None`, standing for `NaN`.
   */
  function JsNumber(s: string): (n: Option<nat>)
    ensures n.Some? <==> AllDigits(s)
    ensures s == "" ==> n == Some(0)
  {
    if AllDigits(s) then Some(DigitsValue(s)) else None
  }

  /** The shortest decimal numeral of `n`: the reference inverse of `JsNumber`. */
  function Decimal(n: nat): (s: string)
    ensures AllDigits(s) && |s| >= 1
  {
    (if n < 10 then "" else Decimal(n / 10)) + [('0' as int + n % 10) as char]
  }

  /** `Number` reads back every decimal numeral it could have been printed as. */
  lemma {:induction false} JsNumberDecimal(n: nat)
    ensures JsNumber(Decimal(n)) == Some(n)
  {
    var s := Decimal(n);
    var front := if n < 10 then "" else Decimal(n / 10);
    assert s[..|s| - 1] == front;
    assert s[|s| - 1] as int - '0' as int == n % 10;
    if n >= 10 {
      JsNumberDecimal(n / 10);
      assert DigitsValue(front) == n / 10;
    }
    assert DigitsValue(s) == DigitsValue(front) * 10 + n % 10;
  }
}

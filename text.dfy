/**
 * The string operations the printers build their output with: JavaScript's
 * `Array.prototype.join`, `String.prototype.split` on one character,
 * concatenation of a list of strings, and the decimal rendering of a
 * non-negative number inside a template literal.
 */
module Text {

  /** `parts.join(sep)`: the parts in order, with `sep` between neighbours. */
  function Join(parts: seq<string>, sep: string): (r: string)
    ensures |parts| == 0 ==> r == ""
    ensures |parts| == 1 ==> r == parts[0]
    ensures |r| == TotalLength(parts) + (if |parts| == 0 then 0 else (|parts| - 1) * |sep|)
  {
    if |parts| == 0 then ""
    else if |parts| == 1 then parts[0]
    else parts[0] + sep + Join(parts[1..], sep)
  }

  /** The sum of the lengths of `parts`. */
  function TotalLength(parts: seq<string>): nat
  {
    if |parts| == 0 then 0 else |parts[0]| + TotalLength(parts[1..])
  }

  /** `parts.join("")`, accumulated from the left as a loop appending to a string does. */
  function Concat(parts: seq<string>): (r: string)
  {
    if |parts| == 0 then "" else Concat(parts[..|parts| - 1]) + parts[|parts| - 1]
  }

  /** `s.split(c)` for a one-character separator: the maximal pieces of `s` free of `c`. */
  function Split(s: string, c: char): (r: seq<string>)
    ensures |r| >= 1
    ensures forall k :: 0 <= k < |r| ==> c !in r[k]
  {
    if |s| == 0 then [""]
    else
      var rest := Split(s[1..], c);
      if s[0] == c then [""] + rest else [[s[0]] + rest[0]] + rest[1..]
  }

  /** The digit character for `d`. */
  function Digit(d: nat): (c: char)
    requires d < 10
    ensures '0' <= c <= '9' && (c as int) - ('0' as int) == d
  {
    (('0' as int) + d) as char
  }

  predicate IsDigits(s: string)
  {
    forall k :: 0 <= k < |s| ==> '0' <= s[k] <= '9'
  }

  /** `${n}` for a non-negative integer `n`: its decimal digits, without leading zeros. */
  function Decimal(n: nat): (r: string)
    ensures |r| >= 1 && IsDigits(r)
    ensures r[0] == '0' ==> n == 0
  {
    if n < 10 then [Digit(n)] else Decimal(n / 10) + [Digit(n % 10)]
  }

  /** The number a string of decimal digits denotes. */
  function ParseDecimal(s: string): nat
    requires IsDigits(s)
  {
    if |s| == 0 then 0
    else 10 * ParseDecimal(s[..|s| - 1]) + ((s[|s| - 1] as int) - ('0' as int))
  }

  /** Reading back the digits of `Decimal(n)` gives `n`. */
  lemma {:induction false} DecimalRoundTrip(n: nat)
    ensures ParseDecimal(Decimal(n)) == n
  {
    if n >= 10 {
      DecimalRoundTrip(n / 10);
      var s := Decimal(n);
      assert s[..|s| - 1] == Decimal(n / 10);
    }
  }

  /** Distinct numbers print as distinct digit strings. */
  lemma DecimalInjective(m: nat, n: nat)
    ensures Decimal(m) == Decimal(n) <==> m == n
  {
    DecimalRoundTrip(m);
    DecimalRoundTrip(n);
  }

  /** Joining a non-empty head list and a non-empty tail list splits at one separator. */
  lemma {:induction false} JoinAppend(a: seq<string>, b: seq<string>, sep: string)
    requires |a| > 0 && |b| > 0
    ensures Join(a + b, sep) == Join(a, sep) + sep + Join(b, sep)
  {
    if |a| == 1 {
      assert (a + b)[1..] == b;
    } else {
      assert (a + b)[1..] == a[1..] + b;
      JoinAppend(a[1..], b, sep);
    }
  }

  /** A join of non-empty parts is empty exactly when there is nothing to join. */
  lemma JoinEmptyIff(parts: seq<string>, sep: string)
    requires forall k :: 0 <= k < |parts| ==> |parts[k]| > 0
    ensures Join(parts, sep) == "" <==> |parts| == 0
  {
  }

  /** Appending `sep` to a join of `parts` is the same as terminating every part with `sep`. */
  lemma {:induction false} JoinTerminated(parts: seq<string>, sep: string)
    requires |parts| > 0
    ensures Join(parts, sep) + sep == Concat(Terminated(parts, sep))
  {
    if |parts| == 1 {
      assert Terminated(parts, sep)[..0] == [];
    } else {
      var t := Terminated(parts, sep);
      JoinTerminated(parts[..|parts| - 1], sep);
      assert t[..|t| - 1] == Terminated(parts[..|parts| - 1], sep);
      JoinAppend(parts[..|parts| - 1], [parts[|parts| - 1]], sep);
      assert parts[..|parts| - 1] + [parts[|parts| - 1]] == parts;
    }
  }

  /** Every part followed by `sep`. */
  function Terminated(parts: seq<string>, sep: string): (r: seq<string>)
    ensures |r| == |parts| && forall k :: 0 <= k < |parts| ==> r[k] == parts[k] + sep
  {
    seq(|parts|, k requires 0 <= k < |parts| => parts[k] + sep)
  }

  /** The lists of `xss` one after another. */
  function Flatten<T>(xss: seq<seq<T>>): (r: seq<T>)
  {
    if |xss| == 0 then [] else xss[0] + Flatten(xss[1..])
  }

  /** The inner joins of each list. */
  function JoinEach(xss: seq<seq<string>>, sep: string): (r: seq<string>)
    ensures |r| == |xss| && forall k :: 0 <= k < |xss| ==> r[k] == Join(xss[k], sep)
  {
    seq(|xss|, k requires 0 <= k < |xss| => Join(xss[k], sep))
  }

  /**
   * Joining the joins of non-empty lists with the same separator joins their
   * concatenation: no part is lost, none is repeated, the order is kept.
   */
  lemma {:induction false} JoinFlatten(xss: seq<seq<string>>, sep: string)
    requires forall k :: 0 <= k < |xss| ==> |xss[k]| > 0
    ensures Join(JoinEach(xss, sep), sep) == Join(Flatten(xss), sep)
  {
    if |xss| > 1 {
      var tail := xss[1..];
      JoinFlatten(tail, sep);
      assert JoinEach(xss, sep) == [Join(xss[0], sep)] + JoinEach(tail, sep);
      FlattenNonEmpty(tail);
      JoinAppend(xss[0], Flatten(tail), sep);
    } else if |xss| == 1 {
      assert Flatten(xss) == xss[0] + [];
      assert xss[0] + [] == xss[0];
    }
  }

  lemma FlattenNonEmpty(xss: seq<seq<string>>)
    requires |xss| > 0 && forall k :: 0 <= k < |xss| ==> |xss[k]| > 0
    ensures |Flatten(xss)| > 0
  {
  }

  /** A piece free of `c`, then `c`, splits into that piece and the split of the rest. */
  lemma {:induction false} SplitAfter(a: string, c: char, b: string)
    requires c !in a
    ensures Split(a + [c] + b, c) == [a] + Split(b, c)
  {
    if |a| == 0 {
      assert (a + [c] + b)[1..] == b;
    } else {
      assert (a + [c] + b)[1..] == a[1..] + [c] + b;
      SplitAfter(a[1..], c, b);
      assert [a[0]] + a[1..] == a;
    }
  }

  /** A string free of `c` splits into itself. */
  lemma {:induction false} SplitFree(a: string, c: char)
    requires c !in a
    ensures Split(a, c) == [a]
  {
    if |a| > 0 {
      SplitFree(a[1..], c);
      assert [a[0]] + a[1..] == a;
    }
  }

  /** Splitting a join at its separator character gives back the parts when none contains it. */
  lemma {:induction false} SplitJoin(parts: seq<string>, c: char)
    requires |parts| > 0
    requires forall k :: 0 <= k < |parts| ==> c !in parts[k]
    ensures Split(Join(parts, [c]), c) == parts
  {
    if |parts| == 1 {
      SplitFree(parts[0], c);
    } else {
      SplitJoin(parts[1..], c);
      SplitAfter(parts[0], c, Join(parts[1..], [c]));
      assert [parts[0]] + parts[1..] == parts;
    }
  }

  /** Joining the pieces of a split restores the string. */
  lemma {:induction false} JoinSplit(s: string, c: char)
    ensures Join(Split(s, c), [c]) == s
  {
    if |s| > 0 {
      JoinSplit(s[1..], c);
      var rest := Split(s[1..], c);
      if s[0] == c {
        JoinAppend([""], rest, [c]);
        assert [""] + rest == Split(s, c);
      } else if |rest| == 1 {
        assert [s[0]] + s[1..] == s;
      } else {
        assert rest == [rest[0]] + rest[1..];
        assert Join(rest, [c]) == rest[0] + [c] + Join(rest[1..], [c]);
        assert [s[0]] + s[1..] == s;
      }
    }
  }
}

/** The string building blocks of the grounded-line format: Python's `str(i)` on a
    non-negative int, `sep.join(parts)` with a one-character separator, and the
    matching `s.split(sep)` used to read a line back. */
module Text {

  /** The character for a decimal digit. */
  function Digit(d: nat): (c: char)
    requires d < 10
    ensures '0' <= c <= '9'
  {
    (48 + d) as char
  }

  ghost predicate IsDigits(s: string) {
    forall i :: 0 <= i < |s| ==> '0' <= s[i] <= '9'
  }

  /** `str(n)`: the decimal digits of `n`, most significant first, no leading zeros. */
  function NatToString(n: nat): (s: string)
    ensures |s| >= 1 && IsDigits(s)
    ensures |s| > 1 ==> s[0] != '0'
  {
    if n < 10 then [Digit(n)] else NatToString(n / 10) + [Digit(n % 10)]
  }

  /** `int(s)` on a string of decimal digits. */
  function ParseNat(s: string): nat {
    if s == [] then 0
    else
      var d := s[|s| - 1] as int - 48;
      ParseNat(s[..|s| - 1]) * 10 + (if 0 <= d then d else 0)
  }

  /** Reading the decimal form of a number gives the number back. */
  lemma {:induction false} ParseNatToString(n: nat)
    ensures ParseNat(NatToString(n)) == n
  {
    var s := NatToString(n);
    if n >= 10 {
      assert s[..|s| - 1] == NatToString(n / 10);
      ParseNatToString(n / 10);
    }
  }

  /** Distinct numbers have distinct decimal forms. */
  lemma NatToStringInjective(m: nat, n: nat)
    requires NatToString(m) == NatToString(n)
    ensures m == n
  {
    ParseNatToString(m);
    ParseNatToString(n);
  }

  /** `[str(i) for i in xs]`. */
  function NatStrings(xs: seq<nat>): (r: seq<string>)
    ensures |r| == |xs|
    ensures forall i :: 0 <= i < |xs| ==> r[i] == NatToString(xs[i])
  {
    if xs == [] then [] else [NatToString(xs[0])] + NatStrings(xs[1..])
  }

  /** `sep.join(parts)`: the parts with one separator between neighbours. */
  function Join(sep: char, parts: seq<string>): string {
    if parts == [] then ""
    else if |parts| == 1 then parts[0]
    else parts[0] + [sep] + Join(sep, parts[1..])
  }

  /** Joining a first piece onto a non-empty rest puts one separator between them. */
  lemma JoinCons(sep: char, a: string, rest: seq<string>)
    requires rest != []
    ensures Join(sep, [a] + rest) == a + [sep] + Join(sep, rest)
  {
    assert ([a] + rest)[1..] == rest;
  }

  /** `s.split(sep)`: the maximal pieces between separators; always at least one. */
  function Split(s: string, sep: char): (r: seq<string>)
    ensures |r| >= 1
  {
    if s == [] then [""]
    else
      var rest := Split(s[1..], sep);
      if s[0] == sep then [""] + rest else [[s[0]] + rest[0]] + rest[1..]
  }

  /** No character of `s` is `c`. */
  ghost predicate Free(s: string, c: char) {
    forall i :: 0 <= i < |s| ==> s[i] != c
  }

  /** Every part of `parts` is free of `c`. */
  ghost predicate AllFree(parts: seq<string>, c: char) {
    forall i :: 0 <= i < |parts| ==> Free(parts[i], c)
  }

  /** A separator-free prefix sticks to the first piece of what follows it. */
  lemma {:induction false} SplitFreePrefix(p: string, t: string, sep: char)
    requires Free(p, sep)
    ensures Split(p + t, sep) == [p + Split(t, sep)[0]] + Split(t, sep)[1..]
  {
    var st := Split(t, sep);
    if p == [] {
      assert p + t == t;
      assert p + st[0] == st[0];
      assert st == [st[0]] + st[1..];
    } else {
      assert (p + t)[0] == p[0] != sep;
      assert (p + t)[1..] == p[1..] + t;
      SplitFreePrefix(p[1..], t, sep);
      var rest := Split(p[1..] + t, sep);
      assert rest == [p[1..] + st[0]] + st[1..];
      assert rest[1..] == st[1..];
      assert [p[0]] + (p[1..] + st[0]) == p + st[0];
    }
  }

  /** A separator-free piece followed by a separator starts its own field. */
  lemma SplitAtSeparator(p: string, t: string, sep: char)
    requires Free(p, sep)
    ensures Split(p + [sep] + t, sep) == [p] + Split(t, sep)
  {
    SplitFreePrefix(p, [sep] + t, sep);
    assert p + [sep] + t == p + ([sep] + t);
    assert ([sep] + t)[1..] == t;
    assert p + "" == p;
  }

  /** Splitting a join recovers the parts when no part holds the separator. */
  lemma {:induction false} SplitJoin(parts: seq<string>, sep: char)
    requires |parts| >= 1 && AllFree(parts, sep)
    ensures Split(Join(sep, parts), sep) == parts
  {
    if |parts| == 1 {
      SplitFreePrefix(parts[0], "", sep);
      assert parts[0] + "" == parts[0];
    } else {
      assert AllFree(parts[1..], sep) by {
        forall i | 0 <= i < |parts| - 1 ensures Free(parts[1..][i], sep) {
          assert parts[1..][i] == parts[i + 1];
        }
      }
      SplitJoin(parts[1..], sep);
      SplitAtSeparator(parts[0], Join(sep, parts[1..]), sep);
      assert [parts[0]] + parts[1..] == parts;
    }
  }

  /** A join is free of `c` when the parts are and `c` is not the separator. */
  lemma {:induction false} JoinFree(sep: char, parts: seq<string>, c: char)
    requires AllFree(parts, c) && sep != c
    ensures Free(Join(sep, parts), c)
  {
    if |parts| > 1 {
      assert AllFree(parts[1..], c) by {
        forall i | 0 <= i < |parts| - 1 ensures Free(parts[1..][i], c) {
          assert parts[1..][i] == parts[i + 1];
        }
      }
      JoinFree(sep, parts[1..], c);
    }
  }

  /** A join of at least one non-empty part is non-empty. */
  lemma JoinNonEmpty(sep: char, parts: seq<string>)
    requires |parts| >= 1 && |parts[0]| >= 1
    ensures |Join(sep, parts)| >= 1
  {
  }

  /** Joining `a` with the join of `b` is joining `a + b` (both non-empty). */
  lemma {:induction false} JoinFlatten(sep: char, a: seq<string>, b: seq<string>)
    requires |a| >= 1 && |b| >= 1
    ensures Join(sep, a + [Join(sep, b)]) == Join(sep, a + b)
  {
    if |a| == 1 {
      assert (a + [Join(sep, b)])[1..] == [Join(sep, b)];
      assert (a + b)[1..] == b;
    } else {
      JoinFlatten(sep, a[1..], b);
      assert (a + [Join(sep, b)])[1..] == a[1..] + [Join(sep, b)];
      assert (a + b)[1..] == a[1..] + b;
    }
  }

  /** Decimal forms hold digits only, so they are free of any non-digit. */
  lemma DigitsFree(s: string, c: char)
    requires IsDigits(s) && !('0' <= c <= '9')
    ensures Free(s, c)
  {
  }

  /** All decimal forms of a list are free of any non-digit. */
  lemma NatStringsFree(xs: seq<nat>, c: char)
    requires !('0' <= c <= '9')
    ensures AllFree(NatStrings(xs), c)
  {
  }

  /** `','.join(str(i) for i in xs)` read back. */
  function ParseNats(s: string): seq<nat> {
    if s == "" then [] else ParseNatList(Split(s, ','))
  }

  function ParseNatList(parts: seq<string>): (r: seq<nat>)
    ensures |r| == |parts|
  {
    if parts == [] then [] else [ParseNat(parts[0])] + ParseNatList(parts[1..])
  }

  lemma {:induction false} ParseNatListStrings(xs: seq<nat>)
    ensures ParseNatList(NatStrings(xs)) == xs
  {
    if xs != [] {
      ParseNatToString(xs[0]);
      ParseNatListStrings(xs[1..]);
      assert NatStrings(xs)[1..] == NatStrings(xs[1..]);
    }
  }

  /** A comma-joined list of numbers reads back as the same list. */
  lemma ParseNatsJoin(xs: seq<nat>)
    ensures ParseNats(Join(',', NatStrings(xs))) == xs
  {
    if xs != [] {
      JoinNonEmpty(',', NatStrings(xs));
      NatStringsFree(xs, ',');
      SplitJoin(NatStrings(xs), ',');
      ParseNatListStrings(xs);
    }
  }
}

/** Decimal rendering of integers, as C#'s `int.ToString()` and string
    concatenation with an `int` produce it, and joining with a separator. */
module Text {
  import opened Wrappers

  predicate IsDigit(c: char) {
    '0' <= c <= '9'
  }

  predicate AllDigits(s: string) {
    forall i :: 0 <= i < |s| ==> IsDigit(s[i])
  }

  function DigitChar(d: nat): (c: char)
    requires d < 10
    ensures IsDigit(c)
  {
    (48 + d) as char
  }

  function DigitValue(c: char): (d: nat)
    requires IsDigit(c)
    ensures d < 10
  {
    (c as int) - 48
  }

  /** The shortest decimal representation of `n`, most significant digit first. */
  function NatString(n: nat): (s: string)
    ensures |s| >= 1 && AllDigits(s)
    decreases n
  {
    if n < 10 then [DigitChar(n)] else NatString(n / 10) + [DigitChar(n % 10)]
  }

  function ParseNat(s: string): nat
    requires AllDigits(s)
    decreases |s|
  {
    if s == [] then 0 else ParseNat(s[..|s| - 1]) * 10 + DigitValue(s[|s| - 1])
  }

  lemma {:induction false} ParseNatString(n: nat)
    ensures ParseNat(NatString(n)) == n
    decreases n
  {
    var s := NatString(n);
    if n >= 10 {
      ParseNatString(n / 10);
      assert s[..|s| - 1] == NatString(n / 10);
    }
  }

  /** C#'s rendering of an `int`: a leading '-' for negative values. */
  function IntString(n: int): (s: string)
    ensures |s| >= 1
    ensures (n < 0) == (s[0] == '-')
    ensures AllDigits(if n < 0 then s[1..] else s)
  {
    if n < 0 then "-" + NatString(-n) else NatString(n)
  }

  function ParseInt(s: string): Option<int> {
    if |s| >= 1 && s[0] == '-' && AllDigits(s[1..]) then Some(0 - (ParseNat(s[1..]) as int))
    else if AllDigits(s) then Some(ParseNat(s))
    else None
  }

  /** Reading back a rendered integer recovers it. */
  lemma {:induction false} IntStringRoundTrip(n: int)
    ensures ParseInt(IntString(n)) == Some(n)
  {
    if n < 0 {
      ParseNatString(-n);
      assert IntString(n)[1..] == NatString(-n);
    } else {
      ParseNatString(n);
    }
  }

  lemma IntStringInjective(a: int, b: int)
    ensures IntString(a) == IntString(b) ==> a == b
  {
    IntStringRoundTrip(a);
    IntStringRoundTrip(b);
  }

  /** `parts` joined by `sep`: "" for no parts, the parts with `sep` between them otherwise. */
  function Join(parts: seq<string>, sep: string): string
    decreases |parts|
  {
    if |parts| == 0 then ""
    else if |parts| == 1 then parts[0]
    else Join(parts[..|parts| - 1], sep) + sep + parts[|parts| - 1]
  }

  predicate NonEmptyParts(parts: seq<string>) {
    forall i :: 0 <= i < |parts| ==> parts[i] != ""
  }

  /** Joined non-empty parts are empty exactly when there are no parts. */
  lemma JoinEmpty(parts: seq<string>, sep: string)
    requires NonEmptyParts(parts)
    ensures Join(parts, sep) == "" <==> parts == []
  {
    if |parts| >= 1 {
      assert |Join(parts, sep)| >= |parts[|parts| - 1]| > 0;
    }
  }

  /** Appending a part to a joined string, the way an accumulating loop does it. */
  lemma JoinAppend(parts: seq<string>, sep: string, p: string)
    ensures Join(parts + [p], sep) == if parts == [] then p else Join(parts, sep) + sep + p
  {
    assert (parts + [p])[..|parts|] == parts;
  }

  /** A character occurs in a join exactly when it occurs in a part, or in the
      separator and there are at least two parts. */
  lemma {:induction false} JoinMembers(parts: seq<string>, sep: string, c: char)
    ensures c in Join(parts, sep) <==>
      (exists i :: 0 <= i < |parts| && c in parts[i]) || (|parts| >= 2 && c in sep)
    decreases |parts|
  {
    if |parts| >= 2 {
      var init := parts[..|parts| - 1];
      JoinMembers(init, sep, c);
      if c in Join(parts, sep) && !(|parts| >= 2 && c in sep) && c !in parts[|parts| - 1] {
        assert c in Join(init, sep);
        if |init| >= 2 && c in sep {
        } else {
          var i :| 0 <= i < |init| && c in init[i];
          assert c in parts[i];
        }
      }
      if exists i :: 0 <= i < |parts| && c in parts[i] {
        var i :| 0 <= i < |parts| && c in parts[i];
        if i < |parts| - 1 {
          assert c in init[i];
        }
      }
    }
  }
}

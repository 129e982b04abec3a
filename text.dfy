/** Text primitives the panel's codec is built from: the .NET string operations
    `Split(char)` (no options, so empty parts are kept), `Trim()`, and the
    decimal formatting of an `int` used by string interpolation, together with
    the inverse operations the proofs pair them with. */
module Text {

  datatype Option<+T> = None | Some(value: T) {
    predicate IsFailure() { None? }

    function PropagateFailure<U>(): Option<U>
      requires None?
    {
      None
    }

    function Extract(): T
      requires Some?
    {
      value
    }
  }

  // ---------------------------------------------------------------------------
  // Whitespace and Trim

  /** The whitespace `Trim` removes. .NET trims every Unicode white-space
      character; this model keeps the ASCII ones. */
  predicate IsWs(c: char) {
    c == ' ' || c == '\t' || c == '\n' || c == '\r' || c == '\U{B}' || c == '\U{C}'
  }

  /** `String.TrimStart()`: drops leading whitespace. */
  function TrimStart(s: string): string {
    if |s| > 0 && IsWs(s[0]) then TrimStart(s[1..]) else s
  }

  /** `String.TrimEnd()`: drops trailing whitespace. */
  function TrimEnd(s: string): string {
    if |s| > 0 && IsWs(s[|s| - 1]) then TrimEnd(s[..|s| - 1]) else s
  }

  /** TrimStart keeps the suffix of `s` that starts at its first
      non-whitespace character. */
  lemma {:induction false} TrimStartSpec(s: string)
    ensures |TrimStart(s)| <= |s| && TrimStart(s) == s[|s| - |TrimStart(s)|..]
    ensures forall i :: 0 <= i < |s| - |TrimStart(s)| ==> IsWs(s[i])
    ensures TrimStart(s) == [] || !IsWs(TrimStart(s)[0])
  {
    if |s| > 0 && IsWs(s[0]) {
      TrimStartSpec(s[1..]);
      assert s[1..][|s| - 1 - |TrimStart(s)|..] == s[|s| - |TrimStart(s)|..];
      forall i | 1 <= i < |s| - |TrimStart(s)| ensures IsWs(s[i]) {
        assert s[i] == s[1..][i - 1];
      }
    }
  }

  /** TrimEnd keeps the prefix of `s` that ends at its last non-whitespace
      character. */
  lemma {:induction false} TrimEndSpec(s: string)
    ensures |TrimEnd(s)| <= |s| && TrimEnd(s) == s[..|TrimEnd(s)|]
    ensures forall i :: |TrimEnd(s)| <= i < |s| ==> IsWs(s[i])
    ensures TrimEnd(s) == [] || !IsWs(TrimEnd(s)[|TrimEnd(s)| - 1])
  {
    if |s| > 0 && IsWs(s[|s| - 1]) {
      TrimEndSpec(s[..|s| - 1]);
      assert s[..|s| - 1][..|TrimEnd(s)|] == s[..|TrimEnd(s)|];
      forall i | |TrimEnd(s)| <= i < |s| - 1 ensures IsWs(s[i]) {
        assert s[i] == s[..|s| - 1][i];
      }
    }
  }

  /** `String.Trim()`: `s` with leading and trailing whitespace removed. */
  function Trim(s: string): string {
    TrimEnd(TrimStart(s))
  }

  /** The number of leading whitespace characters `Trim` drops. */
  function LeadingWs(s: string): nat {
    TrimStartSpec(s);
    |s| - |TrimStart(s)|
  }

  /** Trim gives a contiguous piece of its input... */
  lemma {:induction false} TrimIsSlice(s: string)
    ensures LeadingWs(s) + |Trim(s)| <= |s|
    ensures Trim(s) == s[LeadingWs(s)..LeadingWs(s) + |Trim(s)|]
  {
    TrimStartSpec(s);
    TrimEndSpec(TrimStart(s));
    var t := TrimStart(s);
    var u := TrimEnd(t);
    assert t == s[LeadingWs(s)..];
    assert u == t[..|u|];
  }

  /** ...everything around that piece is whitespace... */
  lemma {:induction false} TrimDropsWs(s: string)
    ensures forall k :: 0 <= k < LeadingWs(s) ==> IsWs(s[k])
    ensures forall k :: LeadingWs(s) + |Trim(s)| <= k < |s| ==> IsWs(s[k])
  {
    TrimStartSpec(s);
    TrimEndSpec(TrimStart(s));
    var t := TrimStart(s);
    var i := LeadingWs(s);
    assert t == s[i..];
    forall k | i + |Trim(s)| <= k < |s| ensures IsWs(s[k]) {
      assert s[k] == t[k - i];
    }
  }

  /** ...and the piece neither starts nor ends with whitespace. */
  lemma {:induction false} TrimEnds(s: string)
    ensures Trim(s) == [] || (!IsWs(Trim(s)[0]) && !IsWs(Trim(s)[|Trim(s)| - 1]))
  {
    TrimStartSpec(s);
    TrimEndSpec(TrimStart(s));
    var t := TrimStart(s);
    var u := TrimEnd(t);
    if |u| > 0 {
      assert u == t[..|u|];
      assert u[0] == t[0];
    }
  }

  /** A string with no surrounding whitespace is left as it is. */
  lemma {:induction false} TrimUnchanged(s: string)
    requires s == [] || (!IsWs(s[0]) && !IsWs(s[|s| - 1]))
    ensures Trim(s) == s
  {
  }

  /** Trimming twice is trimming once. */
  lemma {:induction false} TrimIdempotent(s: string)
    ensures Trim(Trim(s)) == Trim(s)
  {
    TrimEnds(s);
    TrimUnchanged(Trim(s));
  }

  /** Trim removes characters only, so a character absent from `s` is absent
      from `Trim(s)`. */
  lemma {:induction false} TrimKeepsOut(s: string, c: char)
    requires c !in s
    ensures c !in Trim(s)
  {
    TrimIsSlice(s);
  }

  // ---------------------------------------------------------------------------
  // Split and Join

  /** `String.Split(sep)` without options: the pieces between separators,
      empty pieces included, so the result always has one more element than
      `s` has separators. */
  function Split(s: string, sep: char): (parts: seq<string>)
    ensures |parts| >= 1
  {
    if |s| == 0 then [""]
    else if s[0] == sep then [""] + Split(s[1..], sep)
    else
      var rest := Split(s[1..], sep);
      [[s[0]] + rest[0]] + rest[1..]
  }

  /** No part of a split holds the separator. */
  lemma {:induction false} SplitPartsNoSep(s: string, sep: char)
    ensures forall i :: 0 <= i < |Split(s, sep)| ==> sep !in Split(s, sep)[i]
  {
    if |s| > 0 {
      SplitPartsNoSep(s[1..], sep);
      var rest := Split(s[1..], sep);
      if s[0] != sep {
        assert forall i :: 1 <= i < |Split(s, sep)| ==> Split(s, sep)[i] == rest[i];
      }
    }
  }

  /** A character absent from `s` is absent from every part of its split. */
  lemma {:induction false} SplitPartsKeepOut(s: string, sep: char, c: char)
    requires c !in s
    ensures forall i :: 0 <= i < |Split(s, sep)| ==> c !in Split(s, sep)[i]
  {
    if |s| > 0 {
      assert c !in s[1..];
      SplitPartsKeepOut(s[1..], sep, c);
      var rest := Split(s[1..], sep);
      if s[0] != sep {
        assert forall i :: 1 <= i < |Split(s, sep)| ==> Split(s, sep)[i] == rest[i];
        assert Split(s, sep)[0] == [s[0]] + rest[0];
      }
    }
  }

  /** `String.Join(sep, parts)`: the parts with one separator between each
      neighbouring pair. */
  function Join(parts: seq<string>, sep: char): string {
    if |parts| == 0 then ""
    else if |parts| == 1 then parts[0]
    else parts[0] + [sep] + Join(parts[1..], sep)
  }

  /** The number of occurrences of `c` in `s`. */
  function Count(s: string, c: char): nat {
    if |s| == 0 then 0 else (if s[0] == c then 1 else 0) + Count(s[1..], c)
  }

  /** A join is its first part followed by what joining an empty first part
      with the rest gives. */
  lemma {:induction false} JoinFirst(parts: seq<string>, sep: char)
    requires |parts| >= 1
    ensures Join(parts, sep) == parts[0] + Join([""] + parts[1..], sep)
  {
    var tail := [""] + parts[1..];
    assert tail[1..] == parts[1..];
    if |parts| == 1 {
      assert Join(tail, sep) == "";
    } else {
      assert Join(tail, sep) == "" + [sep] + Join(parts[1..], sep);
    }
  }

  /** Joining the parts of a split gives back the original text. */
  lemma {:induction false} JoinSplit(s: string, sep: char)
    ensures Join(Split(s, sep), sep) == s
  {
    if |s| > 0 {
      var rest := Split(s[1..], sep);
      JoinSplit(s[1..], sep);
      assert s == [s[0]] + s[1..];
      if s[0] == sep {
        assert ([""] + rest)[1..] == rest;
        assert Join([""] + rest, sep) == "" + [sep] + Join(rest, sep);
      } else {
        var parts := [[s[0]] + rest[0]] + rest[1..];
        assert Split(s, sep) == parts;
        JoinFirst(parts, sep);
        JoinFirst(rest, sep);
        assert parts[1..] == rest[1..];
      }
    }
  }

  /** Splitting text that starts with a separator-free piece and a separator. */
  lemma {:induction false} SplitCons(a: string, b: string, sep: char)
    requires sep !in a
    ensures Split(a + [sep] + b, sep) == [a] + Split(b, sep)
  {
    if |a| == 0 {
      assert a + [sep] + b == [sep] + b;
      assert ([sep] + b)[1..] == b;
    } else {
      var s := a + [sep] + b;
      assert s[0] == a[0];
      assert s[1..] == a[1..] + [sep] + b;
      SplitCons(a[1..], b, sep);
      assert [a[0]] + a[1..] == a;
    }
  }

  /** Splitting at one separator splits the two sides independently. */
  lemma {:induction false} SplitConcat(a: string, b: string, sep: char)
    ensures Split(a + [sep] + b, sep) == Split(a, sep) + Split(b, sep)
    decreases |a|
  {
    var s := a + [sep] + b;
    if |a| == 0 {
      assert s == [sep] + b;
      assert s[1..] == b;
    } else {
      assert s[0] == a[0];
      assert s[1..] == a[1..] + [sep] + b;
      SplitConcat(a[1..], b, sep);
    }
  }

  /** Splitting text that ends with a separator and a separator-free piece. */
  lemma {:induction false} SplitSnoc(a: string, b: string, sep: char)
    requires sep !in b
    ensures Split(a + [sep] + b, sep) == Split(a, sep) + [b]
    decreases |a|
  {
    var s := a + [sep] + b;
    if |a| == 0 {
      assert s == [sep] + b;
      assert s[1..] == b;
      SplitNoSep(b, sep);
    } else {
      assert s[0] == a[0];
      assert s[1..] == a[1..] + [sep] + b;
      SplitSnoc(a[1..], b, sep);
      var inner := Split(a[1..], sep);
      if a[0] != sep {
        var rest := inner + [b];
        assert rest[0] == inner[0];
        assert rest[1..] == inner[1..] + [b];
      }
    }
  }

  /** A separator-free text splits into itself alone. */
  lemma {:induction false} SplitNoSep(s: string, sep: char)
    requires sep !in s
    ensures Split(s, sep) == [s]
  {
    if |s| > 0 {
      SplitNoSep(s[1..], sep);
      assert [s[0]] + s[1..] == s;
    }
  }

  /** Splitting a join gives back the parts, provided no part holds the
      separator: the split is the join's inverse on such parts. */
  lemma {:induction false} SplitJoin(parts: seq<string>, sep: char)
    requires |parts| >= 1
    requires forall p :: p in parts ==> sep !in p
    ensures Split(Join(parts, sep), sep) == parts
  {
    if |parts| == 1 {
      SplitNoSep(parts[0], sep);
    } else {
      SplitJoin(parts[1..], sep);
      SplitCons(parts[0], Join(parts[1..], sep), sep);
      assert [parts[0]] + parts[1..] == parts;
    }
  }

  /** Splitting yields one part more than there are separators. */
  lemma {:induction false} SplitCount(s: string, sep: char)
    ensures |Split(s, sep)| == Count(s, sep) + 1
  {
    if |s| > 0 {
      SplitCount(s[1..], sep);
    }
  }

  /** A text splits into exactly two parts iff it has exactly one separator,
      and the two parts are then what precedes and what follows it. */
  lemma {:induction false} SplitTwo(s: string, sep: char)
    ensures |Split(s, sep)| == 2 <==> Count(s, sep) == 1
    ensures |Split(s, sep)| == 2 ==> s == Split(s, sep)[0] + [sep] + Split(s, sep)[1]
  {
    SplitCount(s, sep);
    var parts := Split(s, sep);
    if |parts| == 2 {
      JoinSplit(s, sep);
      assert Join(parts[1..], sep) == parts[1];
    }
  }

  // ---------------------------------------------------------------------------
  // Decimal formatting of integers

  function Digit(d: nat): char
    requires d < 10
  {
    ('0' as int + d) as char
  }

  predicate IsDigit(c: char) { '0' <= c <= '9' }

  function DigitValue(c: char): nat
    requires IsDigit(c)
  {
    (c as int - '0' as int) as nat
  }

  /** The decimal digits of `n`, most significant first, with no leading zero. */
  function NatToString(n: nat): (r: string)
    ensures |r| >= 1 && forall i :: 0 <= i < |r| ==> IsDigit(r[i])
    ensures r[0] == '0' ==> n == 0
  {
    if n < 10 then [Digit(n)] else NatToString(n / 10) + [Digit(n % 10)]
  }

  /** What `$"{n}"` writes for an `int` under the invariant culture: an ASCII
      `-` before the digits of a negative number (a culture with another
      negative sign is not modelled). */
  function IntToString(n: int): string {
    if n < 0 then "-" + NatToString(-n) else NatToString(n)
  }

  /** The value of a non-empty run of decimal digits. */
  function ParseNat(s: string): Option<nat> {
    if |s| == 0 || !IsDigit(s[|s| - 1]) then None
    else if |s| == 1 then Some(DigitValue(s[0]))
    else
      var high :- ParseNat(s[..|s| - 1]);
      Some(high * 10 + DigitValue(s[|s| - 1]))
  }

  /** Reads back what `IntToString` writes: an optional minus sign and digits. */
  function ParseInt(s: string): Option<int> {
    if |s| > 0 && s[0] == '-' then
      match ParseNat(s[1..])
      case Some(m) => Some(-(m as int))
      case None => None
    else
      match ParseNat(s)
      case Some(m) => Some(m as int)
      case None => None
  }

  lemma {:induction false} NatRoundTrip(n: nat)
    ensures ParseNat(NatToString(n)) == Some(n)
  {
    var s := NatToString(n);
    if n < 10 {
      assert DigitValue(s[0]) == n;
    } else {
      var high := NatToString(n / 10);
      assert s == high + [Digit(n % 10)];
      assert s[..|s| - 1] == high;
      assert DigitValue(s[|s| - 1]) == n % 10;
      NatRoundTrip(n / 10);
      assert ParseNat(s) == Some(n / 10 * 10 + n % 10);
    }
  }

  /** Formatting an integer and reading it back gives the same integer. */
  lemma {:induction false} IntRoundTrip(n: int)
    ensures ParseInt(IntToString(n)) == Some(n)
  {
    if n < 0 {
      var t := NatToString(-n);
      assert ParseNat(t) == Some(-n) by { NatRoundTrip(-n); }
      assert IntToString(n) == "-" + t;
      assert ("-" + t)[0] == '-' && ("-" + t)[1..] == t;
    } else {
      assert ParseNat(NatToString(n)) == Some(n) by { NatRoundTrip(n); }
      assert IsDigit(NatToString(n)[0]);
    }
  }

  /** A formatted integer holds only digits and possibly a leading minus, so no
      separator of the wire format appears in it. */
  lemma {:induction false} IntToStringNoSep(n: int, c: char)
    requires c != '-' && !IsDigit(c)
    ensures c !in IntToString(n)
  {
  }
}

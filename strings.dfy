/** The Go standard-library string functions the allocator relies on: `strings.Split` with a
    one-character separator, `strings.HasPrefix`, and the decimal conversions `strconv.Atoi`
    (with its error discarded) and `strconv.Itoa`. */
module Strings {

  /** `strings.Split(s, string(sep))`: the pieces of `s` between occurrences of `sep`. */
  function Split(s: string, sep: char): (parts: seq<string>)
    ensures |parts| >= 1
    decreases |s|
  {
    if |s| == 0 then [""]
    else
      var rest := Split(s[1..], sep);
      if s[0] == sep then [""] + rest
      else [[s[0]] + rest[0]] + rest[1..]
  }

  /** `strings.Join(parts, string(sep))`. */
  function Join(parts: seq<string>, sep: char): string
  {
    if |parts| == 0 then ""
    else if |parts| == 1 then parts[0]
    else parts[0] + [sep] + Join(parts[1..], sep)
  }

  /** `strings.HasPrefix(s, p)`. */
  predicate HasPrefix(s: string, p: string)
    ensures HasPrefix(s, p) <==> exists t :: s == p + t
  {
    |p| <= |s| && (assert s == s[..|p|] + s[|p|..]; s[..|p|] == p)
  }

  /** No piece of a split contains the separator. */
  lemma {:induction false} SplitPiecesHaveNoSeparator(s: string, sep: char)
    ensures forall i :: 0 <= i < |Split(s, sep)| ==> sep !in Split(s, sep)[i]
    decreases |s|
  {
    if |s| > 0 {
      SplitPiecesHaveNoSeparator(s[1..], sep);
    }
  }

  lemma JoinConsHead(c: char, p: string, ps: seq<string>, sep: char)
    ensures Join([[c] + p] + ps, sep) == [c] + Join([p] + ps, sep)
  {
    if |ps| > 0 {
      assert ([[c] + p] + ps)[1..] == ps;
      assert ([p] + ps)[1..] == ps;
    }
  }

  /** Joining the pieces with the separator gives back the original string. */
  lemma {:induction false} JoinSplit(s: string, sep: char)
    ensures Join(Split(s, sep), sep) == s
    decreases |s|
  {
    if |s| > 0 {
      var rest := Split(s[1..], sep);
      JoinSplit(s[1..], sep);
      if s[0] == sep {
        assert ([""] + rest)[1..] == rest;
        assert Join(Split(s, sep), sep) == "" + [sep] + Join(rest, sep);
        assert [s[0]] + s[1..] == s;
      } else {
        assert rest == [rest[0]] + rest[1..];
        JoinConsHead(s[0], rest[0], rest[1..], sep);
        assert [s[0]] + s[1..] == s;
      }
    }
  }

  /** Splitting a string that begins with a separator-free piece `p`. */
  lemma {:induction false} SplitAfterPiece(p: string, t: string, sep: char)
    requires sep !in p
    ensures Split(p + t, sep) == [p + Split(t, sep)[0]] + Split(t, sep)[1..]
    decreases |p|
  {
    if |p| == 0 {
      assert p + t == t;
      assert p + Split(t, sep)[0] == Split(t, sep)[0];
      assert Split(t, sep) == [Split(t, sep)[0]] + Split(t, sep)[1..];
    } else {
      assert (p + t)[1..] == p[1..] + t;
      SplitAfterPiece(p[1..], t, sep);
      assert [p[0]] + (p[1..] + Split(t, sep)[0]) == p + Split(t, sep)[0];
    }
  }

  /** Splitting a join of separator-free pieces gives back the pieces. */
  lemma {:induction false} SplitJoin(parts: seq<string>, sep: char)
    requires |parts| >= 1
    requires forall i :: 0 <= i < |parts| ==> sep !in parts[i]
    ensures Split(Join(parts, sep), sep) == parts
    decreases |parts|
  {
    if |parts| == 1 {
      SplitAfterPiece(parts[0], "", sep);
      assert parts[0] + "" == parts[0];
    } else {
      var tail := Join(parts[1..], sep);
      SplitJoin(parts[1..], sep);
      assert Join(parts, sep) == parts[0] + ([sep] + tail);
      SplitAfterPiece(parts[0], [sep] + tail, sep);
      assert ([sep] + tail)[1..] == tail;
      assert Split([sep] + tail, sep) == [""] + parts[1..];
      assert parts[0] + "" == parts[0];
    }
  }

  /** The first piece is the text before the first separator: it is a separator-free prefix
      of `s`, and there is more than one piece exactly when `s` contains the separator, in which
      case the separator follows the first piece. */
  lemma {:induction false} SplitFirstPiece(s: string, sep: char)
    ensures var head := Split(s, sep)[0];
      HasPrefix(s, head) && sep !in head &&
      (|Split(s, sep)| >= 2 <==> sep in s) &&
      (sep in s ==> |head| < |s| && s[|head|] == sep)
    decreases |s|
  {
    if |s| > 0 {
      SplitFirstPiece(s[1..], sep);
      if s[0] != sep {
        assert sep in s <==> sep in s[1..];
      }
    }
  }

  predicate IsDigit(c: char)
  {
    '0' <= c <= '9'
  }

  predicate AllDigits(s: string)
  {
    forall i :: 0 <= i < |s| ==> IsDigit(s[i])
  }

  /** The value of a string of decimal digits, most significant first. */
  function DecimalValue(s: string): nat
    requires AllDigits(s)
  {
    if |s| == 0 then 0
    else DecimalValue(s[..|s| - 1]) * 10 + (s[|s| - 1] as int - '0' as int)
  }

  /** An optional sign followed by at least one decimal digit: what `strconv.Atoi` accepts. */
  predicate IsDecimal(s: string)
  {
    if |s| >= 1 && (s[0] == '-' || s[0] == '+') then |s| >= 2 && AllDigits(s[1..])
    else |s| >= 1 && AllDigits(s)
  }

  /** `strconv.Atoi(s)` with its error dropped, as in `coreNo, _ := strconv.Atoi(c)`: an
      optional sign followed by at least one decimal digit gives its value, and anything else
      (the empty string, a lone sign, any other character) gives 0. */
  function Atoi(s: string): (r: int)
    ensures |s| >= 1 && AllDigits(s) ==> r == DecimalValue(s)
    ensures r < 0 ==> |s| >= 2 && s[0] == '-'
  {
    if |s| == 0 then 0
    else if s[0] == '-' || s[0] == '+' then
      if |s| >= 2 && AllDigits(s[1..]) then
        var magnitude: int := DecimalValue(s[1..]);
        if s[0] == '-' then -magnitude else magnitude
      else 0
    else if AllDigits(s) then DecimalValue(s)
    else 0
  }

  function DigitChar(d: nat): char
    requires d < 10
  {
    ('0' as int + d) as char
  }

  /** `strconv.Itoa(n)` for a non-negative `n`: its decimal digits without leading zeros. */
  function Itoa(n: nat): string
  {
    if n < 10 then [DigitChar(n)] else Itoa(n / 10) + [DigitChar(n % 10)]
  }

  lemma {:induction false} ItoaDigits(n: nat)
    ensures |Itoa(n)| >= 1 && AllDigits(Itoa(n)) && DecimalValue(Itoa(n)) == n
  {
    if n >= 10 {
      ItoaDigits(n / 10);
      var s := Itoa(n);
      assert s[..|s| - 1] == Itoa(n / 10);
    }
  }

  /** Whatever `strconv.Atoi` rejects yields 0 once its error is dropped. */
  lemma AtoiOfMalformedIsZero(s: string)
    requires !IsDecimal(s)
    ensures Atoi(s) == 0
  {
  }

  /** Parsing a decimal rendering gives back the number. */
  lemma AtoiItoa(n: nat)
    ensures Atoi(Itoa(n)) == n
  {
    ItoaDigits(n);
  }

  /** A decimal rendering never holds a separator such as ',' or '/'. */
  lemma ItoaHasOnlyDigits(n: nat, c: char)
    requires !IsDigit(c)
    ensures c !in Itoa(n)
  {
    ItoaDigits(n);
  }
}

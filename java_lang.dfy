/**
 The few pieces of java.lang that the gap detector relies on, stated with
 their Java meaning: `String.split` with a literal delimiter, `String.endsWith`,
 `Integer.parseInt`, the decimal text of an `int` in string concatenation, and
 32-bit `int` subtraction. Failures that end a call (an exception, `System.exit`)
 are values of `Failure`.
 */
module JavaLang {

  datatype Option<+T> = None | Some(value: T)

  /** How a call ends when it does not return normally. */
  datatype Failure =
    | IndexOutOfBounds(index: int)        // List.get with an index outside the list
    | Exit(code: int, message: string)    // the message printed, then System.exit(code)

  datatype Result<+T> = Ok(value: T) | Err(failure: Failure)

  // ---------------------------------------------------------------------------
  // 32-bit int

  const MinInt: int := -0x8000_0000
  const MaxInt: int := 0x7FFF_FFFF
  const Modulus: int := 0x1_0000_0000

  predicate IsInt32(n: int) {
    MinInt <= n <= MaxInt
  }

  /** Java's `a - b` on two `int`s: two's complement, wrapping modulo 2^32. */
  function Int32Sub(a: int, b: int): (r: int)
    requires IsInt32(a) && IsInt32(b)
    ensures IsInt32(r)
    ensures (a - b - r) % Modulus == 0
    ensures IsInt32(a - b) ==> r == a - b
  {
    var d := a - b;
    if d > MaxInt then d - Modulus else if d < MinInt then d + Modulus else d
  }

  // ---------------------------------------------------------------------------
  // Searching and splitting

  /** `d` occurs in `s` starting at index `i`. */
  predicate OccursAt(s: string, d: string, i: int) {
    0 <= i && i + |d| <= |s| && s[i..i + |d|] == d
  }

  /** `s.indexOf(d, from)`: the leftmost occurrence of `d` at or after `from`. */
  function IndexOf(s: string, d: string, from: nat): (r: Option<nat>)
    decreases |s| - from
    ensures r.Some? ==> from <= r.value && OccursAt(s, d, r.value)
    ensures forall k :: from <= k && (r.None? || k < r.value) ==> !OccursAt(s, d, k)
  {
    if from + |d| > |s| then None
    else if s[from..from + |d|] == d then Some(from)
    else IndexOf(s, d, from + 1)
  }

  /** The fields joined back with the delimiter between them. */
  function Join(fields: seq<string>, d: string): string
    decreases |fields|
  {
    if |fields| == 0 then ""
    else if |fields| == 1 then fields[0]
    else fields[0] + d + Join(fields[1..], d)
  }

  lemma OccursInPrefix(s: string, j: nat, d: string, k: int)
    requires j <= |s|
    requires OccursAt(s[..j], d, k)
    ensures OccursAt(s, d, k) && k + |d| <= j
  {
    assert s[..j][k..k + |d|] == s[k..k + |d|];
  }

  /**
   The pieces between successive leftmost, non-overlapping occurrences of a
   non-empty literal delimiter, trailing empty pieces included.
   */
  function Pieces(s: string, d: string): (r: seq<string>)
    requires |d| > 0
    decreases |s|
    ensures |r| >= 1
  {
    match IndexOf(s, d, 0)
    case None => [s]
    case Some(j) => [s[..j]] + Pieces(s[j + |d|..], d)
  }

  /** Joining the pieces with the delimiter gives back the string. */
  lemma {:induction false} JoinPieces(s: string, d: string)
    requires |d| > 0
    decreases |s|
    ensures Join(Pieces(s, d), d) == s
  {
    match IndexOf(s, d, 0)
    case None =>
    case Some(j) =>
      var rest := s[j + |d|..];
      var tail := Pieces(rest, d);
      JoinPieces(rest, d);
      var r := [s[..j]] + tail;
      assert r[0] == s[..j] && r[1..] == tail;
      assert Join(r, d) == s[..j] + d + rest;
      assert s[j..j + |d|] == d;
      assert s == s[..j] + s[j..j + |d|] + rest;
  }

  /** No piece contains the delimiter. */
  lemma {:induction false} PiecesAvoidDelimiter(s: string, d: string, j: int, k: int)
    requires |d| > 0 && 0 <= j < |Pieces(s, d)|
    decreases |s|
    ensures !OccursAt(Pieces(s, d)[j], d, k)
  {
    match IndexOf(s, d, 0)
    case None =>
    case Some(i) =>
      if j == 0 {
        if OccursAt(s[..i], d, k) {
          OccursInPrefix(s, i, d, k);
        }
      } else {
        PiecesAvoidDelimiter(s[i + |d|..], d, j - 1, k);
      }
  }

  /** The fields with every trailing "" removed. */
  function DropTrailingEmpty(fields: seq<string>): (r: seq<string>)
    decreases |fields|
    ensures r <= fields
    ensures r == [] || r[|r| - 1] != ""
  {
    if |fields| == 0 || fields[|fields| - 1] != "" then fields
    else DropTrailingEmpty(fields[..|fields| - 1])
  }

  /** Only empty fields are removed. */
  lemma {:induction false} DropTrailingEmptyOnlyEmpty(fields: seq<string>, j: int)
    requires |DropTrailingEmpty(fields)| <= j < |fields|
    decreases |fields|
    ensures fields[j] == ""
  {
    if |fields| > 0 && fields[|fields| - 1] == "" && j < |fields| - 1 {
      DropTrailingEmptyOnlyEmpty(fields[..|fields| - 1], j);
    }
  }

  /** One field per character, as splitting on the empty pattern gives. */
  function Chars(s: string): seq<string> {
    seq(|s|, j requires 0 <= j < |s| => [s[j]])
  }

  /**
   `s.split(d)` for a delimiter with no regular-expression metacharacters
   (limit 0). A string without the delimiter is its own single field;
   otherwise the pieces, with trailing empty fields removed, so that a
   string made only of delimiters gives no field at all. The empty
   delimiter matches between every two characters.
   */
  function Split(s: string, d: string): (r: seq<string>)
    ensures |d| > 0 && (forall k :: !OccursAt(s, d, k)) ==> r == [s]
    ensures |d| > 0 && r != [s] ==> r <= Pieces(s, d) && (r == [] || r[|r| - 1] != "")
  {
    if |d| == 0 then (if s == "" then [""] else Chars(s))
    else if IndexOf(s, d, 0).None? then [s]
    else DropTrailingEmpty(Pieces(s, d))
  }

  /** Three fields joined with the delimiter. */
  lemma JoinThree(a: string, b: string, c: string, d: string)
    ensures Join([a, b, c], d) == a + d + b + d + c
  {
    assert [a, b, c][1..] == [b, c];
    assert [b, c][1..] == [c];
    assert Join([c], d) == c;
    assert Join([b, c], d) == b + d + c;
  }

  /** Four fields joined with the delimiter. */
  lemma JoinFour(a: string, b: string, c: string, e: string, d: string)
    ensures Join([a, b, c, e], d) == a + d + b + d + c + d + e
  {
    var fields := [a, b, c, e];
    assert fields[1..] == [b, c, e];
    assert fields[1..][1..] == [c, e];
    assert fields[1..][1..][1..] == [e];
    assert [c, e][1..] == [e];
    assert Join([e], d) == e;
    var tail := Join([c, e], d);
    assert tail == c + d + e;
    assert Join([b, c, e], d) == b + d + tail;
    assert a + d + (b + d + tail) == a + d + b + d + c + d + e;
  }

  /**
   `s` holds no occurrence of `d` and does not end with a non-empty proper
   prefix of `d`: an occurrence of `d` right after `s` is then the first
   one. For " - ": no " - " inside, and no trailing " " or " -".
   */
  predicate Separable(s: string, d: string) {
    && (forall k :: 0 <= k < |s| ==> !OccursAt(s, d, k))
    && (forall m :: 0 < m < |d| && m <= |s| ==> s[|s| - m..] != d[..m])
  }

  /** No character of `s` is the first character of the delimiter. */
  predicate Clean(s: string, d: string)
    requires |d| > 0
  {
    forall i :: 0 <= i < |s| ==> s[i] != d[0]
  }

  /** A string without the delimiter's first character is separable. */
  lemma CleanIsSeparable(s: string, d: string)
    requires |d| > 0 && Clean(s, d)
    ensures Separable(s, d)
  {
    forall k | 0 <= k < |s| ensures !OccursAt(s, d, k) {
      if k + |d| <= |s| {
        assert s[k..k + |d|][0] == s[k];
      }
    }
    forall m | 0 < m < |d| && m <= |s| ensures s[|s| - m..] != d[..m] {
      assert s[|s| - m..][0] == s[|s| - m];
    }
  }

  /**
   A string in which `d[1]` never occurs and whose last character is not
   `d[0]` is separable: for " - ", no '-' and no trailing space.
   */
  lemma SeparableWithoutSecond(s: string, d: string)
    requires |d| >= 2
    requires forall i :: 0 <= i < |s| ==> s[i] != d[1]
    requires |s| == 0 || s[|s| - 1] != d[0]
    ensures Separable(s, d)
  {
    forall k | 0 <= k < |s| ensures !OccursAt(s, d, k) {
      if k + |d| <= |s| {
        assert s[k..k + |d|][1] == s[k + 1];
      }
    }
    forall m | 0 < m < |d| && m <= |s| ensures s[|s| - m..] != d[..m] {
      if m == 1 {
        assert s[|s| - m..][0] == s[|s| - 1];
      } else {
        assert s[|s| - m..][1] == s[|s| - m + 1];
      }
    }
  }

  /** After a separable string, the delimiter that follows is the first occurrence. */
  lemma FirstOccurrenceAfter(a: string, d: string, rest: string)
    requires |d| > 0 && Separable(a, d)
    ensures IndexOf(a + d + rest, d, 0) == Some(|a|)
  {
    var s := a + d + rest;
    assert s[|a|..|a| + |d|] == d;
    assert OccursAt(s, d, |a|);
    forall k | 0 <= k < |a| ensures !OccursAt(s, d, k) {
      if k + |d| <= |a| {
        assert a[k..k + |d|] == s[k..k + |d|];
        assert !OccursAt(a, d, k);
      } else {
        var m := |a| - k;
        assert s[k..k + |d|][..m] == a[|a| - m..];
        assert a[|a| - m..] != d[..m];
      }
    }
    var r := IndexOf(s, d, 0);
    if r.Some? {
      assert !(r.value < |a|) && !(|a| < r.value);
    }
  }

  /** Splitting the joined fields gives them back when every field is separable. */
  lemma {:induction false} PiecesJoin(fields: seq<string>, d: string)
    requires |d| > 0 && |fields| >= 1
    requires forall j :: 0 <= j < |fields| ==> Separable(fields[j], d)
    decreases |fields|
    ensures Pieces(Join(fields, d), d) == fields
  {
    var s := Join(fields, d);
    if |fields| == 1 {
      assert Separable(s, d);
    } else {
      var a, rest := fields[0], Join(fields[1..], d);
      assert s == a + d + rest;
      FirstOccurrenceAfter(a, d, rest);
      assert s[..|a|] == a;
      assert s[|a| + |d|..] == rest;
      PiecesJoin(fields[1..], d);
      assert [a] + fields[1..] == fields;
    }
  }

  /**
   `split` undoes joining with the delimiter, provided every field is
   separable and the last field is not empty (an empty last field would be
   dropped).
   */
  lemma SplitJoin(fields: seq<string>, d: string)
    requires |d| > 0 && |fields| >= 1
    requires forall j :: 0 <= j < |fields| ==> Separable(fields[j], d)
    requires |fields| == 1 || fields[|fields| - 1] != ""
    ensures Split(Join(fields, d), d) == fields
  {
    var s := Join(fields, d);
    PiecesJoin(fields, d);
    if |fields| == 1 {
      assert Separable(s, d);
    } else {
      assert s == fields[0] + d + Join(fields[1..], d);
      FirstOccurrenceAfter(fields[0], d, Join(fields[1..], d));
    }
  }

  /**
   Once the delimiter occurs, `split` keeps the pieces in order and drops
   only trailing empty ones; without it, the string is its one field.
   */
  lemma SplitDropsOnlyEmpty(s: string, d: string)
    requires |d| > 0
    ensures IndexOf(s, d, 0).None? ==> Split(s, d) == [s]
    ensures IndexOf(s, d, 0).Some? ==>
              Split(s, d) <= Pieces(s, d) &&
              forall j :: |Split(s, d)| <= j < |Pieces(s, d)| ==> Pieces(s, d)[j] == ""
  {
    if IndexOf(s, d, 0).Some? {
      forall j | |Split(s, d)| <= j < |Pieces(s, d)| ensures Pieces(s, d)[j] == "" {
        DropTrailingEmptyOnlyEmpty(Pieces(s, d), j);
      }
    }
  }

  /** `s.endsWith(suffix)`: `s` is some string followed by `suffix`. */
  predicate EndsWith(s: string, suffix: string): (b: bool)
    ensures b <==> |suffix| <= |s| && s == s[..|s| - |suffix|] + suffix
  {
    |suffix| <= |s| && s[|s| - |suffix|..] == suffix
  }

  // ---------------------------------------------------------------------------
  // Decimal numbers

  predicate IsDigit(c: char) {
    '0' <= c <= '9'
  }

  predicate AllDigits(s: string) {
    forall i :: 0 <= i < |s| ==> IsDigit(s[i])
  }

  function DigitValue(c: char): (r: nat)
    requires IsDigit(c)
    ensures r < 10
  {
    c as int - '0' as int
  }

  function DigitChar(n: nat): (c: char)
    requires n < 10
    ensures IsDigit(c) && DigitValue(c) == n
  {
    ('0' as int + n) as char
  }

  /** The value of a string of decimal digits, most significant first. */
  function DigitsValue(s: string): nat
    requires AllDigits(s)
    decreases |s|
  {
    if |s| == 0 then 0 else DigitsValue(s[..|s| - 1]) * 10 + DigitValue(s[|s| - 1])
  }

  /**
   `Integer.parseInt(s)`: an optional '-' or '+' followed by at least one
   decimal digit, whose value fits in an `int`; anything else is a
   NumberFormatException, here `None`. Leading zeros are allowed: "01" is 1.
   */
  function ParseInt(s: string): (r: Option<int>)
    ensures r.Some? ==> IsInt32(r.value)
    ensures r.Some? ==> |s| > 0 && (IsDigit(s[0]) || s[0] == '-' || s[0] == '+')
    ensures |s| == 0 ==> r == None
  {
    if |s| == 0 then None
    else
      var digits := if s[0] == '-' || s[0] == '+' then s[1..] else s;
      if |digits| == 0 || !AllDigits(digits) then None
      else
        var v := if s[0] == '-' then -(DigitsValue(digits) as int) else DigitsValue(digits);
        if IsInt32(v) then Some(v) else None
  }

  /** A plain digit string reads as its value exactly when that value fits in an `int`. */
  lemma ParseIntDigits(s: string)
    requires |s| > 0 && AllDigits(s)
    ensures ParseInt(s) == if DigitsValue(s) <= MaxInt then Some(DigitsValue(s)) else None
  {
    assert IsDigit(s[0]);
  }

  /**
   A character that is not a digit makes `parseInt` throw, unless it is the
   sign in front with something after it.
   */
  lemma ParseIntRejects(s: string, i: int)
    requires 0 <= i < |s| && !IsDigit(s[i])
    requires !(i == 0 && (s[0] == '-' || s[0] == '+') && |s| > 1)
    ensures ParseInt(s) == None
  {
    if s[0] == '-' || s[0] == '+' {
      if i > 0 {
        assert s[1..][i - 1] == s[i];
      }
    }
  }

  /** A signed digit string reads as its value, negated after '-', exactly when that fits in an `int`. */
  lemma ParseIntSigned(t: string)
    requires |t| > 0 && AllDigits(t)
    ensures ParseInt("-" + t) == if DigitsValue(t) <= -MinInt then Some(-(DigitsValue(t) as int)) else None
    ensures ParseInt("+" + t) == if DigitsValue(t) <= MaxInt then Some(DigitsValue(t) as int) else None
  {
    assert ("-" + t)[1..] == t;
    assert ("+" + t)[1..] == t;
  }

  /** The decimal text of a natural number, most significant digit first. */
  function NatToString(n: nat): (r: string)
    decreases n
    ensures |r| >= 1 && IsDigit(r[0]) && IsDigit(r[|r| - 1])
  {
    if n < 10 then [DigitChar(n)] else NatToString(n / 10) + [DigitChar(n % 10)]
  }

  /** The text of `n` is made of digits, reads back as `n`, and has no leading zero. */
  lemma {:induction false} NatToStringDigits(n: nat)
    decreases n
    ensures AllDigits(NatToString(n))
    ensures DigitsValue(NatToString(n)) == n
    ensures NatToString(n)[0] == '0' ==> n == 0
  {
    if n >= 10 {
      NatToStringDigits(n / 10);
      var r := NatToString(n);
      assert r[..|r| - 1] == NatToString(n / 10);
      assert r[0] == NatToString(n / 10)[0];
    }
  }

  /** The text Java writes for an `int` in string concatenation. */
  function IntToString(n: int): (r: string)
    ensures |r| >= 1
    ensures r[0] == '-' <==> n < 0
    ensures IsDigit(r[|r| - 1])
  {
    if n < 0 then "-" + NatToString(-n) else NatToString(n)
  }

  /** Reading back the text of an `int` gives the same `int`. */
  lemma ParseIntToString(n: int)
    requires IsInt32(n)
    ensures ParseInt(IntToString(n)) == Some(n)
  {
    var s := IntToString(n);
    if n < 0 {
      NatToStringDigits(-n);
      assert s[1..] == NatToString(-n);
    } else {
      NatToStringDigits(n);
      assert IsDigit(s[0]);
    }
  }

  /** The text of an `int` holds only digits and '-', so a delimiter starting otherwise never occurs in it. */
  lemma IntToStringClean(n: int, d: string)
    requires |d| > 0 && d[0] != '-' && !IsDigit(d[0])
    ensures Clean(IntToString(n), d)
  {
    var m: nat := if n < 0 then -n else n;
    NatToStringDigits(m);
    var s := IntToString(n);
    forall i | 0 <= i < |s| ensures s[i] != d[0] {
      if n < 0 && i > 0 {
        assert s[i] == NatToString(m)[i - 1];
      }
    }
  }

  /** Two `int`s with the same text are equal. */
  lemma IntToStringInjective(a: int, b: int)
    requires IntToString(a) == IntToString(b)
    ensures a == b
  {
    var s := IntToString(a);
    var ma: nat, mb: nat := if a < 0 then -a else a, if b < 0 then -b else b;
    NatToStringDigits(ma);
    NatToStringDigits(mb);
    assert IsDigit(NatToString(ma)[0]) && IsDigit(NatToString(mb)[0]);
    assert (a < 0) == (s[0] == '-');
    assert (b < 0) == (s[0] == '-');
    if a < 0 {
      assert s[1..] == NatToString(ma) == NatToString(mb);
    }
  }
}

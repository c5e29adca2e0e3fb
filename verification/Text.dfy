/**
 The string operations that the XMPP code takes from Go's standard library:
 splitting, joining, cutting at the first separator, and decimal conversion.
 */
module Text {
  import opened Wrappers

  // ------------------------------------------------------------------
  // Splitting and joining on one separator character

  /** strings.Split(s, sep): always at least one part, none containing `sep`. */
  function Split(s: string, sep: char): (parts: seq<string>)
    ensures |parts| >= 1
    ensures forall p :: p in parts ==> sep !in p
  {
    if s == "" then [""]
    else
      var rest := Split(s[1..], sep);
      if s[0] == sep then [""] + rest
      else [[s[0]] + rest[0]] + rest[1..]
  }

  /** strings.Join(parts, sep). */
  function Join(parts: seq<string>, sep: char): string
  {
    if |parts| == 0 then ""
    else if |parts| == 1 then parts[0]
    else parts[0] + [sep] + Join(parts[1..], sep)
  }

  lemma {:induction false} JoinSplit(s: string, sep: char)
    ensures Join(Split(s, sep), sep) == s
  {
    if s != "" {
      var rest := Split(s[1..], sep);
      JoinSplit(s[1..], sep);
      if s[0] == sep {
        assert ([""] + rest)[1..] == rest;
        assert Join([""] + rest, sep) == "" + [sep] + s[1..];
      } else {
        var parts := [[s[0]] + rest[0]] + rest[1..];
        assert parts[1..] == rest[1..];
        if |rest| == 1 {
          assert Join(parts, sep) == [s[0]] + rest[0];
        } else {
          assert Join(parts, sep) == [s[0]] + rest[0] + [sep] + Join(rest[1..], sep);
          assert Join(parts, sep) == [s[0]] + (rest[0] + [sep] + Join(rest[1..], sep));
        }
      }
      assert [s[0]] + s[1..] == s;
    }
  }

  lemma {:induction false} SplitOne(a: string, sep: char)
    requires sep !in a
    ensures Split(a, sep) == [a]
  {
    if a != "" {
      SplitOne(a[1..], sep);
      assert [a[0]] + a[1..] == a;
    }
  }

  lemma {:induction false} SplitAppend(a: string, b: string, sep: char)
    requires sep !in a
    ensures Split(a + [sep] + b, sep) == [a] + Split(b, sep)
  {
    var s := a + [sep] + b;
    if a == "" {
      assert s[1..] == b;
    } else {
      SplitAppend(a[1..], b, sep);
      assert s[1..] == a[1..] + [sep] + b;
      assert [a[0]] + a[1..] == a;
    }
  }

  lemma {:induction false} SplitJoin(parts: seq<string>, sep: char)
    requires |parts| >= 1
    requires forall p :: p in parts ==> sep !in p
    ensures Split(Join(parts, sep), sep) == parts
  {
    if |parts| == 1 {
      SplitOne(parts[0], sep);
    } else {
      SplitJoin(parts[1..], sep);
      SplitAppend(parts[0], Join(parts[1..], sep), sep);
    }
  }

  /** Joining loses nothing when no part is empty or holds the separator. */
  lemma JoinInjective(xs: seq<string>, ys: seq<string>, sep: char)
    requires forall p :: p in xs ==> p != "" && sep !in p
    requires forall p :: p in ys ==> p != "" && sep !in p
    requires Join(xs, sep) == Join(ys, sep)
    ensures xs == ys
  {
    JoinEmptyOnlyForNone(xs, sep);
    JoinEmptyOnlyForNone(ys, sep);
    if xs != [] && ys != [] {
      SplitJoin(xs, sep);
      SplitJoin(ys, sep);
    }
  }

  lemma JoinEmptyOnlyForNone(xs: seq<string>, sep: char)
    requires forall p :: p in xs ==> p != ""
    ensures Join(xs, sep) == "" <==> xs == []
  {
    if xs != [] {
      assert xs[0] in xs;
    }
  }

  /** Joining parts made of other characters never produces `c`. */
  lemma {:induction false} JoinLacks(xs: seq<string>, sep: char, c: char)
    requires c != sep
    requires forall p :: p in xs ==> c !in p
    ensures c !in Join(xs, sep)
  {
    if |xs| > 1 {
      JoinLacks(xs[1..], sep, c);
    }
  }

  // ------------------------------------------------------------------
  // strings.SplitN(s, sep, 2)

  datatype Cutting = Whole | Two(before: string, after: string)

  /** Splits at the first `sep`; `Whole` when there is none. */
  function Cut(s: string, sep: char): (r: Cutting)
    ensures r.Whole? <==> sep !in s
    ensures r.Two? ==> s == r.before + [sep] + r.after && sep !in r.before
  {
    if s == "" then Whole
    else if s[0] == sep then Two("", s[1..])
    else match Cut(s[1..], sep)
      case Whole => Whole
      case Two(a, b) => Two([s[0]] + a, b)
  }

  lemma CutAt(a: string, b: string, sep: char)
    requires sep !in a
    ensures Cut(a + [sep] + b, sep) == Two(a, b)
  {
    var s := a + [sep] + b;
    assert s[|a|] == sep;
    var r := Cut(s, sep);
    var n := |r.before|;
    assert s[n] == sep;
    assert forall i :: 0 <= i < |a| ==> s[i] in a;
    assert forall i :: 0 <= i < n ==> s[i] in r.before;
    assert n == |a|;
    assert r.before == s[..n] == a;
    assert r.after == s[n + 1..] == b;
  }

  // ------------------------------------------------------------------
  // strconv.Itoa and strconv.Atoi

  const INT_MAX: int := 0x7FFF_FFFF_FFFF_FFFF
  const INT_MIN: int := -0x8000_0000_0000_0000

  predicate IsInt(n: int) {
    INT_MIN <= n <= INT_MAX
  }

  predicate IsDigit(c: char) {
    '0' <= c <= '9'
  }

  predicate AllDigits(s: string) {
    forall c :: c in s ==> IsDigit(c)
  }

  function Digits(n: nat): (s: string)
    ensures s != "" && AllDigits(s)
  {
    var d := ['0' + (n % 10) as char];
    if n < 10 then d else Digits(n / 10) + d
  }

  function DigitsValue(s: string): nat
    requires AllDigits(s)
  {
    if s == "" then 0
    else
      assert s[|s| - 1] in s;
      DigitsValue(s[..|s| - 1]) * 10 + (s[|s| - 1] - '0') as nat
  }

  function Itoa(n: int): string {
    if n < 0 then "-" + Digits(-n) else Digits(n)
  }

  /** An optional sign, then digits, in the range of a 64-bit int. */
  function Atoi(s: string): Option<int> {
    var body := if s != "" && (s[0] == '-' || s[0] == '+') then s[1..] else s;
    if body == "" || !AllDigits(body) then None
    else
      var magnitude: int := DigitsValue(body);
      var n := if s[0] == '-' then -magnitude else magnitude;
      if IsInt(n) then Some(n) else None
  }

  lemma {:induction false} DigitsRoundTrip(n: nat)
    ensures DigitsValue(Digits(n)) == n
  {
    var d := ['0' + (n % 10) as char];
    if n < 10 {
      assert d[..0] == "";
    } else {
      DigitsRoundTrip(n / 10);
      assert (Digits(n / 10) + d)[..|Digits(n / 10) + d| - 1] == Digits(n / 10);
    }
  }

  lemma AtoiItoa(n: int)
    requires IsInt(n)
    ensures Atoi(Itoa(n)) == Some(n)
  {
    if n < 0 {
      DigitsRoundTrip(-n);
      assert Itoa(n)[1..] == Digits(-n);
    } else {
      DigitsRoundTrip(n);
      assert Digits(n)[0] in Digits(n);
    }
  }

  /** What is accepted: an optional sign and digits, in range; a minus negates, leading zeros count for nothing. */
  lemma AtoiMeans(digits: string)
    ensures digits != "" && AllDigits(digits) ==>
              var n: int := DigitsValue(digits);
              && Atoi(digits) == Atoi("+" + digits) == (if IsInt(n) then Some(n) else None)
              && Atoi("-" + digits) == (if IsInt(-n) then Some(-n) else None)
    ensures digits == "" || !AllDigits(digits) ==> Atoi("+" + digits).None? && Atoi("-" + digits).None?
  {
    assert ("+" + digits)[1..] == digits && ("-" + digits)[1..] == digits;
    if digits != "" && AllDigits(digits) {
      assert digits[0] in digits;
    }
  }

  lemma {:induction false} LeadingZero(digits: string)
    requires AllDigits(digits)
    ensures AllDigits("0" + digits) && DigitsValue("0" + digits) == DigitsValue(digits)
  {
    var zero := "0" + digits;
    if digits == "" {
      assert zero[..0] == "";
    } else {
      LeadingZero(digits[..|digits| - 1]);
      assert zero[..|zero| - 1] == "0" + digits[..|digits| - 1];
    }
  }

  lemma ItoaLacks(n: int, c: char)
    requires !IsDigit(c) && c != '-'
    ensures c !in Itoa(n)
  {
  }
}

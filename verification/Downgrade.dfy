/**
 The SCRAM downgrade-protection string (auth.go:358-406, XEP-0474): both
 advertised lists, sorted and joined with control characters.
 */
module Downgrade {
  import opened Wrappers
  import opened Text

  const RECORD_SEPARATOR: char := 0x1e as char
  const UNIT_SEPARATOR: char := 0x1f as char

  // ------------------------------------------------------------------
  // Sorting strings

  predicate Le(a: string, b: string) {
    a == "" || (b != "" && (a[0] < b[0] || (a[0] == b[0] && Le(a[1..], b[1..]))))
  }

  lemma {:induction false} LeTotal(a: string, b: string)
    ensures Le(a, b) || Le(b, a)
  {
    if a != "" && b != "" {
      LeTotal(a[1..], b[1..]);
    }
  }

  lemma {:induction false} LeAntisymmetric(a: string, b: string)
    requires Le(a, b) && Le(b, a)
    ensures a == b
  {
    if a != "" && b != "" {
      LeAntisymmetric(a[1..], b[1..]);
      assert a == [a[0]] + a[1..] && b == [b[0]] + b[1..];
    }
  }

  lemma {:induction false} LeTransitive(a: string, b: string, c: string)
    requires Le(a, b) && Le(b, c)
    ensures Le(a, c)
  {
    if a != "" && a[0] == b[0] == c[0] {
      LeTransitive(a[1..], b[1..], c[1..]);
    }
  }

  /** Up to the first place where they differ both agree, and there the smaller character or the shorter string wins. */
  ghost predicate DiffersAt(a: string, b: string, i: nat) {
    && i <= |a| && i <= |b| && a[..i] == b[..i]
    && if i < |a| && i < |b| then a[i] < b[i] else i == |a|
  }

  /** The order is that of the strings character by character. */
  lemma {:induction false} LeIsLexicographic(a: string, b: string)
    ensures Le(a, b) <==> exists i: nat :: DiffersAt(a, b, i)
  {
    if a == "" {
      assert DiffersAt(a, b, 0);
    } else if b != "" {
      LeIsLexicographic(a[1..], b[1..]);
      if a[0] < b[0] {
        assert DiffersAt(a, b, 0);
      } else if a[0] == b[0] {
        DifferLater(a, b);
      }
    }
  }

  lemma DifferLater(a: string, b: string)
    requires a != "" && b != "" && a[0] == b[0]
    ensures (exists i: nat :: DiffersAt(a, b, i)) <==> (exists i: nat :: DiffersAt(a[1..], b[1..], i))
  {
    if i: nat :| DiffersAt(a[1..], b[1..], i) {
      assert a[..i + 1] == [a[0]] + a[1..][..i] && b[..i + 1] == [b[0]] + b[1..][..i];
      assert DiffersAt(a, b, i + 1);
    }
    if i: nat :| DiffersAt(a, b, i) {
      assert i > 0;
      assert a[1..][..i - 1] == a[..i][1..] && b[1..][..i - 1] == b[..i][1..];
      assert DiffersAt(a[1..], b[1..], i - 1);
    }
  }

  ghost predicate Sorted(ss: seq<string>) {
    forall i, j :: 0 <= i < j < |ss| ==> Le(ss[i], ss[j])
  }

  function Insert(s: string, ss: seq<string>): (r: seq<string>)
    ensures multiset(r) == multiset(ss) + multiset{s}
  {
    if ss == [] then [s]
    else
      assert ss == [ss[0]] + ss[1..];
      if Le(s, ss[0]) then [s] + ss
      else [ss[0]] + Insert(s, ss[1..])
  }

  /** sort.Strings */
  function Sort(ss: seq<string>): (r: seq<string>)
    ensures multiset(r) == multiset(ss)
  {
    if ss == [] then []
    else
      assert ss == [ss[0]] + ss[1..];
      Insert(ss[0], Sort(ss[1..]))
  }

  lemma {:induction false} InsertSorted(s: string, ss: seq<string>)
    requires Sorted(ss)
    ensures Sorted(Insert(s, ss))
  {
    if ss != [] {
      LeTotal(s, ss[0]);
      if Le(s, ss[0]) {
        forall x | x in ss
          ensures Le(s, x)
        {
          if x != ss[0] {
            LeTransitive(s, ss[0], x);
          }
        }
      } else {
        InsertSorted(s, ss[1..]);
        var r := Insert(s, ss[1..]);
        forall x | x in r
          ensures Le(ss[0], x)
        {
          assert x in multiset(r);
          if x != s {
            assert x in multiset(ss[1..]);
          }
        }
      }
    }
  }

  lemma {:induction false} SortSorted(ss: seq<string>)
    ensures Sorted(Sort(ss))
  {
    if ss != [] {
      SortSorted(ss[1..]);
      InsertSorted(ss[0], Sort(ss[1..]));
    }
  }

  /** A multiset has one sorted listing only, so any sorting algorithm yields it. */
  lemma {:induction false} SortedUnique(xs: seq<string>, ys: seq<string>)
    requires Sorted(xs) && Sorted(ys) && multiset(xs) == multiset(ys)
    ensures xs == ys
  {
    if xs == [] {
      assert |multiset(ys)| == 0;
    } else {
      hide Le;
      assert |multiset(xs)| == |multiset(ys)|;
      LeastFirst(xs, ys);
      LeastFirst(ys, xs);
      LeAntisymmetric(xs[0], ys[0]);
      TailMultiset(xs);
      TailMultiset(ys);
      SortedUnique(xs[1..], ys[1..]);
    }
  }

  lemma TailMultiset(xs: seq<string>)
    requires xs != []
    ensures multiset(xs[1..]) == multiset(xs) - multiset{xs[0]}
  {
    assert xs == [xs[0]] + xs[1..];
  }

  lemma LeastFirst(xs: seq<string>, ys: seq<string>)
    requires Sorted(xs) && xs != [] && ys != [] && multiset(xs) == multiset(ys)
    ensures Le(xs[0], ys[0])
  {
    LeTotal(xs[0], xs[0]);
    assert ys[0] in multiset(xs);
  }

  // ------------------------------------------------------------------
  // Names

  predicate IsMechanismChar(c: char) {
    'A' <= c <= 'Z' || '0' <= c <= '9' || c == '-' || c == '_'
  }

  predicate IsBindingChar(c: char) {
    'A' <= c <= 'Z' || 'a' <= c <= 'z' || '0' <= c <= '9' || c == '.' || c == '-'
  }

  predicate MechanismName(name: string) {
    && 0 < |name| <= 20
    && !('0' <= name[0] <= '9')
    && forall c :: c in name ==> IsMechanismChar(c)
  }

  predicate BindingName(name: string) {
    && name != ""
    && forall c :: c in name ==> IsBindingChar(c)
  }

  /** The same characters by their ASCII codes: letters, digits, and two others. */
  lemma NameCharacters(c: char)
    ensures var n := c as int;
            && (IsMechanismChar(c) <==> 65 <= n <= 90 || 48 <= n <= 57 || n == 45 || n == 95)
            && (IsBindingChar(c) <==> 65 <= n <= 90 || 97 <= n <= 122 || 48 <= n <= 57 || n == 45 || n == 46)
  {
  }

  /** A mechanism name is a letter, `-` or `_`, and at most nineteen of the characters after it. */
  lemma MechanismNames(first: char, rest: string)
    ensures MechanismName([first] + rest) <==>
            && (65 <= first as int <= 90 || first as int == 45 || first as int == 95)
            && |rest| < 20 && forall c :: c in rest ==> IsMechanismChar(c)
    ensures !MechanismName("")
  {
    var name := [first] + rest;
    assert name[0] == first && first in name && forall c :: c in rest ==> c in name;
    NameCharacters(first);
    if (forall c :: c in rest ==> IsMechanismChar(c)) && IsMechanismChar(first) {
      forall c | c in name
        ensures IsMechanismChar(c)
      {
        assert c == first || c in rest;
      }
    }
    hide IsMechanismChar;
  }

  method IsValidSASLMechanismName(name: string) returns (ok: bool)
    ensures ok == MechanismName(name)
  {
    if name == "" || |name| > 20 || ('0' <= name[0] <= '9') {
      return false;
    }
    for i := 0 to |name|
      invariant forall c :: c in name[..i] ==> IsMechanismChar(c)
    {
      if !IsMechanismChar(name[i]) {
        assert name[i] in name;
        return false;
      }
    }
    assert name[..|name|] == name;
    return true;
  }

  method IsValidChannelBindingName(name: string) returns (ok: bool)
    ensures ok == BindingName(name)
  {
    if name == "" {
      return false;
    }
    for i := 0 to |name|
      invariant forall c :: c in name[..i] ==> IsBindingChar(c)
    {
      if !IsBindingChar(name[i]) {
        assert name[i] in name;
        return false;
      }
    }
    assert name[..|name|] == name;
    return true;
  }

  // ------------------------------------------------------------------
  // The string

  datatype NameError = InvalidMechanism(name: string) | InvalidBinding(name: string)

  function FirstBad(names: seq<string>, good: string -> bool): (r: Option<string>)
    ensures r.None? <==> forall n :: n in names ==> good(n)
  {
    if names == [] then None
    else if !good(names[0]) then Some(names[0])
    else FirstBad(names[1..], good)
  }

  lemma {:induction false} FirstBadAt(names: seq<string>, good: string -> bool, i: nat)
    requires i < |names| && !good(names[i]) && forall n :: n in names[..i] ==> good(n)
    ensures FirstBad(names, good) == Some(names[i])
  {
    if i > 0 {
      assert names[0] in names[..i];
      assert names[1..][..i - 1] == names[..i][1..];
      FirstBadAt(names[1..], good, i - 1);
    }
  }

  function JoinSorted(names: seq<string>): string {
    Join(Sort(names), RECORD_SEPARATOR)
  }

  function Canonical(mechanisms: seq<string>, bindings: Option<seq<string>>): string {
    match bindings
    case None => JoinSorted(mechanisms)
    case Some(names) => JoinSorted(mechanisms) + [UNIT_SEPARATOR] + JoinSorted(names)
  }

  function DowngradeString(mechanisms: seq<string>, bindings: Option<seq<string>>): Result<string, NameError> {
    match FirstBad(mechanisms, MechanismName)
    case Some(name) => Err(InvalidMechanism(name))
    case None =>
      if bindings.Some? && FirstBad(bindings.value, BindingName).Some? then
        Err(InvalidBinding(FirstBad(bindings.value, BindingName).value))
      else Ok(Canonical(mechanisms, bindings))
  }

  /**
   The first mechanism that is not a valid name is reported, else the first
   binding that is not; without one there is a string.
   */
  lemma DowngradeStringFails(mechanisms: seq<string>, bindings: Option<seq<string>>, i: nat)
    requires i < |mechanisms| && !MechanismName(mechanisms[i])
    requires forall n :: n in mechanisms[..i] ==> MechanismName(n)
    ensures DowngradeString(mechanisms, bindings) == Err(InvalidMechanism(mechanisms[i]))
  {
    FirstBadAt(mechanisms, MechanismName, i);
  }

  lemma DowngradeBindingFails(mechanisms: seq<string>, bindings: seq<string>, i: nat)
    requires forall n :: n in mechanisms ==> MechanismName(n)
    requires i < |bindings| && !BindingName(bindings[i])
    requires forall n :: n in bindings[..i] ==> BindingName(n)
    ensures DowngradeString(mechanisms, Some(bindings)) == Err(InvalidBinding(bindings[i]))
  {
    FirstBadAt(bindings, BindingName, i);
  }

  method CopyMechanisms(mechanisms: seq<string>) returns (filtered: seq<string>, bad: Option<string>)
    ensures bad == FirstBad(mechanisms, MechanismName)
    ensures bad.None? ==> filtered == mechanisms
  {
    filtered := [];
    for i := 0 to |mechanisms|
      invariant filtered == mechanisms[..i]
      invariant forall n :: n in mechanisms[..i] ==> MechanismName(n)
    {
      var ok := IsValidSASLMechanismName(mechanisms[i]);
      if !ok {
        FirstBadAt(mechanisms, MechanismName, i);
        return filtered, Some(mechanisms[i]);
      }
      filtered := filtered + [mechanisms[i]];
    }
    assert mechanisms[..|mechanisms|] == mechanisms;
    return filtered, None;
  }

  method CopyBindings(names: seq<string>) returns (bindings: seq<string>, bad: Option<string>)
    ensures bad == FirstBad(names, BindingName)
    ensures bad.None? ==> bindings == names
  {
    bindings := [];
    for i := 0 to |names|
      invariant bindings == names[..i]
      invariant forall n :: n in names[..i] ==> BindingName(n)
    {
      var ok := IsValidChannelBindingName(names[i]);
      if !ok {
        FirstBadAt(names, BindingName, i);
        return bindings, Some(names[i]);
      }
      bindings := bindings + [names[i]];
    }
    assert names[..|names|] == names;
    return bindings, None;
  }

  method ScramDowngradeString(mechanisms: seq<string>, channelBindings: Option<seq<string>>)
    returns (r: Result<string, NameError>)
    ensures r == DowngradeString(mechanisms, channelBindings)
  {
    var filtered, badMechanism := CopyMechanisms(mechanisms);
    if badMechanism.Some? {
      return Err(InvalidMechanism(badMechanism.value));
    }
    var mechanismString := JoinSorted(filtered);
    if channelBindings.None? {
      return Ok(mechanismString);
    }
    var bindings, badBinding := CopyBindings(channelBindings.value);
    if badBinding.Some? {
      return Err(InvalidBinding(badBinding.value));
    }
    return Ok(mechanismString + [UNIT_SEPARATOR] + JoinSorted(bindings));
  }

  // ------------------------------------------------------------------
  // Canonical and injective

  ghost predicate SameLists(m1: seq<string>, b1: Option<seq<string>>, m2: seq<string>, b2: Option<seq<string>>) {
    && multiset(m1) == multiset(m2)
    && b1.Some? == b2.Some?
    && (b1.Some? ==> multiset(b1.value) == multiset(b2.value))
  }

  lemma SortDetermined(xs: seq<string>, ys: seq<string>)
    requires multiset(xs) == multiset(ys)
    ensures Sort(xs) == Sort(ys)
  {
    SortSorted(xs);
    SortSorted(ys);
    SortedUnique(Sort(xs), Sort(ys));
  }

  /** Neither separator can occur in a valid name. */
  ghost predicate Plain(name: string) {
    name != "" && RECORD_SEPARATOR !in name && UNIT_SEPARATOR !in name
  }

  lemma NamesArePlain(xs: seq<string>)
    requires (forall n :: n in xs ==> MechanismName(n)) || (forall n :: n in xs ==> BindingName(n))
    ensures forall n :: n in Sort(xs) ==> Plain(n)
  {
    forall n | n in Sort(xs)
      ensures Plain(n)
    {
      assert n in multiset(Sort(xs));
      assert n in xs;
      assert MechanismName(n) || BindingName(n);
    }
  }

  lemma JoinSortedInjective(xs: seq<string>, ys: seq<string>)
    requires forall n :: n in Sort(xs) ==> Plain(n)
    requires forall n :: n in Sort(ys) ==> Plain(n)
    requires JoinSorted(xs) == JoinSorted(ys)
    ensures multiset(xs) == multiset(ys)
  {
    JoinInjective(Sort(xs), Sort(ys), RECORD_SEPARATOR);
  }

  /** Two accepted inputs give the same string exactly when they are the same lists up to order. */
  lemma DowngradeStringCanonical(m1: seq<string>, b1: Option<seq<string>>, m2: seq<string>, b2: Option<seq<string>>)
    requires DowngradeString(m1, b1).Ok? && DowngradeString(m2, b2).Ok?
    ensures DowngradeString(m1, b1) == DowngradeString(m2, b2) <==> SameLists(m1, b1, m2, b2)
  {
    if SameLists(m1, b1, m2, b2) {
      SortDetermined(m1, m2);
      if b1.Some? {
        SortDetermined(b1.value, b2.value);
      }
    }
    if Canonical(m1, b1) == Canonical(m2, b2) {
      NamesArePlain(m1);
      NamesArePlain(m2);
      CutCanonical(m1, b1);
      CutCanonical(m2, b2);
      JoinSortedInjective(m1, m2);
      if b1.Some? {
        NamesArePlain(b1.value);
        NamesArePlain(b2.value);
        JoinSortedInjective(b1.value, b2.value);
      }
    }
  }

  /** The unit separator marks where the binding list starts, if there is one. */
  lemma CutCanonical(m: seq<string>, b: Option<seq<string>>)
    requires forall n :: n in Sort(m) ==> Plain(n)
    ensures Cut(Canonical(m, b), UNIT_SEPARATOR) ==
            if b.None? then Whole else Two(JoinSorted(m), JoinSorted(b.value))
  {
    JoinLacks(Sort(m), RECORD_SEPARATOR, UNIT_SEPARATOR);
    if b.Some? {
      CutAt(JoinSorted(m), JoinSorted(b.value), UNIT_SEPARATOR);
    }
  }

  /** The names in order, with the character 0x1e between them. */
  ghost predicate Lists(part: string, names: seq<string>) {
    if names == [] then part == ""
    else
      && Sorted(Split(part, 30 as char))
      && multiset(Split(part, 30 as char)) == multiset(names)
  }

  lemma JoinSortedLists(names: seq<string>)
    requires forall n :: n in Sort(names) ==> Plain(n)
    ensures Lists(JoinSorted(names), names)
  {
    if names != [] {
      assert |multiset(Sort(names))| == |multiset(names)|;
      SortSorted(names);
      SplitJoin(Sort(names), RECORD_SEPARATOR);
    }
  }

  /** The mechanisms come first; the bindings, if there are any to list, follow 0x1f. */
  lemma DowngradeStringLists(mechanisms: seq<string>, bindings: Option<seq<string>>)
    requires DowngradeString(mechanisms, bindings).Ok?
    ensures var s := DowngradeString(mechanisms, bindings).value;
            if bindings.None? then (31 as char) !in s && Lists(s, mechanisms)
            else
              && Cut(s, 31 as char).Two?
              && Lists(Cut(s, 31 as char).before, mechanisms) && Lists(Cut(s, 31 as char).after, bindings.value)
  {
    NamesArePlain(mechanisms);
    JoinSortedLists(mechanisms);
    CutCanonical(mechanisms, bindings);
    if bindings.Some? {
      NamesArePlain(bindings.value);
      JoinSortedLists(bindings.value);
    }
    hide Lists, JoinSorted;
  }
}

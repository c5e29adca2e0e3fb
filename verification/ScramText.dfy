/**
 The text layer of SCRAM (auth.go; sections 5.1 and 7 of RFC 5802): escaping
 of user names, and messages made of comma-separated `key=value` attributes.
 */
module ScramText {
  import opened Wrappers
  import opened Text

  // ------------------------------------------------------------------
  // Escaping

  function EscapeChar(c: char): string {
    if c == '=' then "=3D" else if c == ',' then "=2C" else [c]
  }

  function Escape(value: string): string {
    if value == "" then "" else EscapeChar(value[0]) + Escape(value[1..])
  }

  /** The server's reading of a saslname: `=` may only start `=3D` or `=2C`. */
  function Unescape(s: string): Option<string> {
    if s == "" then Some("")
    else if s[0] == ',' then None
    else if s[0] != '=' then
      match Unescape(s[1..])
      case None => None
      case Some(v) => Some([s[0]] + v)
    else if |s| < 3 || s[1..3] !in ["3D", "2C"] then None
    else
      match Unescape(s[3..])
      case None => None
      case Some(v) => Some([if s[1..3] == "3D" then '=' else ','] + v)
  }

  lemma {:induction false} EscapeLacksComma(value: string)
    ensures ',' !in Escape(value)
  {
    if value != "" {
      EscapeLacksComma(value[1..]);
    }
  }

  lemma {:induction false} UnescapeEscape(value: string)
    ensures Unescape(Escape(value)) == Some(value)
  {
    if value != "" {
      UnescapeEscape(value[1..]);
      var e := EscapeChar(value[0]);
      var s := e + Escape(value[1..]);
      assert s[|e|..] == Escape(value[1..]);
      if |e| == 3 {
        assert s[1..3] == e[1..3];
      }
      assert [value[0]] + value[1..] == value;
    }
  }

  lemma {:induction false} EscapeUnescape(s: string)
    requires Unescape(s).Some?
    ensures Escape(Unescape(s).value) == s
  {
    if s != "" {
      var n := if s[0] == '=' then 3 else 1;
      EscapeUnescape(s[n..]);
      var v := Unescape(s).value;
      assert v[1..] == Unescape(s[n..]).value;
      assert EscapeChar(v[0]) == s[..n];
      assert s[..n] + s[n..] == s;
    }
  }

  /** Escaping is a bijection onto the strings the server can unescape. */
  lemma EscapeIsTheOnlySpelling(s: string, value: string)
    ensures Unescape(s) == Some(value) <==> s == Escape(value)
  {
    UnescapeEscape(value);
    if Unescape(s) == Some(value) {
      EscapeUnescape(s);
    }
  }

  // ------------------------------------------------------------------
  // Attribute lists

  datatype Field = Field(key: string, value: string)

  type Fields = map<string, string>

  datatype FieldError = EmptyAttribute | MalformedAttribute | DuplicateAttribute(key: string)

  function Print(f: Field): string {
    f.key + "=" + f.value
  }

  function PrintAll(fs: seq<Field>): seq<string> {
    seq(|fs|, i requires 0 <= i < |fs| => Print(fs[i]))
  }

  /** A message that lists the fields in order. */
  function Message(fs: seq<Field>): string {
    Join(PrintAll(fs), ',')
  }

  function ToMap(fs: seq<Field>): Fields {
    if fs == [] then map[]
    else ToMap(fs[..|fs| - 1])[fs[|fs| - 1].key := fs[|fs| - 1].value]
  }

  ghost predicate Distinct(fs: seq<Field>) {
    forall i, j :: 0 <= i < j < |fs| ==> fs[i].key != fs[j].key
  }

  predicate Printable(f: Field) {
    '=' !in f.key && ',' !in f.key && ',' !in f.value
  }

  function AddPart(fields: Fields, part: string): Result<Fields, FieldError> {
    if part == "" then Err(EmptyAttribute)
    else match Cut(part, '=')
      case Whole => Err(MalformedAttribute)
      case Two(k, v) => if k in fields then Err(DuplicateAttribute(k)) else Ok(fields[k := v])
  }

  function ParseParts(parts: seq<string>): Result<Fields, FieldError> {
    if parts == [] then Ok(map[])
    else match ParseParts(parts[..|parts| - 1])
      case Err(e) => Err(e)
      case Ok(fields) => AddPart(fields, parts[|parts| - 1])
  }

  function ParseFields(message: string): Result<Fields, FieldError> {
    ParseParts(Split(message, ','))
  }

  lemma {:induction false} ErrorSticks(parts: seq<string>, n: nat)
    requires n <= |parts| && ParseParts(parts[..n]).Err?
    ensures ParseParts(parts) == ParseParts(parts[..n])
  {
    if n < |parts| {
      assert parts[..|parts| - 1][..n] == parts[..n];
      ErrorSticks(parts[..|parts| - 1], n);
    } else {
      assert parts[..n] == parts;
    }
  }

  /** The first part that does not fit decides on the error. */
  lemma FirstBadPart(parts: seq<string>, i: nat)
    requires i < |parts| && ParseParts(parts[..i]).Ok?
    ensures parts[i] == "" ==> ParseParts(parts) == Err(EmptyAttribute)
    ensures parts[i] != "" && '=' !in parts[i] ==> ParseParts(parts) == Err(MalformedAttribute)
    ensures forall key, value ::
              parts[i] == Print(Field(key, value)) && '=' !in key && key in ParseParts(parts[..i]).value
              ==> ParseParts(parts) == Err(DuplicateAttribute(key))
  {
    assert parts[..i + 1][..i] == parts[..i];
    assert ParseParts(parts[..i + 1]) == AddPart(ParseParts(parts[..i]).value, parts[i]);
    if ParseParts(parts[..i + 1]).Err? {
      ErrorSticks(parts, i + 1);
    }
    forall key, value | parts[i] == Print(Field(key, value)) && '=' !in key && key in ParseParts(parts[..i]).value
      ensures ParseParts(parts) == Err(DuplicateAttribute(key))
    {
      assert parts[i] == key + ['='] + value;
      CutAt(key, value, '=');
    }
  }

  method ParseSCRAMFields(message: string) returns (r: Result<Fields, FieldError>)
    ensures r == ParseFields(message)
  {
    var fields: Fields := map[];
    var parts := Split(message, ',');
    for i := 0 to |parts|
      invariant ParseParts(parts[..i]) == Ok(fields)
    {
      var part := parts[i];
      assert parts[..i + 1][..i] == parts[..i];
      assert ParseParts(parts[..i + 1]) == AddPart(fields, part);
      if part == "" {
        ErrorSticks(parts, i + 1);
        return Err(EmptyAttribute);
      }
      var kv := Cut(part, '=');
      if kv.Whole? {
        ErrorSticks(parts, i + 1);
        return Err(MalformedAttribute);
      }
      if kv.before in fields {
        ErrorSticks(parts, i + 1);
        return Err(DuplicateAttribute(kv.before));
      }
      fields := fields[kv.before := kv.after];
    }
    assert parts[..|parts|] == parts;
    return Ok(fields);
  }

  predicate WellFormed(parts: seq<string>) {
    forall i :: 0 <= i < |parts| ==> '=' in parts[i]
  }

  /** The fields of parts that all hold a `=`, in order. */
  function FieldsOf(parts: seq<string>): (fs: seq<Field>)
    requires WellFormed(parts)
    ensures |fs| == |parts|
    ensures forall i :: 0 <= i < |parts| ==> parts[i] == Print(fs[i]) && '=' !in fs[i].key
  {
    seq(|parts|, i requires 0 <= i < |parts| =>
      var kv := Cut(parts[i], '=');
      Field(kv.before, kv.after))
  }

  lemma {:induction false} KeysOfMap(fs: seq<Field>, key: string)
    ensures key in ToMap(fs) <==> exists i :: 0 <= i < |fs| && fs[i].key == key
  {
    if fs != [] {
      var init := fs[..|fs| - 1];
      KeysOfMap(init, key);
      if key in ToMap(init) {
        var i :| 0 <= i < |init| && init[i].key == key;
        assert fs[i].key == key;
      }
      if i :| 0 <= i < |fs| && fs[i].key == key {
        if i < |init| {
          assert init[i].key == key;
        }
      }
    }
  }

  lemma {:induction false} ParsePartsIff(parts: seq<string>)
    ensures ParseParts(parts).Ok? <==> WellFormed(parts) && Distinct(FieldsOf(parts))
    ensures ParseParts(parts).Ok? ==> ParseParts(parts) == Ok(ToMap(FieldsOf(parts)))
  {
    if parts == [] || !WellFormed(parts) {
      if parts != [] {
        MalformedFails(parts);
      }
    } else {
      var init, last := parts[..|parts| - 1], parts[|parts| - 1];
      assert parts == init + [last];
      ParsePartsIff(init);
      var before, f := FieldsOf(init), FieldsOf([last])[0];
      FieldsSnoc(init, last);
      DistinctSnoc(before, f);
      KnownPart(init, last);
      hide FieldsOf, ToMap, Distinct, WellFormed, AddPart;
    }
  }

  lemma FieldsSnoc(init: seq<string>, last: string)
    requires WellFormed(init + [last])
    ensures WellFormed(init) && WellFormed([last])
    ensures FieldsOf(init + [last]) == FieldsOf(init) + [FieldsOf([last])[0]]
  {
    assert (init + [last])[|init|] == last;
    assert forall i :: 0 <= i < |init| ==> (init + [last])[i] == init[i];
  }

  /** What one part more does to the fields so far. */
  lemma KnownPart(init: seq<string>, last: string)
    requires WellFormed([last])
    ensures var f := FieldsOf([last])[0];
            forall fields: Fields :: AddPart(fields, last)
              == if f.key in fields then Err(DuplicateAttribute(f.key)) else Ok(fields[f.key := f.value])
  {
    assert '=' in [last][0];
  }

  lemma DistinctSnoc(before: seq<Field>, f: Field)
    ensures Distinct(before + [f]) <==> Distinct(before) && f.key !in ToMap(before)
    ensures ToMap(before + [f]) == ToMap(before)[f.key := f.value]
  {
    var fs := before + [f];
    assert fs[..|fs| - 1] == before;
    KeysOfMap(before, f.key);
    if Distinct(fs) {
      assert forall i :: 0 <= i < |before| ==> fs[i] == before[i] && before[i].key != fs[|before|].key;
    }
  }

  lemma {:induction false} MalformedFails(parts: seq<string>)
    requires !WellFormed(parts)
    ensures ParseParts(parts).Err?
  {
    var init := parts[..|parts| - 1];
    if '=' in parts[|parts| - 1] {
      assert !WellFormed(init);
      MalformedFails(init);
    }
  }

  /**
   Parsing succeeds exactly when every comma-separated part has a `=` and no
   key occurs twice; the result then holds those fields and nothing else, and
   printing the fields in order gives the message back.
   */
  lemma ParseFieldsIff(message: string)
    ensures var parts := Split(message, ',');
            && (ParseFields(message).Ok? <==> WellFormed(parts) && Distinct(FieldsOf(parts)))
            && (ParseFields(message).Ok? ==>
                  && ParseFields(message) == Ok(ToMap(FieldsOf(parts)))
                  && Message(FieldsOf(parts)) == message)
  {
    var parts := Split(message, ',');
    ParsePartsIff(parts);
    JoinSplit(message, ',');
    if ParseFields(message).Ok? {
      assert PrintAll(FieldsOf(parts)) == parts;
    }
  }

  /** Any list of printable fields with distinct keys survives print and parse. */
  lemma ParseMessage(fs: seq<Field>)
    requires fs != [] && Distinct(fs)
    requires forall f :: f in fs ==> Printable(f)
    ensures ParseFields(Message(fs)) == Ok(ToMap(fs))
  {
    var parts := PrintAll(fs);
    forall i | 0 <= i < |fs|
      ensures ',' !in parts[i] && '=' in parts[i] && Cut(parts[i], '=') == Two(fs[i].key, fs[i].value)
    {
      assert fs[i] in fs;
      assert parts[i] == fs[i].key + ['='] + fs[i].value;
      CutAt(fs[i].key, fs[i].value, '=');
    }
    SplitJoin(parts, ',');
    assert FieldsOf(parts) == fs;
    ParsePartsIff(parts);
  }

  /** Reading a key of the map is finding its field in the list. */
  lemma {:induction false} MapLookup(fs: seq<Field>, key: string, value: string)
    requires Distinct(fs)
    ensures key in ToMap(fs) && ToMap(fs)[key] == value <==> Field(key, value) in fs
  {
    if fs != [] {
      var init, last := fs[..|fs| - 1], fs[|fs| - 1];
      assert fs == init + [last];
      MapLookup(init, key, value);
    }
  }

  lemma TwoFields(f: Field, g: Field)
    requires f.key != g.key
    ensures Message([f, g]) == Print(f) + "," + Print(g)
    ensures ToMap([f, g]) == map[f.key := f.value, g.key := g.value]
  {
    assert PrintAll([f, g]) == [Print(f), Print(g)];
    assert [Print(f), Print(g)][1..] == [Print(g)];
    assert Join([Print(g)], ',') == Print(g);
    assert [f, g][..1] == [f] && [f][..0] == [];
    assert ToMap([f]) == map[f.key := f.value];
  }
}

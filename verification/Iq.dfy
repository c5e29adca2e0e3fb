/** IQ stanzas: the decoding loop and the error reply (stanza/iq.go). */
module Iqs {
  import opened Wrappers
  import opened Xml
  import opened Nodes
  import opened StanzaErrors

  /** A registered payload: its name, and what the library made of its tokens. */
  datatype Payload = Payload(name: Name, tokens: seq<Token>)

  datatype IqValue = IqValue(
    name: Name,
    id: string,
    kind: string,
    from: string,
    to: string,
    payload: Option<Payload>,
    error: Option<Err>,
    any: Option<Node>)

  /** Which payload names are registered, and whether the library can fill the registered type. */
  datatype Registry = Registry(knows: Name -> bool, accepts: (Name, seq<Attr>, seq<Token>) -> bool)

  datatype IqError = Structure(error: DecodeError) | BadPayload

  // ------------------------------------------------------------------
  // Skipping over one element

  /** How many tokens up to and including the end tag that closes `depth + 1` open elements. */
  function ElementEnd(ts: seq<Token>, depth: nat): (r: Option<nat>)
    ensures r.Some? ==> 0 < r.value <= |ts|
    decreases |ts|
  {
    if ts == [] then None
    else if ts[0].End? && depth == 0 then Some(1)
    else
      var deeper := if ts[0].Start? then depth + 1 else if ts[0].End? then depth - 1 else depth;
      match ElementEnd(ts[1..], deeper)
      case None => None
      case Some(n) => Some(n + 1)
  }

  function Plus(r: Option<nat>, n: nat): Option<nat> {
    match r case None => None case Some(m) => Some(m + n)
  }

  lemma EndOfStart(name: Name, attrs: seq<Attr>, ts: seq<Token>, depth: nat)
    ensures ElementEnd([Start(name, attrs)] + ts, depth) == Plus(ElementEnd(ts, depth + 1), 1)
  {
    assert ([Start(name, attrs)] + ts)[1..] == ts;
  }

  lemma EndOfOther(t: Token, ts: seq<Token>, depth: nat)
    requires t.Chars? || t.Misc?
    ensures ElementEnd([t] + ts, depth) == Plus(ElementEnd(ts, depth), 1)
  {
    assert ([t] + ts)[1..] == ts;
  }

  lemma EndOfEnd(name: Name, ts: seq<Token>, depth: nat)
    ensures ElementEnd([End(name)] + ts, depth + 1) == Plus(ElementEnd(ts, depth), 1)
  {
    assert ([End(name)] + ts)[1..] == ts;
  }

  lemma EndSkipsOther(t: Token, more: seq<Token>, depth: nat, ts: seq<Token>)
    requires t.Chars? || t.Misc?
    requires ElementEnd(more + ts, depth) == Plus(ElementEnd(ts, depth), |more|)
    ensures ElementEnd([t] + more + ts, depth) == Plus(ElementEnd(ts, depth), |[t] + more|)
  {
    EndOfOther(t, more + ts, depth);
    hide ElementEnd;
    assert [t] + more + ts == [t] + (more + ts);
  }

  lemma {:induction false} ElementEndSkips(c: Content, depth: nat, ts: seq<Token>)
    ensures ElementEnd(Tokens(c) + ts, depth) == Plus(ElementEnd(ts, depth), |Tokens(c)|)
  {
    match c
    case Done =>
      assert Tokens(c) + ts == ts;
    case Text(text, rest) =>
      ElementEndSkips(rest, depth, ts);
      EndSkipsOther(Chars(text), Tokens(rest), depth, ts);
    case Other(rest) =>
      ElementEndSkips(rest, depth, ts);
      EndSkipsOther(Misc, Tokens(rest), depth, ts);
    case Element(name, attrs, inner, rest) =>
      ElementEndSkips(inner, depth + 1, [End(name)] + (Tokens(rest) + ts));
      ElementEndSkips(rest, depth, ts);
      EndSkipsElement(name, attrs, inner, rest, depth, ts);
  }

  lemma EndSkipsElement(name: Name, attrs: seq<Attr>, inner: Content, rest: Content, depth: nat, ts: seq<Token>)
    requires var after := [End(name)] + (Tokens(rest) + ts);
             ElementEnd(Tokens(inner) + after, depth + 1) == Plus(ElementEnd(after, depth + 1), |Tokens(inner)|)
    requires ElementEnd(Tokens(rest) + ts, depth) == Plus(ElementEnd(ts, depth), |Tokens(rest)|)
    ensures var all := Tokens(Element(name, attrs, inner, rest));
            ElementEnd(all + ts, depth) == Plus(ElementEnd(ts, depth), |all|)
  {
    ElementTokens(name, attrs, inner, rest, ts);
    ElementLength(name, attrs, inner, rest);
    hide Tokens;
    EndOfElement(name, attrs, Tokens(inner), Tokens(rest) + ts, depth);
  }

  lemma ElementLength(name: Name, attrs: seq<Attr>, inner: Content, rest: Content)
    ensures |Tokens(Element(name, attrs, inner, rest))| == |Tokens(inner)| + |Tokens(rest)| + 2
  {
  }

  lemma EndOfElement(name: Name, attrs: seq<Attr>, inner: seq<Token>, last: seq<Token>, depth: nat)
    requires ElementEnd(inner + ([End(name)] + last), depth + 1)
          == Plus(ElementEnd([End(name)] + last, depth + 1), |inner|)
    ensures ElementEnd([Start(name, attrs)] + (inner + ([End(name)] + last)), depth)
         == Plus(ElementEnd(last, depth), |inner| + 2)
  {
    EndOfStart(name, attrs, inner + ([End(name)] + last), depth);
    EndOfEnd(name, last, depth);
  }

  // ------------------------------------------------------------------
  // Decoding

  function ReadIqAttr(iq: IqValue, a: Attr): IqValue {
    if a.name.local == "id" then iq.(id := a.value)
    else if a.name.local == "type" then iq.(kind := a.value)
    else if a.name.local == "to" then iq.(to := a.value)
    else if a.name.local == "from" then iq.(from := a.value)
    else iq
  }

  function ReadIqAttrs(iq: IqValue, attrs: seq<Attr>): IqValue
    decreases |attrs|
  {
    if attrs == [] then iq else ReadIqAttrs(ReadIqAttr(iq, attrs[0]), attrs[1..])
  }

  /** Each of the four attributes is taken from the last one with its name; nothing else is touched. */
  lemma {:induction false} IqAttrsMean(iq: IqValue, attrs: seq<Attr>)
    ensures var r := ReadIqAttrs(iq, attrs);
            && TakesLast(attrs, "id", iq.id, r.id) && TakesLast(attrs, "type", iq.kind, r.kind)
            && TakesLast(attrs, "to", iq.to, r.to) && TakesLast(attrs, "from", iq.from, r.from)
            && r == iq.(id := r.id, kind := r.kind, to := r.to, from := r.from)
    decreases |attrs|
  {
    var r := ReadIqAttrs(iq, attrs);
    if attrs == [] {
      TakesLastNone("id", iq.id);
      TakesLastNone("type", iq.kind);
      TakesLastNone("to", iq.to);
      TakesLastNone("from", iq.from);
    } else {
      hide TakesLast;
      IqAttrsMean(ReadIqAttr(iq, attrs[0]), attrs[1..]);
      TakesLastCons(attrs, "id", iq.id, r.id);
      TakesLastCons(attrs, "type", iq.kind, r.kind);
      TakesLastCons(attrs, "to", iq.to, r.to);
      TakesLastCons(attrs, "from", iq.from, r.from);
    }
  }

  type IqDecoded = Result<(IqValue, seq<Token>), IqError>

  /** Decodes one child whose start tag has just been read. */
  function DecodeChild(reg: Registry, iq: IqValue, name: Name, attrs: seq<Attr>, ts: seq<Token>): (r: IqDecoded)
    ensures r.Ok? ==> |r.value.1| < |ts|
  {
    if name.local == "error" then
      var e := DecodeErr(ts, name, attrs);
      if e.Err? then Result.Err(Structure(e.error)) else Ok((iq.(error := Some(e.value.0)), e.value.1))
    else if reg.knows(name) then
      match ElementEnd(ts, 0)
      case None => Result.Err(Structure(UnexpectedEnd))
      case Some(n) =>
        if reg.accepts(name, attrs, ts[..n]) then Ok((iq.(payload := Some(Payload(name, ts[..n]))), ts[n..]))
        else Result.Err(BadPayload)
    else
      var node := Decode(ts, name, attrs, 1);
      if node.Err? then Result.Err(Structure(node.error)) else Ok((iq.(any := Some(node.value.0)), node.value.1))
  }

  function IqLoop(reg: Registry, ts: seq<Token>, name: Name, iq: IqValue): (r: IqDecoded)
    decreases |ts|
  {
    if ts == [] then Result.Err(Structure(UnexpectedEnd))
    else
      var rest := ts[1..];
      match ts[0]
      case Start(childName, attrs) =>
        var child := DecodeChild(reg, iq, childName, attrs, rest);
        if child.Err? then Result.Err(child.error) else IqLoop(reg, child.value.1, name, child.value.0)
      case End(endName) => if endName == name then Ok((iq, rest)) else IqLoop(reg, rest, name, iq)
      case _ => IqLoop(reg, rest, name, iq)
  }

  /** An end tag of another name is passed over. */
  lemma ForeignEndSkipped(reg: Registry, other: Name, name: Name, rest: seq<Token>, iq: IqValue)
    requires other != name
    ensures IqLoop(reg, [End(other)] + rest, name, iq) == IqLoop(reg, rest, name, iq)
  {
    assert ([End(other)] + rest)[1..] == rest;
  }

  // ------------------------------------------------------------------
  // The IQ object

  class Iq {
    var name: Name
    var id: string
    var kind: string
    var from: string
    var to: string
    var payload: Option<Payload>
    var error: Option<Err>
    var any: Option<Node>

    constructor (v: IqValue)
      ensures Value() == v
    {
      name, id, kind, from, to := v.name, v.id, v.kind, v.from, v.to;
      payload, error, any := v.payload, v.error, v.any;
    }

    function Value(): IqValue
      reads this
    {
      IqValue(name, id, kind, from, to, payload, error, any)
    }

    method UnmarshalAttrs(attrs: seq<Attr>)
      modifies this
      ensures Value() == ReadIqAttrs(old(Value()), attrs)
    {
      for i := 0 to |attrs|
        invariant ReadIqAttrs(Value(), attrs[i..]) == ReadIqAttrs(old(Value()), attrs)
      {
        var attr := attrs[i];
        assert attrs[i..][0] == attr && attrs[i..][1..] == attrs[i + 1..];
        if attr.name.local == "id" {
          id := attr.value;
        }
        if attr.name.local == "type" {
          kind := attr.value;
        }
        if attr.name.local == "to" {
          to := attr.value;
        }
        if attr.name.local == "from" {
          from := attr.value;
        }
      }
    }

    method UnmarshalChild(reg: Registry, d: Decoder, childName: Name, attrs: seq<Attr>) returns (err: Option<IqError>)
      modifies this, d
      ensures var r := DecodeChild(reg, old(Value()), childName, attrs, old(d.tokens));
              if r.Err? then err == Some(r.error) else err == None && Value() == r.value.0 && d.tokens == r.value.1
    {
      if childName.local == "error" {
        var e := UnmarshalErr(d, childName, attrs);
        if e.Err? {
          return Some(Structure(e.error));
        }
        error := Some(e.value);
        return None;
      }
      if reg.knows(childName) {
        var n := ElementEnd(d.tokens, 0);
        if n.None? {
          return Some(Structure(UnexpectedEnd));
        }
        var body := d.tokens[..n.value];
        if !reg.accepts(childName, attrs, body) {
          return Some(BadPayload);
        }
        d.tokens := d.tokens[n.value..];
        payload := Some(Payload(childName, body));
        return None;
      }
      var node := UnmarshalXML(d, childName, attrs);
      if node.Err? {
        return Some(Structure(node.error));
      }
      any := Some(node.value);
      return None;
    }

    /** UnmarshalXML on an IQ whose start tag has just been read. */
    method Unmarshal(reg: Registry, d: Decoder, startName: Name, attrs: seq<Attr>) returns (err: Option<IqError>)
      modifies this, d
      ensures var r := IqLoop(reg, old(d.tokens), startName, ReadIqAttrs(old(Value()).(name := startName), attrs));
              if r.Err? then err == Some(r.error) else err == None && Value() == r.value.0 && d.tokens == r.value.1
    {
      name := startName;
      UnmarshalAttrs(attrs);
      while true
        invariant IqLoop(reg, d.tokens, startName, Value())
               == IqLoop(reg, old(d.tokens), startName, ReadIqAttrs(old(Value()).(name := startName), attrs))
        decreases |d.tokens|
      {
        var t := d.Token();
        if t.None? {
          return Some(Structure(UnexpectedEnd));
        }
        match t.value {
          case Start(childName, childAttrs) =>
            err := UnmarshalChild(reg, d, childName, childAttrs);
            if err.Some? {
              return;
            }
          case End(endName) =>
            if endName == startName {
              return None;
            }
          case _ =>
        }
      }
    }

    /** Turns the IQ itself into its error reply. */
    method MakeError(e: Err)
      modifies this
      ensures Value() == ErrorReply(old(Value()), e)
    {
      var oldFrom, oldTo := from, to;
      kind := "error";
      from := oldTo;
      to := oldFrom;
      error := Some(e);
    }
  }

  function ErrorReply(iq: IqValue, e: Err): IqValue {
    iq.(kind := "error", from := iq.to, to := iq.from, error := Some(e))
  }

  // ------------------------------------------------------------------
  // Framing

  /** The errors, registered payloads and other children of the content, in order. */
  function Errors(c: Content): seq<Err> {
    match c
    case Done => []
    case Text(_, rest) => Errors(rest)
    case Other(rest) => Errors(rest)
    case Element(name, attrs, inner, rest) =>
      (if name.local == "error" then
         [ReadChildren(ReadAttrs(Err.Err(name, 0, "", "", ""), attrs), NodesOf(inner))]
       else [])
      + Errors(rest)
  }

  function Payloads(reg: Registry, c: Content): seq<Payload> {
    match c
    case Done => []
    case Text(_, rest) => Payloads(reg, rest)
    case Other(rest) => Payloads(reg, rest)
    case Element(name, attrs, inner, rest) =>
      (if name.local != "error" && reg.knows(name) then [Payload(name, Tokens(inner) + [End(name)])] else [])
      + Payloads(reg, rest)
  }

  function Unknowns(reg: Registry, c: Content): seq<Node> {
    match c
    case Done => []
    case Text(_, rest) => Unknowns(reg, rest)
    case Other(rest) => Unknowns(reg, rest)
    case Element(name, attrs, inner, rest) =>
      (if name.local != "error" && !reg.knows(name) then
         [Node(name, Kept(attrs), CharData(inner), NodesOf(inner))]
       else [])
      + Unknowns(reg, rest)
  }

  /** No child nests too deep for its decoder, and the library can fill every registered payload. */
  ghost predicate Digestible(reg: Registry, c: Content) {
    match c
    case Done => true
    case Text(_, rest) => Digestible(reg, rest)
    case Other(rest) => Digestible(reg, rest)
    case Element(name, attrs, inner, rest) =>
      && (if name.local == "error" then Height(inner) < MAX_DEPTH
          else if reg.knows(name) then reg.accepts(name, attrs, Tokens(inner) + [End(name)])
          else 1 + Height(inner) < MAX_DEPTH)
      && Digestible(reg, rest)
  }

  function LastOr<T>(xs: seq<T>, default: Option<T>): Option<T> {
    if xs == [] then default else Some(xs[|xs| - 1])
  }

  function Filled(reg: Registry, iq: IqValue, c: Content): IqValue {
    iq.(error := LastOr(Errors(c), iq.error),
        payload := LastOr(Payloads(reg, c), iq.payload),
        any := LastOr(Unknowns(reg, c), iq.any))
  }

  lemma ChildFraming(reg: Registry, iq: IqValue, name: Name, attrs: seq<Attr>, inner: Content, rest: seq<Token>)
    ensures var r := DecodeChild(reg, iq, name, attrs, Tokens(inner) + ([End(name)] + rest));
            var only := Element(name, attrs, inner, Done);
            if Digestible(reg, only) then r == Ok((Filled(reg, iq, only), rest)) else r.Err?
  {
    if name.local == "error" {
      ErrorFraming(reg, iq, name, attrs, inner, rest);
    } else if reg.knows(name) {
      PayloadFraming(reg, iq, name, attrs, inner, rest);
    } else {
      UnknownFraming(reg, iq, name, attrs, inner, rest);
    }
  }

  lemma ErrorFraming(reg: Registry, iq: IqValue, name: Name, attrs: seq<Attr>, inner: Content, rest: seq<Token>)
    requires name.local == "error"
    ensures var r := DecodeChild(reg, iq, name, attrs, Tokens(inner) + ([End(name)] + rest));
            var only := Element(name, attrs, inner, Done);
            if Digestible(reg, only) then r == Ok((Filled(reg, iq, only), rest)) else r.Err?
  {
    var only, x := Element(name, attrs, inner, Done), ReadAttrs(Err.Err(name, 0, "", "", ""), attrs);
    ErrLoopOnContent(inner, name, x, rest);
    assert Errors(only) == [ReadChildren(x, NodesOf(inner))];
    assert Payloads(reg, only) == [] && Unknowns(reg, only) == [];
    assert Digestible(reg, only) <==> Height(inner) < MAX_DEPTH;
  }

  lemma PayloadFraming(reg: Registry, iq: IqValue, name: Name, attrs: seq<Attr>, inner: Content, rest: seq<Token>)
    requires name.local != "error" && reg.knows(name)
    ensures var r := DecodeChild(reg, iq, name, attrs, Tokens(inner) + ([End(name)] + rest));
            var only := Element(name, attrs, inner, Done);
            if Digestible(reg, only) then r == Ok((Filled(reg, iq, only), rest)) else r.Err?
  {
    var only, body := Element(name, attrs, inner, Done), Tokens(inner) + [End(name)];
    var ts := Tokens(inner) + ([End(name)] + rest);
    assert Payloads(reg, only) == [Payload(name, body)];
    assert Errors(only) == [] && Unknowns(reg, only) == [];
    assert Digestible(reg, only) <==> reg.accepts(name, attrs, body);
    ElementEndSkips(inner, 0, [End(name)] + rest);
    assert ElementEnd([End(name)] + rest, 0) == Some(1);
    hide Tokens, Digestible, Errors, Payloads, Unknowns;
    assert ElementEnd(ts, 0) == Some(|body|);
    assert ts == body + rest;
    assert ts[..|body|] == body && ts[|body|..] == rest;
  }

  lemma UnknownFraming(reg: Registry, iq: IqValue, name: Name, attrs: seq<Attr>, inner: Content, rest: seq<Token>)
    requires name.local != "error" && !reg.knows(name)
    ensures var r := DecodeChild(reg, iq, name, attrs, Tokens(inner) + ([End(name)] + rest));
            var only := Element(name, attrs, inner, Done);
            if Digestible(reg, only) then r == Ok((Filled(reg, iq, only), rest)) else r.Err?
  {
    var only := Element(name, attrs, inner, Done);
    DecodeInner(name, attrs, inner, rest, 1);
    assert Unknowns(reg, only) == [Node(name, Kept(attrs), CharData(inner), NodesOf(inner))];
    assert Errors(only) == [] && Payloads(reg, only) == [];
    assert Digestible(reg, only) <==> 1 + Height(inner) < MAX_DEPTH;
  }

  lemma FilledCons(reg: Registry, iq: IqValue, name: Name, attrs: seq<Attr>, inner: Content, more: Content)
    ensures Filled(reg, Filled(reg, iq, Element(name, attrs, inner, Done)), more)
         == Filled(reg, iq, Element(name, attrs, inner, more))
  {
    var first, all := Element(name, attrs, inner, Done), Element(name, attrs, inner, more);
    assert Errors(all) == Errors(first) + Errors(more);
    assert Payloads(reg, all) == Payloads(reg, first) + Payloads(reg, more);
    assert Unknowns(reg, all) == Unknowns(reg, first) + Unknowns(reg, more);
    LastOrAppend(Errors(first), Errors(more), iq.error);
    LastOrAppend(Payloads(reg, first), Payloads(reg, more), iq.payload);
    LastOrAppend(Unknowns(reg, first), Unknowns(reg, more), iq.any);
  }

  lemma LastOrAppend<T>(xs: seq<T>, ys: seq<T>, default: Option<T>)
    ensures LastOr(xs + ys, default) == LastOr(ys, LastOr(xs, default))
  {
    if ys == [] {
      assert xs + ys == xs;
    }
  }

  /**
   On every well-formed element the loop succeeds exactly when its children
   can be decoded one by one. It then takes the tokens up to the matching end
   tag and no more, also when elements of the same name nest inside, and keeps
   the last error, the last registered payload and the last unknown child.
   */
  lemma {:induction false} IqFraming(reg: Registry, c: Content, name: Name, iq: IqValue, rest: seq<Token>)
    ensures var r := IqLoop(reg, Tokens(c) + ([End(name)] + rest), name, iq);
            if Digestible(reg, c) then r == Ok((Filled(reg, iq, c), rest)) else r.Err?
  {
    var after := [End(name)] + rest;
    var ts := Tokens(c) + after;
    match c
    case Done =>
      assert ts == after && after[1..] == rest;
    case Text(_, more) =>
      assert ts[1..] == Tokens(more) + after;
      IqFraming(reg, more, name, iq, rest);
    case Other(more) =>
      assert ts[1..] == Tokens(more) + after;
      IqFraming(reg, more, name, iq, rest);
    case Element(childName, attrs, inner, more) =>
      var left := Tokens(more) + after;
      ElementTokens(childName, attrs, inner, more, after);
      assert ts[0] == Start(childName, attrs) && ts[1..] == Tokens(inner) + ([End(childName)] + left);
      var only := Element(childName, attrs, inner, Done);
      ChildFraming(reg, iq, childName, attrs, inner, left);
      assert Digestible(reg, c) <==> Digestible(reg, only) && Digestible(reg, more);
      IqFraming(reg, more, name, Filled(reg, iq, only), rest);
      FilledCons(reg, iq, childName, attrs, inner, more);
  }

  /**
   A whole IQ element into an IQ value: the four attributes, the children and
   the tokens left, or an error.
   */
  lemma IqElement(reg: Registry, iq: IqValue, name: Name, attrs: seq<Attr>, c: Content, rest: seq<Token>)
    ensures var r := IqLoop(reg, Tokens(c) + ([End(name)] + rest), name, ReadIqAttrs(iq.(name := name), attrs));
            && (r.Ok? <==> Digestible(reg, c))
            && (r.Ok? ==>
                  && r.value.1 == rest
                  && var v := r.value.0;
                  && v.name == name
                  && TakesLast(attrs, "id", iq.id, v.id) && TakesLast(attrs, "type", iq.kind, v.kind)
                  && TakesLast(attrs, "to", iq.to, v.to) && TakesLast(attrs, "from", iq.from, v.from)
                  && v.error == LastOr(Errors(c), iq.error) && v.payload == LastOr(Payloads(reg, c), iq.payload)
                  && v.any == LastOr(Unknowns(reg, c), iq.any))
  {
    IqAttrsMean(iq.(name := name), attrs);
    IqFraming(reg, c, name, ReadIqAttrs(iq.(name := name), attrs), rest);
    hide ReadIqAttrs, IqLoop, Tokens, Digestible, TakesLast, Errors, Payloads, Unknowns, LastOr;
  }

  /** The library can fill the registered payloads among the children. */
  ghost predicate PayloadsFit(reg: Registry, c: Content) {
    match c
    case Done => true
    case Text(_, rest) => PayloadsFit(reg, rest)
    case Other(rest) => PayloadsFit(reg, rest)
    case Element(name, attrs, inner, rest) =>
      && (name.local != "error" && reg.knows(name) ==> reg.accepts(name, attrs, Tokens(inner) + [End(name)]))
      && PayloadsFit(reg, rest)
  }

  /** For content nested below the limit, the registered payloads alone decide. */
  lemma {:induction false} ShallowIsDigestible(reg: Registry, c: Content)
    requires Height(c) < MAX_DEPTH
    ensures Digestible(reg, c) <==> PayloadsFit(reg, c)
  {
    match c
    case Done =>
    case Text(_, rest) => ShallowIsDigestible(reg, rest);
    case Other(rest) => ShallowIsDigestible(reg, rest);
    case Element(_, _, _, rest) => ShallowIsDigestible(reg, rest);
  }
}

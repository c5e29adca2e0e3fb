/** The generic XML tree and its codec (stanza/node.go:35-97). */
module Nodes {
  import opened Wrappers
  import opened Xml

  datatype Node = Node(name: Name, attrs: seq<Attr>, content: string, nodes: seq<Node>)

  datatype DecodeError = UnexpectedEnd | TooDeep

  const MAX_DEPTH := 128

  /** The attributes but the namespace declarations. */
  function Kept(attrs: seq<Attr>): seq<Attr> {
    if attrs == [] then []
    else (if attrs[0].name.local != "xmlns" then [attrs[0]] else []) + Kept(attrs[1..])
  }

  /** Kept are those with another local name, whatever their namespace, in order. */
  lemma {:induction false} KeptMeans(a: seq<Attr>, b: seq<Attr>)
    ensures Kept(a + b) == Kept(a) + Kept(b)
    ensures forall x: Attr :: x in Kept(a) <==> x in a && x.name.local != "xmlns"
    decreases |a|
  {
    if a == [] {
      assert a + b == b;
    } else {
      assert (a + b)[1..] == a[1..] + b;
      KeptMeans(a[1..], b);
    }
  }

  // ------------------------------------------------------------------
  // Decoding

  type Decoded = Result<(Node, seq<Token>), DecodeError>

  /** Decodes the element whose start tag has just been read; also gives the tokens left. */
  function Decode(ts: seq<Token>, name: Name, attrs: seq<Attr>, depth: nat): (r: Decoded)
    ensures r.Ok? ==> |r.value.1| < |ts|
    decreases |ts|, 1
  {
    if depth >= MAX_DEPTH then Err(TooDeep)
    else DecodeLoop(ts, name, depth, Node(name, Kept(attrs), "", []))
  }

  function DecodeLoop(ts: seq<Token>, name: Name, depth: nat, n: Node): (r: Decoded)
    ensures r.Ok? ==> |r.value.1| < |ts|
    decreases |ts|, 0
  {
    if ts == [] then Err(UnexpectedEnd)
    else
      var rest := ts[1..];
      match ts[0]
      case Start(childName, attrs) =>
        (match Decode(rest, childName, attrs, depth + 1)
         case Err(e) => Err(e)
         case Ok((child, after)) => DecodeLoop(after, name, depth, n.(nodes := n.nodes + [child])))
      case End(endName) => if endName == name then Ok((n, rest)) else DecodeLoop(rest, name, depth, n)
      case Chars(text) => DecodeLoop(rest, name, depth, n.(content := n.content + text))
      case Misc => DecodeLoop(rest, name, depth, n)
  }

  method FilterAttrs(attrs: seq<Attr>) returns (kept: seq<Attr>)
    ensures kept == Kept(attrs)
  {
    kept := [];
    for i := 0 to |attrs|
      invariant kept + Kept(attrs[i..]) == Kept(attrs)
    {
      assert attrs[i..][0] == attrs[i] && attrs[i..][1..] == attrs[i + 1..];
      if attrs[i].name.local != "xmlns" {
        kept := kept + [attrs[i]];
      }
    }
  }

  method UnmarshalXMLDepth(d: Decoder, name: Name, attrs: seq<Attr>, depth: nat) returns (r: Result<Node, DecodeError>)
    modifies d
    ensures match Decode(old(d.tokens), name, attrs, depth)
            case Err(e) => r == Err(e)
            case Ok((n, rest)) => r == Ok(n) && d.tokens == rest
    ensures |d.tokens| <= |old(d.tokens)|
    decreases |d.tokens|
  {
    if depth >= MAX_DEPTH {
      return Err(TooDeep);
    }
    var kept := FilterAttrs(attrs);
    var n := Node(name, kept, "", []);
    while true
      invariant |d.tokens| <= |old(d.tokens)|
      invariant Decode(old(d.tokens), name, attrs, depth) == DecodeLoop(d.tokens, name, depth, n)
      decreases |d.tokens|
    {
      var t := d.Token();
      if t.None? {
        return Err(UnexpectedEnd);
      }
      match t.value {
        case Start(childName, childAttrs) =>
          var child := UnmarshalXMLDepth(d, childName, childAttrs, depth + 1);
          if child.Err? {
            return Err(child.error);
          }
          n := n.(nodes := n.nodes + [child.value]);
        case End(endName) =>
          if endName == name {
            return Ok(n);
          }
        case Chars(text) =>
          n := n.(content := n.content + text);
        case Misc =>
      }
    }
  }

  /** UnmarshalXML, as the library calls it on an element. */
  method UnmarshalXML(d: Decoder, name: Name, attrs: seq<Attr>) returns (r: Result<Node, DecodeError>)
    modifies d
    ensures match Decode(old(d.tokens), name, attrs, 1)
            case Err(e) => r == Err(e)
            case Ok((n, rest)) => r == Ok(n) && d.tokens == rest
    ensures |d.tokens| <= |old(d.tokens)|
  {
    r := UnmarshalXMLDepth(d, name, attrs, 1);
  }

  // ------------------------------------------------------------------
  // Decoding well-formed content

  /** The child elements of the content, in order, as trees. */
  function NodesOf(c: Content): seq<Node> {
    match c
    case Done => []
    case Text(_, rest) => NodesOf(rest)
    case Other(rest) => NodesOf(rest)
    case Element(name, attrs, inner, rest) => [Node(name, Kept(attrs), CharData(inner), NodesOf(inner))] + NodesOf(rest)
  }

  function Extend(n: Node, c: Content): Node {
    n.(content := n.content + CharData(c), nodes := n.nodes + NodesOf(c))
  }

  lemma LoopOnStart(name: Name, attrs: seq<Attr>, ts: seq<Token>, outer: Name, depth: nat, n: Node)
    ensures DecodeLoop([Start(name, attrs)] + ts, outer, depth, n)
         == var r := Decode(ts, name, attrs, depth + 1);
            if r.Err? then r else DecodeLoop(r.value.1, outer, depth, n.(nodes := n.nodes + [r.value.0]))
  {
    assert ([Start(name, attrs)] + ts)[1..] == ts;
  }

  lemma {:induction false} LoopOnContent(c: Content, name: Name, depth: nat, n: Node, rest: seq<Token>)
    requires depth < MAX_DEPTH
    ensures DecodeLoop(Tokens(c) + ([End(name)] + rest), name, depth, n)
         == if depth + Height(c) < MAX_DEPTH then Ok((Extend(n, c), rest)) else Err(TooDeep)
    decreases c, 0
  {
    var after := [End(name)] + rest;
    var ts := Tokens(c) + after;
    match c
    case Done =>
      assert ts == after && after[1..] == rest;
      assert Extend(n, c) == n;
    case Text(text, more) =>
      assert ts[1..] == Tokens(more) + after;
      var n1 := n.(content := n.content + text);
      LoopOnContent(more, name, depth, n1, rest);
      assert n.content + (text + CharData(more)) == n1.content + CharData(more);
    case Other(more) =>
      assert ts[1..] == Tokens(more) + after;
      LoopOnContent(more, name, depth, n, rest);
    case Element(childName, attrs, inner, more) =>
      var left := Tokens(more) + after;
      if depth + 1 < MAX_DEPTH {
        DecodeInner(childName, attrs, inner, left, depth + 1);
        var child := Node(childName, Kept(attrs), CharData(inner), NodesOf(inner));
        LoopOnContent(more, name, depth, n.(nodes := n.nodes + [child]), rest);
      }
      LoopOnElement(childName, attrs, inner, more, after, name, depth, n);
      ExtendElement(childName, attrs, inner, more, n);
      hide DecodeLoop, Tokens, Extend;
  }

  /** One step of the loop: the child is decoded, or nests too deep. */
  lemma LoopOnElement(childName: Name, attrs: seq<Attr>, inner: Content, more: Content, after: seq<Token>,
                      name: Name, depth: nat, n: Node)
    requires depth < MAX_DEPTH
    requires depth + 1 < MAX_DEPTH ==>
      (Decode(Tokens(inner) + ([End(childName)] + (Tokens(more) + after)), childName, attrs, depth + 1)
       == if depth + 1 + Height(inner) < MAX_DEPTH
          then Ok((Node(childName, Kept(attrs), CharData(inner), NodesOf(inner)), Tokens(more) + after))
          else Err(TooDeep))
    ensures var child := Node(childName, Kept(attrs), CharData(inner), NodesOf(inner));
            DecodeLoop(Tokens(Element(childName, attrs, inner, more)) + after, name, depth, n)
            == if depth + 1 + Height(inner) < MAX_DEPTH
               then DecodeLoop(Tokens(more) + after, name, depth, n.(nodes := n.nodes + [child]))
               else Err(TooDeep)
  {
    ElementTokens(childName, attrs, inner, more, after);
    LoopOnStart(childName, attrs, Tokens(inner) + ([End(childName)] + (Tokens(more) + after)), name, depth, n);
    hide Tokens, DecodeLoop, Kept, NodesOf, CharData, Height;
  }

  lemma ExtendElement(childName: Name, attrs: seq<Attr>, inner: Content, more: Content, n: Node)
    ensures var child := Node(childName, Kept(attrs), CharData(inner), NodesOf(inner));
            Extend(n.(nodes := n.nodes + [child]), more) == Extend(n, Element(childName, attrs, inner, more))
  {
    var child := Node(childName, Kept(attrs), CharData(inner), NodesOf(inner));
    assert n.nodes + ([child] + NodesOf(more)) == (n.nodes + [child]) + NodesOf(more);
  }

  lemma {:induction false} DecodeInner(name: Name, attrs: seq<Attr>, inner: Content, rest: seq<Token>, depth: nat)
    requires depth < MAX_DEPTH
    ensures Decode(Tokens(inner) + ([End(name)] + rest), name, attrs, depth)
         == if depth + Height(inner) < MAX_DEPTH
            then Ok((Node(name, Kept(attrs), CharData(inner), NodesOf(inner)), rest))
            else Err(TooDeep)
    decreases inner, 1
  {
    var n := Node(name, Kept(attrs), "", []);
    LoopOnContent(inner, name, depth, n, rest);
    assert Extend(n, inner) == Node(name, Kept(attrs), CharData(inner), NodesOf(inner));
  }

  /**
   On any well-formed element the decoder succeeds exactly when elements nest
   less than 128 deep; it then takes the tokens up to the matching end tag,
   keeps the children in order and joins the element's own character data.
   */
  lemma DecodeWellFormed(name: Name, attrs: seq<Attr>, inner: Content, rest: seq<Token>)
    ensures Decode(Tokens(inner) + [End(name)] + rest, name, attrs, 1)
         == if Height(Element(name, attrs, inner, Done)) < MAX_DEPTH
            then Ok((Node(name, Kept(attrs), CharData(inner), NodesOf(inner)), rest))
            else Err(TooDeep)
  {
    assert Tokens(inner) + [End(name)] + rest == Tokens(inner) + ([End(name)] + rest);
    DecodeInner(name, attrs, inner, rest, 1);
  }

  /**
   On every balanced stream of tokens before its end tag: the decoder succeeds
   exactly when fewer than 128 elements are open at once, counting its own, and
   then leaves what follows the end tag.
   */
  lemma DecodeBalanced(name: Name, attrs: seq<Attr>, ts: seq<Token>, rest: seq<Token>)
    requires WellFormed(ts, [])
    ensures var r := Decode(ts + [End(name)] + rest, name, attrs, 1);
            if 1 + Nesting(ts, 0) < 128
            then r.Ok? && r.value.1 == rest && r.value.0.name == name && r.value.0.attrs == Kept(attrs)
            else r == Err(TooDeep)
  {
    ContentOf(ts);
    var c := Contents(ts, [])[0];
    NestingOfContent(c, [], 0);
    assert Tokens(c) + [] == ts;
    DecodeWellFormed(name, attrs, c, rest);
    hide Decode;
  }

  // ------------------------------------------------------------------
  // Foreign end tags

  /** An end tag of another name is passed over, also when only the namespace differs. */
  lemma ForeignEndPassed(other: Name, name: Name, rest: seq<Token>, depth: nat, n: Node)
    requires other != name
    ensures DecodeLoop([End(other)] + rest, name, depth, n) == DecodeLoop(rest, name, depth, n)
  {
    assert ([End(other)] + rest)[1..] == rest;
  }

  /** The decoder as it would be if it refused an end tag of another name. */
  function StrictDecode(ts: seq<Token>, name: Name, attrs: seq<Attr>, depth: nat): (r: Decoded)
    ensures r.Ok? ==> |r.value.1| < |ts|
    decreases |ts|, 1
  {
    if depth >= MAX_DEPTH then Err(TooDeep)
    else StrictLoop(ts, name, depth, Node(name, Kept(attrs), "", []))
  }

  function StrictLoop(ts: seq<Token>, name: Name, depth: nat, n: Node): (r: Decoded)
    ensures r.Ok? ==> |r.value.1| < |ts|
    decreases |ts|, 0
  {
    if ts == [] then Err(UnexpectedEnd)
    else
      var rest := ts[1..];
      match ts[0]
      case Start(childName, attrs) =>
        (match StrictDecode(rest, childName, attrs, depth + 1)
         case Err(e) => Err(e)
         case Ok((child, after)) => StrictLoop(after, name, depth, n.(nodes := n.nodes + [child])))
      case End(endName) => if endName == name then Ok((n, rest)) else Err(UnexpectedEnd)
      case Chars(text) => StrictLoop(rest, name, depth, n.(content := n.content + text))
      case Misc => StrictLoop(rest, name, depth, n)
  }

  lemma StrictOnStart(name: Name, attrs: seq<Attr>, ts: seq<Token>, outer: Name, depth: nat, n: Node)
    ensures StrictLoop([Start(name, attrs)] + ts, outer, depth, n)
         == var r := StrictDecode(ts, name, attrs, depth + 1);
            if r.Err? then r else StrictLoop(r.value.1, outer, depth, n.(nodes := n.nodes + [r.value.0]))
  {
    assert ([Start(name, attrs)] + ts)[1..] == ts;
  }

  lemma {:induction false} StrictOnContent(c: Content, name: Name, depth: nat, n: Node, rest: seq<Token>)
    ensures StrictLoop(Tokens(c) + ([End(name)] + rest), name, depth, n)
         == DecodeLoop(Tokens(c) + ([End(name)] + rest), name, depth, n)
    decreases c, 0
  {
    var after := [End(name)] + rest;
    var ts := Tokens(c) + after;
    match c
    case Done =>
      assert ts == after;
    case Text(text, more) =>
      assert ts[1..] == Tokens(more) + after;
      StrictOnContent(more, name, depth, n.(content := n.content + text), rest);
    case Other(more) =>
      assert ts[1..] == Tokens(more) + after;
      StrictOnContent(more, name, depth, n, rest);
    case Element(childName, attrs, inner, more) =>
      var left := Tokens(more) + after;
      var tail := Tokens(inner) + ([End(childName)] + left);
      ElementTokens(childName, attrs, inner, more, after);
      LoopOnStart(childName, attrs, tail, name, depth, n);
      StrictOnStart(childName, attrs, tail, name, depth, n);
      StrictOnElement(childName, attrs, inner, left, depth + 1);
      if depth + 1 < MAX_DEPTH {
        DecodeInner(childName, attrs, inner, left, depth + 1);
        var child := Node(childName, Kept(attrs), CharData(inner), NodesOf(inner));
        StrictOnContent(more, name, depth, n.(nodes := n.nodes + [child]), rest);
      }
  }

  lemma {:induction false} StrictOnElement(name: Name, attrs: seq<Attr>, inner: Content, rest: seq<Token>, depth: nat)
    ensures var ts := Tokens(inner) + ([End(name)] + rest);
            StrictDecode(ts, name, attrs, depth) == Decode(ts, name, attrs, depth)
    decreases inner, 1
  {
    StrictOnContent(inner, name, depth, Node(name, Kept(attrs), "", []), rest);
  }

  /**
   On a balanced stream the decoder never passes over an end tag of another
   name: refusing such tags would make no difference.
   */
  lemma NoForeignEnd(name: Name, attrs: seq<Attr>, ts: seq<Token>, rest: seq<Token>)
    requires WellFormed(ts, [])
    ensures StrictDecode(ts + [End(name)] + rest, name, attrs, 1) == Decode(ts + [End(name)] + rest, name, attrs, 1)
  {
    ContentOf(ts);
    var c := Contents(ts, [])[0];
    StrictOnElement(name, attrs, c, rest, 1);
    hide StrictDecode, Decode, Tokens;
    assert Tokens(c) + [End(name)] + rest == Tokens(c) + ([End(name)] + rest);
  }

  // ------------------------------------------------------------------
  // Encoding

  /** What is written, and whether encoding succeeded. */
  function Encode(n: Node): (seq<Raw>, bool)
    decreases n, 1
  {
    if n.name.local == "" then ([], false)
    else
      var (children, ok) := EncodeAll(n.nodes);
      var out := [OpenTag(n.name, n.attrs)] + children;
      if !ok then (out, false)
      else (out + TextRaw(n.content) + [Close(n.name.local)], true)
  }

  function TextRaw(text: string): seq<Raw> {
    if text == "" then [] else [RawText(text)]
  }

  function EncodeAll(ns: seq<Node>): (seq<Raw>, bool)
    decreases ns, 0
  {
    if ns == [] then ([], true)
    else
      var (first, ok) := Encode(ns[0]);
      if !ok then (first, false)
      else
        var (rest, restOk) := EncodeAll(ns[1..]);
        (first + rest, restOk)
  }

  method MarshalXML(n: Node, e: Encoder) returns (ok: bool)
    modifies e
    ensures (e.out, ok) == (old(e.out) + Encode(n).0, Encode(n).1)
    decreases n, 1
  {
    ok := e.EncodeStart(n.name, n.attrs);
    if !ok {
      return;
    }
    ok := EncodeElements(n.nodes, e);
    assert e.out == old(e.out) + ([OpenTag(n.name, n.attrs)] + EncodeAll(n.nodes).0);
    if !ok {
      return;
    }
    if n.content != "" {
      e.EncodeText(n.content);
    }
    e.EncodeEnd(n.name);
    assert e.out == old(e.out)
      + ([OpenTag(n.name, n.attrs)] + EncodeAll(n.nodes).0 + TextRaw(n.content) + [Close(n.name.local)]);
    return true;
  }

  /** EncodeElement on a slice of nodes. */
  method EncodeElements(ns: seq<Node>, e: Encoder) returns (ok: bool)
    modifies e
    ensures (e.out, ok) == (old(e.out) + EncodeAll(ns).0, EncodeAll(ns).1)
    decreases ns, 0
  {
    hide Encode;
    assert ns[0..] == ns;
    for i := 0 to |ns|
      invariant e.out + EncodeAll(ns[i..]).0 == old(e.out) + EncodeAll(ns).0
      invariant EncodeAll(ns[i..]).1 == EncodeAll(ns).1
    {
      EncodeAllFrom(ns, i, e.out);
      ok := MarshalXML(ns[i], e);
      if !ok {
        return;
      }
    }
    assert ns[|ns|..] == [] && e.out + [] == e.out;
    return true;
  }

  predicate AllNamed(n: Node) {
    n.name.local != "" && forall m :: m in n.nodes ==> AllNamed(m)
  }

  /**
   Encoding succeeds exactly when every element has a name. What precedes the
   first that has none is written: its elders and the start tags around it.
   */
  lemma {:induction false} EncodeOkIff(n: Node)
    ensures Encode(n).1 <==> AllNamed(n)
    ensures n.name.local != "" ==> [OpenTag(n.name, n.attrs)] + EncodeAll(n.nodes).0 <= Encode(n).0
    ensures n.name.local == "" ==> Encode(n).0 == []
    decreases n, 1
  {
    EncodeAllOkIff(n.nodes);
  }

  lemma {:induction false} EncodeAllOkIff(ns: seq<Node>)
    ensures EncodeAll(ns).1 <==> forall m :: m in ns ==> AllNamed(m)
    ensures ns != [] ==> Encode(ns[0]).0 <= EncodeAll(ns).0
    ensures ns != [] && Encode(ns[0]).1 ==> EncodeAll(ns).0 == Encode(ns[0]).0 + EncodeAll(ns[1..]).0
    decreases ns, 0
  {
    if ns != [] {
      EncodeOkIff(ns[0]);
      EncodeAllOkIff(ns[1..]);
      assert ns == [ns[0]] + ns[1..];
      assert forall m :: m in ns <==> m == ns[0] || m in ns[1..];
    }
  }

  lemma EncodeAllFrom(ns: seq<Node>, i: nat, out: seq<Raw>)
    requires i < |ns|
    ensures !Encode(ns[i]).1 ==> EncodeAll(ns[i..]) == Encode(ns[i])
    ensures Encode(ns[i]).1 ==>
      && out + EncodeAll(ns[i..]).0 == (out + Encode(ns[i]).0) + EncodeAll(ns[i + 1..]).0
      && EncodeAll(ns[i..]).1 == EncodeAll(ns[i + 1..]).1
  {
    assert ns[i..][0] == ns[i] && ns[i..][1..] == ns[i + 1..];
    hide Encode;
  }

  // ------------------------------------------------------------------
  // Round trip

  predicate PlainAttr(a: Attr) {
    a.name.space == "" && a.name.local != "" && a.name.local != "xmlns"
  }

  /** Named elements whose attributes are neither prefixed nor namespace declarations. */
  predicate PlainNode(n: Node) {
    && n.name.local != ""
    && (forall a :: a in n.attrs ==> PlainAttr(a))
    && forall m :: m in n.nodes ==> PlainNode(m)
  }

  function NodeHeight(n: Node): nat
    decreases n, 1
  {
    1 + NodesHeight(n.nodes)
  }

  function NodesHeight(ns: seq<Node>): nat
    decreases ns, 0
  {
    if ns == [] then 0
    else if NodeHeight(ns[0]) > NodesHeight(ns[1..]) then NodeHeight(ns[0]) else NodesHeight(ns[1..])
  }

  /** An empty namespace is replaced by the one in scope. */
  function ResolvedSpace(name: Name, scope: string): string {
    if name.space == "" then scope else name.space
  }

  function Inherit(n: Node, scope: string): Node
    decreases n, 1
  {
    var space := ResolvedSpace(n.name, scope);
    Node(Name(space, n.name.local), n.attrs, n.content, InheritAll(n.nodes, space))
  }

  function InheritAll(ns: seq<Node>, scope: string): seq<Node>
    decreases ns, 0
  {
    if ns == [] then [] else [Inherit(ns[0], scope)] + InheritAll(ns[1..], scope)
  }

  /** The content that the written children and text are read as. */
  function Body(ns: seq<Node>, text: string, scope: string): Content
    decreases ns
  {
    if ns == [] then (if text == "" then Done else Text(text, Done))
    else
      var n := ns[0];
      var space := ResolvedSpace(n.name, scope);
      Element(Name(space, n.name.local), Declaration(n.name.space) + n.attrs,
              Body(n.nodes, n.content, space), Body(ns[1..], text, scope))
  }

  lemma {:induction false} BodyMeans(ns: seq<Node>, text: string, scope: string)
    requires forall n :: n in ns ==> PlainNode(n)
    ensures NodesOf(Body(ns, text, scope)) == InheritAll(ns, scope)
    ensures CharData(Body(ns, text, scope)) == text
    ensures Height(Body(ns, text, scope)) == NodesHeight(ns)
    decreases ns
  {
    if ns != [] {
      var n := ns[0];
      assert PlainNode(n);
      BodyMeans(n.nodes, n.content, ResolvedSpace(n.name, scope));
      BodyMeans(ns[1..], text, scope);
      KeptPlain(n.name.space, n.attrs);
    }
  }

  lemma KeptPlain(space: string, attrs: seq<Attr>)
    requires forall a :: a in attrs ==> PlainAttr(a)
    ensures Kept(Declaration(space) + attrs) == attrs
  {
    KeptAll(attrs);
    if space == "" {
      assert Declaration(space) + attrs == attrs;
    } else {
      assert (Declaration(space) + attrs)[1..] == attrs;
    }
  }

  lemma {:induction false} KeptAll(attrs: seq<Attr>)
    requires forall a :: a in attrs ==> PlainAttr(a)
    ensures Kept(attrs) == attrs
  {
    if attrs != [] {
      assert attrs[0] in attrs && attrs == [attrs[0]] + attrs[1..];
      KeptAll(attrs[1..]);
    }
  }

  /** The library reads back a start tag with its namespace resolved. */
  lemma ResolveOpen(name: Name, attrs: seq<Attr>, raws: seq<Raw>, open: seq<Name>, outer: string)
    requires forall a :: a in attrs ==> PlainAttr(a)
    ensures var resolved := Name(ResolvedSpace(name, Inherited(open, outer)), name.local);
            var start := Start(resolved, Declaration(name.space) + attrs);
            Resolve([OpenTag(name, attrs)] + raws, open, outer) == [start] + Resolve(raws, [resolved] + open, outer)
  {
    assert forall a :: a in attrs ==> a.name != XMLNS;
    assert Written(attrs) == attrs;
    ScopeOfDeclaration(name.space, attrs, Inherited(open, outer));
    assert ([OpenTag(name, attrs)] + raws)[1..] == raws;
  }

  lemma ResolveClose(name: Name, raws: seq<Raw>, open: seq<Name>, outer: string)
    ensures Resolve([Close(name.local)] + raws, [name] + open, outer) == [End(name)] + Resolve(raws, open, outer)
  {
    assert ([Close(name.local)] + raws)[1..] == raws && ([name] + open)[1..] == open;
  }

  lemma ResolveText(text: string, raws: seq<Raw>, open: seq<Name>, outer: string)
    ensures Resolve(TextRaw(text) + raws, open, outer)
         == Tokens(if text == "" then Done else Text(text, Done)) + Resolve(raws, open, outer)
  {
    if text == "" {
      assert TextRaw(text) + raws == raws;
    } else {
      assert (TextRaw(text) + raws)[1..] == raws;
    }
  }

  lemma EncodeCons(n: Node, rest: seq<Node>, after: seq<Raw>)
    requires Encode(n).1
    ensures EncodeAll([n] + rest).0 + after
         == [OpenTag(n.name, n.attrs)]
            + (EncodeAll(n.nodes).0 + (TextRaw(n.content) + ([Close(n.name.local)] + (EncodeAll(rest).0 + after))))
    ensures EncodeAll([n] + rest).1 == EncodeAll(rest).1
  {
    assert ([n] + rest)[1..] == rest;
    RegroupRaw([OpenTag(n.name, n.attrs)], EncodeAll(n.nodes).0, TextRaw(n.content), [Close(n.name.local)],
               EncodeAll(rest).0, after);
  }

  lemma RegroupRaw(a: seq<Raw>, b: seq<Raw>, c: seq<Raw>, d: seq<Raw>, e: seq<Raw>, f: seq<Raw>)
    ensures ((a + b + c + d) + e) + f == a + (b + (c + (d + (e + f))))
  {
  }

  /**
   Plain nodes are written completely, and read back as the content in which
   every empty namespace is the one in scope; what follows is read after them.
   */
  lemma {:induction false} EncodeResolves(ns: seq<Node>, text: string, raws: seq<Raw>, open: seq<Name>, outer: string)
    requires forall n :: n in ns ==> PlainNode(n)
    ensures EncodeAll(ns).1
    ensures Resolve(EncodeAll(ns).0 + (TextRaw(text) + raws), open, outer)
         == Tokens(Body(ns, text, Inherited(open, outer))) + Resolve(raws, open, outer)
    decreases ns
  {
    var scope, after := Inherited(open, outer), TextRaw(text) + raws;
    if ns == [] {
      assert EncodeAll(ns).0 + after == after;
      ResolveText(text, raws, open, outer);
    } else {
      var n, rest := ns[0], ns[1..];
      assert ns == [n] + rest && n in ns && PlainNode(n);
      var resolved := Name(ResolvedSpace(n.name, scope), n.name.local);
      var more := EncodeAll(rest).0 + after;
      EncodeResolves(rest, text, raws, open, outer);
      EncodeResolves(n.nodes, n.content, [Close(n.name.local)] + more, [resolved] + open, outer);
      EncodeCons(n, rest, after);
      var inner := EncodeAll(n.nodes).0 + (TextRaw(n.content) + ([Close(n.name.local)] + more));
      ResolveOpen(n.name, n.attrs, inner, open, outer);
      ResolveClose(resolved, more, open, outer);
      ElementTokens(resolved, Declaration(n.name.space) + n.attrs, Body(n.nodes, n.content, resolved.space),
                    Body(rest, text, scope), Resolve(raws, open, outer));
    }
  }

  /** The name a node is read back with. */
  function ResolvedName(n: Node, scope: string): Name {
    Name(ResolvedSpace(n.name, scope), n.name.local)
  }

  /** The content a node's children and text are read back as. */
  function InnerOf(n: Node, scope: string): Content {
    Body(n.nodes, n.content, ResolvedSpace(n.name, scope))
  }

  lemma EncodeOne(n: Node, raws: seq<Raw>)
    ensures EncodeAll([n]).1 == Encode(n).1
    ensures EncodeAll([n]).0 + (TextRaw("") + raws) == Encode(n).0 + raws
  {
    hide Encode;
    assert [n][1..] == [] && EncodeAll([]).0 == [];
    assert EncodeAll([n]).0 == Encode(n).0 && TextRaw("") + raws == raws;
  }

  lemma NodeResolves(n: Node, raws: seq<Raw>, open: seq<Name>, outer: string)
    requires PlainNode(n)
    ensures Encode(n).1
    ensures var scope := Inherited(open, outer);
            var start := Start(ResolvedName(n, scope), Declaration(n.name.space) + n.attrs);
            var after := Tokens(InnerOf(n, scope)) + ([End(ResolvedName(n, scope))] + Resolve(raws, open, outer));
            Resolve(Encode(n).0 + raws, open, outer) == [start] + after
  {
    var scope, rest := Inherited(open, outer), Resolve(raws, open, outer);
    EncodeResolves([n], "", raws, open, outer);
    EncodeOne(n, raws);
    var name, attrs, inner := ResolvedName(n, scope), Declaration(n.name.space) + n.attrs, InnerOf(n, scope);
    assert Body([n], "", scope) == Element(name, attrs, inner, Done);
    ElementTokens(name, attrs, inner, Done, rest);
    assert Tokens(Done) + rest == rest;
    hide Tokens, Resolve, Encode, EncodeAll;
  }

  /**
   Decoding what was encoded gives the same tree with each empty namespace
   replaced by the one in scope, and takes exactly that element; it fails
   exactly when the tree is 128 or more high.
   */
  lemma TreeRoundTrip(n: Node, raws: seq<Raw>, open: seq<Name>, outer: string)
    requires PlainNode(n)
    ensures Encode(n).1
    ensures var ts := Resolve(Encode(n).0 + raws, open, outer);
            && ts != [] && ts[0].Start?
            && Decode(ts[1..], ts[0].name, ts[0].attrs, 1)
            == if NodeHeight(n) < MAX_DEPTH
               then Ok((Inherit(n, Inherited(open, outer)), Resolve(raws, open, outer)))
               else Err(TooDeep)
  {
    hide Resolve, Tokens, Encode;
    var scope := Inherited(open, outer);
    NodeResolves(n, raws, open, outer);
    DecodeInner(ResolvedName(n, scope), Declaration(n.name.space) + n.attrs, InnerOf(n, scope),
                Resolve(raws, open, outer), 1);
    BodyMeans(n.nodes, n.content, ResolvedSpace(n.name, scope));
    KeptPlain(n.name.space, n.attrs);
  }

  /** A second round trip in the same place changes nothing. */
  lemma {:induction false} InheritIdempotent(n: Node, scope: string)
    ensures Inherit(Inherit(n, scope), scope) == Inherit(n, scope)
    decreases n, 1
  {
    InheritAllIdempotent(n.nodes, ResolvedSpace(n.name, scope));
  }

  lemma {:induction false} InheritAllIdempotent(ns: seq<Node>, scope: string)
    ensures InheritAll(InheritAll(ns, scope), scope) == InheritAll(ns, scope)
    decreases ns, 0
  {
    if ns != [] {
      InheritIdempotent(ns[0], scope);
      InheritAllIdempotent(ns[1..], scope);
      assert InheritAll(ns, scope)[1..] == InheritAll(ns[1..], scope);
    }
  }

  lemma {:induction false} InheritPlain(n: Node, scope: string)
    requires PlainNode(n)
    ensures PlainNode(Inherit(n, scope)) && NodeHeight(Inherit(n, scope)) == NodeHeight(n)
    decreases n, 1
  {
    InheritAllPlain(n.nodes, ResolvedSpace(n.name, scope));
  }

  lemma {:induction false} InheritAllPlain(ns: seq<Node>, scope: string)
    requires forall n :: n in ns ==> PlainNode(n)
    ensures forall n :: n in InheritAll(ns, scope) ==> PlainNode(n)
    ensures NodesHeight(InheritAll(ns, scope)) == NodesHeight(ns)
    decreases ns, 0
  {
    if ns != [] {
      assert PlainNode(ns[0]);
      InheritPlain(ns[0], scope);
      InheritAllPlain(ns[1..], scope);
      assert InheritAll(ns, scope)[1..] == InheritAll(ns[1..], scope);
    }
  }

  /** What a first round trip gives, encoded and decoded again in the same place, comes back unchanged. */
  lemma SecondRoundTrip(n: Node, raws: seq<Raw>, open: seq<Name>, outer: string)
    requires PlainNode(n) && NodeHeight(n) < MAX_DEPTH
    ensures var ts := Resolve(Encode(n).0 + raws, open, outer);
            && ts != [] && ts[0].Start?
            && var r := Decode(ts[1..], ts[0].name, ts[0].attrs, 1);
            && r.Ok?
            && var ts2 := Resolve(Encode(r.value.0).0 + raws, open, outer);
            && Encode(r.value.0).1 && ts2 != [] && ts2[0].Start?
            && Decode(ts2[1..], ts2[0].name, ts2[0].attrs, 1) == r
  {
    var scope := Inherited(open, outer);
    TreeRoundTrip(n, raws, open, outer);
    InheritPlain(n, scope);
    TreeRoundTrip(Inherit(n, scope), raws, open, outer);
    InheritIdempotent(n, scope);
    hide Resolve, Encode, Decode, Inherit, PlainNode, NodeHeight;
  }

  // ------------------------------------------------------------------
  // Which trees survive unchanged

  /** No element without a namespace stands where one is in scope. */
  predicate NoUndeclared(n: Node, scope: string)
    decreases n, 1
  {
    (n.name.space == "" ==> scope == "") && NoneUndeclared(n.nodes, n.name.space)
  }

  predicate NoneUndeclared(ns: seq<Node>, scope: string)
    decreases ns, 0
  {
    ns != [] ==> NoUndeclared(ns[0], scope) && NoneUndeclared(ns[1..], scope)
  }

  lemma {:induction false} InheritFixes(n: Node, scope: string)
    ensures Inherit(n, scope) == n <==> NoUndeclared(n, scope)
    decreases n, 1
  {
    if ResolvedSpace(n.name, scope) == n.name.space {
      InheritAllFixes(n.nodes, n.name.space);
    }
  }

  lemma {:induction false} InheritAllFixes(ns: seq<Node>, scope: string)
    ensures InheritAll(ns, scope) == ns <==> NoneUndeclared(ns, scope)
    decreases ns, 0
  {
    if ns != [] {
      InheritFixes(ns[0], scope);
      InheritAllFixes(ns[1..], scope);
      assert ns == [ns[0]] + ns[1..];
      assert InheritAll(ns, scope)[0] == Inherit(ns[0], scope);
      assert InheritAll(ns, scope)[1..] == InheritAll(ns[1..], scope);
    }
  }

  /**
   Encoding and decoding is the identity on a plain tree exactly when it has
   no element that undeclares the namespace in scope: the encoder writes no
   `xmlns=""`, so such an element comes back in its parent's namespace.
   */
  lemma RoundTripIdentityIff(n: Node, raws: seq<Raw>, open: seq<Name>, outer: string)
    requires PlainNode(n) && NodeHeight(n) < MAX_DEPTH
    ensures var ts := Resolve(Encode(n).0 + raws, open, outer);
            && ts != [] && ts[0].Start?
            && (Decode(ts[1..], ts[0].name, ts[0].attrs, 1) == Ok((n, Resolve(raws, open, outer)))
                <==> NoUndeclared(n, Inherited(open, outer)))
  {
    TreeRoundTrip(n, raws, open, outer);
    InheritFixes(n, Inherited(open, outer));
  }

  /** Content with names, and no prefixed attribute. */
  predicate PlainContent(c: Content) {
    match c
    case Done => true
    case Text(_, rest) => PlainContent(rest)
    case Other(rest) => PlainContent(rest)
    case Element(name, attrs, inner, rest) =>
      && name.local != "" && (forall a :: a in attrs ==> a.name == XMLNS || PlainAttr(a))
      && PlainContent(inner) && PlainContent(rest)
  }

  lemma {:induction false} KeptIsPlain(attrs: seq<Attr>)
    requires forall a :: a in attrs ==> a.name == XMLNS || PlainAttr(a)
    ensures forall a :: a in Kept(attrs) ==> PlainAttr(a)
  {
    if attrs != [] {
      KeptIsPlain(attrs[1..]);
    }
  }

  lemma {:induction false} NodesOfPlain(c: Content)
    requires PlainContent(c)
    ensures forall n :: n in NodesOf(c) ==> PlainNode(n)
    ensures NodesHeight(NodesOf(c)) == Height(c)
  {
    match c
    case Done =>
    case Text(_, rest) => NodesOfPlain(rest);
    case Other(rest) => NodesOfPlain(rest);
    case Element(name, attrs, inner, rest) =>
      NodesOfPlain(inner);
      NodesOfPlain(rest);
      KeptIsPlain(attrs);
      assert NodesOf(c)[1..] == NodesOf(rest);
  }

  /** What was decoded from plain well-formed content survives a round trip under that same condition. */
  lemma DecodedSurvivesIff(name: Name, attrs: seq<Attr>, inner: Content, rest: seq<Token>,
                           raws: seq<Raw>, open: seq<Name>, outer: string)
    requires PlainContent(Element(name, attrs, inner, Done)) && 1 + Height(inner) < MAX_DEPTH
    ensures var r := Decode(Tokens(inner) + [End(name)] + rest, name, attrs, 1);
            && r.Ok? && r.value.1 == rest
            && var n := r.value.0;
               var ts := Resolve(Encode(n).0 + raws, open, outer);
               && ts != [] && ts[0].Start?
               && (Decode(ts[1..], ts[0].name, ts[0].attrs, 1) == Ok((n, Resolve(raws, open, outer)))
                   <==> NoUndeclared(n, Inherited(open, outer)))
  {
    DecodeWellFormed(name, attrs, inner, rest);
    NodesOfPlain(inner);
    KeptIsPlain(attrs);
    RoundTripIdentityIff(Node(name, Kept(attrs), CharData(inner), NodesOf(inner)), raws, open, outer);
  }

  /** The well-formed element <a xmlns="x"><b xmlns=""/></a> decodes to a tree whose round trip gives another. */
  lemma UndeclaredExample()
    ensures var b := Node(Name("", "b"), [], "", []);
            var a := Node(Name("x", "a"), [], "", [b]);
            var inner := Element(Name("", "b"), [Attr(XMLNS, "")], Done, Done);
            && Decode(Tokens(inner) + [End(a.name)] + [], a.name, [Attr(XMLNS, "x")], 1) == Ok((a, []))
            && var ts := Resolve(Encode(a).0 + [], [], "");
               ts != [] && ts[0].Start? && Decode(ts[1..], ts[0].name, ts[0].attrs, 1) != Ok((a, []))
  {
    var inner := Element(Name("", "b"), [Attr(XMLNS, "")], Done, Done);
    DecodeWellFormed(Name("x", "a"), [Attr(XMLNS, "x")], inner, []);
    var b := Node(Name("", "b"), [], "", []);
    assert Kept([Attr(XMLNS, "x")]) == [] && Kept([Attr(XMLNS, "")]) == [];
    assert NodesOf(inner) == [b] && Height(inner) == 1;
    assert !NoUndeclared(b, "x");
    assert PlainNode(b) && NodeHeight(b) == 1;
    var a := Node(Name("x", "a"), [], "", [b]);
    assert PlainNode(a) && NodesHeight([b]) == 1 && NodeHeight(a) == 2;
    RoundTripIdentityIff(a, [], [], "");
  }
}

/** Stanza errors and their codec (stanza/error.go). */
module StanzaErrors {
  import opened Wrappers
  import opened Text
  import opened Xml
  import opened Nodes

  const NS_STANZAS := "urn:ietf:params:xml:ns:xmpp-stanzas"
  const NS_PUBSUB_ERRORS := "http://jabber.org/protocol/pubsub#errors"

  datatype Err = Err(name: Name, code: int, kind: string, reason: string, text: string)

  // ------------------------------------------------------------------
  // Decoding

  function ReadAttr(x: Err, a: Attr): Err {
    if a.name.local == "type" then x.(kind := a.value)
    else if a.name.local == "code" && Atoi(a.value).Some? then x.(code := Atoi(a.value).value)
    else x
  }

  function ReadAttrs(x: Err, attrs: seq<Attr>): Err
    decreases |attrs|
  {
    if attrs == [] then x else ReadAttrs(ReadAttr(x, attrs[0]), attrs[1..])
  }

  /** A `text` or `gone` child gives the text, any other known child its name as the reason. */
  function ReadChild(x: Err, child: Node): Err {
    if child.name.space == NS_STANZAS && child.name.local in ["text", "gone"] then x.(text := child.content)
    else if child.name.space == NS_STANZAS || child.name.space == NS_PUBSUB_ERRORS then x.(reason := child.name.local)
    else x
  }

  /** The last attribute named `code` that is a number, if there is one. */
  ghost predicate LastCode(attrs: seq<Attr>, k: nat) {
    && k < |attrs| && attrs[k].name.local == "code" && Atoi(attrs[k].value).Some?
    && forall j :: k < j < |attrs| && attrs[j].name.local == "code" ==> Atoi(attrs[j].value).None?
  }

  ghost predicate TakesLastCode(attrs: seq<Attr>, before: int, after: int) {
    && (forall k: nat :: LastCode(attrs, k) ==> Atoi(attrs[k].value) == Some(after))
    && ((forall a :: a in attrs && a.name.local == "code" ==> Atoi(a.value).None?) ==> after == before)
  }

  lemma TakesLastCodeCons(attrs: seq<Attr>, before: int, after: int)
    requires attrs != []
    requires var a := attrs[0];
             TakesLastCode(attrs[1..],
               if a.name.local == "code" && Atoi(a.value).Some? then Atoi(a.value).value else before, after)
    ensures TakesLastCode(attrs, before, after)
  {
    hide Atoi;
    var rest := attrs[1..];
    assert forall j :: 0 <= j < |rest| ==> rest[j] == attrs[j + 1];
    forall k: nat | LastCode(attrs, k)
      ensures Atoi(attrs[k].value) == Some(after)
    {
      if k > 0 {
        assert rest[k - 1] == attrs[k];
        assert LastCode(rest, k - 1);
      } else {
        forall a | a in rest && a.name.local == "code"
          ensures Atoi(a.value).None?
        {
          var j :| 0 <= j < |rest| && rest[j] == a;
          assert attrs[j + 1] == a;
        }
      }
    }
    assert forall a :: a in rest ==> a in attrs;
    assert attrs[0] in attrs;
  }

  /** The type is the last one given, the code the last one that is a number. */
  lemma {:induction false} ErrAttrsMean(x: Err, attrs: seq<Attr>)
    ensures var r := ReadAttrs(x, attrs);
            && TakesLast(attrs, "type", x.kind, r.kind) && TakesLastCode(attrs, x.code, r.code)
            && r == x.(kind := r.kind, code := r.code)
    decreases |attrs|
  {
    hide Atoi;
    var r := ReadAttrs(x, attrs);
    if attrs == [] {
      TakesLastNone("type", x.kind);
    } else {
      hide TakesLast, TakesLastCode;
      ErrAttrsMean(ReadAttr(x, attrs[0]), attrs[1..]);
      TakesLastCons(attrs, "type", x.kind, r.kind);
      TakesLastCodeCons(attrs, x.code, r.code);
    }
  }

  type ErrDecoded = Result<(Err, seq<Token>), DecodeError>

  function DecodeErr(ts: seq<Token>, name: Name, attrs: seq<Attr>): (r: ErrDecoded)
    ensures r.Ok? ==> |r.value.1| < |ts|
  {
    ErrLoop(ts, name, ReadAttrs(Err.Err(name, 0, "", "", ""), attrs))
  }

  function ErrLoop(ts: seq<Token>, name: Name, x: Err): (r: ErrDecoded)
    ensures r.Ok? ==> |r.value.1| < |ts|
    decreases |ts|
  {
    if ts == [] then Result.Err(UnexpectedEnd)
    else
      var rest := ts[1..];
      match ts[0]
      case Start(childName, attrs) =>
        var child := Decode(rest, childName, attrs, 1);
        if child.Err? then Result.Err(child.error)
        else ErrLoop(child.value.1, name, ReadChild(x, child.value.0))
      case End(endName) => if endName == name then Ok((x, rest)) else ErrLoop(rest, name, x)
      case _ => ErrLoop(rest, name, x)
  }

  method UnmarshalErr(d: Decoder, name: Name, attrs: seq<Attr>) returns (r: Result<Err, DecodeError>)
    modifies d
    ensures var spec := DecodeErr(old(d.tokens), name, attrs);
            if spec.Err? then r == Result.Err(spec.error) else r == Ok(spec.value.0) && d.tokens == spec.value.1
    ensures |d.tokens| <= |old(d.tokens)|
  {
    var x := Err.Err(name, 0, "", "", "");
    for i := 0 to |attrs|
      invariant ReadAttrs(x, attrs[i..]) == ReadAttrs(Err.Err(name, 0, "", "", ""), attrs)
      invariant d.tokens == old(d.tokens)
    {
      var a := attrs[i];
      assert attrs[i..][0] == a && attrs[i..][1..] == attrs[i + 1..];
      if a.name.local == "type" {
        x := x.(kind := a.value);
      }
      if a.name.local == "code" {
        var code := Atoi(a.value);
        if code.Some? {
          x := x.(code := code.value);
        }
      }
    }
    while true
      invariant |d.tokens| <= |old(d.tokens)|
      invariant ErrLoop(d.tokens, name, x) == DecodeErr(old(d.tokens), name, attrs)
      decreases |d.tokens|
    {
      var t := d.Token();
      if t.None? {
        return Result.Err(UnexpectedEnd);
      }
      match t.value {
        case Start(childName, childAttrs) =>
          var elt := UnmarshalXML(d, childName, childAttrs);
          if elt.Err? {
            return Result.Err(elt.error);
          }
          x := ReadChild(x, elt.value);
        case End(endName) =>
          if endName == name {
            return Ok(x);
          }
        case _ =>
      }
    }
  }

  /** An end tag of another name is passed over. */
  lemma ForeignEndIgnored(other: Name, name: Name, rest: seq<Token>, x: Err)
    requires other != name
    ensures ErrLoop([End(other)] + rest, name, x) == ErrLoop(rest, name, x)
  {
    assert ([End(other)] + rest)[1..] == rest;
  }

  // ------------------------------------------------------------------
  // Decoding well-formed content

  function ReadChildren(x: Err, children: seq<Node>): Err
    decreases |children|
  {
    if children == [] then x else ReadChildren(ReadChild(x, children[0]), children[1..])
  }

  predicate GivesText(child: Node) {
    child.name == Name(NS_STANZAS, "text") || child.name == Name(NS_STANZAS, "gone")
  }

  /** A defined condition, of the stanza errors or of those of publish-subscribe. */
  predicate GivesReason(child: Node) {
    !GivesText(child) && child.name.space in [NS_STANZAS, NS_PUBSUB_ERRORS]
  }

  ghost predicate LastChild(children: seq<Node>, which: Node -> bool, k: nat) {
    k < |children| && which(children[k]) && forall j :: k < j < |children| ==> !which(children[j])
  }

  /** The text is that of the last child that gives one, the reason the name of the last that gives one. */
  lemma {:induction false} ErrChildrenMean(x: Err, children: seq<Node>)
    ensures var r := ReadChildren(x, children);
            && (forall k: nat :: LastChild(children, GivesText, k) ==> r.text == children[k].content)
            && ((forall n :: n in children ==> !GivesText(n)) ==> r.text == x.text)
            && (forall k: nat :: LastChild(children, GivesReason, k) ==> r.reason == children[k].name.local)
            && ((forall n :: n in children ==> !GivesReason(n)) ==> r.reason == x.reason)
            && r == x.(text := r.text, reason := r.reason)
    decreases |children|
  {
    if children != [] {
      var first, rest := children[0], children[1..];
      var x1 := ReadChild(x, first);
      ChildMeans(x, first);
      ErrChildrenMean(x1, rest);
      hide ReadChild, GivesText, GivesReason;
      var r := ReadChildren(x, children);
      LastOfRest(children, GivesText);
      LastOfRest(children, GivesReason);
      assert first in children;
      assert forall n :: n in rest ==> n in children;
    }
  }

  lemma ChildMeans(x: Err, child: Node)
    ensures var r := ReadChild(x, child);
            && r.text == (if GivesText(child) then child.content else x.text)
            && r.reason == (if GivesReason(child) then child.name.local else x.reason)
            && (GivesText(child) ==> child.name.space == "urn:ietf:params:xml:ns:xmpp-stanzas")
            && (GivesReason(child) <==>
                  || (child.name.space == "urn:ietf:params:xml:ns:xmpp-stanzas"
                      && child.name.local !in ["text", "gone"])
                  || child.name.space == "http://jabber.org/protocol/pubsub#errors")
            && r == x.(text := r.text, reason := r.reason)
  {
  }

  lemma LastOfRest(children: seq<Node>, which: Node -> bool)
    requires children != []
    ensures forall k: nat :: LastChild(children, which, k) && k > 0 ==> LastChild(children[1..], which, k - 1)
    ensures LastChild(children, which, 0) ==> forall n :: n in children[1..] ==> !which(n)
  {
    var rest := children[1..];
    assert forall j :: 0 <= j < |rest| ==> rest[j] == children[j + 1];
  }

  /** The loop folds the children in order and takes the tokens up to the matching end tag, if no child is too deep. */
  lemma {:induction false} ErrLoopOnContent(c: Content, name: Name, x: Err, rest: seq<Token>)
    ensures ErrLoop(Tokens(c) + ([End(name)] + rest), name, x)
         == if Height(c) < MAX_DEPTH then Ok((ReadChildren(x, NodesOf(c)), rest)) else Result.Err(TooDeep)
  {
    var after := [End(name)] + rest;
    var ts := Tokens(c) + after;
    match c
    case Done =>
      assert ts == after && after[1..] == rest;
    case Text(_, more) =>
      assert ts[1..] == Tokens(more) + after;
      ErrLoopOnContent(more, name, x, rest);
    case Other(more) =>
      assert ts[1..] == Tokens(more) + after;
      ErrLoopOnContent(more, name, x, rest);
    case Element(childName, attrs, inner, more) =>
      var left := Tokens(more) + after;
      ElementTokens(childName, attrs, inner, more, after);
      assert ts[0] == Start(childName, attrs) && ts[1..] == Tokens(inner) + ([End(childName)] + left);
      DecodeInner(childName, attrs, inner, left, 1);
      var child := Node(childName, Kept(attrs), CharData(inner), NodesOf(inner));
      assert NodesOf(c)[0] == child && NodesOf(c)[1..] == NodesOf(more);
      if 1 + Height(inner) < MAX_DEPTH {
        ErrLoopOnContent(more, name, ReadChild(x, child), rest);
      }
  }

  // ------------------------------------------------------------------
  // Encoding

  function ErrAttrs(x: Err): seq<Attr> {
    [Attr(Name("", "code"), Itoa(x.code))] + if x.kind == "" then [] else [Attr(Name("", "type"), x.kind)]
  }

  function ReasonElement(reason: string): seq<Node> {
    if reason == "" then [] else [Node(Name(NS_STANZAS, reason), [], "", [])]
  }

  function TextElement(text: string): seq<Node> {
    if text == "" then [] else [Node(Name(NS_STANZAS, "text"), [], text, [])]
  }

  /** The tree whose encoding the error's encoding is. */
  function ErrNode(x: Err): Node {
    Node(Name("", "error"), ErrAttrs(x), "", ReasonElement(x.reason) + TextElement(x.text))
  }

  function ReasonRaw(reason: string): seq<Raw> {
    if reason == "" then [] else [OpenTag(Name(NS_STANZAS, reason), []), Close(reason)]
  }

  function TextElementRaw(text: string): seq<Raw> {
    if text == "" then [] else [OpenTag(Name(NS_STANZAS, "text"), []), RawText(text), Close("text")]
  }

  /** MarshalXML: nothing at all for an error without a code. */
  method MarshalErr(x: Err, e: Encoder)
    modifies e
    ensures e.out == old(e.out) + if x.code == 0 then [] else Encode(ErrNode(x)).0
  {
    hide OpenTag, Encode, ErrNode, Itoa;
    if x.code == 0 {
      return;
    }
    var attrs := [Attr(Name("", "code"), Itoa(x.code))];
    if |x.kind| > 0 {
      attrs := attrs + [Attr(Name("", "type"), x.kind)];
    }
    assert attrs == ErrAttrs(x);
    var _ := e.EncodeStart(Name("", "error"), attrs);
    if x.reason != "" {
      EncodeReason(x.reason, e);
    }
    if x.text != "" {
      EncodeTextElement(x.text, e);
    }
    e.EncodeEnd(Name("", "error"));
    EncodedErr(x);
    hide ReasonRaw, TextElementRaw, ErrAttrs;
    assert e.out == old(e.out)
      + ([OpenTag(Name("", "error"), attrs)] + ReasonRaw(x.reason) + TextElementRaw(x.text) + [Close("error")]);
  }

  method EncodeReason(reason: string, e: Encoder)
    requires reason != ""
    modifies e
    ensures e.out == old(e.out) + ReasonRaw(reason)
  {
    hide OpenTag;
    var name := Name(NS_STANZAS, reason);
    var _ := e.EncodeStart(name, []);
    e.EncodeEnd(name);
  }

  method EncodeTextElement(text: string, e: Encoder)
    requires text != ""
    modifies e
    ensures e.out == old(e.out) + TextElementRaw(text)
  {
    hide OpenTag;
    var name := Name(NS_STANZAS, "text");
    var _ := e.EncodeStart(name, []);
    e.EncodeText(text);
    e.EncodeEnd(name);
  }

  /** Only what an error has is written: no empty type, reason or text. */
  lemma ErrNodeLean(x: Err)
    ensures var n := ErrNode(x);
            && ((exists a :: a in n.attrs && a.name.local == "type") <==> x.kind != "")
            && |n.attrs| == 1 + (if x.kind == "" then 0 else 1) && n.attrs[0] == Attr(Name("", "code"), Itoa(x.code))
            && |n.nodes| == (if x.reason == "" then 0 else 1) + (if x.text == "" then 0 else 1)
            && forall m :: m in n.nodes ==> m.name.space == "urn:ietf:params:xml:ns:xmpp-stanzas" && m.attrs == []
  {
    if x.kind != "" {
      assert ErrNode(x).attrs[1].name.local == "type";
    }
  }

  lemma EncodedLeaf(name: Name, text: string, rest: seq<Node>)
    requires name.local != "" && EncodeAll(rest).1
    ensures var leaf := [OpenTag(name, [])] + TextRaw(text) + [Close(name.local)];
            EncodeAll([Node(name, [], text, [])] + rest) == (leaf + EncodeAll(rest).0, true)
  {
    var n := Node(name, [], text, []);
    assert ([n] + rest)[1..] == rest;
    assert [OpenTag(name, [])] + EncodeAll(n.nodes).0 == [OpenTag(name, [])];
  }

  lemma EncodedErr(x: Err)
    ensures Encode(ErrNode(x)).0
         == [OpenTag(Name("", "error"), ErrAttrs(x))] + ReasonRaw(x.reason) + TextElementRaw(x.text) + [Close("error")]
  {
    hide OpenTag, ErrAttrs;
    if x.text != "" {
      EncodedLeaf(Name(NS_STANZAS, "text"), x.text, []);
      assert TextElement(x.text) == [Node(Name(NS_STANZAS, "text"), [], x.text, [])] + [];
      assert [OpenTag(Name(NS_STANZAS, "text"), [])] + TextRaw(x.text) + [Close("text")] + [] == TextElementRaw(x.text);
    }
    assert EncodeAll(TextElement(x.text)) == (TextElementRaw(x.text), true);
    if x.reason != "" {
      EncodedLeaf(Name(NS_STANZAS, x.reason), "", TextElement(x.text));
      assert [OpenTag(Name(NS_STANZAS, x.reason), [])] + TextRaw("") + [Close(x.reason)] == ReasonRaw(x.reason);
    } else {
      assert ReasonElement(x.reason) + TextElement(x.text) == TextElement(x.text);
    }
    assert ReasonRaw("") + TextElementRaw(x.text) == TextElementRaw(x.text);
    assert EncodeAll(ReasonElement(x.reason) + TextElement(x.text))
        == (ReasonRaw(x.reason) + TextElementRaw(x.text), true);
    assert TextRaw("") == [];
  }

  // ------------------------------------------------------------------
  // Round trip

  predicate MeansText(reason: string) {
    reason in ["text", "gone"]
  }

  /** What an encoded error is read back as, inside namespace `scope`. */
  function ReadBack(x: Err, scope: string): Err {
    Err.Err(Name(scope, "error"), x.code, x.kind, if MeansText(x.reason) then "" else x.reason, x.text)
  }

  lemma AttrsRoundTrip(x: Err, name: Name)
    requires IsInt(x.code)
    ensures ReadAttrs(Err.Err(name, 0, "", "", ""), ErrAttrs(x)) == Err.Err(name, x.code, x.kind, "", "")
  {
    AtoiItoa(x.code);
    var attrs, kindAttr := ErrAttrs(x), Attr(Name("", "type"), x.kind);
    var x1 := Err.Err(name, x.code, "", "", "");
    assert ReadAttrs(Err.Err(name, 0, "", "", ""), attrs) == ReadAttrs(x1, attrs[1..]);
    if x.kind != "" {
      assert attrs[1..] == [kindAttr];
      assert ReadAttrs(x1, [kindAttr]) == ReadAttrs(x1.(kind := x.kind), []);
    }
  }

  lemma ErrNodePlain(x: Err)
    ensures PlainNode(ErrNode(x))
  {
  }

  lemma ReadReason(y: Err, reason: string, rest: seq<Node>)
    requires y.reason == y.text == ""
    ensures ReadChildren(y, ReasonElement(reason) + rest)
         == ReadChildren(y.(reason := if MeansText(reason) then "" else reason), rest)
  {
    if reason == "" {
      assert ReasonElement(reason) + rest == rest;
    } else {
      assert (ReasonElement(reason) + rest)[1..] == rest;
    }
  }

  lemma ReadText(y: Err, text: string)
    requires y.text == ""
    ensures ReadChildren(y, TextElement(text)) == y.(text := text)
  {
    if text != "" {
      assert TextElement(text)[1..] == [];
      assert ReadChildren(y.(text := text), []) == y.(text := text);
    }
  }

  lemma {:induction false} LeavesInherit(ns: seq<Node>, scope: string)
    requires forall n :: n in ns ==> n.nodes == [] && n.name.space != ""
    ensures InheritAll(ns, scope) == ns
    ensures NodesHeight(ns) <= 1
  {
    if ns != [] {
      LeavesInherit(ns[1..], scope);
      assert ns[0] in ns && ns == [ns[0]] + ns[1..];
      assert Inherit(ns[0], scope) == ns[0];
    }
  }

  lemma ChildrenReadBack(x: Err, y: Err, scope: string)
    requires y.reason == y.text == ""
    ensures var c := InnerOf(ErrNode(x), scope);
            && Height(c) <= 1
            && ReadChildren(y, NodesOf(c)) == y.(reason := if MeansText(x.reason) then "" else x.reason, text := x.text)
  {
    ErrNodePlain(x);
    hide ReadChildren, MeansText;
    var ns := ReasonElement(x.reason) + TextElement(x.text);
    BodyMeans(ns, "", scope);
    LeavesInherit(ns, scope);
    ReadReason(y, x.reason, TextElement(x.text));
    ReadText(y.(reason := if MeansText(x.reason) then "" else x.reason), x.text);
  }

  /**
   Every error with a code is read back by the generic decoder with the same
   code, type and text, in the namespace in scope, and takes exactly its own
   tags; a reason named `text` or `gone` is the only thing lost.
   */
  lemma ErrRoundTrip(x: Err, raws: seq<Raw>, open: seq<Name>, outer: string)
    requires x.code != 0 && IsInt(x.code)
    ensures var ts := Resolve(Encode(ErrNode(x)).0 + raws, open, outer);
            && ts != [] && ts[0].Start?
            && DecodeErr(ts[1..], ts[0].name, ts[0].attrs)
               == Ok((ReadBack(x, Inherited(open, outer)), Resolve(raws, open, outer)))
  {
    hide Encode, Resolve, InnerOf, Tokens, Height, ErrAttrs, ReadAttrs;
    var scope, rest := Inherited(open, outer), Resolve(raws, open, outer);
    var name := Name(scope, "error");
    ErrNodePlain(x);
    NodeResolves(ErrNode(x), raws, open, outer);
    assert Declaration("") + ErrAttrs(x) == ErrAttrs(x);
    AttrsRoundTrip(x, name);
    var y := Err.Err(name, x.code, x.kind, "", "");
    ChildrenReadBack(x, y, scope);
    ErrLoopOnContent(InnerOf(ErrNode(x), scope), name, y, rest);
  }

  /**
   An error survives unchanged exactly when it is named `error` in that
   namespace and its reason is not `text` or `gone`.
   */
  lemma ErrSurvivesIff(x: Err, raws: seq<Raw>, open: seq<Name>, outer: string)
    requires x.code != 0 && IsInt(x.code)
    ensures var ts := Resolve(Encode(ErrNode(x)).0 + raws, open, outer);
            && ts != [] && ts[0].Start?
            && (DecodeErr(ts[1..], ts[0].name, ts[0].attrs) == Ok((x, Resolve(raws, open, outer)))
                <==> x.name == Name(Inherited(open, outer), "error") && !MeansText(x.reason))
  {
    hide DecodeErr, Encode, Resolve;
    ErrRoundTrip(x, raws, open, outer);
  }
}

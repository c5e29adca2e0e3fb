/**
 XML as the decoders see it: a stream of tokens with resolved names, and the
 well-formed content it stands for. `Resolve` is what the library's decoder
 makes of the tags that its encoder wrote.
 */
module Xml {
  import opened Wrappers

  datatype Name = Name(space: string, local: string)
  datatype Attr = Attr(name: Name, value: string)

  /** `Misc` stands for comments, directives and processing instructions. */
  datatype Token = Start(name: Name, attrs: seq<Attr>) | End(name: Name) | Chars(text: string) | Misc

  /** Well-formed content: an element followed by more content, and so on. */
  datatype Content =
    | Done
    | Text(text: string, rest: Content)
    | Other(rest: Content)
    | Element(name: Name, attrs: seq<Attr>, inner: Content, rest: Content)

  function Tokens(c: Content): seq<Token> {
    match c
    case Done => []
    case Text(text, rest) => [Chars(text)] + Tokens(rest)
    case Other(rest) => [Misc] + Tokens(rest)
    case Element(name, attrs, inner, rest) => [Start(name, attrs)] + Tokens(inner) + [End(name)] + Tokens(rest)
  }

  /** How deep elements nest in the content. */
  function Height(c: Content): nat {
    match c
    case Done => 0
    case Text(_, rest) => Height(rest)
    case Other(rest) => Height(rest)
    case Element(_, _, inner, rest) => if 1 + Height(inner) > Height(rest) then 1 + Height(inner) else Height(rest)
  }

  /** The character data at the content's own level. */
  function CharData(c: Content): string {
    match c
    case Done => ""
    case Text(text, rest) => text + CharData(rest)
    case Other(rest) => CharData(rest)
    case Element(_, _, _, rest) => CharData(rest)
  }

  // ------------------------------------------------------------------
  // What a loop over attributes leaves

  ghost predicate LastNamed(attrs: seq<Attr>, local: string, k: nat) {
    && k < |attrs| && attrs[k].name.local == local
    && forall j :: k < j < |attrs| ==> attrs[j].name.local != local
  }

  /** The value of the last attribute with that local name, and the old one if there is none. */
  ghost predicate TakesLast(attrs: seq<Attr>, local: string, before: string, after: string) {
    && (forall k: nat :: LastNamed(attrs, local, k) ==> after == attrs[k].value)
    && ((forall a :: a in attrs ==> a.name.local != local) ==> after == before)
  }

  lemma TakesLastNone(local: string, value: string)
    ensures TakesLast([], local, value, value)
  {
  }

  /** One attribute more in front: it counts unless a later one has the same name. */
  lemma TakesLastCons(attrs: seq<Attr>, local: string, before: string, after: string)
    requires attrs != []
    requires TakesLast(attrs[1..], local, if attrs[0].name.local == local then attrs[0].value else before, after)
    ensures TakesLast(attrs, local, before, after)
  {
    var rest := attrs[1..];
    forall k: nat | LastNamed(attrs, local, k)
      ensures after == attrs[k].value
    {
      if k > 0 {
        assert rest[k - 1] == attrs[k];
        assert LastNamed(rest, local, k - 1);
      } else {
        assert forall j :: 0 <= j < |rest| ==> rest[j] == attrs[j + 1];
      }
    }
    assert forall a :: a in rest ==> a in attrs;
    if forall a :: a in attrs ==> a.name.local != local {
      assert attrs[0] in attrs;
    }
  }

  // ------------------------------------------------------------------
  // Well-formedness of token streams

  /** Every end tag closes the innermost open element, and all of `open` get closed. */
  predicate WellFormed(ts: seq<Token>, open: seq<Name>) {
    if ts == [] then open == []
    else match ts[0]
      case Start(name, _) => WellFormed(ts[1..], [name] + open)
      case End(name) => open != [] && open[0] == name && WellFormed(ts[1..], open[1..])
      case _ => WellFormed(ts[1..], open)
  }

  lemma Regroup(a: seq<Token>, b: seq<Token>, c: seq<Token>, d: seq<Token>, e: seq<Token>)
    ensures (a + b + c + d) + e == a + (b + (c + (d + e)))
  {
  }

  /** An element's tokens, grouped for reading from the front. */
  lemma ElementTokens(name: Name, attrs: seq<Attr>, inner: Content, rest: Content, ts: seq<Token>)
    ensures Tokens(Element(name, attrs, inner, rest)) + ts
         == [Start(name, attrs)] + (Tokens(inner) + ([End(name)] + (Tokens(rest) + ts)))
  {
    Regroup([Start(name, attrs)], Tokens(inner), [End(name)], Tokens(rest), ts);
  }

  /** The contents between the end tags of the open elements, innermost first. */
  function Contents(ts: seq<Token>, open: seq<Name>): (cs: seq<Content>)
    requires WellFormed(ts, open)
    ensures |cs| == |open| + 1
    decreases |ts|
  {
    if ts == [] then [Done]
    else match ts[0]
      case Start(name, attrs) =>
        var cs := Contents(ts[1..], [name] + open);
        [Element(name, attrs, cs[0], cs[1])] + cs[2..]
      case End(_) => [Done] + Contents(ts[1..], open[1..])
      case Chars(text) =>
        var cs := Contents(ts[1..], open);
        [Text(text, cs[0])] + cs[1..]
      case Misc =>
        var cs := Contents(ts[1..], open);
        [Other(cs[0])] + cs[1..]
  }

  function Flatten(cs: seq<Content>, open: seq<Name>): seq<Token>
    requires |cs| == |open| + 1
    decreases |open|
  {
    Tokens(cs[0]) + if open == [] then [] else [End(open[0])] + Flatten(cs[1..], open[1..])
  }

  lemma {:induction false} FlattenContents(ts: seq<Token>, open: seq<Name>)
    requires WellFormed(ts, open)
    ensures Flatten(Contents(ts, open), open) == ts
    decreases |ts|
  {
    var cs := Contents(ts, open);
    if ts != [] {
      match ts[0]
      case Start(name, attrs) =>
        FlattenContents(ts[1..], [name] + open);
        FlattenElement(ts[0], Contents(ts[1..], [name] + open), open);
      case End(name) =>
        FlattenContents(ts[1..], open[1..]);
        assert cs[1..] == Contents(ts[1..], open[1..]);
      case Chars(text) =>
        FlattenContents(ts[1..], open);
        assert cs[1..] == Contents(ts[1..], open)[1..];
      case Misc =>
        FlattenContents(ts[1..], open);
        assert cs[1..] == Contents(ts[1..], open)[1..];
    }
  }

  lemma FlattenElement(t: Token, cs: seq<Content>, open: seq<Name>)
    requires t.Start? && |cs| == |open| + 2
    ensures Flatten([Element(t.name, t.attrs, cs[0], cs[1])] + cs[2..], open) == [t] + Flatten(cs, [t.name] + open)
  {
    var element := Element(t.name, t.attrs, cs[0], cs[1]);
    var merged, inner := [element] + cs[2..], [t.name] + open;
    assert inner[1..] == open && cs[1..][1..] == cs[2..] && merged[1..] == cs[2..] && cs[1..][0] == cs[1];
    var tail := if open == [] then [] else [End(open[0])] + Flatten(cs[2..], open[1..]);
    ElementTokens(t.name, t.attrs, cs[0], cs[1], tail);
    hide Tokens;
    assert Flatten(cs[1..], open) == Tokens(cs[1]) + tail;
    assert Flatten(cs, inner) == Tokens(cs[0]) + ([End(t.name)] + (Tokens(cs[1]) + tail));
    assert Flatten(merged, open) == Tokens(element) + tail;
  }

  /** A balanced stream of tokens is that of some content. */
  lemma ContentOf(ts: seq<Token>)
    requires WellFormed(ts, [])
    ensures Tokens(Contents(ts, [])[0]) == ts
  {
    FlattenContents(ts, []);
    hide Tokens, Contents, WellFormed;
    var c := Contents(ts, [])[0];
    assert Tokens(c) + [] == Tokens(c);
  }

  function Max(a: nat, b: nat): nat {
    if a > b then a else b
  }

  /** The most elements that are open at once, with `open` of them open before. */
  function Nesting(ts: seq<Token>, open: nat): nat {
    if ts == [] then open
    else match ts[0]
      case Start(_, _) => Nesting(ts[1..], open + 1)
      case End(_) => Max(open, Nesting(ts[1..], if open == 0 then 0 else open - 1))
      case _ => Nesting(ts[1..], open)
  }

  lemma {:induction false} NestingFrom(ts: seq<Token>, open: nat)
    ensures Nesting(ts, open) >= open
  {
    if ts != [] && !ts[0].End? {
      NestingFrom(ts[1..], if ts[0].Start? then open + 1 else open);
    }
  }

  /** Counting the open elements gives the height of the content. */
  lemma {:induction false} NestingOfContent(c: Content, ts: seq<Token>, open: nat)
    ensures Nesting(Tokens(c) + ts, open) == Max(open + Height(c), Nesting(ts, open))
  {
    NestingFrom(ts, open);
    match c
    case Done =>
      assert Tokens(c) + ts == ts;
    case Text(text, rest) =>
      assert (Tokens(c) + ts)[1..] == Tokens(rest) + ts;
      NestingOfContent(rest, ts, open);
    case Other(rest) =>
      assert (Tokens(c) + ts)[1..] == Tokens(rest) + ts;
      NestingOfContent(rest, ts, open);
    case Element(name, attrs, inner, rest) =>
      NestingOfContent(inner, [End(name)] + (Tokens(rest) + ts), open + 1);
      NestingOfContent(rest, ts, open);
      NestingOfElement(name, attrs, inner, rest, ts, open);
  }

  lemma NestingOfElement(name: Name, attrs: seq<Attr>, inner: Content, rest: Content, ts: seq<Token>, open: nat)
    requires var after := [End(name)] + (Tokens(rest) + ts);
             Nesting(Tokens(inner) + after, open + 1) == Max(open + 1 + Height(inner), Nesting(after, open + 1))
    requires Nesting(Tokens(rest) + ts, open) == Max(open + Height(rest), Nesting(ts, open))
    ensures Nesting(Tokens(Element(name, attrs, inner, rest)) + ts, open)
         == Max(open + Height(Element(name, attrs, inner, rest)), Nesting(ts, open))
  {
    ElementTokens(name, attrs, inner, rest, ts);
    NestingOfTags(name, attrs, Tokens(inner) + ([End(name)] + (Tokens(rest) + ts)), Tokens(rest) + ts, open);
    hide Tokens, Nesting;
  }

  lemma NestingOfTags(name: Name, attrs: seq<Attr>, ts: seq<Token>, last: seq<Token>, open: nat)
    ensures Nesting([Start(name, attrs)] + ts, open) == Nesting(ts, open + 1)
    ensures Nesting([End(name)] + last, open + 1) == Max(open + 1, Nesting(last, open))
  {
    assert ([Start(name, attrs)] + ts)[1..] == ts && ([End(name)] + last)[1..] == last;
  }

  // ------------------------------------------------------------------
  // Writing and reading tags

  datatype Raw = Open(local: string, attrs: seq<Attr>) | Close(local: string) | RawText(text: string)

  const XMLNS := Name("", "xmlns")

  function Declaration(space: string): seq<Attr> {
    if space == "" then [] else [Attr(XMLNS, space)]
  }

  function Written(attrs: seq<Attr>): (r: seq<Attr>)
    ensures (forall a :: a in attrs ==> a.name.local != "") ==> r == attrs
  {
    if attrs == [] then []
    else (if attrs[0].name.local == "" then [] else [attrs[0]]) + Written(attrs[1..])
  }

  /** EncodeToken of a start tag: the namespace becomes an xmlns attribute. */
  function OpenTag(name: Name, attrs: seq<Attr>): Raw {
    Open(name.local, Declaration(name.space) + Written(attrs))
  }

  /** The default namespace that the attributes declare, else the inherited one. */
  function Scope(attrs: seq<Attr>, inherited: string): string {
    if attrs == [] then inherited
    else Scope(attrs[1..], if attrs[0].name == XMLNS then attrs[0].value else inherited)
  }

  function Inherited(open: seq<Name>, outer: string): string {
    if open == [] then outer else open[0].space
  }

  /** The decoder resolves names against the open elements; a wrong end tag ends the stream. */
  function Resolve(raws: seq<Raw>, open: seq<Name>, outer: string): seq<Token> {
    if raws == [] then []
    else match raws[0]
      case Open(local, attrs) =>
        var name := Name(Scope(attrs, Inherited(open, outer)), local);
        [Start(name, attrs)] + Resolve(raws[1..], [name] + open, outer)
      case Close(local) =>
        if open == [] || open[0].local != local then []
        else [End(open[0])] + Resolve(raws[1..], open[1..], outer)
      case RawText(text) => [Chars(text)] + Resolve(raws[1..], open, outer)
  }

  lemma {:induction false} ScopeOfDeclaration(space: string, attrs: seq<Attr>, inherited: string)
    requires forall a :: a in attrs ==> a.name != XMLNS
    ensures Scope(Declaration(space) + attrs, inherited) == if space == "" then inherited else space
  {
    ScopeUndeclared(attrs, inherited);
    if space == "" {
      assert Declaration(space) + attrs == attrs;
    } else {
      assert (Declaration(space) + attrs)[1..] == attrs;
      ScopeUndeclared(attrs, space);
    }
  }

  lemma {:induction false} ScopeUndeclared(attrs: seq<Attr>, inherited: string)
    requires forall a :: a in attrs ==> a.name != XMLNS
    ensures Scope(attrs, inherited) == inherited
  {
    if attrs != [] {
      ScopeUndeclared(attrs[1..], inherited);
    }
  }

  // ------------------------------------------------------------------
  // The decoder and encoder objects

  class Decoder {
    var tokens: seq<Token>

    constructor (tokens: seq<Token>)
      ensures this.tokens == tokens
    {
      this.tokens := tokens;
    }

    /** `None` at the end of the input. */
    method Token() returns (t: Option<Token>)
      modifies this
      ensures t.None? <==> old(tokens) == []
      ensures t.None? ==> tokens == old(tokens)
      ensures t.Some? ==> t.value == old(tokens)[0] && tokens == old(tokens)[1..]
    {
      if tokens == [] {
        return None;
      }
      t := Some(tokens[0]);
      tokens := tokens[1..];
    }
  }

  class Encoder {
    var out: seq<Raw>

    constructor ()
      ensures out == []
    {
      out := [];
    }

    method EncodeStart(name: Name, attrs: seq<Attr>) returns (ok: bool)
      modifies this
      ensures ok <==> name.local != ""
      ensures out == old(out) + if ok then [OpenTag(name, attrs)] else []
    {
      if name.local == "" {
        return false;
      }
      out := out + [OpenTag(name, attrs)];
      return true;
    }

    method EncodeText(text: string)
      modifies this
      ensures out == old(out) + [RawText(text)]
    {
      out := out + [RawText(text)];
    }

    method EncodeEnd(name: Name)
      modifies this
      ensures out == old(out) + [Close(name.local)]
    {
      out := out + [Close(name.local)];
    }
  }
}

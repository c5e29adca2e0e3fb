/** Parsing and printing of JIDs (stanza/jid.go; section 3.1 of RFC 7622). */
module Jids {
  import opened Wrappers
  import opened Text

  datatype Jid = Jid(node: string, domain: string, resource: string)
  {
    function Bare(): string {
      if node == "" then domain else node + "@" + domain
    }

    function Full(): string {
      if resource == "" then Bare()
      else if node == "" then domain + "/" + resource
      else node + "@" + domain + "/" + resource
    }
  }

  datatype JidError = EmptyJid | MissingNode | MissingDomain | InvalidNode | InvalidDomain

  /** unicode.IsSpace */
  predicate IsSpace(c: char) {
    || '\U{09}' <= c <= '\U{0D}'
    || c in {'\U{20}', '\U{85}', '\U{A0}', '\U{1680}', '\U{2028}', '\U{2029}', '\U{202F}', '\U{205F}', '\U{3000}'}
    || '\U{2000}' <= c <= '\U{200A}'
  }

  const INVALID_IN_NODE: seq<char> := ['@', '/', '\'', '"', ':', '<', '>']
  const INVALID_IN_DOMAIN: seq<char> := ['@', '/']

  predicate IsInvalid(c: char, invalid: seq<char>) {
    IsSpace(c) || c in invalid
  }

  predicate ValidNode(node: string) {
    forall c :: c in node ==> !IsInvalid(c, INVALID_IN_NODE)
  }

  predicate ValidDomain(domain: string) {
    domain != "" && forall c :: c in domain ==> !IsInvalid(c, INVALID_IN_DOMAIN)
  }

  /** strings.IndexFunc(s, isInvalid(invalid)) < 0 */
  method HasNoneOf(s: string, invalid: seq<char>) returns (ok: bool)
    ensures ok <==> forall c :: c in s ==> !IsInvalid(c, invalid)
  {
    for i := 0 to |s|
      invariant forall c :: c in s[..i] ==> !IsInvalid(c, invalid)
    {
      if IsSpace(s[i]) {
        assert s[i] in s;
        return false;
      }
      for j := 0 to |invalid|
        invariant s[i] !in invalid[..j]
      {
        if s[i] == invalid[j] {
          assert s[i] in s;
          return false;
        }
      }
      assert invalid[..|invalid|] == invalid;
    }
    assert s[..|s|] == s;
    return true;
  }

  /** Separates the resource from what follows the node. */
  function SplitResource(node: string, rest: string): Jid {
    match Cut(rest, '/')
    case Whole => Jid(node, rest, "")
    case Two(domain, resource) => Jid(node, domain, resource)
  }

  function Check(j: Jid): Option<JidError> {
    if !ValidNode(j.node) then Some(InvalidNode)
    else if !ValidDomain(j.domain) then Some(InvalidDomain)
    else None
  }

  /** The JID as far as it was filled in, and the error if there is one. */
  function Parse(s: string): (Jid, Option<JidError>) {
    if s == "" then (Jid("", "", ""), Some(EmptyJid))
    else match Cut(s, '@')
      case Whole =>
        var j := SplitResource("", s);
        (j, Check(j))
      case Two(node, rest) =>
        if node == "" then (Jid("", "", ""), Some(MissingNode))
        else if rest == "" then (Jid(node, "", ""), Some(MissingDomain))
        else
          var j := SplitResource(node, rest);
          (j, Check(j))
  }

  method NewJid(sjid: string) returns (jid: Jid, err: Option<JidError>)
    ensures (jid, err) == Parse(sjid)
  {
    jid := Jid("", "", "");
    if sjid == "" {
      return jid, Some(EmptyJid);
    }
    var s1 := Cut(sjid, '@');
    if s1.Whole? {
      jid := jid.(domain := sjid);
    } else {
      if s1.before == "" {
        return jid, Some(MissingNode);
      }
      jid := jid.(node := s1.before);
      if s1.after == "" {
        return jid, Some(MissingDomain);
      }
      jid := jid.(domain := s1.after);
    }
    var s2 := Cut(jid.domain, '/');
    if s2.Two? {
      jid := jid.(domain := s2.before, resource := s2.after);
    }
    var nodeOk := HasNoneOf(jid.node, INVALID_IN_NODE);
    if !nodeOk {
      return jid, Some(InvalidNode);
    }
    var domainOk := HasNoneOf(jid.domain, INVALID_IN_DOMAIN);
    if !domainOk || jid.domain == "" {
      return jid, Some(InvalidDomain);
    }
    return jid, None;
  }

  // ------------------------------------------------------------------
  // Round trips

  ghost predicate ValidParts(j: Jid) {
    ValidNode(j.node) && ValidDomain(j.domain)
  }

  lemma ValidLacksSeparators(j: Jid)
    requires ValidParts(j)
    ensures '@' !in j.node && '/' !in j.node && '@' !in j.domain && '/' !in j.domain
  {
    assert '@' in INVALID_IN_NODE && '/' in INVALID_IN_NODE && '@' in INVALID_IN_DOMAIN && '/' in INVALID_IN_DOMAIN;
  }

  /** What follows the node in the full form. */
  function Tail(j: Jid): string {
    if j.resource == "" then j.domain else j.domain + "/" + j.resource
  }

  lemma FullSplit(j: Jid)
    ensures j.Full() == if j.node == "" then Tail(j) else j.node + ['@'] + Tail(j)
  {
    if j.node != "" && j.resource != "" {
      assert j.node + "@" + j.domain + "/" + j.resource == j.node + ['@'] + (j.domain + "/" + j.resource);
    }
  }

  lemma TailSplits(j: Jid)
    requires ValidParts(j)
    ensures SplitResource(j.node, Tail(j)) == j
  {
    ValidLacksSeparators(j);
    if j.resource != "" {
      CutAt(j.domain, j.resource, '/');
    }
  }

  /**
   Printing arbitrary valid parts and parsing the result gives them back
   exactly when there is a node, or no `@` in the resource.
   */
  lemma PrintParseIff(j: Jid)
    requires ValidParts(j)
    ensures Parse(j.Full()) == (j, None) <==> j.node != "" || '@' !in j.resource
  {
    ValidLacksSeparators(j);
    FullSplit(j);
    TailSplits(j);
    if j.node != "" {
      CutAt(j.node, Tail(j), '@');
    } else if '@' in j.resource {
      assert Tail(j) == j.domain + "/" + j.resource;
      assert Cut(Tail(j), '@').Two?;
    }
  }

  /** An accepted string is the full form of its parse, up to one trailing slash. */
  lemma ParsePrint(s: string)
    requires Parse(s).1.None?
    ensures var j := Parse(s).0;
            && ValidParts(j) && (j.node != "" || '@' !in j.resource)
            && (s == j.Full() || (j.resource == "" && s == j.Full() + "/"))
  {
    var j := Parse(s).0;
    FullSplit(j);
    var rest := if Cut(s, '@').Whole? then s else Cut(s, '@').after;
    var slash := Cut(rest, '/');
    assert rest == Tail(j) || (j.resource == "" && rest == Tail(j) + "/");
    if Cut(s, '@').Whole? {
      assert forall c :: c in j.resource ==> c in rest;
    } else {
      assert s == j.node + ['@'] + rest;
      assert j.node + ['@'] + (Tail(j) + "/") == (j.node + ['@'] + Tail(j)) + "/";
    }
  }

  /** Parsing the full form of a parsed JID changes nothing. */
  lemma ReparseIsIdentity(s: string)
    requires Parse(s).1.None?
    ensures Parse(Parse(s).0.Full()) == Parse(s)
  {
    ParsePrint(s);
    PrintParseIff(Parse(s).0);
  }

  // ------------------------------------------------------------------
  // What is refused, and why

  /** The refused characters by their code points: white space, and the separators and quotes. */
  lemma RefusedCharacters(c: char)
    ensures var n := c as int;
            && (IsSpace(c) <==>
                  || 9 <= n <= 13 || n == 32 || n == 133 || n == 160 || n == 5760 || 8192 <= n <= 8202
                  || n == 8232 || n == 8233 || n == 8239 || n == 8287 || n == 12288)
            && (IsInvalid(c, INVALID_IN_NODE) <==>
                  IsSpace(c) || n == 34 || n == 39 || n == 47 || n == 58 || n == 60 || n == 62 || n == 64)
            && (IsInvalid(c, INVALID_IN_DOMAIN) <==> IsSpace(c) || n == 47 || n == 64)
  {
  }

  /** What the parts of a string with a node come to. */
  lemma ParseWithNode(node: string, rest: string)
    requires '@' !in node
    ensures var s := node + "@" + rest;
            var (j, err) := Parse(s);
            && (node == "" ==> err == Some(MissingNode) && j == Jid("", "", ""))
            && (node != "" && rest == "" ==> err == Some(MissingDomain) && j == Jid(node, "", ""))
            && (node != "" && rest != "" ==> j.node == node && Judged(j, rest, err))
  {
    CutAt(node, rest, '@');
  }

  /** What a string without a node comes to. */
  lemma ParseWithoutNode(s: string)
    requires '@' !in s
    ensures var (j, err) := Parse(s);
            && (s == "" ==> err == Some(EmptyJid) && j == Jid("", "", ""))
            && (s != "" ==> j.node == "" && Judged(j, s, err))
  {
  }

  /**
   The first slash starts the resource. A refused character in the node is
   reported first, then an empty domain or one with a refused character.
   */
  ghost predicate Judged(j: Jid, rest: string, err: Option<JidError>) {
    && '/' !in j.domain
    && ((rest == j.domain && j.resource == "") || rest == j.domain + "/" + j.resource)
    && (err == Some(InvalidNode) <==> exists c :: c in j.node && IsInvalid(c, INVALID_IN_NODE))
    && (err == Some(InvalidDomain) <==>
          && (forall c :: c in j.node ==> !IsInvalid(c, INVALID_IN_NODE))
          && (j.domain == "" || exists c :: c in j.domain && IsInvalid(c, INVALID_IN_DOMAIN)))
    && (err.None? || err.value in {InvalidNode, InvalidDomain})
  }
}

/**
 The client side of SCRAM (auth.go:116-243) and of PLAIN (auth.go:80-114).
 Hash functions, base64 and character encoding are uninterpreted functions.
 */
module Scram {
  import opened Wrappers
  import opened Text
  import opened ScramText
  import opened Transports
  import Downgrade

  type Bytes = seq<bv8>

  datatype Algorithm = Sha1 | Sha256 | Sha512

  datatype Crypto = Crypto(
    size: Algorithm -> nat,
    hash: (Algorithm, Bytes) -> Bytes,
    hmac: (Algorithm, Bytes, Bytes) -> Bytes,
    pbkdf2: (Algorithm, Bytes, Bytes, int) -> Bytes,
    encode: Bytes -> string,
    decode: string -> Option<Bytes>,
    bytes: string -> Bytes,
    text: Bytes -> string)
  {
    /** What is assumed of the uninterpreted functions: lengths and inverses. */
    ghost predicate Lawful() {
      && (forall a, d :: |hash(a, d)| == size(a))
      && (forall a, k, d :: |hmac(a, k, d)| == size(a))
      && (forall b :: decode(encode(b)) == Some(b))
      && (forall b :: ',' !in encode(b))
      && (forall b :: encode(b) == "" ==> b == [])
      && (forall a :: size(a) > 0)
      && (forall s :: text(bytes(s)) == s)
    }

    function Pack(s: string): string {
      encode(bytes(s))
    }

    function Unpack(s: string): Option<string> {
      match decode(s)
      case None => None
      case Some(b) => Some(text(b))
    }
  }

  const MINIMUM_ITERATIONS := 4096
  const GS2_HEADER := "y,,"

  function AlgorithmOf(mechanism: string): Algorithm {
    if mechanism == "SCRAM-SHA-512" then Sha512
    else if mechanism == "SCRAM-SHA-256" then Sha256
    else Sha1
  }

  // ------------------------------------------------------------------
  // XOR of byte strings

  function Xor(left: Bytes, right: Bytes): Bytes {
    if |left| != |right| then []
    else seq(|left|, i requires 0 <= i < |left| => left[i] ^ right[i])
  }

  method XorBytes(left: Bytes, right: Bytes) returns (out: Bytes)
    ensures out == Xor(left, right)
  {
    if |left| != |right| {
      return [];
    }
    var a := new bv8[|left|];
    for i := 0 to |left|
      invariant forall k :: 0 <= k < i ==> a[k] == left[k] ^ right[k]
    {
      a[i] := left[i] ^ right[i];
    }
    return a[..];
  }

  lemma XorUndoes(key: Bytes, mask: Bytes)
    requires |key| == |mask|
    ensures Xor(Xor(key, mask), mask) == key
  {
  }

  // ------------------------------------------------------------------
  // The messages of the client

  function ClientFirstBare(user: string, nonce: string): string {
    "n=" + Escape(user) + ",r=" + nonce
  }

  function ClientFinalBare(c: Crypto, serverNonce: string): string {
    "c=" + c.Pack(GS2_HEADER) + ",r=" + serverNonce
  }

  function AuthMessage(clientFirstBare: string, serverFirst: string, clientFinalBare: string): string {
    clientFirstBare + "," + serverFirst + "," + clientFinalBare
  }

  function Get(fields: Fields, key: string): string {
    if key in fields then fields[key] else ""
  }

  function HasPrefix(s: string, prefix: string): bool {
    prefix <= s
  }

  datatype Terms = Terms(nonce: string, salt: Bytes, iterations: int)

  function Rejected(reason: Reason): Fail {
    ConnError(reason, true)
  }

  /** The checks on the server's first message, in the order they are made. */
  function AcceptTerms(c: Crypto, clientNonce: string, fields: Fields): Result<Terms, Fail> {
    var serverNonce := Get(fields, "r");
    if serverNonce == "" || !HasPrefix(serverNonce, clientNonce) then Err(Rejected(BadNonce))
    else if Get(fields, "m") != "" then Err(Rejected(ReservedAttribute))
    else if Get(fields, "s") == "" then Err(Rejected(SaltMissing))
    else match c.decode(Get(fields, "s"))
      case None => Err(Plain(BadBase64))
      case Some(salt) =>
        match Atoi(Get(fields, "i"))
        case None => Err(Rejected(BadIterationCount))
        case Some(n) =>
          if n < MINIMUM_ITERATIONS then Err(Rejected(WeakIterationCount))
          else Ok(Terms(serverNonce, salt, n))
  }

  /** The lists can be written down, and their string hashes to what the server sent. */
  function MatchDowngrade(c: Crypto, a: Algorithm, serverHash: string,
                          mechanisms: seq<string>, bindings: Option<seq<string>>): Option<Fail>
  {
    match Downgrade.DowngradeString(mechanisms, bindings)
    case Err(_) => Some(Rejected(InvalidName))
    case Ok(s) => if serverHash == c.encode(c.hash(a, c.bytes(s))) then None else Some(Rejected(DowngradeMismatch))
  }

  function CheckDowngrade(c: Crypto, a: Algorithm, serverHash: string,
                          mechanisms: seq<string>, bindings: Option<seq<string>>): Option<Fail>
  {
    if serverHash == "" then None else MatchDowngrade(c, a, serverHash, mechanisms, bindings)
  }

  /** What the client keeps from its final message to check the server's. */
  datatype Final = Final(message: string, authMessage: string, salted: Bytes)

  function Prove(c: Crypto, a: Algorithm, bare: string, serverFirst: string, t: Terms, secret: string): Final {
    var finalBare := ClientFinalBare(c, t.nonce);
    var authMessage := AuthMessage(bare, serverFirst, finalBare);
    var salted := c.pbkdf2(a, c.bytes(secret), t.salt, t.iterations);
    var clientKey := c.hmac(a, salted, c.bytes("Client Key"));
    var storedKey := c.hash(a, clientKey);
    var proof := Xor(clientKey, c.hmac(a, storedKey, c.bytes(authMessage)));
    Final(finalBare + ",p=" + c.encode(proof), authMessage, salted)
  }

  /** From the challenge to the client's final message. */
  function Answer(c: Crypto, mechanism: string, user: string, nonce: string, secret: string, challenge: string,
                  mechanisms: seq<string>, bindings: Option<seq<string>>): Result<Final, Fail>
  {
    match c.Unpack(challenge)
    case None => Err(Plain(BadBase64))
    case Some(serverFirst) =>
      match ParseFields(serverFirst)
      case Err(_) => Err(Rejected(BadServerMessage))
      case Ok(fields) =>
        match AcceptTerms(c, nonce, fields)
        case Err(e) => Err(e)
        case Ok(terms) =>
          match CheckDowngrade(c, AlgorithmOf(mechanism), Get(fields, "h"), mechanisms, bindings)
          case Some(e) => Err(e)
          case None =>
            Ok(Prove(c, AlgorithmOf(mechanism), ClientFirstBare(user, nonce), serverFirst, terms, secret))
  }

  function Signature(c: Crypto, a: Algorithm, f: Final): string {
    c.encode(c.hmac(a, c.hmac(a, f.salted, c.bytes("Server Key")), c.bytes(f.authMessage)))
  }

  function Unexpected(reply: Reply): Fail {
    if reply.SaslFailure? then ConnError(AuthFailure(reply.reason), true) else Plain(UnexpectedReply)
  }

  /** Whether the client accepts the outcome; a success with no value is accepted as it is. */
  function CheckOutcome(c: Crypto, a: Algorithm, f: Final, reply: Reply): Option<Fail> {
    if !reply.SaslSuccess? then Some(Unexpected(reply))
    else if reply.value == "" then None
    else match c.Unpack(reply.value)
      case None => Some(Plain(BadBase64))
      case Some(serverFinal) =>
        match ParseFields(serverFinal)
        case Err(_) => Some(Rejected(BadServerMessage))
        case Ok(fields) =>
          if Get(fields, "e") != "" then Some(Rejected(ServerError))
          else if Get(fields, "v") == "" then Some(Rejected(VerifierMissing))
          else if Get(fields, "v") != Signature(c, a, f) then Some(Rejected(VerifierMismatch))
          else None
  }

  function ReadChallenge(reply: Reply): Result<string, Fail> {
    if reply.Challenge? then Ok(reply.value) else Err(Unexpected(reply))
  }

  // ------------------------------------------------------------------
  // The exchange on a transport

  datatype Login = Login(
    crypto: Crypto,
    nonce: Option<string>,
    user: string,
    secret: string,
    accepted: seq<string>)

  function Exchange(n: Net, l: Login, mechanism: string, f: Features): (Net, Option<Fail>) {
    if l.nonce.None? then (n, Some(Plain(RandomFailed)))
    else
      var c, nonce := l.crypto, l.nonce.value;
      var n1 := n.Write(SaslAuth(mechanism, c.Pack(GS2_HEADER + ClientFirstBare(l.user, nonce))));
      if !n.Accepts() then (n1, Some(Plain(WriteFailed)))
      else
        var n2 := n1.Consume();
        match ReadChallenge(n1.Next())
        case Err(e) => (n2, Some(e))
        case Ok(challenge) =>
          match Answer(c, mechanism, l.user, nonce, l.secret, challenge, f.mechanisms, f.channelBindings)
          case Err(e) => (n2, Some(e))
          case Ok(final) =>
            var n3 := n2.Write(SaslResponse(c.Pack(final.message)));
            if !n2.Accepts() then (n3, Some(Plain(WriteFailed)))
            else (n3.Consume(), CheckOutcome(c, AlgorithmOf(mechanism), final, n3.Next()))
  }

  method VerifyDowngradeHash(c: Crypto, a: Algorithm, serverHash: string,
                             mechanisms: seq<string>, bindings: Option<seq<string>>) returns (err: Option<Fail>)
    ensures err == MatchDowngrade(c, a, serverHash, mechanisms, bindings)
  {
    var s := Downgrade.ScramDowngradeString(mechanisms, bindings);
    if s.Err? {
      return Some(Rejected(InvalidName));
    }
    if serverHash != c.encode(c.hash(a, c.bytes(s.value))) {
      return Some(Rejected(DowngradeMismatch));
    }
    return None;
  }

  method AuthScram(t: Transport, l: Login, mechanism: string, f: Features) returns (err: Option<Fail>)
    modifies t
    ensures (t.Value(), err) == Exchange(old(t.Value()), l, mechanism, f)
  {
    if l.nonce.None? {
      return Some(Plain(RandomFailed));
    }
    var c, clientNonce := l.crypto, l.nonce.value;
    var clientFirstBare := ClientFirstBare(l.user, clientNonce);
    var sent := t.Write(SaslAuth(mechanism, c.Pack(GS2_HEADER + clientFirstBare)));
    if !sent {
      return Some(Plain(WriteFailed));
    }
    var reply := t.Read();
    var challenge := ReadChallenge(reply);
    if challenge.Err? {
      return Some(challenge.error);
    }
    var final := Respond(c, mechanism, l, clientNonce, challenge.value, f);
    if final.Err? {
      return Some(final.error);
    }
    sent := t.Write(SaslResponse(c.Pack(final.value.message)));
    if !sent {
      return Some(Plain(WriteFailed));
    }
    reply := t.Read();
    return CheckOutcome(c, AlgorithmOf(mechanism), final.value, reply);
  }

  method Respond(c: Crypto, mechanism: string, l: Login, clientNonce: string, challenge: string, f: Features)
    returns (r: Result<Final, Fail>)
    ensures r == Answer(c, mechanism, l.user, clientNonce, l.secret, challenge, f.mechanisms, f.channelBindings)
  {
    var serverFirst := c.Unpack(challenge);
    if serverFirst.None? {
      return Err(Plain(BadBase64));
    }
    var parsed := ParseSCRAMFields(serverFirst.value);
    if parsed.Err? {
      return Err(Rejected(BadServerMessage));
    }
    var terms := AcceptTerms(c, clientNonce, parsed.value);
    if terms.Err? {
      return Err(terms.error);
    }
    var a := AlgorithmOf(mechanism);
    var serverHash := Get(parsed.value, "h");
    if serverHash != "" {
      var err := VerifyDowngradeHash(c, a, serverHash, f.mechanisms, f.channelBindings);
      if err.Some? {
        return Err(err.value);
      }
    }
    var clientFirstBare := ClientFirstBare(l.user, clientNonce);
    var finalBare := ClientFinalBare(c, terms.value.nonce);
    var authMessage := AuthMessage(clientFirstBare, serverFirst.value, finalBare);
    var salted := c.pbkdf2(a, c.bytes(l.secret), terms.value.salt, terms.value.iterations);
    var clientKey := c.hmac(a, salted, c.bytes("Client Key"));
    var clientSignature := c.hmac(a, c.hash(a, clientKey), c.bytes(authMessage));
    var proof := XorBytes(clientKey, clientSignature);
    return Ok(Final(finalBare + ",p=" + c.encode(proof), authMessage, salted));
  }

  // ------------------------------------------------------------------
  // PLAIN, and the choice of a mechanism

  function PlainExchange(n: Net, l: Login, mechanism: string): (Net, Option<Fail>) {
    var n1 := n.Write(SaslAuth(mechanism, l.crypto.Pack([0 as char] + l.user + [0 as char] + l.secret)));
    if !n.Accepts() then (n1, Some(Plain(WriteFailed)))
    else (n1.Consume(), if n1.Next().SaslSuccess? then None else Some(Unexpected(n1.Next())))
  }

  method AuthPlain(t: Transport, l: Login, mechanism: string) returns (err: Option<Fail>)
    modifies t
    ensures (t.Value(), err) == PlainExchange(old(t.Value()), l, mechanism)
  {
    var sent := t.Write(SaslAuth(mechanism, l.crypto.Pack([0 as char] + l.user + [0 as char] + l.secret)));
    if !sent {
      return Some(Plain(WriteFailed));
    }
    var reply := t.Read();
    if reply.SaslSuccess? {
      return None;
    }
    return Some(Unexpected(reply));
  }

  /** The client's first mechanism that the server offers. */
  function Choose(accepted: seq<string>, offered: seq<string>): (r: Option<string>)
    ensures r.None? <==> forall m :: m in accepted ==> m !in offered
    ensures r.Some? ==> r.value in offered
    ensures r.Some? ==>
      exists k :: 0 <= k < |accepted| && accepted[k] == r.value && forall m :: m in accepted[..k] ==> m !in offered
  {
    if accepted == [] then None
    else if accepted[0] in offered then
      assert accepted[..0] == [];
      Some(accepted[0])
    else
      var later := Choose(accepted[1..], offered);
      assert later.Some? ==>
        exists k :: 0 <= k < |accepted| && accepted[k] == later.value
          && forall m :: m in accepted[..k] ==> m !in offered
      by {
        if later.Some? {
          var k :| 0 <= k < |accepted| - 1 && accepted[1..][k] == later.value
                && forall m :: m in accepted[1..][..k] ==> m !in offered;
          assert accepted[..k + 1] == [accepted[0]] + accepted[1..][..k];
          assert accepted[k + 1] == later.value;
        }
      }
      later
  }

  function Authenticate(n: Net, l: Login, f: Features): (Net, Option<Fail>) {
    match Choose(l.accepted, f.mechanisms)
    case None => (n, Some(ConnError(NoMatchingMechanism, true)))
    case Some(mechanism) =>
      if mechanism in ["SCRAM-SHA-512", "SCRAM-SHA-256", "SCRAM-SHA-1"] then Exchange(n, l, mechanism, f)
      else if mechanism in ["PLAIN", "X-OAUTH2"] then PlainExchange(n, l, mechanism)
      else (n, Some(ConnError(NoMatchingMechanism, true)))
  }

  method AuthSASL(t: Transport, l: Login, f: Features) returns (err: Option<Fail>)
    modifies t
    ensures (t.Value(), err) == Authenticate(old(t.Value()), l, f)
  {
    var matchingMech := "";
    var found := false;
    for i := 0 to |l.accepted|
      invariant !found && Choose(l.accepted[i..], f.mechanisms) == Choose(l.accepted, f.mechanisms)
    {
      assert l.accepted[i..][1..] == l.accepted[i + 1..];
      if l.accepted[i] in f.mechanisms {
        matchingMech, found := l.accepted[i], true;
        break;
      }
    }
    match matchingMech {
      case "SCRAM-SHA-512" => err := AuthScram(t, l, matchingMech, f);
      case "SCRAM-SHA-256" => err := AuthScram(t, l, matchingMech, f);
      case "SCRAM-SHA-1" => err := AuthScram(t, l, matchingMech, f);
      case "PLAIN" => err := AuthPlain(t, l, matchingMech);
      case "X-OAUTH2" => err := AuthPlain(t, l, matchingMech);
      case _ => err := Some(ConnError(NoMatchingMechanism, true));
    }
  }
}

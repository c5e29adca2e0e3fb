/**
 Two-party results about SCRAM: the client of auth.go against a server that
 follows section 3 of RFC 5802 and sees nothing but the messages.
 */
module ScramAgreement {
  import opened Wrappers
  import opened Text
  import opened ScramText
  import opened Transports
  import opened Scram
  import Downgrade

  /** The name a mechanism goes by, in the registry of RFC 5802 and its successors. */
  function NameOf(a: Algorithm): string {
    "SCRAM-SHA-" + match a case Sha1 => "1" case Sha256 => "256" case Sha512 => "512"
  }

  /** The client uses the hash function that the mechanism is named after. */
  lemma AlgorithmNamed(a: Algorithm)
    ensures AlgorithmOf(NameOf(a)) == a
  {
    assert NameOf(Sha1) == "SCRAM-SHA-1" && NameOf(Sha256) == "SCRAM-SHA-256" && NameOf(Sha512) == "SCRAM-SHA-512";
    assert NameOf(Sha1)[10] == '1' && "SCRAM-SHA-256"[10] == '2' && "SCRAM-SHA-512"[10] == '5';
  }

  // ------------------------------------------------------------------
  // The server

  datatype Account = Account(salt: Bytes, iterations: int, storedKey: Bytes, serverKey: Bytes)

  function Register(c: Crypto, a: Algorithm, secret: string, salt: Bytes, iterations: int): Account {
    var salted := c.pbkdf2(a, c.bytes(secret), salt, iterations);
    Account(salt, iterations,
            c.hash(a, c.hmac(a, salted, c.bytes("Client Key"))),
            c.hmac(a, salted, c.bytes("Server Key")))
  }

  datatype Greeting = Greeting(user: string, nonce: string, bare: string)

  /** The server reads the client's first message. */
  function ReadFirst(c: Crypto, value: string): Option<Greeting> {
    match c.Unpack(value)
    case None => None
    case Some(message) =>
      if !(GS2_HEADER <= message) then None
      else
        var bare := message[|GS2_HEADER|..];
        match ParseFields(bare)
        case Err(_) => None
        case Ok(fields) =>
          if "n" !in fields || "r" !in fields || Unescape(fields["n"]).None? then None
          else Some(Greeting(Unescape(fields["n"]).value, fields["r"], bare))
  }

  function FirstFields(c: Crypto, account: Account, nonce: string, downgradeHash: Option<string>): seq<Field> {
    [Field("r", nonce), Field("s", c.encode(account.salt)), Field("i", Itoa(account.iterations))] +
    if downgradeHash.None? then [] else [Field("h", downgradeHash.value)]
  }

  function ServerFirst(c: Crypto, account: Account, nonce: string, downgradeHash: Option<string>): string {
    Message(FirstFields(c, account, nonce, downgradeHash))
  }

  datatype Verdict = Verdict(authMessage: string, clientKey: Bytes, serverFinal: string)

  /** The server reads the client's final message; `None` refuses the client. */
  function ReadFinal(c: Crypto, a: Algorithm, account: Account, bare: string, serverFirst: string,
                     nonce: string, value: string): Option<Verdict>
  {
    match c.Unpack(value)
    case None => None
    case Some(message) =>
      var parts := Split(message, ',');
      var last := parts[|parts| - 1];
      var rest := Join(parts[..|parts| - 1], ',');
      if !("p=" <= last) then None
      else match (c.decode(last[2..]), ParseFields(rest))
        case (Some(proof), Ok(fields)) =>
          var authMessage := bare + "," + serverFirst + "," + rest;
          var clientKey := Xor(proof, c.hmac(a, account.storedKey, c.bytes(authMessage)));
          if Get(fields, "c") != c.Pack(GS2_HEADER) || Get(fields, "r") != nonce then None
          else if c.hash(a, clientKey) != account.storedKey then None
          else Some(Verdict(authMessage, clientKey,
                            Message([Field("v", c.encode(c.hmac(a, account.serverKey, c.bytes(authMessage))))])))
        case _ => None
  }

  // ------------------------------------------------------------------
  // Each message is understood by its reader

  /** Parsing the client's first message gives back the escaped user and the nonce. */
  lemma ClientFirstParses(user: string, nonce: string)
    requires ',' !in nonce
    ensures ParseFields(ClientFirstBare(user, nonce)) == Ok(map["n" := Escape(user), "r" := nonce])
  {
    var f, g := Field("n", Escape(user)), Field("r", nonce);
    EscapeLacksComma(user);
    TwoFields(f, g);
    assert Print(f) == "n=" + Escape(user) && Print(g) == "r=" + nonce;
    assert ClientFirstBare(user, nonce) == Print(f) + "," + Print(g);
    ParseMessage([f, g]);
  }

  /**
   The first message says that the client could bind to the channel but believes
   that the server cannot, and gives no other identity; then user and nonce.
   */
  lemma FirstMessageParts(n: Net, l: Login, mechanism: string, f: Features)
    requires l.crypto.Lawful() && l.nonce.Some? && ',' !in l.nonce.value && n.Accepts()
    ensures var log := Exchange(n, l, mechanism, f).0.log;
            && |log| > |n.log| && log[|n.log|].frame.SaslAuth? && log[|n.log|].frame.mechanism == mechanism
            && var text := l.crypto.Unpack(log[|n.log|].frame.value);
            && text.Some?
            && Split(text.value, ',') == ["y", "", "n=" + Escape(l.user), "r=" + l.nonce.value]
  {
    hide Answer, CheckOutcome, Split, ClientFirstBare, Crypto.Lawful, Crypto.Pack, Crypto.Unpack;
    PackUnpack(l.crypto, GS2_HEADER + ClientFirstBare(l.user, l.nonce.value));
    FirstTextParts(l.user, l.nonce.value);
  }

  lemma FirstTextParts(user: string, nonce: string)
    requires ',' !in nonce
    ensures Split(GS2_HEADER + ClientFirstBare(user, nonce), ',') == ["y", "", "n=" + Escape(user), "r=" + nonce]
  {
    var n, r := "n=" + Escape(user), "r=" + nonce;
    EscapeLacksComma(user);
    hide Split;
    assert GS2_HEADER + ClientFirstBare(user, nonce) == "y" + [','] + ("" + [','] + (n + [','] + r));
    SplitAppend("y", "" + [','] + (n + [','] + r), ',');
    SplitAppend("", n + [','] + r, ',');
    SplitAppend(n, r, ',');
    SplitOne(r, ',');
  }

  lemma ServerReadsFirst(c: Crypto, user: string, nonce: string)
    requires c.Lawful() && ',' !in nonce
    ensures ReadFirst(c, c.Pack(GS2_HEADER + ClientFirstBare(user, nonce)))
         == Some(Greeting(user, nonce, ClientFirstBare(user, nonce)))
  {
    var bare := ClientFirstBare(user, nonce);
    PackUnpack(c, GS2_HEADER + bare);
    assert (GS2_HEADER + bare)[|GS2_HEADER|..] == bare;
    ClientFirstParses(user, nonce);
    UnescapeEscape(user);
  }

  lemma PackUnpack(c: Crypto, s: string)
    requires c.Lawful()
    ensures c.Unpack(c.Pack(s)) == Some(s)
  {
    assert c.decode(c.encode(c.bytes(s))) == Some(c.bytes(s));
  }

  ghost predicate GoodAccount(account: Account) {
    account.salt != [] && MINIMUM_ITERATIONS <= account.iterations <= INT_MAX
  }

  lemma ServerFirstParses(c: Crypto, account: Account, nonce: string, dh: Option<string>)
    requires c.Lawful() && ',' !in nonce && (dh.Some? ==> ',' !in dh.value)
    ensures ParseFields(ServerFirst(c, account, nonce, dh)) == Ok(ToMap(FirstFields(c, account, nonce, dh)))
    ensures Distinct(FirstFields(c, account, nonce, dh))
  {
    ItoaLacks(account.iterations, ',');
    ParseMessage(FirstFields(c, account, nonce, dh));
  }

  lemma FirstLookup(c: Crypto, account: Account, nonce: string, dh: Option<string>)
    requires Distinct(FirstFields(c, account, nonce, dh))
    ensures var m := ToMap(FirstFields(c, account, nonce, dh));
            && Get(m, "r") == nonce && Get(m, "s") == c.encode(account.salt) && Get(m, "i") == Itoa(account.iterations)
            && Get(m, "m") == "" && Get(m, "h") == (if dh.None? then "" else dh.value)
  {
    var fs := FirstFields(c, account, nonce, dh);
    assert fs[0] == Field("r", nonce) && fs[1] == Field("s", c.encode(account.salt));
    assert fs[2] == Field("i", Itoa(account.iterations));
    MapLookup(fs, "r", nonce);
    MapLookup(fs, "s", c.encode(account.salt));
    MapLookup(fs, "i", Itoa(account.iterations));
    KeysOfMap(fs, "m");
    KeysOfMap(fs, "h");
    if dh.Some? {
      assert fs[3] == Field("h", dh.value);
      MapLookup(fs, "h", dh.value);
    }
  }

  /** The client accepts the terms of any such server, and takes them over exactly. */
  lemma ClientAcceptsTerms(c: Crypto, account: Account, nonce: string, ext: string, dh: Option<string>)
    requires c.Lawful() && nonce != "" && ',' !in nonce && ',' !in ext && (dh.Some? ==> ',' !in dh.value)
    requires GoodAccount(account)
    ensures var fields := ToMap(FirstFields(c, account, nonce + ext, dh));
            AcceptTerms(c, nonce, fields) == Ok(Terms(nonce + ext, account.salt, account.iterations))
  {
    ServerFirstParses(c, account, nonce + ext, dh);
    FirstLookup(c, account, nonce + ext, dh);
    assert c.decode(c.encode(account.salt)) == Some(account.salt);
    AtoiItoa(account.iterations);
  }

  // ------------------------------------------------------------------
  // Downgrade protection

  function DowngradeHash(c: Crypto, a: Algorithm, s: string): string {
    c.encode(c.hash(a, c.bytes(s)))
  }

  lemma EncodeInjective(c: Crypto, x: Bytes, y: Bytes)
    requires c.Lawful() && c.encode(x) == c.encode(y)
    ensures x == y
  {
    assert c.decode(c.encode(x)) == Some(x) && c.decode(c.encode(y)) == Some(y);
  }

  /**
   A server that hashes the lists it really offers (`m2`, `b2`) is believed by
   a client that was shown `m1` and `b1` exactly when these are the same lists
   up to order, unless the hash collides on the two strings.
   */
  lemma DowngradeDetected(c: Crypto, a: Algorithm, m1: seq<string>, b1: Option<seq<string>>,
                          m2: seq<string>, b2: Option<seq<string>>)
    requires c.Lawful()
    requires Downgrade.DowngradeString(m1, b1).Ok? && Downgrade.DowngradeString(m2, b2).Ok?
    requires var s1, s2 := Downgrade.DowngradeString(m1, b1).value, Downgrade.DowngradeString(m2, b2).value;
             c.hash(a, c.bytes(s1)) == c.hash(a, c.bytes(s2)) ==> s1 == s2
    ensures CheckDowngrade(c, a, DowngradeHash(c, a, Downgrade.DowngradeString(m2, b2).value), m1, b1).None?
       <==> Downgrade.SameLists(m1, b1, m2, b2)
  {
    var s1, s2 := Downgrade.DowngradeString(m1, b1).value, Downgrade.DowngradeString(m2, b2).value;
    Downgrade.DowngradeStringCanonical(m1, b1, m2, b2);
    HashTextNotEmpty(c, a, s2);
    if DowngradeHash(c, a, s1) == DowngradeHash(c, a, s2) {
      EncodeInjective(c, c.hash(a, c.bytes(s1)), c.hash(a, c.bytes(s2)));
    }
  }

  lemma HashTextNotEmpty(c: Crypto, a: Algorithm, s: string)
    requires c.Lawful()
    ensures DowngradeHash(c, a, s) != "" && ',' !in DowngradeHash(c, a, s)
  {
    assert |c.hash(a, c.bytes(s))| == c.size(a) > 0;
  }

  // ------------------------------------------------------------------
  // Agreement

  /** The honest server's `h` attribute, if it sends one. */
  ghost predicate HonestHash(c: Crypto, a: Algorithm, f: Features, dh: Option<string>) {
    dh.Some? ==>
      var s := Downgrade.DowngradeString(f.mechanisms, f.channelBindings);
      s.Ok? && dh.value == DowngradeHash(c, a, s.value)
  }

  lemma ClientAnswers(c: Crypto, mechanism: string, user: string, nonce: string, secret: string, account: Account,
                      ext: string, f: Features, dh: Option<string>)
    requires c.Lawful() && nonce != "" && ',' !in nonce && ',' !in ext
    requires GoodAccount(account) && HonestHash(c, AlgorithmOf(mechanism), f, dh)
    ensures var serverFirst := ServerFirst(c, account, nonce + ext, dh);
            var final := Prove(c, AlgorithmOf(mechanism), ClientFirstBare(user, nonce), serverFirst,
                               Terms(nonce + ext, account.salt, account.iterations), secret);
            Answer(c, mechanism, user, nonce, secret, c.Pack(serverFirst), f.mechanisms, f.channelBindings) == Ok(final)
  {
    var a := AlgorithmOf(mechanism);
    if dh.Some? {
      HashTextNotEmpty(c, a, Downgrade.DowngradeString(f.mechanisms, f.channelBindings).value);
    }
    PackUnpack(c, ServerFirst(c, account, nonce + ext, dh));
    ServerFirstParses(c, account, nonce + ext, dh);
    FirstLookup(c, account, nonce + ext, dh);
    ClientAcceptsTerms(c, account, nonce, ext, dh);
  }

  /** The server splits the final message back into its bare part and the proof. */
  lemma FinalSplits(c: Crypto, nonce: string, proof: Bytes)
    requires c.Lawful() && ',' !in nonce
    ensures Split(ClientFinalBare(c, nonce) + ",p=" + c.encode(proof), ',')
         == ["c=" + c.Pack(GS2_HEADER), "r=" + nonce, "p=" + c.encode(proof)]
  {
    var cPart, rPart, pPart := "c=" + c.Pack(GS2_HEADER), "r=" + nonce, "p=" + c.encode(proof);
    assert ClientFinalBare(c, nonce) + ",p=" + c.encode(proof) == cPart + [','] + (rPart + [','] + pPart);
    SplitAppend(cPart, rPart + [','] + pPart, ',');
    SplitAppend(rPart, pPart, ',');
    SplitOne(pPart, ',');
  }

  lemma FinalBareParses(c: Crypto, nonce: string)
    requires c.Lawful() && ',' !in nonce
    ensures ClientFinalBare(c, nonce) == Join(["c=" + c.Pack(GS2_HEADER), "r=" + nonce], ',')
    ensures ParseFields(ClientFinalBare(c, nonce)) == Ok(map["c" := c.Pack(GS2_HEADER), "r" := nonce])
  {
    var f, g := Field("c", c.Pack(GS2_HEADER)), Field("r", nonce);
    TwoFields(f, g);
    assert Print(f) == "c=" + c.Pack(GS2_HEADER) && Print(g) == "r=" + nonce;
    assert ClientFinalBare(c, nonce) == Print(f) + "," + Print(g);
    assert PrintAll([f, g]) == [Print(f), Print(g)];
    ParseMessage([f, g]);
  }

  /** The server takes the final message apart into its parts. */
  lemma ServerReadsFinal(c: Crypto, nonce: string, proof: Bytes)
    requires c.Lawful() && ',' !in nonce
    ensures var parts := Split(ClientFinalBare(c, nonce) + ",p=" + c.encode(proof), ',');
            var last := parts[|parts| - 1];
            && "p=" <= last && c.decode(last[2..]) == Some(proof)
            && Join(parts[..|parts| - 1], ',') == ClientFinalBare(c, nonce)
  {
    FinalSplits(c, nonce, proof);
    FinalBareParses(c, nonce);
    var parts := ["c=" + c.Pack(GS2_HEADER), "r=" + nonce, "p=" + c.encode(proof)];
    assert parts[..2] == ["c=" + c.Pack(GS2_HEADER), "r=" + nonce];
    assert parts[2][2..] == c.encode(proof);
    assert c.decode(c.encode(proof)) == Some(proof);
  }

  lemma ServerAccepts(c: Crypto, a: Algorithm, secret: string, salt: Bytes, iterations: int,
                      bare: string, serverFirst: string, nonce: string)
    requires c.Lawful() && ',' !in nonce
    ensures var account := Register(c, a, secret, salt, iterations);
            var final := Prove(c, a, bare, serverFirst, Terms(nonce, salt, iterations), secret);
            var verdict := Verdict(final.authMessage, c.hmac(a, final.salted, c.bytes("Client Key")),
                                   Message([Field("v", Signature(c, a, final))]));
            ReadFinal(c, a, account, bare, serverFirst, nonce, c.Pack(final.message)) == Some(verdict)
  {
    hide Crypto.Lawful, Split, Join, ParseFields, ClientFinalBare, Message;
    var account := Register(c, a, secret, salt, iterations);
    var final := Prove(c, a, bare, serverFirst, Terms(nonce, salt, iterations), secret);
    var key := c.hmac(a, final.salted, c.bytes("Client Key"));
    var mask := c.hmac(a, account.storedKey, c.bytes(final.authMessage));
    var proof := Xor(key, mask);
    PackUnpack(c, final.message);
    ServerReadsFinal(c, nonce, proof);
    FinalBareParses(c, nonce);
    MacsFit(c, a, final.salted, account.storedKey, c.bytes("Client Key"), c.bytes(final.authMessage));
    XorUndoes(key, mask);
  }

  lemma MacsFit(c: Crypto, a: Algorithm, k1: Bytes, k2: Bytes, d1: Bytes, d2: Bytes)
    requires c.Lawful()
    ensures |c.hmac(a, k1, d1)| == |c.hmac(a, k2, d2)|
  {
  }

  lemma SignatureNotEmpty(c: Crypto, a: Algorithm, f: Final)
    requires c.Lawful()
    ensures Signature(c, a, f) != "" && ',' !in Signature(c, a, f)
  {
    assert |c.hmac(a, c.hmac(a, f.salted, c.bytes("Server Key")), c.bytes(f.authMessage))| > 0;
  }

  lemma ClientAcceptsVerifier(c: Crypto, a: Algorithm, f: Final)
    requires c.Lawful()
    ensures CheckOutcome(c, a, f, SaslSuccess(c.Pack(Message([Field("v", Signature(c, a, f))])))).None?
  {
    var v := Field("v", Signature(c, a, f));
    var text := Message([v]);
    PackUnpack(c, text);
    SignatureNotEmpty(c, a, f);
    ParseMessage([v]);
    assert [v][..0] == [];
  }

  /** What the server answers to the client's final message. */
  function ServerReply(c: Crypto, a: Algorithm, account: Account, bare: string, serverFirst: string,
                       nonce: string, value: string): Reply
  {
    match ReadFinal(c, a, account, bare, serverFirst, nonce, value)
    case None => SaslFailure("not-authorized")
    case Some(verdict) => SaslSuccess(c.Pack(verdict.serverFinal))
  }

  /** The `h` attribute of a server that offers the mechanisms and bindings it announced. */
  function OwnHash(c: Crypto, a: Algorithm, f: Features, hashed: bool): Option<string>
    requires hashed ==> Downgrade.DowngradeString(f.mechanisms, f.channelBindings).Ok?
  {
    if hashed then Some(DowngradeHash(c, a, Downgrade.DowngradeString(f.mechanisms, f.channelBindings).value)) else None
  }

  /**
   For every user name, secret, nonce extension, salt and iteration count in
   range, with or without a downgrade hash, the server reads the user and the
   nonce from the client's first message, and from the second one rebuilds the
   client's AuthMessage, recovers ClientKey and accepts; when it then replies,
   the client accepts it.
   */
  lemma Agreement(n: Net, l: Login, mechanism: string, f: Features, salt: Bytes, iterations: int,
                  ext: string, hashed: bool, reply: Reply, later: seq<Reply>)
    requires l.crypto.Lawful() && l.nonce.Some? && l.nonce.value != "" && ',' !in l.nonce.value && ',' !in ext
    requires salt != [] && MINIMUM_ITERATIONS <= iterations <= INT_MAX
    requires hashed ==> Downgrade.DowngradeString(f.mechanisms, f.channelBindings).Ok?
    requires !n.fault(n.attempts) && !n.fault(n.attempts + 1)
    ensures
      var c, a, nonce := l.crypto, AlgorithmOf(mechanism), l.nonce.value;
      var account := Register(c, a, l.secret, salt, iterations);
      var serverFirst := ServerFirst(c, account, nonce + ext, OwnHash(c, a, f, hashed));
      var n0 := n.(replies := [Challenge(c.Pack(serverFirst)), reply] + later);
      var (n', err) := Exchange(n0, l, mechanism, f);
      exists first: string, second: string ::
        && n'.log == n.log + [Entry(SaslAuth(mechanism, first), n.link), Entry(SaslResponse(second), n.link)]
        && n'.replies == later
        && var greeting := ReadFirst(c, first);
           && greeting.Some? && greeting.value.user == l.user && greeting.value.nonce == nonce
           && ReadFinal(c, a, account, greeting.value.bare, serverFirst, nonce + ext, second).Some?
           && (reply == ServerReply(c, a, account, greeting.value.bare, serverFirst, nonce + ext, second)
               ==> err == None)
  {
    hide Crypto.Lawful, Answer, Prove, ReadFinal, ReadFirst, CheckOutcome, ServerFirst, ClientFirstBare;
    hide Signature, Message;
    var c, a, nonce := l.crypto, AlgorithmOf(mechanism), l.nonce.value;
    var account, dh := Register(c, a, l.secret, salt, iterations), OwnHash(c, a, f, hashed);
    var serverFirst := ServerFirst(c, account, nonce + ext, dh);
    var bare := ClientFirstBare(l.user, nonce);
    var final := Prove(c, a, bare, serverFirst, Terms(nonce + ext, salt, iterations), l.secret);
    ServerReadsFirst(c, l.user, nonce);
    ClientAnswers(c, mechanism, l.user, nonce, l.secret, account, ext, f, dh);
    ServerAccepts(c, a, l.secret, salt, iterations, bare, serverFirst, nonce + ext);
    ClientAcceptsVerifier(c, a, final);
    hide Register, OwnHash, HonestHash;
    var n0 := n.(replies := [Challenge(c.Pack(serverFirst)), reply] + later);
    var (n', err) := Exchange(n0, l, mechanism, f);
    var first, second := c.Pack(GS2_HEADER + bare), c.Pack(final.message);
    assert n'.log == n.log + [Entry(SaslAuth(mechanism, first), n.link), Entry(SaslResponse(second), n.link)];
    assert n'.replies == later;
  }

  /**
   What acceptance means: an empty success value, or a message that carries
   the server's signature as its only `v` and no error.
   */
  lemma AcceptanceMeans(c: Crypto, a: Algorithm, f: Final, value: string)
    requires c.Lawful() && value != ""
    ensures CheckOutcome(c, a, f, SaslSuccess("")).None?
    ensures CheckOutcome(c, a, f, SaslSuccess(value)).None? <==>
            exists fs: seq<Field> ::
              && c.Unpack(value) == Some(Message(fs))
              && ParseFields(Message(fs)) == Ok(ToMap(fs)) && Distinct(fs)
              && Field("v", Signature(c, a, f)) in fs
              && (forall e: string :: e != "" ==> Field("e", e) !in fs)
  {
    SignatureNotEmpty(c, a, f);
    hide Crypto.Lawful, Signature, ParseFields, Message, ToMap;
    if CheckOutcome(c, a, f, SaslSuccess(value)).None? {
      var text := c.Unpack(value).value;
      ParseFieldsIff(text);
      var fs := FieldsOf(Split(text, ','));
      assert Message(fs) == text;
      MapLookup(fs, "v", Signature(c, a, f));
      forall e: string | e != ""
        ensures Field("e", e) !in fs
      {
        MapLookup(fs, "e", e);
      }
    }
    forall fs: seq<Field> |
      && c.Unpack(value) == Some(Message(fs))
      && ParseFields(Message(fs)) == Ok(ToMap(fs)) && Distinct(fs)
      && Field("v", Signature(c, a, f)) in fs
      && (forall e: string :: e != "" ==> Field("e", e) !in fs)
      ensures CheckOutcome(c, a, f, SaslSuccess(value)).None?
    {
      MapLookup(fs, "v", Signature(c, a, f));
      if "e" in ToMap(fs) {
        MapLookup(fs, "e", ToMap(fs)["e"]);
      }
    }
  }
}

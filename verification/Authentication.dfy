/**
 What an authentication tells about the script it ran on (auth.go:46-243):
 what a success has read, to whom the proof is sent, and which errors are
 permanent.
 */
module Authentication {
  import opened Wrappers
  import opened Text
  import opened ScramText
  import opened Transports
  import opened Scram

  // ------------------------------------------------------------------
  // A success was granted by the server

  /** The replies read, the last of which grants the login. */
  predicate Granted(before: Net, after: Net) {
    var k := |before.replies| - |after.replies|;
    k >= 1 && before.replies[k - 1].SaslSuccess? && after.replies == before.replies[k..]
  }

  lemma ExchangeGranted(n: Net, l: Login, mechanism: string, f: Features)
    ensures var (n', e) := Exchange(n, l, mechanism, f);
            e.None? ==>
            && |n.replies| >= 2 && n.replies[0].Challenge? && n.replies[1].SaslSuccess?
            && n'.replies == n.replies[2..] && |n'.log| == |n.log| + 2
  {
    hide Answer, ClientFirstBare, AlgorithmOf, Signature, ParseFields;
  }

  lemma PlainGranted(n: Net, l: Login, mechanism: string)
    ensures var (n', e) := PlainExchange(n, l, mechanism);
            && (e.None? <==> n.Accepts() && |n.replies| >= 1 && n.replies[0].SaslSuccess?)
            && (e.None? ==> n'.replies == n.replies[1..] && |n'.log| == |n.log| + 1)
  {
  }

  /** Every authentication that ends without an error has read a success as its last reply. */
  lemma AuthenticateGranted(n: Net, l: Login, f: Features)
    ensures var (n', e) := Authenticate(n, l, f);
            e.None? ==> Granted(n, n') && |n'.log| > |n.log|
  {
    hide Exchange, PlainExchange;
    var choice := Choose(l.accepted, f.mechanisms);
    if choice.Some? {
      ExchangeGranted(n, l, choice.value, f);
      PlainGranted(n, l, choice.value);
    }
  }

  // ------------------------------------------------------------------
  // To whom the proof is sent

  /** The checks on the server's first message, in terms of its attributes. */
  lemma TermsIff(c: Crypto, nonce: string, fields: Fields)
    ensures AcceptTerms(c, nonce, fields).Ok? <==>
            && "r" in fields && fields["r"] != "" && nonce <= fields["r"]
            && ("m" in fields ==> fields["m"] == "")
            && "s" in fields && fields["s"] != "" && c.decode(fields["s"]).Some?
            && "i" in fields && Atoi(fields["i"]).Some? && Atoi(fields["i"]).value >= 4096
    ensures AcceptTerms(c, nonce, fields).Ok? ==>
              AcceptTerms(c, nonce, fields).value
              == Terms(fields["r"], c.decode(fields["s"]).value, Atoi(fields["i"]).value)
  {
    AtoiEmpty();
    hide Atoi;
  }

  lemma AtoiEmpty()
    ensures Atoi("").None?
  {
  }

  /**
   The server's message carries a nonce that extends the client's, at least
   4096 iterations, a salt, and no reserved attribute.
   */
  ghost predicate FairTerms(c: Crypto, nonce: string, fs: seq<Field>) {
    && Distinct(fs)
    && (exists r: string :: Field("r", r) in fs && r != "" && nonce <= r)
    && (exists i: string :: Field("i", i) in fs && Atoi(i).Some? && Atoi(i).value >= 4096)
    && (exists s: string :: Field("s", s) in fs && s != "" && c.decode(s).Some?)
    && (forall m: string :: m != "" ==> Field("m", m) !in fs)
  }

  lemma FieldsFair(c: Crypto, nonce: string, fs: seq<Field>)
    requires Distinct(fs)
    ensures FairTerms(c, nonce, fs) <==> AcceptTerms(c, nonce, ToMap(fs)).Ok?
  {
    var fields := ToMap(fs);
    TermsIff(c, nonce, fields);
    hide AcceptTerms, ToMap, Atoi;
    if FairTerms(c, nonce, fs) {
      var r :| Field("r", r) in fs && r != "" && nonce <= r;
      var i :| Field("i", i) in fs && Atoi(i).Some? && Atoi(i).value >= 4096;
      var s :| Field("s", s) in fs && s != "" && c.decode(s).Some?;
      MapLookup(fs, "r", r);
      MapLookup(fs, "i", i);
      MapLookup(fs, "s", s);
      if "m" in fields {
        MapLookup(fs, "m", fields["m"]);
      }
    }
    if AcceptTerms(c, nonce, fields).Ok? {
      MapLookup(fs, "r", fields["r"]);
      MapLookup(fs, "i", fields["i"]);
      MapLookup(fs, "s", fields["s"]);
      forall m: string | m != ""
        ensures Field("m", m) !in fs
      {
        MapLookup(fs, "m", m);
      }
    }
  }

  /**
   The proof goes out only to a server whose message has fair terms and, if it
   has a downgrade hash, one that matches the lists it announced.
   */
  lemma ProofOnlyForFairTerms(n: Net, l: Login, mechanism: string, f: Features)
    ensures var n' := Exchange(n, l, mechanism, f).0;
            |n'.log| > |n.log| + 1 ==>
            && l.nonce.Some? && |n.replies| >= 1 && n.replies[0].Challenge?
            && l.crypto.Unpack(n.replies[0].value).Some?
            && exists fs: seq<Field> ::
                 && l.crypto.Unpack(n.replies[0].value) == Some(Message(fs))
                 && FairTerms(l.crypto, l.nonce.value, fs)
                 && forall h: string :: h != "" && Field("h", h) in fs ==>
                      MatchDowngrade(l.crypto, AlgorithmOf(mechanism), h, f.mechanisms, f.channelBindings).None?
  {
    var n' := Exchange(n, l, mechanism, f).0;
    if |n'.log| > |n.log| + 1 {
      var text := l.crypto.Unpack(n.replies[0].value);
      AnswerMeans(l.crypto, mechanism, l.user, l.nonce.value, l.secret, n.replies[0].value, f);
    }
  }

  lemma AnswerMeans(c: Crypto, mechanism: string, user: string, nonce: string, secret: string, challenge: string,
                    f: Features)
    requires Answer(c, mechanism, user, nonce, secret, challenge, f.mechanisms, f.channelBindings).Ok?
    ensures c.Unpack(challenge).Some?
    ensures exists fs: seq<Field> ::
              && c.Unpack(challenge) == Some(Message(fs))
              && FairTerms(c, nonce, fs)
              && forall h: string :: h != "" && Field("h", h) in fs ==>
                   MatchDowngrade(c, AlgorithmOf(mechanism), h, f.mechanisms, f.channelBindings).None?
  {
    hide AcceptTerms, MatchDowngrade, ParseFields, Message, ToMap, FairTerms, AlgorithmOf, Prove, ClientFirstBare;
    var text := c.Unpack(challenge).value;
    ParseFieldsIff(text);
    var fs := FieldsOf(Split(text, ','));
    FieldsFair(c, nonce, fs);
    forall h: string | h != "" && Field("h", h) in fs
      ensures MatchDowngrade(c, AlgorithmOf(mechanism), h, f.mechanisms, f.channelBindings).None?
    {
      MapLookup(fs, "h", h);
    }
    assert Message(fs) == text;
  }

  // ------------------------------------------------------------------
  // PLAIN

  /** What a server of RFC 4616 reads from the message: identity, user and secret between NULs. */
  function ReadPlain(c: Crypto, value: string): Option<(string, string)> {
    match c.Unpack(value)
    case None => None
    case Some(text) =>
      match Cut(text, 0 as char)
      case Whole => None
      case Two(identity, rest) =>
        match Cut(rest, 0 as char)
        case Whole => None
        case Two(user, secret) => if identity == "" then Some((user, secret)) else None
  }

  /** The server gets the user and the secret, each in its place, whatever the secret is. */
  lemma PlainAgreement(n: Net, l: Login, mechanism: string)
    requires l.crypto.Lawful() && (0 as char) !in l.user && n.Accepts()
    ensures var log := PlainExchange(n, l, mechanism).0.log;
            && |log| == |n.log| + 1 && log[|n.log|].frame.SaslAuth?
            && log[|n.log|].frame.mechanism == mechanism
            && ReadPlain(l.crypto, log[|n.log|].frame.value) == Some((l.user, l.secret))
  {
    var c, nul := l.crypto, [0 as char];
    var rest := l.user + nul + l.secret;
    var text := nul + l.user + nul + l.secret;
    assert text == "" + nul + rest;
    assert c.decode(c.encode(c.bytes(text))) == Some(c.bytes(text));
    CutAt("", rest, 0 as char);
    CutAt(l.user, l.secret, 0 as char);
  }

  // ------------------------------------------------------------------
  // Which errors are permanent

  /** The reasons for which trying again later may help. */
  predicate Transient(r: Reason) {
    r in {RandomFailed, WriteFailed, BadBase64, UnexpectedReply}
  }

  predicate IsPermanent(e: Fail) {
    e.ConnError? && e.isPermanent
  }

  lemma TermsErrors(c: Crypto, nonce: string, fields: Fields)
    ensures var r := AcceptTerms(c, nonce, fields);
            r.Err? ==> (IsPermanent(r.error) <==> !Transient(r.error.reason)) && !r.error.reason.AuthFailure?
  {
    hide Atoi;
  }

  lemma DowngradeErrors(c: Crypto, a: Algorithm, h: string, f: Features)
    ensures var e := CheckDowngrade(c, a, h, f.mechanisms, f.channelBindings);
            e.Some? ==> IsPermanent(e.value) && e.value.reason in {InvalidName, DowngradeMismatch}
  {
  }

  lemma AnswerErrors(c: Crypto, mechanism: string, user: string, nonce: string, secret: string, challenge: string,
                     f: Features)
    ensures var r := Answer(c, mechanism, user, nonce, secret, challenge, f.mechanisms, f.channelBindings);
            r.Err? ==> (IsPermanent(r.error) <==> !Transient(r.error.reason)) && !r.error.reason.AuthFailure?
  {
    hide AcceptTerms, CheckDowngrade, ParseFields, Transient, AlgorithmOf, Prove;
    TransientCases();
    var text := c.Unpack(challenge);
    if text.Some? {
      var parsed := ParseFields(text.value);
      if parsed.Ok? {
        TermsErrors(c, nonce, parsed.value);
        DowngradeErrors(c, AlgorithmOf(mechanism), Get(parsed.value, "h"), f);
      }
    }
  }

  lemma TransientCases()
    ensures Transient(BadBase64) && Transient(UnexpectedReply) && Transient(WriteFailed) && Transient(RandomFailed)
    ensures !Transient(BadServerMessage) && !Transient(InvalidName) && !Transient(DowngradeMismatch)
  {
  }

  lemma OutcomeErrors(c: Crypto, a: Algorithm, f: Final, reply: Reply)
    ensures var e := CheckOutcome(c, a, f, reply);
            e.Some? ==>
            && (IsPermanent(e.value) <==> !Transient(e.value.reason))
            && (e.value.reason.AuthFailure? <==> reply.SaslFailure?)
            && (reply.SaslFailure? ==> e.value == ConnError(AuthFailure(reply.reason), true))
    ensures reply.SaslFailure? ==> CheckOutcome(c, a, f, reply).Some?
  {
    hide ParseFields, Signature, Crypto.Unpack;
  }

  /** What is wrong with a final message: an error attribute first, then a missing and then a wrong verifier. */
  lemma RejectionReasons(c: Crypto, a: Algorithm, f: Final, value: string, fs: seq<Field>)
    requires value != "" && c.Unpack(value) == Some(Message(fs)) && Distinct(fs)
    requires ParseFields(Message(fs)) == Ok(ToMap(fs))
    ensures var e := CheckOutcome(c, a, f, SaslSuccess(value));
            if exists x: string :: x != "" && Field("e", x) in fs then e == Some(ConnError(ServerError, true))
            else if forall v: string :: v != "" ==> Field("v", v) !in fs then
              e == Some(ConnError(VerifierMissing, true))
            else if Field("v", Signature(c, a, f)) in fs then e == None
            else e == Some(ConnError(VerifierMismatch, true))
  {
    hide Signature, ParseFields, Message, ToMap;
    var fields := ToMap(fs);
    if x: string :| x != "" && Field("e", x) in fs {
      MapLookup(fs, "e", x);
    } else {
      if "e" in fields {
        MapLookup(fs, "e", fields["e"]);
      }
      if v: string :| v != "" && Field("v", v) in fs {
        MapLookup(fs, "v", v);
        MapLookup(fs, "v", Signature(c, a, f));
      } else if "v" in fields {
        MapLookup(fs, "v", fields["v"]);
      }
    }
  }

  /** The replies read hold a refusal, and it is the last of them. */
  predicate Refused(before: Net, after: Net) {
    var k := |before.replies| - |after.replies|;
    1 <= k <= |before.replies| && before.replies[k - 1].SaslFailure?
  }

  ghost predicate ErrorFits(before: Net, after: Net, e: Fail) {
    && (IsPermanent(e) <==> !Transient(e.reason))
    && (e.reason.AuthFailure? <==> Refused(before, after))
    && (Refused(before, after) ==>
          e == ConnError(AuthFailure(before.replies[|before.replies| - |after.replies| - 1].reason), true))
  }

  lemma ExchangeErrors(n: Net, l: Login, mechanism: string, f: Features)
    ensures var (n', e) := Exchange(n, l, mechanism, f);
            e.Some? ==> ErrorFits(n, n', e.value)
  {
    hide Answer, CheckOutcome, ClientFirstBare, AlgorithmOf, Crypto.Pack;
    if l.nonce.Some? && n.Accepts() && n.replies != [] && n.replies[0].Challenge? {
      var c, nonce := l.crypto, l.nonce.value;
      AnswerErrors(c, mechanism, l.user, nonce, l.secret, n.replies[0].value, f);
      var r := Answer(c, mechanism, l.user, nonce, l.secret, n.replies[0].value, f.mechanisms, f.channelBindings);
      if r.Ok? {
        OutcomeErrors(c, AlgorithmOf(mechanism), r.value, if |n.replies| > 1 then n.replies[1] else ReadError);
      }
    }
  }

  lemma PlainErrors(n: Net, l: Login, mechanism: string)
    ensures var (n', e) := PlainExchange(n, l, mechanism);
            e.Some? ==> ErrorFits(n, n', e.value)
  {
  }

  /**
   An authentication fails for good exactly when no mechanism fits, the server
   refuses, or its messages are rejected; a failed write or random number, a
   reply that is not text in base64 and an unexpected reply may be tried again.
   A refusal is always an error, and a permanent one.
   */
  lemma AuthenticateErrors(n: Net, l: Login, f: Features)
    ensures var (n', e) := Authenticate(n, l, f);
            e.Some? ==> ErrorFits(n, n', e.value)
  {
    hide Exchange, PlainExchange, ErrorFits;
    var choice := Choose(l.accepted, f.mechanisms);
    NoMechanismFits(n);
    if choice.Some? {
      ExchangeErrors(n, l, choice.value, f);
      PlainErrors(n, l, choice.value);
    }
  }

  lemma NoMechanismFits(n: Net)
    ensures ErrorFits(n, n, ConnError(NoMatchingMechanism, true))
  {
  }
}

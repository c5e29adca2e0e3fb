/**
 The transport below a client (transport.go, xmpp_transport.go): what is
 written to the peer, what the peer replies, and how the link is protected.
 The outside world is a script: whether dialling succeeds, the replies to come
 on each connection, and which write fails.
 */
module Transports {
  import opened Wrappers

  /** Everything a client writes, one constructor per kind of element. */
  datatype Frame =
    | StartTls
    | StreamOpen
    | StreamClose
    | SaslAuth(mechanism: string, value: string)
    | SaslResponse(value: string)
    | SmResume(prevId: string, h: nat)
    | BindIq(packetId: nat, resource: string)
    | SessionIq(packetId: nat)
    | SmEnable(resume: bool)
    | SmRequest
    | SmAnswer(h: nat)
    | Stanza(data: string)

  /** `secure` is the flag that IsSecure() reports; `encrypted` says whether TLS runs on the connection in use. */
  datatype Link = Link(secure: bool, encrypted: bool)

  /** A frame on the wire, with the link as it was when the frame was written. */
  datatype Entry = Entry(frame: Frame, link: Link)

  /** Stream features, reduced to what the negotiation looks at. */
  datatype Features = Features(
    startTls: bool,
    mechanisms: seq<string>,
    channelBindings: Option<seq<string>>,
    sm: bool,
    sessionRequired: bool)

  const NO_FEATURES := Features(false, [], None, false, false)

  /**
   What one read from the peer yields. A TLS handshake is `verified` when the
   host name matches the certificate or need not.
   */
  datatype Reply =
    | ReadError
    | OpenedStream(id: string)
    | FeaturesReply(features: Features)
    | TlsProceed
    | TlsHandshake(verified: bool)
    | Challenge(value: string)
    | SaslSuccess(value: string)
    | SaslFailure(reason: string)
    | SmResumed(prevId: string, h: Option<nat>)
    | SmFailed(cause: string)
    | SmEnabled(id: string, location: string, resume: string)
    | IqBind(jid: string)
    | OtherPacket
    | UnknownElement

  datatype Reason =
    | WriteFailed | ReadFailed | UnexpectedReply
    | DialFailed | StreamOpenFailed | StreamHeaderInvalid | FeaturesMissing
    | NoStartTlsTransport | NoStartTlsServer | ProceedMissing
    | TlsHandshakeFailed | HostnameMismatch | TlsNotNegotiated
    | NoMatchingMechanism | AuthFailure(cause: string) | RandomFailed | BadBase64
    | BadServerMessage | BadNonce | ReservedAttribute | SaltMissing | BadIterationCount | WeakIterationCount
    | InvalidName | DowngradeMismatch | ServerError | VerifierMissing | VerifierMismatch
    | MismatchedId | BindMissing | EnableFailed

  /** An error; only a `ConnError` can be marked unrecoverable. */
  datatype Fail = ConnError(reason: Reason, isPermanent: bool) | Plain(reason: Reason)

  /**
   The value of a transport. Write attempt number `n` fails when `fault(n)`;
   `connected` says whether there has been a connection yet.
   */
  datatype Net = Net(
    log: seq<Entry>,
    attempts: nat,
    replies: seq<Reply>,
    link: Link,
    connected: bool,
    fault: nat -> bool)
  {
    function Write(f: Frame): Net {
      var n := this.(attempts := attempts + 1);
      if fault(attempts) then n else n.(log := log + [Entry(f, link)])
    }

    /** Ends the stream; without a connection there is nothing to write to. */
    function Close(): Net {
      if connected then Write(StreamClose) else this
    }

    predicate Accepts() {
      !fault(attempts)
    }

    function Next(): Reply {
      if replies == [] then ReadError else replies[0]
    }

    function Consume(): Net {
      this.(replies := if replies == [] then [] else replies[1..])
    }
  }

  /** Opening a stream; a failure closes the transport again. */
  function OpenStream(n: Net): (Net, Result<string, Fail>) {
    var n1 := n.Write(StreamOpen);
    if !n.Accepts() then
      (n1.Close(), Err(ConnError(StreamOpenFailed, true)))
    else if n1.Next().OpenedStream? then
      (n1.Consume(), Ok(n1.Next().id))
    else
      (n1.Consume().Close(), Err(ConnError(StreamHeaderInvalid, false)))
  }

  /**
   The upgrade to TLS. A host name that does not match leaves TLS running and
   the flag cleared.
   */
  function UpgradeToTls(n: Net): (Net, Option<Fail>) {
    var n1 := n.Consume();
    if !n.Next().TlsHandshake? then (n1, Some(Plain(TlsHandshakeFailed)))
    else if n.Next().verified then (n1.(link := Link(true, true)), None)
    else (n1.(link := Link(false, true)), Some(Plain(HostnameMismatch)))
  }

  /**
   A new connection with its own replies. The flag is kept; a TCP connection is
   not encrypted, a websocket is as secure as its address says.
   */
  function Reconnected(n: Net, doesStartTls: bool, replies: seq<Reply>): Net {
    n.(link := Link(n.link.secure, !doesStartTls && n.link.secure), replies := replies, connected := true)
  }

  /** Connecting: a stream on a new connection, or nothing when dialling fails. */
  function Dial(n: Net, doesStartTls: bool, replies: Option<seq<Reply>>): (Net, Result<string, Fail>) {
    if replies.None? then (n, Err(ConnError(DialFailed, true)))
    else OpenStream(Reconnected(n, doesStartTls, replies.value))
  }

  /**
   A stream is opened exactly when the header is written and answered; if not,
   only the failed write is permanent, and the end of the stream is written.
   */
  lemma OpenStreamMeans(n: Net)
    ensures var (n', r) := OpenStream(n);
            var header := if n.Accepts() then [Entry(StreamOpen, n.link)] else [];
            && (r.Ok? <==> n.Accepts() && n.replies != [] && n.replies[0].OpenedStream?)
            && (r.Ok? ==> n.replies[0] == OpenedStream(r.value) && n'.log == n.log + header)
            && (r.Err? ==> r.error.ConnError? && (r.error.isPermanent <==> !n.Accepts()))
            && (r.Err? && n.connected ==>
                  n'.log == n.log + header + if n.fault(n.attempts + 1) then [] else [Entry(StreamClose, n.link)])
            && (r.Err? && !n.connected ==> n'.log == n.log + header)
            && n'.replies == (if n.Accepts() && n.replies != [] then n.replies[1..] else n.replies)
            && n'.link == n.link && n'.connected == n.connected
  {
  }

  /** Dialling is the only thing a failed dial fails at; otherwise the stream decides, on the new connection. */
  lemma DialMeans(n: Net, doesStartTls: bool, replies: Option<seq<Reply>>)
    ensures var (n', r) := Dial(n, doesStartTls, replies);
            && (replies.None? ==> n' == n && r == Err(ConnError(DialFailed, true)))
            && (replies.Some? ==>
                  && n'.connected && n'.link.secure == n.link.secure
                  && (n'.link.encrypted <==> !doesStartTls && n.link.secure)
                  && (r.Ok? <==> n.Accepts() && replies.value != [] && replies.value[0].OpenedStream?)
                  && (r.Ok? ==> replies.value[0] == OpenedStream(r.value) && n'.replies == replies.value[1..]))
  {
    if replies.Some? {
      OpenStreamMeans(Reconnected(n, doesStartTls, replies.value));
    }
    hide OpenStream;
  }

  /** A transport that has not been connected; only a websocket with a `wss` address is secure from the start. */
  function NewNet(fault: nat -> bool, wss: bool): Net {
    Net([], 0, [], Link(wss, wss), false, fault)
  }

  class Transport {
    const fault: nat -> bool
    const doesStartTls: bool
    var log: seq<Entry>
    var attempts: nat
    var replies: seq<Reply>
    var link: Link
    var connected: bool

    ghost function Value(): Net
      reads this
    {
      Net(log, attempts, replies, link, connected, fault)
    }

    constructor (fault: nat -> bool, doesStartTls: bool, wss: bool)
      ensures Value() == NewNet(fault, !doesStartTls && wss)
      ensures this.doesStartTls == doesStartTls
    {
      this.fault, this.doesStartTls := fault, doesStartTls;
      log, attempts, replies, connected := [], 0, [], false;
      link := Link(!doesStartTls && wss, !doesStartTls && wss);
    }

    method Write(f: Frame) returns (ok: bool)
      modifies this
      ensures Value() == old(Value()).Write(f)
      ensures ok == old(Value()).Accepts()
    {
      ok := !fault(attempts);
      attempts := attempts + 1;
      if ok {
        log := log + [Entry(f, link)];
      }
    }

    method Read() returns (r: Reply)
      modifies this
      ensures Value() == old(Value()).Consume()
      ensures r == old(Value()).Next()
    {
      if replies == [] {
        return ReadError;
      }
      r := replies[0];
      replies := replies[1..];
    }

    /** `dialled` is the outcome of dialling: the replies on the new connection, if there is one. */
    method Connect(dialled: Option<seq<Reply>>) returns (r: Result<string, Fail>)
      modifies this
      ensures (Value(), r) == Dial(old(Value()), doesStartTls, dialled)
    {
      if dialled.None? {
        return Err(ConnError(DialFailed, true));
      }
      link := Link(link.secure, !doesStartTls && link.secure);
      replies, connected := dialled.value, true;
      r := StartStream();
    }

    method StartStream() returns (r: Result<string, Fail>)
      modifies this
      ensures (Value(), r) == OpenStream(old(Value()))
    {
      var written := Write(StreamOpen);
      if !written {
        Close();
        return Err(ConnError(StreamOpenFailed, true));
      }
      var reply := Read();
      match reply {
        case OpenedStream(id) =>
          return Ok(id);
        case _ =>
          Close();
          return Err(ConnError(StreamHeaderInvalid, false));
      }
    }

    /** TLS runs after every completed handshake; the flag is set exactly when the host name is verified too. */
    method StartTLS() returns (err: Option<Fail>)
      modifies this
      ensures (Value(), err) == UpgradeToTls(old(Value()))
      ensures log == old(log)
      ensures
        var reply := old(Value()).Next();
        if reply.TlsHandshake? then
          link == Link(reply.verified, true) && err == if reply.verified then None else Some(Plain(HostnameMismatch))
        else link == old(link) && err == Some(Plain(TlsHandshakeFailed))
    {
      var reply := Read();
      if !reply.TlsHandshake? {
        return Some(Plain(TlsHandshakeFailed));
      }
      link := Link(false, true);
      if !reply.verified {
        return Some(Plain(HostnameMismatch));
      }
      link := Link(true, true);
      return None;
    }

    method Close()
      modifies this
      ensures Value() == old(Value()).Close()
    {
      if connected {
        var _ := Write(StreamClose);
      }
    }
  }
}

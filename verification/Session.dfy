/**
 Session negotiation (session.go): each step as a function on the session's
 value, and the session object whose methods carry the steps out.
 */
module Sessions {
  import opened Wrappers
  import opened UnAckQueues
  import opened Transports
  import opened Scram

  /** Stream management state, apart from the queue that belongs to it. */
  datatype SMState = SMState(id: string, inbound: nat, location: string, error: Option<string>)

  const NO_STATE := SMState("", 0, "", None)

  /** The part of the configuration that a negotiation only reads. */
  datatype Settings = Settings(insecure: bool, smEnable: bool, resource: string, login: Login, doesStartTls: bool)

  /**
   The value of a session with its transport. `smResume` is the configuration
   flag that the server's answer may change; `late` counts the writes tried
   while an error was already recorded.
   */
  datatype Sess = Sess(
    err: Option<Fail>,
    features: Features,
    tlsEnabled: bool,
    resumed: bool,
    bindJid: string,
    streamId: string,
    lastPacketId: nat,
    sm: SMState,
    queue: Option<Items>,
    smResume: bool,
    net: Net,
    late: nat)
  {
    function Put(f: Frame): Sess {
      this.(net := net.Write(f), late := late + if err.Some? then 1 else 0)
    }

    /** A write and, if it is accepted, the read of the reply to it. */
    function Ask(f: Frame): (Sess, Option<Reply>) {
      var s := Put(f);
      if net.Accepts() then (s.(net := s.net.Consume()), Some(s.net.Next())) else (s, None)
    }

    function Fail(reason: Reason): Sess {
      this.(err := Some(Plain(reason)))
    }

    function Forget(): Sess {
      this.(sm := NO_STATE, queue := None)
    }
  }

  function NewSess(net: Net, sm: SMState, queue: Option<Items>, smResume: bool): Sess {
    Sess(None, NO_FEATURES, false, false, "", "", 0, sm, queue, smResume, net, 0)
  }

  // ------------------------------------------------------------------
  // Reading replies

  /** NextPacket recognises the element as a packet. */
  predicate IsPacket(r: Reply) {
    r.FeaturesReply? || r.SaslSuccess? || r.SaslFailure? || r.SmResumed? || r.SmFailed? || r.SmEnabled?
    || r.IqBind? || r.OtherPacket?
  }

  /** Something Decode can read into an IQ: any complete element. */
  predicate IsElement(r: Reply) {
    !r.ReadError? && !r.TlsHandshake? && !r.OpenedStream?
  }

  /** strconv.ParseBool succeeds and yields true. */
  predicate ParsesTrue(s: string) {
    s in ["1", "t", "T", "TRUE", "true", "True"]
  }

  /** What the two readers make of the other replies: no packet, and no complete element. */
  lemma RepliesSorted(r: Reply)
    ensures !IsPacket(r) <==>
            r.ReadError? || r.OpenedStream? || r.TlsProceed? || r.TlsHandshake? || r.Challenge? || r.UnknownElement?
    ensures IsElement(r) <==> IsPacket(r) || r.TlsProceed? || r.Challenge? || r.UnknownElement?
  {
  }

  // ------------------------------------------------------------------
  // The steps on values

  function InitStep(s: Sess): Sess {
    var r := s.net.Next();
    var s1 := s.(net := s.net.Consume());
    if r.FeaturesReply? then s1.(features := r.features, err := None)
    else s1.(features := NO_FEATURES).Fail(FeaturesMissing)
  }

  function ResetStep(s: Sess): Sess {
    var (net, r) := OpenStream(s.net);
    var s1 := s.(net := net, late := s.late + if s.err.Some? then 1 else 0);
    match r
    case Err(e) => s1.(streamId := "", err := Some(e))
    case Ok(id) => InitStep(s1.(streamId := id, err := None))
  }

  function StartTlsStep(s: Sess, o: Settings): Sess {
    if s.err.Some? then s
    else if !o.doesStartTls then
      if o.insecure then s else s.Fail(NoStartTlsTransport)
    else if s.features.startTls then
      var s1 := s.Put(StartTls);
      var s2 := s1.(net := s1.net.Consume());
      if !s1.net.Next().TlsProceed? then s2.Fail(ProceedMissing)
      else
        var (net, e) := UpgradeToTls(s2.net);
        s2.(net := net, err := e, tlsEnabled := s.tlsEnabled || e.None?)
    else if o.insecure then s
    else s.Fail(NoStartTlsServer)
  }

  function AuthStep(s: Sess, o: Settings): Sess {
    if s.err.Some? then s
    else
      var (net, e) := Authenticate(s.net, o.login, s.features);
      s.(net := net, err := e)
  }

  /** What the session makes of the server's reply to a resumption request. */
  function OnResumeReply(s: Sess, r: Reply): (Sess, bool) {
    if !IsPacket(r) then (s.Fail(ReadFailed).Forget(), false)
    else if r.SmResumed? then
      if r.prevId != s.sm.id then (s.Fail(MismatchedId).Forget(), false)
      else
        var queue := if r.h.Some? && s.queue.Some? then Some(DropAcked(s.queue.value, r.h.value)) else s.queue;
        (s.(err := None, queue := queue, resumed := true), true)
    else if r.SmFailed? then (s.(err := None).Forget(), false)
    else (s.Fail(UnexpectedReply).Forget(), false)
  }

  function ResumeStep(s: Sess, o: Settings): (Sess, bool) {
    if !o.smEnable || !s.smResume || !s.features.sm || s.sm.id == "" then (s, false)
    else
      var (s1, r) := s.Ask(SmResume(s.sm.id, s.sm.inbound));
      if r.None? then (s1, false) else OnResumeReply(s1, r.value)
  }

  function BindStep(s: Sess, o: Settings): Sess {
    if s.err.Some? then s
    else
      var id := s.lastPacketId + 1;
      var (s1, r) := s.(lastPacketId := id).Ask(BindIq(id, o.resource));
      if r.None? then s1.Fail(WriteFailed)
      else if r.value.IqBind? then s1.(bindJid := r.value.jid)
      else s1.Fail(if IsElement(r.value) then BindMissing else ReadFailed)
  }

  function Rfc3921Step(s: Sess): Sess {
    if s.err.Some? || !s.features.sessionRequired then s
    else
      var id := s.lastPacketId + 1;
      var (s1, r) := s.(lastPacketId := id).Ask(SessionIq(id));
      if r.None? then s1.Fail(WriteFailed)
      else if IsElement(r.value) then s1
      else s1.Fail(ReadFailed)
  }

  function OnEnableReply(s: Sess, r: Reply): Sess {
    if r.SmEnabled? then
      s.(smResume := ParsesTrue(r.resume), sm := SMState(r.id, 0, r.location, None), queue := Some([]))
    else if r.SmFailed? then
      s.(sm := SMState("", 0, "", Some(r.cause)), queue := Some([])).Fail(EnableFailed)
    else s.Fail(if IsPacket(r) then UnexpectedReply else ReadFailed)
  }

  function EnableStep(s: Sess, o: Settings): Sess {
    if s.err.Some? || !s.features.sm || !o.smEnable then s
    else
      var (s1, r) := s.Ask(SmEnable(s.smResume));
      if r.None? then s1.Fail(WriteFailed) else OnEnableReply(s1, r.value)
  }

  // ------------------------------------------------------------------
  // The whole negotiation on values

  /** `Lost` drops the session object; `Broken` keeps it with its error. */
  datatype Outcome = Established | Broken(err: Fail) | Lost(err: Fail)

  function Secured(s: Sess, o: Settings): Sess {
    var s1 := InitStep(s);
    if s1.err.None? && !s1.net.link.secure then StartTlsStep(s1, o) else s1
  }

  function Reopened(s: Sess): Sess {
    (if s.tlsEnabled then ResetStep(s) else s).(resumed := false)
  }

  /** Authentication, and the fresh stream after it. */
  function Authenticated(s: Sess, o: Settings): Sess {
    var s1 := AuthStep(Reopened(s), o);
    if s1.err.Some? then s1 else ResetStep(s1)
  }

  function BindAndEnable(s: Sess, o: Settings): Sess {
    EnableStep(Rfc3921Step(BindStep(s, o)), o)
  }

  function Finish(s: Sess): (Sess, Outcome) {
    (s, if s.err.Some? then Broken(s.err.value) else Established)
  }

  /** From authentication to the end, on a stream that is as secure as required. */
  function EstablishOn(s: Sess, o: Settings): (Sess, Outcome) {
    var s1 := Authenticated(s, o);
    Finish(if s1.err.Some? then s1 else EstablishRest(s1, o))
  }

  function EstablishRest(s: Sess, o: Settings): Sess {
    var (s1, resumed) := ResumeStep(s, o);
    if resumed then s1 else BindAndEnable(s1, o)
  }

  function Negotiate(s: Sess, o: Settings): (Sess, Outcome) {
    var s1 := Secured(s, o);
    if InitStep(s).err.Some? then (s1, Lost(ConnError(FeaturesMissing, true)))
    else if !s1.net.link.secure && !o.insecure then (s1, Lost(ConnError(TlsNotNegotiated, true)))
    else EstablishOn(s1, o)
  }

  // ------------------------------------------------------------------
  // The session object

  class Config {
    const insecure: bool
    const smEnable: bool
    const resource: string
    const login: Login
    var smResume: bool

    constructor (insecure: bool, smEnable: bool, resource: string, login: Login, smResume: bool)
      ensures this.insecure == insecure && this.smEnable == smEnable && this.resource == resource
      ensures this.login == login && this.smResume == smResume
    {
      this.insecure, this.smEnable, this.resource := insecure, smEnable, resource;
      this.login, this.smResume := login, smResume;
    }
  }

  class Session {
    const transport: Transport
    var bindJid: string
    var streamId: string
    var resumed: bool
    var sm: SMState
    var queue: UnAckQueue?
    var features: Features
    var tlsEnabled: bool
    var lastPacketId: nat
    var err: Option<Fail>
    ghost var late: nat

    ghost function Value(o: Config): Sess
      reads this, transport, queue, o
    {
      Sess(err, features, tlsEnabled, resumed, bindJid, streamId, lastPacketId, sm,
           if queue == null then None else Some(queue.uslice), o.smResume, transport.Value(), late)
    }

    ghost function SettingsOf(o: Config): Settings {
      Settings(o.insecure, o.smEnable, o.resource, o.login, transport.doesStartTls)
    }

    constructor (transport: Transport, sm: SMState, queue: UnAckQueue?)
      ensures this.transport == transport && this.queue == queue && this.sm == sm
      ensures bindJid == streamId == "" && !resumed && !tlsEnabled && features == NO_FEATURES
      ensures lastPacketId == late == 0 && err == None
    {
      this.transport, this.sm, this.queue := transport, sm, queue;
      bindJid, streamId, resumed, features, tlsEnabled := "", "", false, NO_FEATURES, false;
      lastPacketId, err, late := 0, None, 0;
    }

    method Write(ghost o: Config, f: Frame) returns (ok: bool)
      modifies `late, transport
      ensures Value(o) == old(Value(o)).Put(f)
      ensures ok == old(transport.Value()).Accepts()
    {
      hide Net.Write;
      ok := transport.Write(f);
      if err.Some? {
        late := late + 1;
      }
    }

    method Ask(ghost o: Config, f: Frame) returns (r: Option<Reply>)
      modifies `late, transport
      ensures (Value(o), r) == old(Value(o)).Ask(f)
    {
      hide Net.Write, Net.Next, Net.Consume;
      var sent := Write(o, f);
      if !sent {
        return None;
      }
      var reply := transport.Read();
      return Some(reply);
    }

    method ExtractStreamFeatures(ghost o: Config)
      modifies `err, `features, transport
      ensures Value(o) == InitStep(old(Value(o)))
    {
      var r := transport.Read();
      if r.FeaturesReply? {
        features, err := r.features, None;
      } else {
        features, err := NO_FEATURES, Some(Plain(FeaturesMissing));
      }
    }

    method Reset(ghost o: Config)
      modifies `err, `features, `streamId, `late, transport
      ensures Value(o) == ResetStep(old(Value(o)))
    {
      hide OpenStream, InitStep;
      if err.Some? {
        late := late + 1;
      }
      var r := transport.StartStream();
      match r {
        case Err(e) =>
          streamId, err := "", Some(e);
        case Ok(id) =>
          streamId, err := id, None;
          ExtractStreamFeatures(o);
      }
    }

    method StartTlsIfSupported(o: Config)
      modifies `err, `tlsEnabled, `late, transport
      ensures Value(o) == StartTlsStep(old(Value(o)), SettingsOf(o))
    {
      hide Net.Write, Net.Next, Net.Consume;
      if err.Some? {
        return;
      }
      if !transport.doesStartTls {
        if !o.insecure {
          err := Some(Plain(NoStartTlsTransport));
        }
        return;
      }
      if features.startTls {
        var _ := Write(o, StartTls);
        var proceed := transport.Read();
        if !proceed.TlsProceed? {
          err := Some(Plain(ProceedMissing));
          return;
        }
        err := transport.StartTLS();
        if err.None? {
          tlsEnabled := true;
        }
        return;
      }
      if !o.insecure {
        err := Some(Plain(NoStartTlsServer));
      }
    }

    method Auth(o: Config)
      modifies `err, transport
      ensures Value(o) == AuthStep(old(Value(o)), SettingsOf(o))
    {
      if err.Some? {
        return;
      }
      err := AuthSASL(transport, o.login, features);
    }

    method Resume(o: Config) returns (done: bool)
      modifies `err, `sm, `queue, `resumed, `late, transport, queue
      ensures (Value(o), done) == ResumeStep(old(Value(o)), SettingsOf(o))
      ensures queue == null || queue == old(queue)
    {
      hide Sess.Ask;
      if !o.smEnable || !o.smResume {
        return false;
      }
      if !features.sm {
        return false;
      }
      if sm.id == "" {
        return false;
      }
      var reply := Ask(o, SmResume(sm.id, sm.inbound));
      if reply.None? {
        return false;
      }
      done := HandleResumeReply(o, reply.value);
    }

    method HandleResumeReply(ghost o: Config, packet: Reply) returns (done: bool)
      modifies `err, `sm, `queue, `resumed, queue
      ensures (Value(o), done) == OnResumeReply(old(Value(o)), packet)
      ensures queue == null || queue == old(queue)
    {
      err := if IsPacket(packet) then None else Some(Plain(ReadFailed));
      if err.None? {
        if packet.SmResumed? {
          if packet.prevId != sm.id {
            err := Some(Plain(MismatchedId));
            sm, queue := NO_STATE, null;
            return false;
          }
          if packet.h.Some? && queue != null {
            queue.Trim(packet.h.value);
          }
          resumed := true;
          return true;
        } else if !packet.SmFailed? {
          err := Some(Plain(UnexpectedReply));
        }
      }
      sm, queue := NO_STATE, null;
      return false;
    }

    method Bind(o: Config)
      modifies `err, `bindJid, `lastPacketId, `late, transport
      ensures Value(o) == BindStep(old(Value(o)), SettingsOf(o))
    {
      hide Sess.Ask;
      if err.Some? {
        return;
      }
      lastPacketId := lastPacketId + 1;
      var iq := Ask(o, BindIq(lastPacketId, o.resource));
      if iq.None? {
        err := Some(Plain(WriteFailed));
      } else if iq.value.IqBind? {
        bindJid := iq.value.jid;
      } else {
        err := Some(Plain(if IsElement(iq.value) then BindMissing else ReadFailed));
      }
    }

    method Rfc3921Session(ghost o: Config)
      modifies `err, `lastPacketId, `late, transport
      ensures Value(o) == Rfc3921Step(old(Value(o)))
    {
      hide Sess.Ask;
      if err.Some? {
        return;
      }
      if features.sessionRequired {
        lastPacketId := lastPacketId + 1;
        var iq := Ask(o, SessionIq(lastPacketId));
        if iq.None? {
          err := Some(Plain(WriteFailed));
          return;
        }
        if !IsElement(iq.value) {
          err := Some(Plain(ReadFailed));
        }
      }
    }

    method EnableStreamManagement(o: Config)
      modifies `err, `sm, `queue, `late, transport, o
      ensures Value(o) == EnableStep(old(Value(o)), SettingsOf(o))
      ensures queue == old(queue) || fresh(queue)
    {
      hide Sess.Ask;
      if err.Some? {
        return;
      }
      if !features.sm || !o.smEnable {
        return;
      }
      var q := new UnAckQueue();
      var reply := Ask(o, SmEnable(o.smResume));
      if reply.None? {
        err := Some(Plain(WriteFailed));
        return;
      }
      HandleEnableReply(o, reply.value, q);
    }

    method HandleEnableReply(o: Config, packet: Reply, q: UnAckQueue)
      requires q.uslice == []
      modifies `err, `sm, `queue, o
      requires err.None?
      ensures Value(o) == OnEnableReply(old(Value(o)), packet)
      ensures queue == old(queue) || queue == q
    {
      err := if IsPacket(packet) then None else Some(Plain(ReadFailed));
      if err.None? {
        if packet.SmEnabled? {
          o.smResume := ParsesTrue(packet.resume);
          sm := SMState(packet.id, 0, packet.location, None);
          queue := q;
        } else if packet.SmFailed? {
          sm := SMState("", 0, "", Some(packet.cause));
          queue := q;
          err := Some(Plain(EnableFailed));
        } else {
          err := Some(Plain(UnexpectedReply));
        }
      }
    }

    method OpenSession(o: Config)
      modifies this, transport, o
      ensures Value(o) == BindAndEnable(old(Value(o)), SettingsOf(o))
      ensures queue == old(queue) || fresh(queue)
    {
      hide BindStep, Rfc3921Step, EnableStep;
      Bind(o);
      if err.Some? {
        ErrorSkipsRest(Value(o), SettingsOf(o));
        return;
      }
      Rfc3921Session(o);
      if err.Some? {
        ErrorSkipsRest(Value(o), SettingsOf(o));
        return;
      }
      EnableStreamManagement(o);
    }

    method Establish(o: Config)
      modifies this, transport, o, queue
      ensures (Value(o), if err.Some? then Broken(err.value) else Established)
           == EstablishOn(old(Value(o)), SettingsOf(o))
    {
      hide ResetStep, AuthStep, ResumeStep, BindAndEnable;
      if tlsEnabled {
        Reset(o);
      }
      resumed := false;
      Auth(o);
      if err.Some? {
        return;
      }
      Reset(o);
      if err.Some? {
        return;
      }
      var done := Resume(o);
      if done {
        return;
      }
      OpenSession(o);
    }
  }

  lemma ErrorSkipsRest(s: Sess, o: Settings)
    requires s.err.Some?
    ensures Rfc3921Step(s) == EnableStep(s, o) == s
  {
  }

  /**
   NewSession: opens a session on a connected transport, or takes up the
   client's earlier one. No session is returned when the outcome is `Lost`.
   */
  method NewSession(existing: Session?, transport: Transport, o: Config, state: SMState, queue: UnAckQueue?)
    returns (s: Session?, err: Option<Fail>)
    requires existing != null ==> existing.transport == transport
    modifies existing, transport, o, queue, if existing == null then {} else {existing.queue}
    ensures s == null || s == existing || fresh(s)
    ensures
      var v0 := if existing != null then old(existing.Value(o))
                else NewSess(old(transport.Value()), state, if queue == null then None else Some(old(queue.uslice)),
                             old(o.smResume));
      var settings := Settings(o.insecure, o.smEnable, o.resource, o.login, transport.doesStartTls);
      var (v, outcome) := Negotiate(v0, settings);
      && transport.Value() == v.net && o.smResume == v.smResume
      && match outcome
         case Established => s != null && s.transport == transport && s.Value(o) == v && err == None
         case Broken(e) => s != null && s.transport == transport && s.Value(o) == v && err == Some(e)
         case Lost(e) => s == null && err == Some(e)
  {
    hide InitStep, StartTlsStep, EstablishOn;
    var session: Session;
    if existing == null {
      session := new Session(transport, state, queue);
    } else {
      session := existing;
    }
    session.ExtractStreamFeatures(o);
    if session.err.Some? {
      return null, Some(ConnError(FeaturesMissing, true));
    }
    if !transport.link.secure {
      session.StartTlsIfSupported(o);
    }
    if !transport.link.secure && !o.insecure {
      return null, Some(ConnError(TlsNotNegotiated, true));
    }
    session.Establish(o);
    return session, session.err;
  }
}

/**
 Sending, resending and receiving on an established session (client.go and
 SendMissingStz of router.go), as functions on the client's state and as the
 methods of the client that carry them out.
 */
module Clients {
  import opened Wrappers
  import opened UnAckQueues
  import opened Transports
  import opened Sessions

  /** What the application can send; `None` is a packet that does not marshal. */
  datatype Packet = RequestPacket | AnswerPacket(h: nat) | StanzaPacket(data: Option<string>)

  datatype SendError = NotConnected | NoSession | CannotMarshal | NoQueue | WriteError

  /** The part of a connected client that sending and receiving touches. */
  datatype State = State(net: Net, queue: Option<Items>, inbound: nat)
  {
    function Put(f: Frame): (State, Option<SendError>) {
      (this.(net := net.Write(f)), if net.Accepts() then None else Some(WriteError))
    }
  }

  // ------------------------------------------------------------------
  // Sending

  /** A stanza is queued first, then written, when stream management is on. */
  function SendStanza(c: State, smEnable: bool, data: string): (State, Option<SendError>) {
    if smEnable && c.queue.None? then (c, Some(NoQueue))
    else
      var c1 := if smEnable then c.(queue := Some(Enqueue(c.queue.value, data))) else c;
      c1.Put(Stanza(data))
  }

  function SendPacket(c: State, smEnable: bool, p: Packet): (State, Option<SendError>) {
    match p
    case RequestPacket => c.Put(SmRequest)
    case AnswerPacket(h) => c.Put(SmAnswer(h))
    case StanzaPacket(None) => (c, Some(CannotMarshal))
    case StanzaPacket(Some(data)) => SendStanza(c, smEnable, data)
  }

  /** What one write leaves: one frame more if it went through, and nothing else changed but the attempt. */
  ghost predicate WroteOne(before: Net, after: Net, f: Frame, ok: bool) {
    && ok == !before.fault(before.attempts)
    && after.log == before.log + (if ok then [Entry(f, before.link)] else [])
    && after == before.(log := after.log, attempts := before.attempts + 1)
  }

  /** A stanza as it joins the queue: numbered one above the last, or 1. */
  ghost predicate QueuedLast(before: Items, after: Items, data: string) {
    after == before + [UnAckedStz(if before == [] then 1 else before[|before| - 1].id + 1, data)]
  }

  /** The outcome of sending a stanza. */
  ghost predicate StanzaSent(c: State, c': State, err: Option<SendError>, smEnable: bool, data: string) {
    if smEnable && c.queue.None? then c' == c && err == Some(NoQueue)
    else
      && WroteOne(c.net, c'.net, Stanza(data), err.None?) && (err.Some? ==> err.value == WriteError)
      && c'.inbound == c.inbound
      && if smEnable then
           c'.queue.Some? && QueuedLast(c.queue.value, c'.queue.value, data)
         else c'.queue == c.queue
  }

  /**
   With stream management on or off, the stanza itself is what an accepted send
   adds to the wire; it is queued exactly when stream management is on, also
   when the write fails.
   */
  lemma SendStanzaMeans(c: State, smEnable: bool, data: string)
    ensures var (c', err) := SendStanza(c, smEnable, data);
            StanzaSent(c, c', err, smEnable, data)
  {
  }

  /** A request or an answer is written and never queued; what does not marshal changes nothing. */
  lemma SendPacketMeans(c: State, smEnable: bool, p: Packet)
    ensures var (c', err) := SendPacket(c, smEnable, p);
            if p == StanzaPacket(None) then c' == c && err == Some(CannotMarshal)
            else if p.StanzaPacket? then StanzaSent(c, c', err, smEnable, p.data.value)
            else
              && WroteOne(c.net, c'.net, if p.RequestPacket? then SmRequest else SmAnswer(p.h), err.None?)
              && (err.Some? ==> err.value == WriteError)
              && c'.queue == c.queue && c'.inbound == c.inbound
  {
    if p.StanzaPacket? && p.data.Some? {
      SendStanzaMeans(c, smEnable, p.data.value);
    }
  }

  // ------------------------------------------------------------------
  // Resending after an acknowledgement

  /** Writes the stanzas in order until one write fails. */
  function WriteAll(n: Net, pending: seq<string>): (Net, bool)
    decreases |pending|
  {
    if pending == [] then (n, true)
    else if !n.Accepts() then (n.Write(Stanza(pending[0])), false)
    else WriteAll(n.Write(Stanza(pending[0])), pending[1..])
  }

  function SendMissing(c: State, lastSent: int): (State, Option<SendError>) {
    if c.queue.None? || c.queue.value == [] then (c, None)
    else
      var rest := DropAcked(c.queue.value, lastSent);
      var (net, ok) := WriteAll(c.net, Stanzas(rest));
      var c1 := c.(queue := Some(rest), net := net);
      if !ok then (c1, Some(WriteError))
      else if rest == [] then (c1, None)
      else c1.Put(SmRequest)
  }

  // ------------------------------------------------------------------
  // Receiving

  datatype Incoming =
    | InStreamError | InRequest | InAnswer(h: nat) | InClose
    | InMessage | InPresence | InIq | InOther

  /** What the receive loop does besides writing. */
  datatype Event = Routed(packet: Incoming) | StreamErrorSeen | ErrorReported | CloseSeen | Disconnected(inbound: nat)

  predicate IsStanza(p: Incoming) {
    p.InMessage? || p.InPresence? || p.InIq?
  }

  /** The receive loop on a script of packets, after which reading fails. */
  function Receive(c: State, smEnable: bool, packets: seq<Incoming>): (State, seq<Event>)
    decreases |packets|
  {
    if packets == [] then (c, [ErrorReported, Disconnected(c.inbound)])
    else
      var p, rest := packets[0], packets[1..];
      match p
      case InRequest =>
        var (c1, err) := SendPacket(c, smEnable, AnswerPacket(c.inbound));
        if err.Some? then (c1, [ErrorReported]) else Receive(c1, smEnable, rest)
      case InAnswer(h) =>
        Prepend([Routed(p)], Receive(SendMissing(c, h).0, smEnable, rest))
      case InClose => (c, [CloseSeen, Disconnected(c.inbound)])
      case InStreamError =>
        Prepend([Routed(p), StreamErrorSeen, ErrorReported, Routed(p)],
                Receive(c.(net := c.net.Close()), smEnable, rest))
      case InOther => Prepend([Routed(p)], Receive(c, smEnable, rest))
      case _ => Prepend([Routed(p)], Receive(c.(inbound := c.inbound + 1), smEnable, rest))
  }

  function Prepend(events: seq<Event>, r: (State, seq<Event>)): (State, seq<Event>) {
    (r.0, events + r.1)
  }

  lemma PrependTwice(e1: seq<Event>, e2: seq<Event>, r: (State, seq<Event>))
    ensures Prepend(e1, Prepend(e2, r)) == Prepend(e1 + e2, r)
  {
    assert e1 + (e2 + r.1) == (e1 + e2) + r.1;
  }

  // ------------------------------------------------------------------
  // Connecting

  const INITIAL_PRESENCE := "<presence/>"

  /** postSessionSetup: a resumed session sends nothing, a new one its presence. */
  function Setup(s: Sess): (Sess, Option<SendError>) {
    if s.resumed then (s, None)
    else (s.(net := s.net.Write(Stanza(INITIAL_PRESENCE))), if s.net.Accepts() then None else Some(WriteError))
  }

  datatype ConnectResult = Connected | NoStream(err: Fail) | NegotiationFailed(err: Fail) | PresenceFailed

  /** What a client has between connections: its session or, without one, what a new session would start from. */
  datatype Kept = Kept(hasSession: bool, s: Sess)

  function Sessionless(net: Net, smResume: bool): Kept {
    Kept(false, NewSess(net, NO_STATE, None, smResume))
  }

  /** The part of what is kept that sending and receiving touches. */
  function StateOf(k: Kept): State {
    State(k.s.net, k.s.queue, k.s.sm.inbound)
  }

  function Moved(k: Kept, c: State): Kept {
    k.(s := k.s.(net := c.net, queue := c.queue, sm := k.s.sm.(inbound := c.inbound)))
  }

  function Shut(k: Kept): Kept {
    k.(s := k.s.(net := k.s.net.Close()))
  }

  function Dialled(s: Sess, o: Settings, dialled: Option<seq<Reply>>): (Sess, Result<string, Fail>) {
    var (net, r) := Dial(s.net, o.doesStartTls, dialled);
    (s.(net := net), r)
  }

  /** connect and postSessionSetup: dialling, negotiating, the stream id and the presence. */
  function ConnectOn(k: Kept, o: Settings, dialled: Option<seq<Reply>>): (Kept, ConnectResult) {
    var (s, r) := Dialled(k.s, o, dialled);
    if r.Err? then (k.(s := s), NoStream(r.error)) else Establishing(s, o, r.value)
  }

  function Establishing(s: Sess, o: Settings, streamId: string): (Kept, ConnectResult) {
    var (v, outcome) := Negotiate(s, o);
    if outcome.Lost? then (Shut(Sessionless(v.net, v.smResume)), NegotiationFailed(outcome.err))
    else if outcome.Broken? then (Shut(Kept(true, v)), NegotiationFailed(outcome.err))
    else
      var (v1, err) := Setup(v.(streamId := streamId));
      (Kept(true, v1), if err.None? then Connected else PresenceFailed)
  }

  // ------------------------------------------------------------------
  // The client object

  class Client {
    const config: Config
    var transport: Transport?
    var session: Session?

    constructor (config: Config, transport: Transport)
      ensures this.config == config && this.transport == transport && session == null
    {
      this.config, this.transport, session := config, transport, null;
    }

    /** A session, if there is one, is on the client's own transport. */
    ghost predicate Attached()
      reads this, session
    {
      transport != null && (session != null ==> session.transport == transport)
    }

    ghost function SettingsOf(): Settings
      requires Attached()
      reads this, session
    {
      Settings(config.insecure, config.smEnable, config.resource, config.login, transport.doesStartTls)
    }

    ghost function What(): Kept
      requires Attached()
      reads this, transport, config, session, if session == null then null else session.queue
    {
      if session == null then Sessionless(transport.Value(), config.smResume) else Kept(true, session.Value(config))
    }

    ghost predicate Ready()
      reads this, session
    {
      transport != null && session != null && session.transport == transport
    }

    ghost function Value(): State
      requires Ready()
      reads this, transport, session, if session == null then null else session.queue
    {
      State(transport.Value(), if session.queue == null then None else Some(session.queue.uslice), session.sm.inbound)
    }

    method SendWithWriter(f: Frame) returns (err: Option<SendError>)
      requires Ready()
      modifies transport
      ensures (Value(), err) == old(Value()).Put(f)
    {
      var ok := transport.Write(f);
      return if ok then None else Some(WriteError);
    }

    method Send(packet: Packet) returns (err: Option<SendError>)
      requires transport != null ==> Attached()
      modifies transport, if session == null then null else session.queue
      ensures old(transport == null) ==> err == Some(NotConnected)
      ensures old(transport != null && session == null) ==> err == Some(NoSession) && unchanged(transport)
      ensures old(Ready()) ==> Ready() && (Value(), err) == SendPacket(old(Value()), config.smEnable, packet)
      ensures transport != null ==>
        Attached() && What() == if session == null then old(What()) else Moved(old(What()), Value())
    {
      if transport == null {
        return Some(NotConnected);
      }
      if session == null {
        return Some(NoSession);
      }
      if packet.StanzaPacket? {
        if packet.data.None? {
          return Some(CannotMarshal);
        }
        err := QueueAndWrite(packet.data.value);
      } else {
        err := SendWithWriter(if packet.AnswerPacket? then SmAnswer(packet.h) else SmRequest);
      }
    }

    method SendRaw(packet: string) returns (err: Option<SendError>)
      requires transport != null ==> Attached()
      modifies transport, if session == null then null else session.queue
      ensures old(transport == null) ==> err == Some(NotConnected)
      ensures old(transport != null && session == null) ==> err == Some(NoSession) && unchanged(transport)
      ensures old(Ready()) ==> Ready() && (Value(), err) == SendStanza(old(Value()), config.smEnable, packet)
      ensures old(Ready()) ==> StanzaSent(old(Value()), Value(), err, config.smEnable, packet)
    {
      if transport == null {
        return Some(NotConnected);
      }
      if session == null {
        return Some(NoSession);
      }
      SendStanzaMeans(Value(), config.smEnable, packet);
      err := QueueAndWrite(packet);
    }

    method QueueAndWrite(data: string) returns (err: Option<SendError>)
      requires Ready()
      modifies transport, session.queue
      ensures (Value(), err) == SendStanza(old(Value()), config.smEnable, data)
    {
      if config.smEnable {
        if session.queue == null {
          return Some(NoQueue);
        }
        var _ := session.queue.Push(Unacked(UnAckedStz(0, data)));
      }
      err := SendWithWriter(Stanza(data));
    }

    method SendMissingStz(lastSent: int) returns (err: Option<SendError>)
      requires Ready()
      modifies transport, session.queue
      ensures (Value(), err) == SendMissing(old(Value()), lastSent)
    {
      if session.queue == null {
        return None;
      }
      var uaq := session.queue;
      if |uaq.uslice| == 0 {
        return None;
      }
      uaq.Trim(lastSent);
      ghost var rest, net := uaq.uslice, transport.Value();
      var pending: seq<string> := [];
      for i := 0 to |uaq.uslice|
        invariant uaq.uslice == rest && transport.Value() == net
        invariant pending == Stanzas(uaq.uslice)[..i]
      {
        pending := pending + [uaq.uslice[i].stz];
      }
      assert pending == Stanzas(rest);
      for i := 0 to |pending|
        invariant uaq.uslice == rest
        invariant WriteAll(net, pending) == WriteAll(transport.Value(), pending[i..])
      {
        assert pending[i..][0] == pending[i] && pending[i..][1..] == pending[i + 1..];
        ghost var before := transport.Value();
        err := SendWithWriter(Stanza(pending[i]));
        assert transport.Value() == before.Write(Stanza(pending[i]));
        if err.Some? {
          assert WriteAll(before, pending[i..]) == (transport.Value(), false);
          return;
        }
      }
      if |pending| > 0 {
        err := Send(RequestPacket);
        return;
      }
      return None;
    }

    /** The receive loop; `events` collects what it does besides writing. */
    method Recv(packets: seq<Incoming>) returns (events: seq<Event>)
      requires Ready()
      modifies transport, session`sm, session.queue
      ensures Ready() && (Value(), events) == Receive(old(Value()), config.smEnable, packets)
      ensures What() == Moved(old(What()), Value())
    {
      events := [];
      ghost var whole := Receive(Value(), config.smEnable, packets);
      assert packets[0..] == packets && [] + whole.1 == whole.1;
      for i := 0 to |packets|
        invariant Ready() && transport == old(transport)
        invariant session == old(session) && session.queue == old(session.queue)
        invariant whole == Prepend(events, Receive(Value(), config.smEnable, packets[i..]))
        invariant session.sm == old(session.sm).(inbound := session.sm.inbound)
      {
        var val := packets[i];
        ghost var before, eventsBefore := Value(), events;
        assert packets[i..][0] == val && packets[i..][1..] == packets[i + 1..];
        if val.InRequest? {
          var err := Send(AnswerPacket(session.sm.inbound));
          if err.Some? {
            events := events + [ErrorReported];
            return;
          }
          continue;
        }
        if val.InAnswer? {
          var _ := SendMissingStz(val.h);
          PrependTwice(events, [Routed(val)], Receive(Value(), config.smEnable, packets[i + 1..]));
          events := events + [Routed(val)];
          continue;
        }
        if val.InClose? {
          events := events + [CloseSeen, Disconnected(session.sm.inbound)];
          return;
        }
        ghost var log := [Routed(val)];
        if val.InStreamError? {
          events := events + [Routed(val), StreamErrorSeen, ErrorReported];
          transport.Close();
          log := [Routed(val), StreamErrorSeen, ErrorReported, Routed(val)];
        } else if IsStanza(val) {
          session.sm := session.sm.(inbound := session.sm.inbound + 1);
        }
        ghost var tail := Receive(Value(), config.smEnable, packets[i + 1..]);
        assert Receive(before, config.smEnable, packets[i..]) == Prepend(log, tail);
        events := events + [Routed(val)];
        assert events == eventsBefore + log;
        PrependTwice(eventsBefore, log, tail);
      }
      events := events + [ErrorReported, Disconnected(session.sm.inbound)];
    }

    method PostSessionSetup() returns (err: Option<SendError>)
      requires Ready()
      modifies transport
      ensures (session.Value(config), err) == Setup(old(session.Value(config)))
    {
      if session.resumed {
        return None;
      }
      err := SendWithWriter(Stanza(INITIAL_PRESENCE));
    }

    method Disconnect()
      requires transport != null ==> Attached()
      modifies transport
      ensures transport != null ==> Attached() && What() == Shut(old(What()))
    {
      hide Net.Write;
      if transport != null {
        transport.Close();
      }
    }

    /** `dialled` is the outcome of dialling: the replies on the new connection, if there is one. */
    method Connect(dialled: Option<seq<Reply>>) returns (r: ConnectResult)
      requires Attached()
      modifies `session, transport, config, session, if session == null then null else session.queue
      ensures Attached()
      ensures (What(), r) == ConnectOn(old(What()), SettingsOf(), dialled)
    {
      hide Negotiate, Dial, Net.Write;
      var stream := transport.Connect(dialled);
      if stream.Err? {
        return NoStream(stream.error);
      }
      r := Establish(stream.value);
    }

    method Establish(streamId: string) returns (r: ConnectResult)
      requires Attached()
      modifies `session, transport, config, session, if session == null then null else session.queue
      ensures Attached()
      ensures (What(), r) == Establishing(old(What()).s, SettingsOf(), streamId)
    {
      hide Negotiate, Net.Write;
      var err;
      session, err := NewSession(session, transport, config, NO_STATE, null);
      if err.Some? {
        ghost var (v, outcome) := Negotiate(old(What()).s, SettingsOf());
        assert What() == if outcome.Lost? then Sessionless(v.net, v.smResume) else Kept(true, v);
        Disconnect();
        return NegotiationFailed(err.value);
      }
      session.streamId := streamId;
      var setupErr := PostSessionSetup();
      return if setupErr.None? then Connected else PresenceFailed;
    }
  }
}

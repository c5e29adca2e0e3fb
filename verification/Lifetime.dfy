/**
 A client over its whole life: attempts to connect that fail at any point or
 succeed, and sends, receive loops and disconnections in between, in any order.
 What is written, on what kind of link.
 */
module Lifetimes {
  import opened Wrappers
  import opened UnAckQueues
  import opened Transports
  import opened Scram
  import opened Sessions
  import opened Clients
  import opened Inbound
  import opened Negotiation

  datatype Step =
    | Connects(dialled: Option<seq<Reply>>)
    | Sends(packet: Packet)
    | Receives(packets: seq<Incoming>)
    | Disconnects

  function NewClient(fault: nat -> bool, o: Settings, wss: bool, smResume: bool): Kept {
    Sessionless(NewNet(fault, !o.doesStartTls && wss), smResume)
  }

  function Step1(k: Kept, o: Settings, step: Step): Kept {
    match step
    case Connects(dialled) => ConnectOn(k, o, dialled).0
    case Sends(packet) => if k.hasSession then Moved(k, SendPacket(StateOf(k), o.smEnable, packet).0) else k
    case Receives(packets) => if k.hasSession then Moved(k, Receive(StateOf(k), o.smEnable, packets).0) else k
    case Disconnects => Shut(k)
  }

  function Run(k: Kept, o: Settings, steps: seq<Step>): Kept {
    if steps == [] then k else Step1(Run(k, o, steps[..|steps| - 1]), o, steps[|steps| - 1])
  }

  // ------------------------------------------------------------------
  // What sending and receiving write

  lemma SendOnward(c: State, smEnable: bool, p: Packet, request: Frame)
    ensures Onward(c.net, SendPacket(c, smEnable, p).0.net, request)
  {
    hide Onward, Net.Write;
    NothingOnward(c.net, request);
    WriteOnward(c.net, SmRequest, request);
    if p.AnswerPacket? {
      WriteOnward(c.net, SmAnswer(p.h), request);
    } else if p.StanzaPacket? && p.data.Some? {
      WriteOnward(c.net, Stanza(p.data.value), request);
    }
  }

  lemma {:induction false} WriteAllOnward(n: Net, pending: seq<string>, request: Frame)
    ensures Onward(n, WriteAll(n, pending).0, request)
    decreases |pending|
  {
    hide Onward, Net.Write;
    if pending == [] {
      NothingOnward(n, request);
    } else {
      var n1 := n.Write(Stanza(pending[0]));
      WriteOnward(n, Stanza(pending[0]), request);
      WriteAllOnward(n1, pending[1..], request);
      OnwardOn(n, n1, WriteAll(n1, pending[1..]).0, request);
    }
  }

  lemma SendMissingOnward(c: State, h: int, request: Frame)
    ensures Onward(c.net, SendMissing(c, h).0.net, request)
  {
    hide Onward, Net.Write, WriteAll;
    NothingOnward(c.net, request);
    if c.queue.Some? {
      var pending := Stanzas(DropAcked(c.queue.value, h));
      var n := WriteAll(c.net, pending).0;
      WriteAllOnward(c.net, pending, request);
      WriteOnward(n, SmRequest, request);
      OnwardOn(c.net, n, n.Write(SmRequest), request);
    }
  }

  lemma {:induction false} ReceiveOnward(c: State, smEnable: bool, packets: seq<Incoming>, request: Frame)
    ensures Onward(c.net, Receive(c, smEnable, packets).0.net, request)
    decreases |packets|
  {
    NothingOnward(c.net, request);
    if packets != [] && !packets[0].InClose? {
      hide Onward;
      var c1 := AfterOne(c, smEnable, packets[0]);
      ReceiveUnfolds(c, smEnable, packets);
      AfterOneOnward(c, smEnable, packets[0], request);
      ReceiveOnward(c1, smEnable, packets[1..], request);
      OnwardOn(c.net, c1.net, Receive(c1, smEnable, packets[1..]).0.net, request);
    }
  }

  lemma AfterOneOnward(c: State, smEnable: bool, p: Incoming, request: Frame)
    ensures Onward(c.net, AfterOne(c, smEnable, p).net, request)
  {
    hide Onward, Net.Write, SendMissing, SendPacket;
    NothingOnward(c.net, request);
    SendOnward(c, smEnable, AnswerPacket(c.inbound), request);
    CloseOnward(c.net, request);
    if p.InAnswer? {
      SendMissingOnward(c, p.h, request);
    }
  }

  // ------------------------------------------------------------------
  // What holds over a client's life

  /** Written with the flag set and, when `strict`, on an encrypted link, unless `Insecure` is set. */
  predicate Safe(e: Entry, insecure: bool, strict: bool) {
    Private(e.frame) && !insecure ==> e.link.secure && (strict ==> e.link.encrypted)
  }

  ghost predicate AllSafe(log: seq<Entry>, insecure: bool, strict: bool) {
    forall i :: 0 <= i < |log| ==> Safe(log[i], insecure, strict)
  }

  /** The flag can be relied on, and when `strict` it means what it says. */
  predicate LinkSafe(link: Link, insecure: bool, strict: bool) {
    (link.secure || insecure) && (strict && link.secure ==> link.encrypted)
  }

  ghost predicate Sound(k: Kept, o: Settings, strict: bool) {
    && (k.s.tlsEnabled ==> k.s.net.link.secure)
    && k.s.late == 0
    && (k.hasSession ==> k.s.net.link.secure || o.insecure)
    && (strict && k.s.net.link.secure ==> k.s.net.link.encrypted)
    && AllSafe(k.s.net.log, o.insecure, strict)
  }

  lemma SafeOn(a: Net, b: Net, insecure: bool, strict: bool, request: Frame)
    requires AllSafe(a.log, insecure, strict) && LinkSafe(a.link, insecure, strict) && Onward(a, b, request)
    ensures AllSafe(b.log, insecure, strict) && b.link == a.link
  {
    forall i | 0 <= i < |b.log| ensures Safe(b.log[i], insecure, strict) {
      if i < |a.log| {
        assert b.log[i] == a.log[i];
      }
    }
  }

  lemma PublicWrite(n: Net, f: Frame, insecure: bool, strict: bool)
    requires AllSafe(n.log, insecure, strict) && !Private(f)
    ensures AllSafe(n.Write(f).log, insecure, strict) && n.Write(f).link == n.link
  {
  }

  lemma CloseSafe(n: Net, insecure: bool, strict: bool)
    requires AllSafe(n.log, insecure, strict)
    ensures AllSafe(n.Close().log, insecure, strict) && n.Close().link == n.link
  {
  }

  lemma OpenSafe(n: Net, insecure: bool, strict: bool)
    requires AllSafe(n.log, insecure, strict)
    ensures AllSafe(OpenStream(n).0.log, insecure, strict) && OpenStream(n).0.link == n.link
  {
    hide AllSafe, Net.Write;
    var n1 := n.Write(StreamOpen);
    PublicWrite(n, StreamOpen, insecure, strict);
    CloseSafe(n1, insecure, strict);
    assert n1.Consume().log == n1.log;
    CloseSafe(n1.Consume(), insecure, strict);
  }

  lemma NegotiateSafe(s: Sess, o: Settings, strict: bool)
    requires AllSafe(s.net.log, o.insecure, strict)
    requires strict && s.net.link.secure ==> s.net.link.encrypted
    ensures var n := Negotiate(s, o).0.net;
            && AllSafe(n.log, o.insecure, strict)
            && (strict && n.link.secure ==> n.link.encrypted)
  {
    hide Negotiate, Secured, Reads, Reach;
    NegotiationTrace(s, o);
    SecuredLink(s, o);
    var log := Negotiate(s, o).0.net.log;
    forall i | 0 <= i < |log| ensures Safe(log[i], o.insecure, strict) {
      if i < |s.net.log| {
        assert log[i] == s.net.log[i];
      }
    }
  }

  lemma EstablishingSound(s: Sess, o: Settings, streamId: string, strict: bool)
    requires Sound(Kept(false, s), o, strict)
    ensures Sound(Establishing(s, o, streamId).0, o, strict)
  {
    hide Negotiate, AllSafe, Net.Write, Net.Close;
    NegotiateSafe(s, o, strict);
    TlsFlagStep(s, o);
    var (v, outcome) := Negotiate(s, o);
    CloseSafe(v.net, o.insecure, strict);
    if outcome.Established? {
      WriteOnward(v.net, Stanza(INITIAL_PRESENCE), StreamOpen);
      SafeOn(v.net, v.net.Write(Stanza(INITIAL_PRESENCE)), o.insecure, strict, StreamOpen);
    }
  }

  lemma StepSound(k: Kept, o: Settings, step: Step, strict: bool)
    requires Sound(k, o, strict)
    requires strict && step.Connects? ==> !o.doesStartTls || !k.s.net.link.secure
    ensures Sound(Step1(k, o, step), o, strict)
  {
    hide AllSafe, Net.Write, Net.Close, OpenStream, Establishing, SendPacket, Receive;
    match step
    case Connects(dialled) =>
      if dialled.Some? {
        OpenSafe(Reconnected(k.s.net, o.doesStartTls, dialled.value), o.insecure, strict);
        var (s, r) := Dialled(k.s, o, dialled);
        if r.Ok? {
          EstablishingSound(s, o, r.value, strict);
        }
      }
    case Sends(packet) =>
      if k.hasSession {
        SendOnward(StateOf(k), o.smEnable, packet, StreamOpen);
        SafeOn(k.s.net, SendPacket(StateOf(k), o.smEnable, packet).0.net, o.insecure, strict, StreamOpen);
      }
    case Receives(packets) =>
      if k.hasSession {
        ReceiveOnward(StateOf(k), o.smEnable, packets, StreamOpen);
        SafeOn(k.s.net, Receive(StateOf(k), o.smEnable, packets).0.net, o.insecure, strict, StreamOpen);
      }
    case Disconnects =>
      CloseSafe(k.s.net, o.insecure, strict);
  }

  /** No dialling with the flag already set, but for websockets. */
  ghost predicate DialsFresh(k: Kept, o: Settings, steps: seq<Step>) {
    forall i :: 0 <= i < |steps| && steps[i].Connects? ==>
      !o.doesStartTls || !Run(k, o, steps[..i]).s.net.link.secure
  }

  lemma {:induction false} RunSound(k: Kept, o: Settings, steps: seq<Step>, strict: bool)
    requires Sound(k, o, strict) && (strict ==> DialsFresh(k, o, steps))
    ensures Sound(Run(k, o, steps), o, strict)
  {
    if steps != [] {
      var init := steps[..|steps| - 1];
      if strict {
        forall i | 0 <= i < |init| && init[i].Connects?
          ensures !o.doesStartTls || !Run(k, o, init[..i]).s.net.link.secure
        {
          assert init[..i] == steps[..i] && init[i] == steps[i];
        }
      }
      RunSound(k, o, init, strict);
      StepSound(Run(k, o, init), o, steps[|steps| - 1], strict);
    }
  }

  /**
   Over every life of a client: `TlsEnabled` implies that the transport is
   secure, and no negotiation, the next one included, ever tries a write while
   an error is recorded.
   */
  lemma NeverLate(fault: nat -> bool, o: Settings, wss: bool, smResume: bool, steps: seq<Step>,
                  dialled: Option<seq<Reply>>)
    ensures var k := Run(NewClient(fault, o, wss, smResume), o, steps);
            && (k.s.tlsEnabled ==> k.s.net.link.secure)
            && Negotiate(Dialled(k.s, o, dialled).0, o).0.late == k.s.late == 0
  {
    hide Negotiate, Run, OpenStream, Sound;
    var k := Run(NewClient(fault, o, wss, smResume), o, steps);
    NewSound(fault, o, wss, smResume, false);
    RunSound(NewClient(fault, o, wss, smResume), o, steps, false);
    SoundMeans(k, o);
    DialKeepsFlag(k.s, o, dialled);
    TlsFlagStep(Dialled(k.s, o, dialled).0, o);
  }

  lemma NewSound(fault: nat -> bool, o: Settings, wss: bool, smResume: bool, strict: bool)
    ensures Sound(NewClient(fault, o, wss, smResume), o, strict)
  {
  }

  lemma SoundMeans(k: Kept, o: Settings)
    requires Sound(k, o, false)
    ensures (k.s.tlsEnabled ==> k.s.net.link.secure) && k.s.late == 0
  {
  }

  lemma DialKeepsFlag(s: Sess, o: Settings, dialled: Option<seq<Reply>>)
    ensures var s1 := Dialled(s, o, dialled).0;
            && s1 == s.(net := s1.net) && s1.net.link.secure == s.net.link.secure
            && (dialled.Some? ==> s1.net.link.encrypted == (!o.doesStartTls && s.net.link.secure))
  {
    if dialled.Some? {
      OpenOnward(Reconnected(s.net, o.doesStartTls, dialled.value), StreamOpen);
    }
  }

  /**
   Over every life of a client without `Insecure`: everything but stream
   headers, stream ends and requests for TLS is written with the flag set.
   As long as a TCP transport is never dialled again with the flag set, it is
   also written on an encrypted link; this covers the first connection, and
   every life on a websocket.
   */
  lemma PrivateIsEncrypted(fault: nat -> bool, o: Settings, wss: bool, smResume: bool, steps: seq<Step>)
    requires !o.insecure
    ensures var k0 := NewClient(fault, o, wss, smResume);
            var log := Run(k0, o, steps).s.net.log;
            && (forall i :: 0 <= i < |log| && Private(log[i].frame) ==> log[i].link.secure)
            && (DialsFresh(k0, o, steps) ==>
                  forall i :: 0 <= i < |log| && Private(log[i].frame) ==> log[i].link.encrypted)
  {
    hide Run, DialsFresh;
    var k0 := NewClient(fault, o, wss, smResume);
    NewSound(fault, o, wss, smResume, false);
    NewSound(fault, o, wss, smResume, true);
    RunSound(k0, o, steps, false);
    if DialsFresh(k0, o, steps) {
      RunSound(k0, o, steps, true);
    }
  }

  /** The request that PLAIN makes, which holds the secret. */
  function PlainRequest(l: Login): Frame {
    SaslAuth("PLAIN", l.crypto.Pack([0 as char] + l.user + [0 as char] + l.secret))
  }

  const NEVER: nat -> bool := n => false

  lemma PlainWrites(n: Net, l: Login, f: Features)
    requires l.accepted == ["PLAIN"] && "PLAIN" in f.mechanisms && n.fault == NEVER && n.replies == []
    ensures var (n', e) := Authenticate(n, l, f);
            n' == n.Write(PlainRequest(l)).Consume() && e.Some?
  {
    assert Choose(l.accepted, f.mechanisms) == Some("PLAIN");
  }

  lemma OpenAccepted(n: Net, id: string)
    requires n.fault == NEVER && n.Next() == OpenedStream(id)
    ensures OpenStream(n) == (n.Write(StreamOpen).Consume(), Ok(id))
  {
  }

  /** A session taken up again with the flag set sends its secret in clear, whatever else the server offers. */
  lemma CarriedPlain(s: Sess, o: Settings, id: string, f: Features)
    requires !o.insecure && s.tlsEnabled && s.net.link == Link(true, false) && s.net.fault == NEVER
    requires o.login.accepted == ["PLAIN"] && "PLAIN" in f.mechanisms
    requires s.net.replies == [FeaturesReply(f), OpenedStream(id), FeaturesReply(f)]
    ensures Negotiate(s, o).0.net.log
         == s.net.log + [Entry(StreamOpen, Link(true, false)), Entry(PlainRequest(o.login), Link(true, false))]
  {
    hide OpenStream, Authenticate;
    var s1 := Secured(s, o);
    assert s1 == s.(net := s.net.Consume(), features := f, err := None);
    OpenAccepted(s1.net, id);
    var s2 := Reopened(s1);
    var open := s1.net.Write(StreamOpen).Consume();
    assert s2 == s1.(net := open.Consume(), streamId := id, late := s1.late, resumed := false);
    PlainWrites(s2.net, o.login, f);
    assert Negotiate(s, o).0 == AuthStep(s2, o);
  }

  /** A first connection that breaks off right after the TLS handshake leaves a session with the flag set. */
  lemma BrokenAfterTls(k: Kept, o: Settings, id: string, f: Features)
    requires !o.insecure && o.doesStartTls && f.startTls
    requires k == NewClient(NEVER, o, false, k.s.smResume)
    ensures var dialled := Some([OpenedStream(id), FeaturesReply(f), TlsProceed, TlsHandshake(true)]);
            var k1 := ConnectOn(k, o, dialled).0;
            k1.hasSession && k1.s.tlsEnabled && k1.s.net.link == Link(true, true) && k1.s.net.fault == NEVER
  {
    hide OpenStream, Authenticate;
    var dialled := Some([OpenedStream(id), FeaturesReply(f), TlsProceed, TlsHandshake(true)]);
    OpenAccepted(Reconnected(k.s.net, true, dialled.value), id);
    var s := Dialled(k.s, o, dialled).0;
    assert s.net.replies == [FeaturesReply(f), TlsProceed, TlsHandshake(true)];
    var s1 := Secured(s, o);
    assert s1.tlsEnabled && s1.err.None? && s1.net.link == Link(true, true);
    assert s1.net.replies == [] && s1.net.fault == NEVER;
    OpenRefused(s1.net);
  }

  lemma OpenRefused(n: Net)
    requires n.fault == NEVER && n.replies == []
    ensures OpenStream(n).1.Err? && OpenStream(n).0.link == n.link && OpenStream(n).0.fault == NEVER
  {
  }

  /**
   It does happen: a connection that breaks off after the TLS handshake, and a
   second one to the same server, with `Insecure` unset and TLS offered on
   both. The secret of PLAIN goes out in clear.
   */
  lemma ReconnectInClear(o: Settings, smResume: bool, id: string, f: Features)
    requires !o.insecure && o.doesStartTls && f.startTls
    requires o.login.accepted == ["PLAIN"] && "PLAIN" in f.mechanisms
    ensures var first := Some([OpenedStream(id), FeaturesReply(f), TlsProceed, TlsHandshake(true)]);
            var second := Some([OpenedStream(id), FeaturesReply(f), OpenedStream(id), FeaturesReply(f)]);
            var k1 := ConnectOn(NewClient(NEVER, o, false, smResume), o, first).0;
            var log := ConnectOn(k1, o, second).0.s.net.log;
            exists i :: 0 <= i < |log| && log[i].frame == PlainRequest(o.login) && !log[i].link.encrypted
  {
    hide Negotiate, OpenStream, Setup;
    var k0 := NewClient(NEVER, o, false, smResume);
    var first := Some([OpenedStream(id), FeaturesReply(f), TlsProceed, TlsHandshake(true)]);
    var second := Some([OpenedStream(id), FeaturesReply(f), OpenedStream(id), FeaturesReply(f)]);
    BrokenAfterTls(k0, o, id, f);
    var k1 := ConnectOn(k0, o, first).0;
    OpenAccepted(Reconnected(k1.s.net, true, second.value), id);
    var s := Dialled(k1.s, o, second).0;
    CarriedPlain(s, o, id, f);
    SetupGrows(Negotiate(s, o).0, o, id, s);
    var log := ConnectOn(k1, o, second).0.s.net.log;
    assert log[|s.net.log| + 1].frame == PlainRequest(o.login);
  }

  lemma SetupGrows(v: Sess, o: Settings, streamId: string, s: Sess)
    requires v == Negotiate(s, o).0
    ensures v.net.log <= Establishing(s, o, streamId).0.s.net.log
  {
    hide Negotiate;
  }
}

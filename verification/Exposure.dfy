/**
 When a client without `Insecure` lets something private out in clear: exactly
 when, for one attempt to connect and over its whole life.
 */
module Exposures {
  import opened Wrappers
  import UnAckQueues
  import opened Transports
  import opened Sessions
  import opened Clients
  import opened Inbound
  import opened Negotiation
  import opened Lifetimes

  // ------------------------------------------------------------------
  // What one step writes, told before it is taken

  /** Sending comes to its write, and the write goes through. */
  predicate Sendable(c: State, smEnable: bool, p: Packet) {
    && c.net.Accepts()
    && (p.StanzaPacket? ==> p.data.Some? && (smEnable ==> c.queue.Some?))
  }

  /** A request is answered, or an answer leaves something to resend. */
  predicate Responds(c: State, p: Incoming) {
    && c.net.Accepts()
    && (p.InRequest? || (p.InAnswer? && c.queue.Some? && UnAckQueues.DropAcked(c.queue.value, p.h) != []))
  }

  /** The loop responds to one of the packets it gets to see. */
  predicate LoopResponds(c: State, smEnable: bool, packets: seq<Incoming>)
    decreases |packets|
  {
    && packets != [] && !packets[0].InClose?
    && (|| Responds(c, packets[0])
        || (!packets[0].InRequest? && LoopResponds(AfterOne(c, smEnable, packets[0]), smEnable, packets[1..])))
  }

  /** Dialling gives a stream on which the script lets the client authenticate. */
  predicate ConnectAuthenticates(k: Kept, o: Settings, dialled: Option<seq<Reply>>) {
    && dialled.Some? && dialled.value != [] && dialled.value[0].OpenedStream? && k.s.net.Accepts()
    && var n := k.s.net.(attempts := k.s.net.attempts + 1, replies := dialled.value[1..]);
       Authenticates(k.s.(net := n), o)
  }

  /** The step is going to write something private on a link that is not encrypted. */
  predicate Exposes(k: Kept, o: Settings, step: Step) {
    match step
    case Connects(dialled) => o.doesStartTls && k.s.net.link.secure && ConnectAuthenticates(k, o, dialled)
    case Sends(packet) => k.hasSession && !k.s.net.link.encrypted && Sendable(StateOf(k), o.smEnable, packet)
    case Receives(packets) =>
      k.hasSession && !k.s.net.link.encrypted && LoopResponds(StateOf(k), o.smEnable, packets)
    case Disconnects => false
  }

  // ------------------------------------------------------------------
  // Logs in parts

  lemma PrivateSplit(a: seq<Entry>, b: seq<Entry>, c: seq<Entry>)
    requires a <= b <= c
    ensures WritesPrivate(c, |a|) <==> WritesPrivate(b, |a|) || WritesPrivate(c, |b|)
  {
    assert forall i :: 0 <= i < |b| ==> b[i] == c[i];
  }

  lemma InClearSplit(a: seq<Entry>, b: seq<Entry>, c: seq<Entry>)
    requires a <= b <= c
    ensures PrivateInClear(c, |a|) <==> PrivateInClear(b, |a|) || PrivateInClear(c, |b|)
  {
    assert forall i :: 0 <= i < |b| ==> b[i] == c[i];
  }

  lemma QuietIsNotInClear(log: seq<Entry>, start: nat)
    requires !WritesPrivate(log, start)
    ensures !PrivateInClear(log, start)
  {
  }

  lemma OnOneLink(a: Net, b: Net, request: Frame)
    requires Onward(a, b, request)
    ensures a.log <= b.log
    ensures PrivateInClear(b.log, |a.log|) <==> !a.link.encrypted && WritesPrivate(b.log, |a.log|)
  {
  }

  lemma CloseQuiet(n: Net)
    ensures n.log <= n.Close().log && !WritesPrivate(n.Close().log, |n.log|)
  {
  }

  // ------------------------------------------------------------------
  // Sending and receiving

  lemma SendPrivateIff(c: State, smEnable: bool, p: Packet)
    ensures WritesPrivate(SendPacket(c, smEnable, p).0.net.log, |c.net.log|) <==> Sendable(c, smEnable, p)
  {
    var log := SendPacket(c, smEnable, p).0.net.log;
    if Sendable(c, smEnable, p) {
      assert Private(log[|c.net.log|].frame);
    }
  }

  lemma WriteAllPrivateIff(n: Net, pending: seq<string>)
    ensures n.log <= WriteAll(n, pending).0.log
    ensures WritesPrivate(WriteAll(n, pending).0.log, |n.log|) <==> n.Accepts() && pending != []
    ensures !n.Accepts() && pending != [] ==> !WriteAll(n, pending).1
  {
    if pending != [] && n.Accepts() {
      var n1 := n.Write(Stanza(pending[0]));
      WriteAllOnward(n1, pending[1..], SmRequest);
      OnwardLog(n1, WriteAll(n1, pending[1..]).0, SmRequest);
      SomePrivate(WriteAll(n, pending).0.log, |n.log|, |n.log|);
    }
  }

  lemma SendMissingPrivateIff(c: State, h: int)
    ensures WritesPrivate(SendMissing(c, h).0.net.log, |c.net.log|)
       <==> c.net.Accepts() && c.queue.Some? && UnAckQueues.DropAcked(c.queue.value, h) != []
  {
    if c.queue.Some? {
      var pending := UnAckQueues.Stanzas(UnAckQueues.DropAcked(c.queue.value, h));
      var n := WriteAll(c.net, pending).0;
      WriteAllPrivateIff(c.net, pending);
      WriteOnward(n, SmRequest, SmRequest);
      OnwardLog(n, n.Write(SmRequest), SmRequest);
      PrivateSplit(c.net.log, n.log, n.Write(SmRequest).log);
      hide WriteAll, Onward, WritesPrivate, Net.Write, Net.Accepts;
    }
  }

  lemma AfterOnePrivateIff(c: State, smEnable: bool, p: Incoming)
    ensures WritesPrivate(AfterOne(c, smEnable, p).net.log, |c.net.log|) <==> Responds(c, p)
  {
    SendPrivateIff(c, smEnable, AnswerPacket(c.inbound));
    CloseQuiet(c.net);
    if p.InAnswer? {
      SendMissingPrivateIff(c, p.h);
    }
    hide SendPacket, SendMissing, Net.Close;
  }

  lemma {:induction false} ReceivePrivateIff(c: State, smEnable: bool, packets: seq<Incoming>)
    ensures WritesPrivate(Receive(c, smEnable, packets).0.net.log, |c.net.log|) <==> LoopResponds(c, smEnable, packets)
    decreases |packets|
  {
    if packets != [] && !packets[0].InClose? {
      var p, c1 := packets[0], AfterOne(c, smEnable, packets[0]);
      var after := Receive(c1, smEnable, packets[1..]).0;
      ReceiveUnfolds(c, smEnable, packets);
      AfterOnePrivateIff(c, smEnable, p);
      ReceivePrivateIff(c1, smEnable, packets[1..]);
      AfterOneOnward(c, smEnable, p, StreamOpen);
      OnwardLog(c.net, c1.net, StreamOpen);
      ReceiveOnward(c1, smEnable, packets[1..], StreamOpen);
      OnwardLog(c1.net, after.net, StreamOpen);
      PrivateSplit(c.net.log, c1.net.log, after.net.log);
      hide Receive, AfterOne, Onward, WritesPrivate;
    }
  }

  // ------------------------------------------------------------------
  // Connecting

  /** The presence is not the first private thing that a negotiation lets out. */
  lemma EstablishedWrote(s: Sess, o: Settings)
    requires Negotiate(s, o).1.Established?
    ensures var n := Negotiate(s, o).0.net;
            s.net.log <= n.log && (!n.link.encrypted ==> PrivateInClear(n.log, |s.net.log|))
  {
    hide Negotiate, Secured, Reads;
    NegotiationTrace(s, o);
    NegotiationOutcome(s, o);
    var v := Negotiate(s, o).0;
    var start := |s.net.log|;
    if v.resumed {
      assert |v.net.log| > start;
      assert Private(v.net.log[|v.net.log| - 1].frame);
    } else {
      assert BindWritten(v.net.log, start, o.resource);
    }
  }

  lemma EstablishingInClearIff(s: Sess, o: Settings, streamId: string)
    requires !o.insecure
    ensures var log := Establishing(s, o, streamId).0.s.net.log;
            && s.net.log <= log
            && (PrivateInClear(log, |s.net.log|)
                <==> s.net.link.secure && !s.net.link.encrypted && Authenticates(s, o))
  {
    hide Negotiate, Authenticates, PrivateInClear, Onward, Net.Close, Secured, Reads, Reach;
    NegotiationTrace(s, o);
    PrivateInClearIff(s, o);
    var (v, outcome) := Negotiate(s, o);
    var log := Establishing(s, o, streamId).0.s.net.log;
    if outcome.Established? {
      EstablishedWrote(s, o);
      WriteOnward(v.net, Stanza(INITIAL_PRESENCE), StreamOpen);
      NothingOnward(v.net, StreamOpen);
      OnOneLink(v.net, Establishing(s, o, streamId).0.s.net, StreamOpen);
    } else {
      CloseQuiet(v.net);
      QuietIsNotInClear(log, |v.net.log|);
    }
    InClearSplit(s.net.log, v.net.log, log);
  }

  /**
   With `Insecure` unset an attempt to connect lets something private out in
   clear exactly when a TCP transport is dialled with its flag already set and
   the script lets the client authenticate.
   */
  lemma ConnectInClearIff(k: Kept, o: Settings, dialled: Option<seq<Reply>>)
    requires !o.insecure
    ensures var log := ConnectOn(k, o, dialled).0.s.net.log;
            && k.s.net.log <= log
            && (PrivateInClear(log, |k.s.net.log|)
                <==> o.doesStartTls && k.s.net.link.secure && ConnectAuthenticates(k, o, dialled))
  {
    hide Dialled, Establishing, Authenticates, PrivateInClear, Net.Accepts;
    DialledQuiet(k, o, dialled);
    var (s, r) := Dialled(k.s, o, dialled);
    if r.Ok? {
      EstablishingInClearIff(s, o, r.value);
      InClearSplit(k.s.net.log, s.net.log, Establishing(s, o, r.value).0.s.net.log);
      SameScript(s, k.s.(net := k.s.net.(attempts := k.s.net.attempts + 1, replies := dialled.value[1..])), o);
    }
  }

  /** Dialling writes nothing private, and reads one reply. */
  lemma DialledQuiet(k: Kept, o: Settings, dialled: Option<seq<Reply>>)
    ensures var (s, r) := Dialled(k.s, o, dialled);
            && k.s.net.log <= s.net.log && !PrivateInClear(s.net.log, |k.s.net.log|)
            && s.tlsEnabled == k.s.tlsEnabled && s.net.link.secure == k.s.net.link.secure
            && (r.Ok? <==> dialled.Some? && dialled.value != [] && dialled.value[0].OpenedStream? && k.s.net.Accepts())
            && (r.Ok? ==>
                  && s.net.attempts == k.s.net.attempts + 1 && s.net.replies == dialled.value[1..]
                  && s.net.fault == k.s.net.fault
                  && s.net.link.encrypted == (!o.doesStartTls && k.s.net.link.secure))
  {
    hide OpenStream, WritesPrivate, PrivateInClear;
    DialKeepsFlag(k.s, o, dialled);
    if dialled.Some? {
      var n := Reconnected(k.s.net, o.doesStartTls, dialled.value);
      OpenQuiet(n);
      OpenReads(n);
      QuietIsNotInClear(OpenStream(n).0.log, |n.log|);
    } else {
      NothingInClear(k.s.net.log);
    }
  }

  lemma NothingInClear(log: seq<Entry>)
    ensures !PrivateInClear(log, |log|)
  {
  }

  lemma OpenReads(n: Net)
    ensures var (n', r) := OpenStream(n);
            && (r.Ok? <==> n.Accepts() && n.replies != [] && n.replies[0].OpenedStream?)
            && (r.Ok? ==> n'.attempts == n.attempts + 1 && n'.replies == n.replies[1..] && n'.fault == n.fault)
  {
  }

  lemma SameScript(a: Sess, b: Sess, o: Settings)
    requires a.tlsEnabled == b.tlsEnabled && a.net.replies == b.net.replies
    requires a.net.attempts == b.net.attempts && a.net.fault == b.net.fault
    ensures Authenticates(a, o) == Authenticates(b, o)
  {
  }

  // ------------------------------------------------------------------
  // A whole life

  lemma StepInClearIff(k: Kept, o: Settings, step: Step)
    requires !o.insecure && Sound(k, o, false)
    ensures var log := Step1(k, o, step).s.net.log;
            k.s.net.log <= log && (PrivateInClear(log, |k.s.net.log|) <==> Exposes(k, o, step))
  {
    var c := StateOf(k);
    match step
    case Connects(dialled) =>
      ConnectInClearIff(k, o, dialled);
      hide ConnectOn, ConnectAuthenticates, PrivateInClear;
    case Sends(packet) =>
      SendOnward(c, o.smEnable, packet, StreamOpen);
      OnOneLink(c.net, SendPacket(c, o.smEnable, packet).0.net, StreamOpen);
      SendPrivateIff(c, o.smEnable, packet);
      hide SendPacket, Sendable, WritesPrivate, Onward;
    case Receives(packets) =>
      ReceiveOnward(c, o.smEnable, packets, StreamOpen);
      OnOneLink(c.net, Receive(c, o.smEnable, packets).0.net, StreamOpen);
      ReceivePrivateIff(c, o.smEnable, packets);
      hide Receive, LoopResponds, WritesPrivate, Onward;
    case Disconnects =>
      CloseQuiet(k.s.net);
      QuietIsNotInClear(k.s.net.Close().log, |k.s.net.log|);
      hide PrivateInClear, WritesPrivate;
  }

  /** Some step of the life writes something private on a link that is not encrypted. */
  ghost predicate SomeStepExposes(k: Kept, o: Settings, steps: seq<Step>) {
    exists i :: 0 <= i < |steps| && Exposes(Run(k, o, steps[..i]), o, steps[i])
  }

  lemma SomeStepExposesUnfolds(k: Kept, o: Settings, steps: seq<Step>)
    requires steps != []
    ensures SomeStepExposes(k, o, steps)
       <==> || SomeStepExposes(k, o, steps[..|steps| - 1])
            || Exposes(Run(k, o, steps[..|steps| - 1]), o, steps[|steps| - 1])
  {
    hide Run, Exposes;
    var init := steps[..|steps| - 1];
    assert forall i :: 0 <= i < |init| ==> init[..i] == steps[..i] && init[i] == steps[i];
  }

  lemma {:induction false} RunInClearIff(k: Kept, o: Settings, steps: seq<Step>)
    requires !o.insecure && Sound(k, o, false)
    ensures var log := Run(k, o, steps).s.net.log;
            k.s.net.log <= log && (PrivateInClear(log, |k.s.net.log|) <==> SomeStepExposes(k, o, steps))
  {
    if steps != [] {
      var init := steps[..|steps| - 1];
      var mid := Run(k, o, init);
      RunInClearIff(k, o, init);
      RunSound(k, o, init, false);
      StepInClearIff(mid, o, steps[|steps| - 1]);
      SomeStepExposesUnfolds(k, o, steps);
      InClearSplit(k.s.net.log, mid.s.net.log, Run(k, o, steps).s.net.log);
      hide Step1, Exposes, PrivateInClear, SomeStepExposes, Sound;
    }
  }

  /**
   Over every life of a client without `Insecure`, something private goes out
   in clear exactly when some step exposes it: a TCP transport dialled again
   with its flag set lets the client authenticate, or the client goes on
   sending or answering on such a connection.
   */
  lemma LifeInClearIff(fault: nat -> bool, o: Settings, wss: bool, smResume: bool, steps: seq<Step>)
    requires !o.insecure
    ensures var k := NewClient(fault, o, wss, smResume);
            PrivateInClear(Run(k, o, steps).s.net.log, 0) <==> SomeStepExposes(k, o, steps)
  {
    hide Run, SomeStepExposes, PrivateInClear, Sound;
    NewSound(fault, o, wss, smResume, false);
    RunInClearIff(NewClient(fault, o, wss, smResume), o, steps);
  }
}

/**
 What an attempt to reconnect does to the stanzas that are not acknowledged
 yet: when they stay queued, when the server's count trims them, and when they
 are forgotten.
 */
module Retention {
  import opened Wrappers
  import opened UnAckQueues
  import opened Transports
  import opened Scram
  import opened Sessions
  import opened Clients
  import Negotiation

  datatype Fate = Keeps | Trims(h: Option<nat>) | Forgets

  // ------------------------------------------------------------------
  // The fate, told before connecting

  predicate FeaturesArrive(s: Sess) {
    s.net.replies != [] && s.net.replies[0].FeaturesReply?
  }

  /** The flag is set, need not be, or the script lets the upgrade to TLS succeed. */
  predicate TlsAsRequired(s: Sess, o: Settings)
    requires FeaturesArrive(s)
  {
    var r := s.net.replies;
    || s.net.link.secure || o.insecure
    || (o.doesStartTls && r[0].features.startTls
        && |r| > 2 && r[1].TlsProceed? && r[2] == TlsHandshake(true))
  }

  /** What is left after a write that goes through, or does not matter, and a read. */
  function Turned(n: Net): Net {
    n.Consume().(attempts := n.attempts + 1)
  }

  /** From here on binding succeeds and the request to enable stream management is answered. */
  predicate EnableAnswered(n: Net, f: Features, o: Settings) {
    && n.Accepts() && n.Next().IqBind?
    && (f.sessionRequired ==> Turned(n).Accepts() && IsElement(Turned(n).Next()))
    && f.sm && o.smEnable
    && var last := if f.sessionRequired then Turned(Turned(n)) else Turned(n);
       last.Accepts() && (last.Next().SmEnabled? || last.Next().SmFailed?)
  }

  /** With the session as authentication leaves it. */
  function FateAfterLogin(s: Sess, o: Settings): Fate {
    if Negotiation.MayResume(s, o) && s.net.Accepts() then
      var r := s.net.Next();
      if r.SmResumed? && r.prevId == s.sm.id then Trims(r.h) else Forgets
    else
      var n := if Negotiation.MayResume(s, o) then s.net.(attempts := s.net.attempts + 1) else s.net;
      if EnableAnswered(n, s.features, o) then Forgets else Keeps
  }

  function FateOf(s: Sess, o: Settings): Fate {
    if !FeaturesArrive(s) || !TlsAsRequired(s, o) then Forgets
    else
      var s1 := Authenticated(Secured(s, o), o);
      if s1.err.Some? then Keeps else FateAfterLogin(s1, o)
  }

  // ------------------------------------------------------------------
  // The fate is what happens

  /** The queue after the attempt, given the queue before. */
  predicate Suffers(fate: Fate, before: Option<Items>, after: Option<Items>) {
    match fate
    case Keeps => after == before
    case Trims(h) => after == if h.Some? && before.Some? then Some(DropAcked(before.value, h.value)) else before
    case Forgets => after == None || after == Some([])
  }

  /** Nothing but the log and the link tells the two apart. */
  ghost predicate Alike(a: Net, b: Net) {
    a.attempts == b.attempts && a.replies == b.replies && a.fault == b.fault
  }

  lemma AskTurns(s: Sess, f: Frame)
    ensures var (s1, r) := s.Ask(f);
            && s1 == s.(net := s1.net, late := s1.late)
            && r == (if s.net.Accepts() then Some(s.net.Next()) else None)
            && Alike(s1.net, if s.net.Accepts() then Turned(s.net) else s.net.(attempts := s.net.attempts + 1))
  {
  }

  lemma BindFate(s: Sess, o: Settings)
    requires s.err.None?
    ensures var s1 := BindStep(s, o);
            && (s1.err.None? <==> s.net.Accepts() && s.net.Next().IqBind?)
            && (s1.err.None? ==> Alike(s1.net, Turned(s.net)))
            && s1.queue == s.queue && s1.features == s.features && s1.resumed == s.resumed
  {
    var id := s.lastPacketId + 1;
    AskTurns(s.(lastPacketId := id), BindIq(id, o.resource));
    hide Sess.Ask, Alike, IsElement, Turned;
  }

  lemma SessionFate(s: Sess)
    requires s.err.None?
    ensures var s1 := Rfc3921Step(s);
            && (s1.err.None? <==> (s.features.sessionRequired ==> s.net.Accepts() && IsElement(s.net.Next())))
            && (s1.err.None? ==> Alike(s1.net, if s.features.sessionRequired then Turned(s.net) else s.net))
            && s1.queue == s.queue && s1.features == s.features && s1.resumed == s.resumed
  {
    var id := s.lastPacketId + 1;
    AskTurns(s.(lastPacketId := id), SessionIq(id));
    hide Sess.Ask, IsElement, Turned;
  }

  lemma EnableFate(s: Sess, o: Settings)
    requires s.err.None?
    ensures EnableStep(s, o).queue
         == if s.features.sm && o.smEnable && s.net.Accepts() && (s.net.Next().SmEnabled? || s.net.Next().SmFailed?)
            then Some([]) else s.queue
    ensures EnableStep(s, o).resumed == s.resumed
  {
    AskTurns(s, SmEnable(s.smResume));
    hide Sess.Ask, IsPacket, ParsesTrue, Turned;
  }

  lemma AlikeTurns(a: Net, b: Net)
    requires Alike(a, b)
    ensures a.Accepts() == b.Accepts() && a.Next() == b.Next() && Alike(Turned(a), Turned(b))
  {
  }

  lemma EnableKeepsOrRenews(s: Sess, o: Settings)
    requires s.err.None?
    ensures BindAndEnable(s, o).queue == if EnableAnswered(s.net, s.features, o) then Some([]) else s.queue
    ensures BindAndEnable(s, o).resumed == s.resumed
  {
    hide BindStep, Rfc3921Step, EnableStep, Turned, Alike, IsElement, Net.Accepts, Net.Next;
    var s1 := BindStep(s, o);
    BindFate(s, o);
    if s1.err.Some? {
      ErrorSkipsRest(s1, o);
    } else {
      AlikeTurns(s1.net, Turned(s.net));
      SessionFate(s1);
      var s2 := Rfc3921Step(s1);
      if s2.err.Some? {
        ErrorSkipsRest(s2, o);
      } else {
        AlikeTurns(s2.net, if s1.features.sessionRequired then Turned(s1.net) else s1.net);
        EnableFate(s2, o);
        if s1.features.sessionRequired {
          AlikeTurns(Turned(s1.net), Turned(Turned(s.net)));
        }
      }
    }
  }

  lemma AlikeEnables(a: Net, b: Net, f: Features, o: Settings)
    requires Alike(a, b)
    ensures EnableAnswered(a, f, o) == EnableAnswered(b, f, o)
  {
    AlikeTurns(a, b);
    AlikeTurns(Turned(a), Turned(b));
    AlikeTurns(Turned(Turned(a)), Turned(Turned(b)));
    hide Alike, Turned, Net.Accepts, Net.Next, IsElement;
  }

  lemma ResumeFate(s: Sess, o: Settings)
    requires s.err.None?
    ensures var (s1, done) := ResumeStep(s, o);
            var asked := Negotiation.MayResume(s, o) && s.net.Accepts();
            var r := s.net.Next();
            && (done <==> asked && r.SmResumed? && r.prevId == s.sm.id)
            && (done ==> s1.queue == (if r.h.Some? && s.queue.Some? then Some(DropAcked(s.queue.value, r.h.value))
                                      else s.queue))
            && (asked && !done ==> s1.queue == None)
            && s1.resumed == (done || s.resumed) && (done ==> s1.err.None?)
            && (!asked ==> s1.queue == s.queue && s1.err.None? && s1.features == s.features
                           && Alike(s1.net, if Negotiation.MayResume(s, o) then s.net.(attempts := s.net.attempts + 1)
                                            else s.net))
  {
    AskTurns(s, SmResume(s.sm.id, s.sm.inbound));
    hide Sess.Ask, IsPacket, Turned, DropAcked, Net.Accepts, Net.Next;
    hide Net.Consume;
    ReplyFate(s.Ask(SmResume(s.sm.id, s.sm.inbound)).0, s.net.Next());
    hide OnResumeReply;
  }

  lemma ReplyFate(s: Sess, r: Reply)
    ensures var (s1, done) := OnResumeReply(s, r);
            && (done <==> r.SmResumed? && r.prevId == s.sm.id)
            && (done ==> s1.queue == (if r.h.Some? && s.queue.Some? then Some(DropAcked(s.queue.value, r.h.value))
                                      else s.queue))
            && (!done ==> s1.queue == None)
            && s1.resumed == (done || s.resumed) && (done ==> s1.err.None?)
  {
    hide DropAcked;
  }

  lemma LoginFate(s: Sess, o: Settings)
    requires s.err.None? && !s.resumed
    ensures Suffers(FateAfterLogin(s, o), s.queue, EstablishRest(s, o).queue)
    ensures EstablishRest(s, o).resumed <==> FateAfterLogin(s, o).Trims?
    ensures EstablishRest(s, o).resumed ==> EstablishRest(s, o).err.None?
  {
    hide ResumeStep, BindAndEnable, EnableAnswered, Alike, Net.Accepts, Net.Next, DropAcked, Negotiation.MayResume;
    ResumeFate(s, o);
    var (s1, done) := ResumeStep(s, o);
    if !done {
      if s1.err.Some? {
        ErrorSkipsAll(s1, o);
      } else {
        EnableKeepsOrRenews(s1, o);
        if !(Negotiation.MayResume(s, o) && s.net.Accepts()) {
          var n := if Negotiation.MayResume(s, o) then s.net.(attempts := s.net.attempts + 1) else s.net;
          AlikeEnables(s1.net, n, s.features, o);
        }
      }
    }
  }

  lemma ErrorSkipsAll(s: Sess, o: Settings)
    requires s.err.Some?
    ensures BindAndEnable(s, o) == s
  {
    hide Sess.Ask;
  }

  lemma StartTlsFlag(s: Sess, o: Settings)
    requires s.err.None? && !s.net.link.secure
    ensures var r := s.net.replies;
            StartTlsStep(s, o).net.link.secure <==>
            o.doesStartTls && s.features.startTls && |r| > 1 && r[0].TlsProceed? && r[1] == TlsHandshake(true)
  {
    hide Net.Write;
    Negotiation.LinkStays(s.net, StartTls);
    var n := s.net.Write(StartTls);
    assert n.replies == s.net.replies by {
      WriteReadsNothing(s.net, StartTls);
    }
  }

  lemma WriteReadsNothing(n: Net, f: Frame)
    ensures n.Write(f).replies == n.replies
  {
  }

  lemma SecuredFlagIff(s: Sess, o: Settings)
    requires FeaturesArrive(s)
    ensures Secured(s, o).net.link.secure || o.insecure <==> TlsAsRequired(s, o)
  {
    hide StartTlsStep;
    var s1 := InitStep(s);
    if !s1.net.link.secure {
      StartTlsFlag(s1, o);
    }
  }

  lemma LostIff(s: Sess, o: Settings)
    ensures Negotiate(s, o).1.Lost? <==> !FeaturesArrive(s) || !TlsAsRequired(s, o)
  {
    hide EstablishOn, Secured, TlsAsRequired;
    if FeaturesArrive(s) {
      SecuredFlagIff(s, o);
    }
    EstablishNotLost(Secured(s, o), o);
  }

  lemma EstablishNotLost(s: Sess, o: Settings)
    ensures !EstablishOn(s, o).1.Lost?
  {
    hide Authenticated, EstablishRest;
  }

  lemma NegotiationFate(s: Sess, o: Settings)
    ensures var (v, outcome) := Negotiate(s, o);
            && Suffers(FateOf(s, o), s.queue, if outcome.Lost? then None else v.queue)
            && (outcome.Established? && v.resumed <==> FateOf(s, o).Trims?)
  {
    hide Secured, Authenticated, EstablishRest, FateAfterLogin, InitStep, FeaturesArrive, TlsAsRequired, DropAcked;
    LostIff(s, o);
    Negotiation.SecuredLink(s, o);
    var s1 := Authenticated(Secured(s, o), o);
    AuthenticatedQueue(Secured(s, o), o);
    if s1.err.None? {
      LoginFate(s1, o);
    }
  }

  lemma AuthenticatedQueue(s: Sess, o: Settings)
    ensures Authenticated(s, o).queue == s.queue && !Authenticated(s, o).resumed
  {
    hide Authenticate, ResetStep;
    ResetKeepsQueue(s);
    ResetKeepsQueue(AuthStep(Reopened(s), o));
  }

  lemma ResetKeepsQueue(s: Sess)
    ensures ResetStep(s).queue == s.queue && ResetStep(s).resumed == s.resumed
  {
    hide OpenStream, Net.Next, Net.Consume;
  }

  /**
   An attempt to connect keeps the queue, trims it by the server's count, or
   forgets it, as the script decides: it is forgotten when the connection
   breaks before the features or TLS fails, when a request to resume is
   answered by anything but a resumption of that session, and when stream
   management is enabled anew.
   */
  lemma QueueFate(k: Kept, o: Settings, dialled: Option<seq<Reply>>)
    ensures var (s, r) := Dialled(k.s, o, dialled);
            var fate := if r.Err? then Keeps else FateOf(s, o);
            Suffers(fate, k.s.queue, ConnectOn(k, o, dialled).0.s.queue)
  {
    hide Negotiate, FateOf, Dial, Net.Write, Net.Close, DropAcked;
    var s := Dialled(k.s, o, dialled).0;
    NegotiationFate(s, o);
  }

  /**
   Unacknowledged stanzas survive an attempt to connect, as they were or trimmed
   by the count of the server that resumed the session, exactly when the script
   does not make the client forget them.
   */
  lemma SurvivesIff(k: Kept, o: Settings, dialled: Option<seq<Reply>>)
    requires k.s.queue.Some? && k.s.queue.value != []
    ensures var (s, r) := Dialled(k.s, o, dialled);
            var (k', result) := ConnectOn(k, o, dialled);
            k'.s.queue == k.s.queue || (result.Connected? && k'.s.resumed) <==> r.Err? || FateOf(s, o) != Forgets
  {
    QueueFate(k, o, dialled);
    var s := Dialled(k.s, o, dialled).0;
    NegotiationFate(s, o);
    hide Negotiate, FateOf, Dial, Net.Write, Net.Close, DropAcked;
    var (k', result) := ConnectOn(k, o, dialled);
    var r := Dialled(k.s, o, dialled).1;
    if r.Ok? {
      var (v, outcome) := Negotiate(s, o);
      assert result.Connected? && k'.s.resumed <==> outcome.Established? && v.resumed;
      var fate := FateOf(s, o);
      assert Suffers(fate, k.s.queue, k'.s.queue);
      if fate == Forgets {
        assert k'.s.queue != k.s.queue;
      } else if fate == Keeps {
        assert k'.s.queue == k.s.queue;
      } else {
        assert fate.Trims?;
      }
    } else {
      assert k'.s.queue == k.s.queue;
    }
  }

  /** It does happen: whatever is queued, a connection that breaks before the features forgets it. */
  lemma BrokenBeforeFeatures(k: Kept, o: Settings, id: string)
    requires k.s.net.Accepts()
    ensures var k' := ConnectOn(k, o, Some([OpenedStream(id)])).0;
            !k'.hasSession && k'.s.queue == None && k'.s.sm == NO_STATE
  {
    hide Negotiate, TlsAsRequired;
    var s := Dialled(k.s, o, Some([OpenedStream(id)])).0;
    assert s.net.replies == [];
    LostIff(s, o);
  }
}

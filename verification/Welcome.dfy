/**
 What a server has to say for a negotiation to succeed, everything that is
 written when it does, and which failures end all attempts.
 */
module Welcomes {
  import opened Wrappers
  import opened UnAckQueues
  import opened Transports
  import opened Text
  import opened ScramText
  import opened Scram
  import opened Authentication
  import opened Sessions
  import opened Clients
  import opened Retention
  import Downgrade
  import Negotiation
  import StreamManagers

  // ------------------------------------------------------------------
  // Errors that a later attempt may not meet

  /** A later attempt may go better. */
  predicate Hopeful(r: Reason) {
    || Transient(r)
    || r in {StreamHeaderInvalid, FeaturesMissing, ReadFailed, MismatchedId, BindMissing, EnableFailed,
             ProceedMissing, TlsHandshakeFailed, HostnameMismatch, NoStartTlsTransport, NoStartTlsServer}
  }

  /** The error is marked permanent exactly when there is no such hope. */
  predicate Marked(e: Fail) {
    IsPermanent(e) <==> !Hopeful(e.reason)
  }

  predicate Mild(e: Fail) {
    e.Plain? && Hopeful(e.reason)
  }

  // ------------------------------------------------------------------
  // Securing the link

  /** The script lets securing end without an error. */
  predicate Secures(s: Sess, o: Settings) {
    && FeaturesArrive(s)
    && var r := s.net.replies;
    || s.net.link.secure
    || if o.doesStartTls && r[0].features.startTls then |r| > 2 && r[1].TlsProceed? && r[2] == TlsHandshake(true)
       else o.insecure
  }

  lemma StartTlsErr(s: Sess, o: Settings)
    requires s.err.None?
    ensures var r := s.net.replies;
            StartTlsStep(s, o).err.None? <==>
            if o.doesStartTls && s.features.startTls then |r| > 1 && r[0].TlsProceed? && r[1] == TlsHandshake(true)
            else o.insecure
    ensures var r := s.net.replies;
            StartTlsStep(s, o).tlsEnabled <==>
            || s.tlsEnabled
            || (o.doesStartTls && s.features.startTls && |r| > 1 && r[0].TlsProceed? && r[1] == TlsHandshake(true))
  {
    hide Net.Write;
    WriteReadsNothing(s.net, StartTls);
  }

  lemma SecuredErrIff(s: Sess, o: Settings)
    ensures Secured(s, o).err.None? <==> Secures(s, o)
    ensures Secures(s, o) ==> Secured(s, o).features == s.net.replies[0].features
    ensures Secures(s, o) ==> Secured(s, o).net.link.secure || o.insecure
  {
    hide StartTlsStep;
    var s1 := InitStep(s);
    if s1.err.None? && !s1.net.link.secure {
      StartTlsErr(s1, o);
      StartTlsFlag(s1, o);
      Negotiation.StartTlsLink(s1, o);
    }
  }

  // ------------------------------------------------------------------
  // After the login

  /** Binding goes through, and so do the session and stream management if they are called for. */
  predicate Binds(n: Net, f: Features, o: Settings) {
    && n.Accepts() && n.Next().IqBind?
    && (f.sessionRequired ==> Turned(n).Accepts() && IsElement(Turned(n).Next()))
    && (f.sm && o.smEnable ==>
          var last := if f.sessionRequired then Turned(Turned(n)) else Turned(n);
          last.Accepts() && last.Next().SmEnabled?)
  }

  /** The session is resumed, or is not and a new one starts. */
  predicate Goes(s: Sess, o: Settings) {
    if !Negotiation.MayResume(s, o) then Binds(s.net, s.features, o)
    else if !s.net.Accepts() then Binds(s.net.(attempts := s.net.attempts + 1), s.features, o)
    else
      || (s.net.Next().SmResumed? && s.net.Next().prevId == s.sm.id)
      || (s.net.Next().SmFailed? && Binds(Turned(s.net), s.features, o))
  }

  /** One frame more, if the write goes through. */
  ghost predicate Says(a: Net, b: Net, f: Frame) {
    b.link == a.link && b.log == a.log + if a.Accepts() then [Entry(f, a.link)] else []
  }

  /** What a request leaves alone. */
  predicate Beside(s: Sess, s1: Sess) {
    && s1.features == s.features && s1.resumed == s.resumed && s1.smResume == s.smResume
    && s1.sm == s.sm && s1.queue == s.queue
  }

  lemma BindSays(s: Sess, o: Settings)
    requires s.err.None?
    ensures var s1 := BindStep(s, o);
            && Says(s.net, s1.net, BindIq(s.lastPacketId + 1, o.resource))
            && Beside(s, s1) && s1.lastPacketId == s.lastPacketId + 1
            && (s1.err.Some? ==> Mild(s1.err.value))
            && (s1.err.None? ==> s.net.Next() == IqBind(s1.bindJid))
  {
    hide IsElement, Hopeful, Turned, Alike;
    BindReasons();
    var id := s.lastPacketId + 1;
    AskSays(s.(lastPacketId := id), BindIq(id, o.resource));
    hide Sess.Ask, Says;
  }

  lemma BindReasons()
    ensures Hopeful(WriteFailed) && Hopeful(BindMissing) && Hopeful(ReadFailed)
  {
  }

  lemma AskSays(s: Sess, f: Frame)
    ensures var (s1, r) := s.Ask(f);
            && s1 == s.(net := s1.net, late := s1.late) && Says(s.net, s1.net, f)
            && r == if s.net.Accepts() then Some(s.net.Next()) else None
  {
  }

  lemma SessionSays(s: Sess)
    requires s.err.None?
    ensures var s1 := Rfc3921Step(s);
            && (if s.features.sessionRequired then
                  Says(s.net, s1.net, SessionIq(s.lastPacketId + 1)) && s1.lastPacketId == s.lastPacketId + 1
                else s1 == s)
            && Beside(s, s1) && s1.bindJid == s.bindJid && (s1.err.Some? ==> Mild(s1.err.value))
  {
    hide IsElement;
  }

  /** What stream management is after the reply to the request to enable it. */
  predicate Enabled(s: Sess, s1: Sess, r: Reply) {
    if r.SmEnabled? then
      && s1.err.None? && s1.sm == SMState(r.id, 0, r.location, None) && s1.queue == Some([])
      && s1.smResume == (r.resume in ["1", "t", "T", "TRUE", "true", "True"])
    else
      && s1.err.Some? && Mild(s1.err.value) && s1.smResume == s.smResume
      && if r.SmFailed? then s1.sm == SMState("", 0, "", Some(r.cause)) && s1.queue == Some([])
         else s1.sm == s.sm && s1.queue == s.queue
  }

  lemma EnableSays(s: Sess, o: Settings)
    requires s.err.None?
    ensures var s1 := EnableStep(s, o);
            if !(s.features.sm && o.smEnable) then s1 == s
            else
              && Says(s.net, s1.net, SmEnable(s.smResume))
              && (if s.net.Accepts() then Enabled(s, s1, s.net.Next()) else
                    s1 == s.(net := s1.net, late := s1.late, err := Some(Plain(WriteFailed))))
  {
  }

  /** What a reply to the request to resume leaves, if it does not resume. */
  predicate NotResumed(s: Sess, s1: Sess, r: Reply) {
    && s1.sm == NO_STATE && s1.queue == None
    && (s1.err.None? <==> r.SmFailed?) && (s1.err.Some? ==> Mild(s1.err.value))
  }

  lemma ResumeSays(s: Sess, o: Settings)
    requires s.err.None? && !s.resumed
    ensures var (s1, done) := ResumeStep(s, o);
            && s1.features == s.features && s1.smResume == s.smResume && s1.lastPacketId == s.lastPacketId
            && (if Negotiation.MayResume(s, o) then Says(s.net, s1.net, SmResume(s.sm.id, s.sm.inbound)) else s1 == s)
            && (Negotiation.MayResume(s, o) && s.net.Accepts() && !done ==> NotResumed(s, s1, s.net.Next()))
            && (Negotiation.MayResume(s, o) && s.net.Accepts() ==> Alike(s1.net, Turned(s.net)))
            && (done || !Negotiation.MayResume(s, o) || !s.net.Accepts() ==> s1.sm == s.sm && s1.err.None?)
  {
    hide DropAcked;
  }

  // ------------------------------------------------------------------
  // Everything that is written after a login that leads to success

  function Sent(frames: seq<Frame>, link: Link): seq<Entry> {
    seq(|frames|, i requires 0 <= i < |frames| => Entry(frames[i], link))
  }

  lemma SentOneMore(log: seq<Entry>, frames: seq<Frame>, f: Frame, link: Link)
    ensures log + Sent(frames, link) + [Entry(f, link)] == log + Sent(frames + [f], link)
  {
    assert Sent(frames + [f], link) == Sent(frames, link) + [Entry(f, link)];
  }

  /** The requests after the bind request, the packet ids counting on from it. */
  function TailFrames(s: Sess, o: Settings): seq<Frame> {
    (if s.features.sessionRequired then [SessionIq(s.lastPacketId + 1)] else [])
    + if s.features.sm && o.smEnable then [SmEnable(s.smResume)] else []
  }

  lemma TailSucceeds(s: Sess, o: Settings)
    requires s.err.None?
    ensures var v := EnableStep(Rfc3921Step(s), o);
            var asks := if s.features.sessionRequired then Turned(s.net) else s.net;
            && (v.err.None? <==>
                  && (s.features.sessionRequired ==> s.net.Accepts() && IsElement(s.net.Next()))
                  && (s.features.sm && o.smEnable ==> asks.Accepts() && asks.Next().SmEnabled?))
            && (v.err.None? ==> v.net.log == s.net.log + Sent(TailFrames(s, o), s.net.link))
            && (v.err.Some? ==> Mild(v.err.value))
  {
    hide Rfc3921Step, EnableStep, Turned, IsElement, Net.Accepts, Net.Next, Alike, DropAcked;
    SessionFate(s);
    SessionSays(s);
    var s1 := Rfc3921Step(s);
    if s1.err.Some? {
      ErrorSkipsRest(s1, o);
    } else {
      AlikeTurns(s1.net, if s.features.sessionRequired then Turned(s.net) else s.net);
      EnableSays(s1, o);
    }
  }

  lemma BindSucceeds(s: Sess, o: Settings)
    requires s.err.None?
    ensures var v := BindAndEnable(s, o);
            && (v.err.None? <==> Binds(s.net, s.features, o))
            && (v.err.None? ==>
                  v.net.log == s.net.log + Sent([BindIq(s.lastPacketId + 1, o.resource)]
                               + TailFrames(s.(lastPacketId := s.lastPacketId + 1), o), s.net.link))
            && (v.err.Some? ==> Mild(v.err.value))
  {
    hide BindStep, Rfc3921Step, EnableStep, Turned, IsElement, Net.Accepts, Net.Next, Alike;
    BindFate(s, o);
    BindSays(s, o);
    var s1 := BindStep(s, o);
    if s1.err.Some? {
      ErrorSkipsRest(s1, o);
    } else {
      AlikeTurns(s1.net, Turned(s.net));
      AlikeTurns(Turned(s1.net), Turned(Turned(s.net)));
      TailSucceeds(s1, o);
      var first := Entry(BindIq(s.lastPacketId + 1, o.resource), s.net.link);
      assert s1.net.log + Sent(TailFrames(s1, o), s.net.link)
          == s.net.log + ([first] + Sent(TailFrames(s1, o), s.net.link));
      assert [first] + Sent(TailFrames(s1, o), s.net.link) == Sent([first.frame] + TailFrames(s1, o), s.net.link);
    }
  }

  lemma AlikeBinds(a: Net, b: Net, f: Features, o: Settings)
    requires Alike(a, b)
    ensures Binds(a, f, o) == Binds(b, f, o)
  {
    AlikeTurns(a, b);
    AlikeTurns(Turned(a), Turned(b));
    AlikeTurns(Turned(Turned(a)), Turned(Turned(b)));
    hide Alike, Turned, Net.Accepts, Net.Next, IsElement;
  }

  /** The requests after the login, told from the session as the login leaves it. */
  function RestFrames(s: Sess, o: Settings): seq<Frame> {
    var asked := Negotiation.MayResume(s, o) && s.net.Accepts();
    (if asked then [SmResume(s.sm.id, s.sm.inbound)] else [])
    + if asked && s.net.Next().SmResumed? then []
      else [BindIq(s.lastPacketId + 1, o.resource)] + TailFrames(s.(lastPacketId := s.lastPacketId + 1), o)
  }

  lemma RestSucceeds(s: Sess, o: Settings)
    requires s.err.None? && !s.resumed
    ensures var v := EstablishRest(s, o);
            && (v.err.None? <==> Goes(s, o))
            && (v.err.None? ==> v.net.log == s.net.log + Sent(RestFrames(s, o), s.net.link))
            && (v.err.Some? ==> Mild(v.err.value))
  {
    hide ResumeStep, BindAndEnable, Binds, Alike, Net.Accepts, Net.Next, Turned, TailFrames, DropAcked;
    hide Negotiation.MayResume;
    ResumeFate(s, o);
    ResumeSays(s, o);
    var (s1, done) := ResumeStep(s, o);
    if !done {
      if s1.err.Some? {
        ErrorSkipsAll(s1, o);
      } else {
        BindSucceeds(s1, o);
        var asks := Negotiation.MayResume(s, o);
        AlikeBinds(s1.net, if !asks then s.net else if s.net.Accepts() then Turned(s.net)
                           else s.net.(attempts := s.net.attempts + 1), s.features, o);
        SameTail(s1, s, o);
        LogsJoin(s.net.log, s1.net.log, s.net.link, RestFrames(s, o),
                 [BindIq(s.lastPacketId + 1, o.resource)] + TailFrames(s.(lastPacketId := s.lastPacketId + 1), o));
      }
    } else {
      assert Sent([SmResume(s.sm.id, s.sm.inbound)], s.net.link)
          == [Entry(SmResume(s.sm.id, s.sm.inbound), s.net.link)];
      assert [SmResume(s.sm.id, s.sm.inbound)] + [] == [SmResume(s.sm.id, s.sm.inbound)];
    }
  }

  lemma SameTail(a: Sess, b: Sess, o: Settings)
    requires a.features == b.features && a.smResume == b.smResume && a.lastPacketId == b.lastPacketId
    ensures TailFrames(a.(lastPacketId := a.lastPacketId + 1), o)
         == TailFrames(b.(lastPacketId := b.lastPacketId + 1), o)
  {
  }

  lemma LogsJoin(log: seq<Entry>, log1: seq<Entry>, link: Link, all: seq<Frame>, tail: seq<Frame>)
    requires |tail| <= |all| && all[|all| - |tail|..] == tail
    requires log1 == log + Sent(all[..|all| - |tail|], link)
    ensures log1 + Sent(tail, link) == log + Sent(all, link)
  {
    hide Sent;
    var head := all[..|all| - |tail|];
    assert head + tail == all;
    SentJoins(log, head, tail, link);
  }

  // ------------------------------------------------------------------
  // The login

  /** A stream header is written and answered, and features follow. */
  predicate Restarts(n: Net) {
    n.Accepts() && |n.replies| > 1 && n.replies[0].OpenedStream? && n.replies[1].FeaturesReply?
  }

  predicate Reopens(s: Sess) {
    s.tlsEnabled ==> Restarts(s.net)
  }

  lemma ResetErrIff(s: Sess)
    ensures var v := ResetStep(s);
            && (v.err.None? <==> Restarts(s.net))
            && (v.err.None? ==> v.net.log == s.net.log + [Entry(StreamOpen, s.net.link)] && v.net.link == s.net.link)
            && (v.err.Some? ==>
                  && (IsPermanent(v.err.value) <==> !s.net.Accepts())
                  && v.err.value.reason == if !s.net.Accepts() then StreamOpenFailed
                                           else if s.net.replies == [] || !s.net.replies[0].OpenedStream? then
                                             StreamHeaderInvalid
                                           else FeaturesMissing)
  {
  }

  /** A stream that does not open has no id, and features that do not come are none. */
  lemma ResetFails(s: Sess)
    ensures var v := ResetStep(s);
            && (v.err.Some? && v.err.value.reason == FeaturesMissing ==>
                  v.features == Features(false, [], None, false, false) && s.net.replies[0] == OpenedStream(v.streamId))
            && (v.err.Some? && v.err.value.reason != FeaturesMissing ==> v.streamId == "" && v.features == s.features)
  {
    ResetErrIff(s);
  }

  /** The first SASL frame names the chosen mechanism; at most a response follows. */
  ghost predicate SaslFrames(frames: seq<Frame>, mechanism: string) {
    && 1 <= |frames| <= 2 && frames[0].SaslAuth? && frames[0].mechanism == mechanism
    && (|frames| == 2 ==> frames[1].SaslResponse?)
  }

  ghost predicate SaslSaid(n: Net, n': Net, mechanism: string) {
    n'.link == n.link && exists frames :: SaslFrames(frames, mechanism) && n'.log == n.log + Sent(frames, n.link)
  }

  lemma ExchangeSays(n: Net, l: Login, mechanism: string, f: Features)
    ensures var (n', e) := Exchange(n, l, mechanism, f);
            e.None? ==> SaslSaid(n, n', mechanism)
  {
    hide Answer, CheckOutcome, ClientFirstBare, AlgorithmOf, Crypto.Pack;
    var (n', e) := Exchange(n, l, mechanism, f);
    if e.None? {
      var frames := [n'.log[|n.log|].frame, n'.log[|n.log| + 1].frame];
      assert n'.log == n.log + Sent(frames, n.link);
      assert SaslFrames(frames, mechanism);
    }
  }

  lemma PlainSays(n: Net, l: Login, mechanism: string)
    ensures var (n', e) := PlainExchange(n, l, mechanism);
            e.None? ==> SaslSaid(n, n', mechanism)
  {
    hide Crypto.Pack;
    var (n', e) := PlainExchange(n, l, mechanism);
    if e.None? {
      var frames := [n'.log[|n.log|].frame];
      assert n'.log == n.log + Sent(frames, n.link);
      assert SaslFrames(frames, mechanism);
    }
  }

  lemma AuthenticateSays(n: Net, l: Login, f: Features)
    ensures var (n', e) := Authenticate(n, l, f);
            var choice := Choose(l.accepted, f.mechanisms);
            e.None? ==> choice.Some? && SaslSaid(n, n', choice.value)
  {
    hide Exchange, PlainExchange, SaslSaid;
    var choice := Choose(l.accepted, f.mechanisms);
    if choice.Some? {
      ExchangeSays(n, l, choice.value, f);
      PlainSays(n, l, choice.value);
    }
  }

  /** The login goes through, from the link as it is. */
  predicate Admits(s: Sess, o: Settings) {
    && Reopens(s)
    && var s1 := Reopened(s);
       var (n, e) := Authenticate(s1.net, o.login, s1.features);
       e.None? && Restarts(n)
  }

  lemma LoginIff(s: Sess, o: Settings)
    requires s.err.None?
    ensures Authenticated(s, o).err.None? <==> Admits(s, o)
  {
    hide ResetStep, Authenticate;
    ResetErrIff(s);
    ResetErrIff(AuthStep(Reopened(s), o));
  }

  // ------------------------------------------------------------------
  // Success

  /** What the server has to say, from the session as it is taken up. */
  predicate Welcomed(s: Sess, o: Settings) {
    Secures(s, o) && Admits(Secured(s, o), o) && Goes(Authenticated(Secured(s, o), o), o)
  }

  lemma ErrorStays(s: Sess, o: Settings)
    requires s.err.Some? && !s.tlsEnabled
    ensures EstablishOn(s, o).1 == Broken(s.err.value)
  {
  }

  /** After a failed upgrade TLS is not marked as enabled, unless it was before. */
  lemma FailedSecuringOffTls(s: Sess, o: Settings)
    requires s.tlsEnabled ==> s.net.link.secure
    ensures Secured(s, o).err.Some? && InitStep(s).err.None? ==> !Secured(s, o).tlsEnabled
  {
    hide StartTlsStep;
    Negotiation.SecuredLink(s, o);
  }

  /**
   A negotiation succeeds if and only if the script says what a server has to
   say: features, TLS where it is needed, the login, and then a resumption or
   the replies to all that is asked for.
   */
  lemma NegotiationSucceedsIff(s: Sess, o: Settings)
    requires s.tlsEnabled ==> s.net.link.secure
    ensures Negotiate(s, o).1.Established? <==> Welcomed(s, o)
  {
    hide Secured, Authenticated, EstablishRest, Secures, Admits, Goes;
    var s1 := Secured(s, o);
    SecuredErrIff(s, o);
    FailedSecuringOffTls(s, o);
    FailedInitIsNotSecured(s, o);
    if s1.err.Some? {
      if InitStep(s).err.None? {
        ErrorStaysHere(s1, o);
      }
    } else {
      LoginIff(s1, o);
      var a := Authenticated(s1, o);
      if a.err.None? {
        AuthenticatedQueue(s1, o);
        RestSucceeds(a, o);
      }
    }
  }

  lemma ErrorStaysHere(s: Sess, o: Settings)
    requires s.err.Some? && !s.tlsEnabled
    ensures EstablishOn(s, o).1.Broken?
  {
    ErrorStays(s, o);
    hide EstablishOn;
  }

  lemma FailedInitIsNotSecured(s: Sess, o: Settings)
    ensures InitStep(s).err.Some? ==> Secured(s, o).err.Some?
  {
  }

  /**
   Everything that a successful negotiation writes, in order: the request for
   TLS if there is one, a new stream header after TLS, the SASL frames, the
   header of the stream after them, and the requests that the features of that
   stream, the settings and the session call for.
   */
  lemma NegotiationTranscript(s: Sess, o: Settings)
    requires s.tlsEnabled ==> s.net.link.secure
    requires Negotiate(s, o).1.Established?
    ensures var v := Negotiate(s, o).0;
            var s1 := Secured(s, o);
            var asksTls := !s.net.link.secure && o.doesStartTls && s.net.Next().FeaturesReply?
                           && s.net.Next().features.startTls;
            var tls := if asksTls && s.net.Accepts() then [Entry(StartTls, s.net.link)] else [];
            exists sasl, mechanism ::
              && SaslFrames(sasl, mechanism)
              && v.net.log == s.net.log + tls
                 + Sent((if s1.tlsEnabled then [StreamOpen] else []) + sasl + [StreamOpen]
                        + RestFrames(Authenticated(s1, o), o), s1.net.link)
  {
    hide Authenticated, EstablishRest, Welcomed, RestFrames, SaslFrames;
    NegotiationSucceedsIff(s, o);
    SecuredSays(s, o);
    var s1 := Secured(s, o);
    SecuredErrIff(s, o);
    WelcomedParts(s, o);
    hide Secured, Admits;
    LoginIff(s1, o);
    LoginSays(s1, o);
    var a := Authenticated(s1, o);
    AuthenticatedQueue(s1, o);
    RestSucceeds(a, o);
    var sasl, mechanism :| SaslFrames(sasl, mechanism) && a.net.link == s1.net.link
      && a.net.log
         == s1.net.log + Sent((if s1.tlsEnabled then [StreamOpen] else []) + sasl + [StreamOpen], s1.net.link);
    var head := (if s1.tlsEnabled then [StreamOpen] else []) + sasl + [StreamOpen];
    SentJoins(s1.net.log, head, RestFrames(a, o), s1.net.link);
  }

  lemma WelcomedParts(s: Sess, o: Settings)
    requires Welcomed(s, o)
    ensures Secures(s, o) && Admits(Secured(s, o), o)
  {
  }

  lemma SentJoins(log: seq<Entry>, a: seq<Frame>, b: seq<Frame>, link: Link)
    ensures log + Sent(a, link) + Sent(b, link) == log + Sent(a + b, link)
  {
    assert Sent(a + b, link) == Sent(a, link) + Sent(b, link);
  }

  lemma StartTlsSays(s: Sess, o: Settings)
    requires s.err.None?
    ensures StartTlsStep(s, o).net.log
         == s.net.log + if o.doesStartTls && s.features.startTls && s.net.Accepts() then [Entry(StartTls, s.net.link)]
                        else []
    ensures StartTlsStep(s, o).err.Some? ==> Mild(StartTlsStep(s, o).err.value)
  {
    hide Net.Write, Net.Consume, Net.Next, Hopeful;
    StartTlsReasons();
    var n := s.net.Write(StartTls);
    ConsumeWrites(s.net);
    ConsumeWrites(n);
    ConsumeWrites(n.Consume());
  }

  lemma StartTlsReasons()
    ensures Hopeful(NoStartTlsTransport) && Hopeful(NoStartTlsServer) && Hopeful(ProceedMissing)
    ensures Hopeful(TlsHandshakeFailed) && Hopeful(HostnameMismatch)
  {
  }

  lemma ConsumeWrites(n: Net)
    ensures n.Consume().log == n.log
    ensures n.Write(StartTls).log == n.log + if n.Accepts() then [Entry(StartTls, n.link)] else []
  {
  }

  lemma SecuredSays(s: Sess, o: Settings)
    ensures var r := s.net.Next();
            var asksTls := !s.net.link.secure && o.doesStartTls && r.FeaturesReply? && r.features.startTls;
            Secured(s, o).net.log
            == s.net.log + if asksTls && s.net.Accepts() then [Entry(StartTls, s.net.link)] else []
    ensures Secured(s, o).err.Some? ==> Mild(Secured(s, o).err.value)
  {
    hide StartTlsStep;
    var s1 := InitStep(s);
    if s1.err.None? && !s1.net.link.secure {
      StartTlsSays(s1, o);
    }
  }

  lemma LoginSays(s: Sess, o: Settings)
    requires s.err.None? && Authenticated(s, o).err.None?
    ensures var a := Authenticated(s, o);
            exists sasl, mechanism ::
              && SaslFrames(sasl, mechanism) && a.net.link == s.net.link
              && a.net.log
                 == s.net.log + Sent((if s.tlsEnabled then [StreamOpen] else []) + sasl + [StreamOpen], s.net.link)
  {
    hide ResetStep, Authenticate, SaslFrames;
    ResetErrIff(s);
    var s1 := Reopened(s);
    var s2 := AuthStep(s1, o);
    ResetErrIff(s2);
    AuthenticateSays(s1.net, o.login, s1.features);
    var mechanism := Choose(o.login.accepted, s1.features.mechanisms).value;
    var sasl :| SaslFrames(sasl, mechanism) && s2.net.log == s1.net.log + Sent(sasl, s1.net.link);
    var open: seq<Frame> := if s.tlsEnabled then [StreamOpen] else [];
    assert s1.net.log == s.net.log + Sent(open, s.net.link);
    SentJoins(s.net.log, open, sasl, s.net.link);
    SentOneMore(s.net.log, open + sasl, StreamOpen, s.net.link);
  }

  // ------------------------------------------------------------------
  // Failure

  lemma LoginErrors(s: Sess, o: Settings)
    requires s.err.None?
    ensures Authenticated(s, o).err.Some? ==> Marked(Authenticated(s, o).err.value)
  {
    hide ResetStep, Authenticate, Hopeful, Transient;
    ReasonsSorted();
    ResetErrIff(s);
    var s1 := Reopened(s);
    AuthenticateErrors(s1.net, o.login, s1.features);
    AuthenticateReasons(s1.net, o.login, s1.features);
    ResetErrIff(AuthStep(s1, o));
  }

  lemma ReasonsSorted()
    ensures Hopeful(FeaturesMissing) && Hopeful(StreamHeaderInvalid) && !Hopeful(StreamOpenFailed)
  {
  }

  /** Among the reasons of an authentication the transient ones are those that leave hope. */
  lemma AuthenticateReasons(n: Net, l: Login, f: Features)
    ensures var e := Authenticate(n, l, f).1;
            e.Some? ==> (Hopeful(e.value.reason) <==> Transient(e.value.reason))
  {
    hide Exchange, PlainExchange;
    var choice := Choose(l.accepted, f.mechanisms);
    if choice.Some? {
      ExchangeReasons(n, l, choice.value, f);
      PlainReasons(n, l, choice.value);
    }
  }

  lemma PlainReasons(n: Net, l: Login, mechanism: string)
    ensures var e := PlainExchange(n, l, mechanism).1;
            e.Some? ==> (Hopeful(e.value.reason) <==> Transient(e.value.reason))
  {
    hide Crypto.Pack;
  }

  lemma ExchangeReasons(n: Net, l: Login, mechanism: string, f: Features)
    ensures var e := Exchange(n, l, mechanism, f).1;
            e.Some? ==> (Hopeful(e.value.reason) <==> Transient(e.value.reason))
  {
    hide Answer, CheckOutcome, ClientFirstBare, AlgorithmOf, Crypto.Pack;
    if l.nonce.Some? && n.Accepts() && n.replies != [] && n.replies[0].Challenge? {
      var c, nonce, challenge := l.crypto, l.nonce.value, n.replies[0].value;
      AnswerReasons(c, mechanism, l.user, nonce, l.secret, challenge, f);
      var r := Answer(c, mechanism, l.user, nonce, l.secret, challenge, f.mechanisms, f.channelBindings);
      if r.Ok? {
        OutcomeReasons(c, AlgorithmOf(mechanism), r.value, if |n.replies| > 1 then n.replies[1] else ReadError);
      }
    }
  }

  lemma AnswerReasons(c: Crypto, mechanism: string, user: string, nonce: string, secret: string, challenge: string,
                      f: Features)
    ensures var r := Answer(c, mechanism, user, nonce, secret, challenge, f.mechanisms, f.channelBindings);
            r.Err? ==> (Hopeful(r.error.reason) <==> Transient(r.error.reason))
  {
    hide ParseFields, Atoi, Downgrade.DowngradeString, Prove;
  }

  lemma OutcomeReasons(c: Crypto, a: Algorithm, f: Final, reply: Reply)
    ensures var e := CheckOutcome(c, a, f, reply);
            e.Some? ==> (Hopeful(e.value.reason) <==> Transient(e.value.reason))
  {
    hide ParseFields, Signature, Crypto.Unpack;
  }

  /**
   The error of every negotiation that fails is marked permanent exactly when a
   later attempt cannot go better; when the session is dropped it always is.
   */
  lemma FailureMarked(s: Sess, o: Settings)
    requires s.tlsEnabled ==> s.net.link.secure
    ensures var outcome := Negotiate(s, o).1;
            && (outcome.Lost? ==> IsPermanent(outcome.err))
            && (outcome.Broken? ==> Marked(outcome.err))
  {
    hide Secured, Authenticated, EstablishRest, Hopeful, Transient;
    var s1 := Secured(s, o);
    FailedSecuringOffTls(s, o);
    SecuredSays(s, o);
    if s1.err.Some? {
      if InitStep(s).err.None? {
        ErrorStays(s1, o);
      }
    } else {
      LoginErrors(s1, o);
      var a := Authenticated(s1, o);
      if a.err.None? {
        AuthenticatedQueue(s1, o);
        RestSucceeds(a, o);
      }
    }
  }

  /** A login that the server refuses ends the negotiation with that refusal, marked permanent. */
  lemma RefusedLoginStops(s: Sess, o: Settings, s1: Sess, after: Net, reason: string)
    requires Secures(s, o) && Reopens(Secured(s, o)) && s1 == Reopened(Secured(s, o))
    requires after == Authenticate(s1.net, o.login, s1.features).0
    requires RefusedWith(s1.net, after, reason)
    ensures Negotiate(s, o).1 == Broken(ConnError(AuthFailure(reason), true))
  {
    hide Secured, Authenticate, ResetStep, EstablishRest, Secures;
    SecuredErrIff(s, o);
    SecuredInit(s, o);
    ResetErrIff(Secured(s, o));
    AuthenticateErrors(s1.net, o.login, s1.features);
    AuthenticateGranted(s1.net, o.login, s1.features);
  }

  /** The last reply read is a refusal for that reason. */
  predicate RefusedWith(before: Net, after: Net, reason: string) {
    var k := |before.replies| - |after.replies|;
    1 <= k <= |before.replies| && before.replies[k - 1] == SaslFailure(reason)
  }

  lemma SecuredInit(s: Sess, o: Settings)
    ensures Secured(s, o).err.None? ==> InitStep(s).err.None?
  {
    hide StartTlsStep;
  }

  // ------------------------------------------------------------------
  // The reconnection loop

  /** What the reconnection loop makes of the result of connecting. */
  function AttemptOf(r: ConnectResult): StreamManagers.Attempt {
    match r
    case Connected => StreamManagers.Works
    case NoStream(e) => StreamManagers.Fails(IsPermanent(e))
    case NegotiationFailed(e) => StreamManagers.Fails(IsPermanent(e))
    case PresenceFailed => StreamManagers.Fails(false)
  }

  /**
   The loop stops for good exactly when dialling fails, a stream header cannot
   be written, no session comes about, or the login fails for good.
   */
  lemma ConnectStopsIff(k: Kept, o: Settings, dialled: Option<seq<Reply>>)
    requires k.s.tlsEnabled ==> k.s.net.link.secure
    ensures var (s, r) := Dialled(k.s, o, dialled);
            var outcome := Negotiate(s, o).1;
            AttemptOf(ConnectOn(k, o, dialled).1) == StreamManagers.Fails(true) <==>
            if r.Err? then dialled.None? || !k.s.net.Accepts()
            else outcome.Lost? || (outcome.Broken? && !Hopeful(outcome.err.reason))
  {
    DialMeans(k.s.net, o.doesStartTls, dialled);
    if dialled.Some? {
      OpenStreamMeans(Reconnected(k.s.net, o.doesStartTls, dialled.value));
    }
    hide OpenStream, Negotiate, Hopeful;
    FailureMarked(Dialled(k.s, o, dialled).0, o);
  }

  /** The session that a client keeps after connecting, and what a lost one leaves behind. */
  lemma ConnectLeaves(k: Kept, o: Settings, dialled: Option<seq<Reply>>)
    ensures var (s, r) := Dialled(k.s, o, dialled);
            var (v, outcome) := Negotiate(s, o);
            var (k', result) := ConnectOn(k, o, dialled);
            && (r.Err? ==> k' == k.(s := s) && result == NoStream(r.error))
            && (r.Ok? && outcome.Lost? ==>
                  && !k'.hasSession && k'.s.sm == NO_STATE && k'.s.queue == None && k'.s.smResume == v.smResume
                  && !k'.s.tlsEnabled && k'.s.err == None && result == NegotiationFailed(outcome.err))
            && (r.Ok? && outcome.Broken? ==>
                  k'.hasSession && k'.s == v.(net := k'.s.net) && result == NegotiationFailed(outcome.err))
            && (r.Ok? && outcome.Established? ==>
                  && k'.hasSession && k'.s == v.(net := k'.s.net, streamId := k'.s.streamId)
                  && dialled.Some? && dialled.value != [] && dialled.value[0] == OpenedStream(k'.s.streamId)
                  && (result.PresenceFailed? <==> !v.resumed && !v.net.Accepts())
                  && (result.Connected? <==> v.resumed || v.net.Accepts()))
            && (r.Ok? && !outcome.Established? ==>
                  k'.s.net.log
                  == v.net.log + if v.net.connected && v.net.Accepts() then [Entry(StreamClose, v.net.link)] else [])
  {
    DialMeans(k.s.net, o.doesStartTls, dialled);
    CloseMeans(Negotiate(Dialled(k.s, o, dialled).0, o).0.net);
    hide Dial, Negotiate, Net.Close;
  }

  lemma CloseMeans(n: Net)
    ensures n.Close().log == n.log + if n.connected && n.Accepts() then [Entry(StreamClose, n.link)] else []
  {
  }
}

/**
 What every negotiation does, for every script of server replies and write
 failures: the order of what is written, when it may be written, and what a
 success leaves behind.
 */
module Negotiation {
  import opened Wrappers
  import opened UnAckQueues
  import opened Transports
  import opened Scram
  import opened Sessions
  import opened Authentication

  // ------------------------------------------------------------------
  // The order of the writes

  datatype Phase =
    | Begin | TlsAsked | Opened | AuthSent | Responded | Restarted
    | ResumeAsked | BindAsked | SessionAsked | EnableAsked | Closed | Disorder

  /** Which frame may follow which: the protocol as an automaton. */
  function Advance(p: Phase, f: Frame): Phase {
    match f
    case StartTls => if p == Begin then TlsAsked else Disorder
    case StreamOpen =>
      if p in {Begin, TlsAsked} then Opened
      else if p in {AuthSent, Responded} then Restarted
      else Disorder
    case StreamClose => if p == Disorder then Disorder else Closed
    case SaslAuth(_, _) => if p in {Begin, Opened} then AuthSent else Disorder
    case SaslResponse(_) => if p == AuthSent then Responded else Disorder
    case SmResume(_, _) => if p == Restarted then ResumeAsked else Disorder
    case BindIq(_, _) => if p in {Restarted, ResumeAsked} then BindAsked else Disorder
    case SessionIq(_) => if p == BindAsked then SessionAsked else Disorder
    case SmEnable(_) => if p in {BindAsked, SessionAsked} then EnableAsked else Disorder
    case _ => Disorder
  }

  function Reach(log: seq<Entry>, start: nat): Phase
    requires start <= |log|
    decreases |log|
  {
    if start == |log| then Begin
    else Advance(Reach(log[..|log| - 1], start), log[|log| - 1].frame)
  }

  /** In an orderly log no stanza and no request or answer of stream management appears. */
  lemma {:induction false} OrderlyFrames(log: seq<Entry>, start: nat)
    requires start <= |log| && Reach(log, start) != Disorder
    ensures forall i :: start <= i < |log| ==>
              !log[i].frame.Stanza? && !log[i].frame.SmRequest? && !log[i].frame.SmAnswer?
    decreases |log|
  {
    if start < |log| {
      OrderlyFrames(log[..|log| - 1], start);
    }
  }

  lemma ReachWrite(n: Net, f: Frame, start: nat)
    requires start <= |n.log|
    ensures Reach(n.Write(f).log, start) == if n.Accepts() then Advance(Reach(n.log, start), f) else Reach(n.log, start)
  {
    if n.Accepts() {
      assert n.Write(f).log[..|n.log|] == n.log;
    }
  }

  /** What holds of the wire between two steps. */
  ghost predicate Fine(log: seq<Entry>, start: nat, phases: set<Phase>) {
    start <= |log| && Reach(log, start) in phases
  }

  lemma WriteStep(n: Net, f: Frame, start: nat, phases: set<Phase>)
    requires Fine(n.log, start, phases)
    ensures Fine(n.Write(f).log, start,
                 if n.Accepts() then {Advance(Reach(n.log, start), f)} else {Reach(n.log, start)})
  {
    ReachWrite(n, f, start);
  }

  lemma OpenStep(n: Net, start: nat, phases: set<Phase>)
    requires Fine(n.log, start, phases)
    requires phases <= {Begin, TlsAsked, AuthSent, Responded}
    ensures var (n', r) := OpenStream(n);
            Fine(n'.log, start,
                 {Advance(Reach(n.log, start), StreamOpen)} + if r.Ok? then {} else {Reach(n.log, start), Closed})
  {
    hide Advance, Net.Write;
    WriteStep(n, StreamOpen, start, phases);
    var n1 := n.Write(StreamOpen);
    OpenAdvances(Reach(n.log, start));
    CloseStep(n1, start);
    CloseStep(n1.Consume(), start);
  }

  lemma OpenAdvances(p: Phase)
    requires p in {Begin, TlsAsked, AuthSent, Responded}
    ensures Advance(p, StreamOpen) == if p in {Begin, TlsAsked} then Opened else Restarted
  {
  }

  lemma CloseStep(n: Net, start: nat)
    requires start <= |n.log| && Reach(n.log, start) != Disorder
    ensures Fine(n.Close().log, start, {Closed, Reach(n.log, start)})
  {
    WriteStep(n, StreamClose, start, {Reach(n.log, start)});
  }

  lemma ExchangeStep(n: Net, l: Login, mechanism: string, f: Features, start: nat)
    requires Fine(n.log, start, {Begin, Opened})
    ensures var (n', e) := Exchange(n, l, mechanism, f);
            Fine(n'.log, start, {AuthSent, Responded} + if e.None? then {} else {Begin, Opened})
  {
    hide Answer, CheckOutcome, ReadChallenge, ClientFirstBare, AlgorithmOf, Reach;
    if l.nonce.Some? {
      var first := SaslAuth(mechanism, l.crypto.Pack(GS2_HEADER + ClientFirstBare(l.user, l.nonce.value)));
      WriteStep(n, first, start, {Begin, Opened});
      if n.Accepts() {
        var n2 := n.Write(first).Consume();
        forall m: string {
          WriteStep(n2, SaslResponse(m), start, {AuthSent});
        }
      }
    }
  }

  lemma PlainStep(n: Net, l: Login, mechanism: string, start: nat)
    requires Fine(n.log, start, {Begin, Opened})
    ensures var (n', e) := PlainExchange(n, l, mechanism);
            Fine(n'.log, start, {AuthSent} + if e.None? then {} else {Begin, Opened})
  {
    var first := SaslAuth(mechanism, l.crypto.Pack([0 as char] + l.user + [0 as char] + l.secret));
    WriteStep(n, first, start, {Begin, Opened});
  }

  lemma AuthenticateStep(n: Net, l: Login, f: Features, start: nat)
    requires Fine(n.log, start, {Begin, Opened})
    ensures var (n', e) := Authenticate(n, l, f);
            Fine(n'.log, start, {AuthSent, Responded} + if e.None? then {} else {Begin, Opened})
  {
    hide Exchange, PlainExchange;
    var choice := Choose(l.accepted, f.mechanisms);
    if choice.Some? {
      ExchangeStep(n, l, choice.value, f, start);
      PlainStep(n, l, choice.value, start);
    }
  }

  // ------------------------------------------------------------------
  // What a step adds to the wire and takes from the replies

  /** Written on this link, and no request for TLS; if it is a request to resume, it is this one. */
  predicate Proper(e: Entry, link: Link, request: Frame) {
    e.link == link && !e.frame.StartTls? && (e.frame.SmResume? ==> e.frame == request)
  }

  /** Replies are read in order: none is skipped or invented. */
  predicate Reads(before: Net, after: Net) {
    && |after.replies| <= |before.replies|
    && after.replies == before.replies[|before.replies| - |after.replies|..]
  }

  /** The link stays, new entries are proper, and replies are read in order. */
  ghost predicate Onward(before: Net, after: Net, request: Frame) {
    && after.link == before.link
    && before.log <= after.log
    && (forall i :: |before.log| <= i < |after.log| ==> Proper(after.log[i], before.link, request))
    && Reads(before, after)
  }

  /** The reply read `back` reads before the last one. */
  function ReadBack(before: Net, after: Net, back: nat): Option<Reply> {
    if |after.replies| + back < |before.replies| then
      Some(before.replies[|before.replies| - |after.replies| - 1 - back])
    else None
  }

  /** What was read stays what was read, however the reading started and goes on. */
  lemma ReadBackOn(a: Net, b: Net, c: Net, back: nat)
    requires Reads(a, b) && Reads(b, c)
    ensures |c.replies| <= |b.replies|
    ensures ReadBack(b, c, back).Some? ==> ReadBack(a, c, back) == ReadBack(b, c, back)
    ensures ReadBack(a, b, back).Some? ==>
              ReadBack(a, c, back + (|b.replies| - |c.replies|)) == ReadBack(a, b, back)
  {
  }

  lemma OnwardOn(a: Net, b: Net, c: Net, request: Frame)
    requires Onward(a, b, request) && Onward(b, c, request)
    ensures Onward(a, c, request)
    ensures Reads(a, b) && Reads(b, c)
  {
    forall i | |a.log| <= i < |c.log| ensures Proper(c.log[i], a.link, request) {
      if i < |b.log| {
        assert c.log[i] == b.log[i];
      }
    }
  }

  lemma NothingOnward(n: Net, request: Frame)
    ensures Onward(n, n, request)
  {
  }

  lemma WriteOnward(n: Net, f: Frame, request: Frame)
    requires !f.StartTls? && (f.SmResume? ==> f == request)
    ensures Onward(n, n.Write(f), request) && n.Write(f).replies == n.replies
  {
  }

  lemma CloseOnward(n: Net, request: Frame)
    ensures Onward(n, n.Close(), request)
  {
  }

  lemma ConsumeOnward(n: Net, request: Frame)
    ensures Onward(n, n.Consume(), request)
  {
  }

  /** A write and a read. */
  lemma TurnOnward(n: Net, f: Frame, request: Frame)
    requires !f.StartTls? && (f.SmResume? ==> f == request)
    ensures Onward(n, n.Write(f).Consume(), request)
    ensures n.Next() != ReadError ==>
              n.Accepts() ==> ReadBack(n, n.Write(f).Consume(), 0) == Some(n.Next())
  {
    WriteOnward(n, f, request);
    ConsumeOnward(n.Write(f), request);
  }

  lemma OpenOnward(n: Net, request: Frame)
    ensures Onward(n, OpenStream(n).0, request)
  {
    hide Onward, Net.Write, Net.Consume, Net.Close, Net.Next, Reads;
    var n1 := n.Write(StreamOpen);
    WriteOnward(n, StreamOpen, request);
    TurnOnward(n, StreamOpen, request);
    CloseOnward(n1, request);
    CloseOnward(n1.Consume(), request);
    OnwardOn(n, n1, n1.Close(), request);
    OnwardOn(n, n1.Consume(), n1.Consume().Close(), request);
  }

  lemma ExchangeOnward(n: Net, l: Login, mechanism: string, f: Features, request: Frame)
    ensures Onward(n, Exchange(n, l, mechanism, f).0, request)
  {
    hide Answer, CheckOutcome, ReadChallenge, ClientFirstBare, AlgorithmOf, Onward, Net.Write, Net.Consume;
    if l.nonce.Some? {
      var first := SaslAuth(mechanism, l.crypto.Pack(GS2_HEADER + ClientFirstBare(l.user, l.nonce.value)));
      WriteOnward(n, first, request);
      TurnOnward(n, first, request);
      var n2 := n.Write(first).Consume();
      forall m: string
        ensures Onward(n, n2.Write(SaslResponse(m)), request)
        ensures Onward(n, n2.Write(SaslResponse(m)).Consume(), request)
      {
        WriteOnward(n2, SaslResponse(m), request);
        TurnOnward(n2, SaslResponse(m), request);
        OnwardOn(n, n2, n2.Write(SaslResponse(m)), request);
        OnwardOn(n, n2, n2.Write(SaslResponse(m)).Consume(), request);
      }
    } else {
      NothingOnward(n, request);
    }
  }

  lemma PlainOnward(n: Net, l: Login, mechanism: string, request: Frame)
    ensures Onward(n, PlainExchange(n, l, mechanism).0, request)
  {
    hide Onward, Net.Write, Net.Consume;
    var first := SaslAuth(mechanism, l.crypto.Pack([0 as char] + l.user + [0 as char] + l.secret));
    WriteOnward(n, first, request);
    TurnOnward(n, first, request);
  }

  lemma AuthenticateOnward(n: Net, l: Login, f: Features, request: Frame)
    ensures Onward(n, Authenticate(n, l, f).0, request)
  {
    hide Exchange, PlainExchange, Onward;
    NothingOnward(n, request);
    var choice := Choose(l.accepted, f.mechanisms);
    if choice.Some? {
      ExchangeOnward(n, l, choice.value, f, request);
      PlainOnward(n, l, choice.value, request);
    }
  }

  // ------------------------------------------------------------------
  // The steps of a session, as traces

  /** After securing: a request for TLS was answered, or left an error. */
  lemma SecuredTrace(s: Sess, o: Settings)
    ensures var s1 := Secured(s, o);
            && Fine(s1.net.log, |s.net.log|, {Begin, TlsAsked})
            && (Reach(s1.net.log, |s.net.log|) == TlsAsked ==> s1.tlsEnabled || s1.err.Some?)
  {
    hide Net.Write, Reach, Advance;
    var s1 := InitStep(s);
    ReachStart(s.net.log);
    WriteStep(s1.net, StartTls, |s.net.log|, {Begin});
    var after := Secured(s, o);
    assert after.net.log == s.net.log
        || (after.net.log == s1.net.Write(StartTls).log && (after.tlsEnabled || after.err.Some?));
  }

  lemma ReachStart(log: seq<Entry>)
    ensures Reach(log, |log|) == Begin && Advance(Begin, StartTls) == TlsAsked
  {
  }

  lemma ReopenedTrace(s: Sess, start: nat)
    requires Fine(s.net.log, start, {Begin, TlsAsked})
    requires Reach(s.net.log, start) == TlsAsked ==> s.tlsEnabled || s.err.Some?
    ensures var s1 := Reopened(s);
            && Fine(s1.net.log, start, {Begin, TlsAsked, Opened, Closed})
            && (s1.err.None? ==> Fine(s1.net.log, start, {Begin, Opened}))
            && !s1.resumed && s1.sm == s.sm && s1.queue == s.queue && s1.smResume == s.smResume
  {
    hide OpenStream, Reach, Advance;
    OpenStep(s.net, start, {Begin, TlsAsked});
    OpenAdvances(Reach(s.net.log, start));
  }

  lemma AuthTrace(s: Sess, start: nat, o: Settings)
    requires Fine(s.net.log, start, {Begin, TlsAsked, Opened, Closed})
    requires s.err.None? ==> Fine(s.net.log, start, {Begin, Opened})
    ensures var s1 := AuthStep(s, o);
            && Fine(s1.net.log, start, {Begin, TlsAsked, Opened, AuthSent, Responded, Closed})
            && (s1.err.None? ==> Fine(s1.net.log, start, {AuthSent, Responded}))
            && s1 == s.(err := s1.err, net := s1.net)
  {
    hide Authenticate;
    if s.err.None? {
      AuthenticateStep(s.net, o.login, s.features, start);
    }
  }

  lemma RestartTrace(s: Sess, start: nat)
    requires Fine(s.net.log, start, {AuthSent, Responded}) && s.err.None?
    ensures var s1 := ResetStep(s);
            && Fine(s1.net.log, start, {AuthSent, Responded, Restarted, Closed})
            && (s1.err.None? ==> Fine(s1.net.log, start, {Restarted}))
            && s1 == s.(err := s1.err, net := s1.net, streamId := s1.streamId, features := s1.features)
  {
    hide OpenStream, Reach, Advance;
    OpenStep(s.net, start, {AuthSent, Responded});
    OpenAdvances(Reach(s.net.log, start));
  }

  /** A bind request for the resource is among the entries. */
  ghost predicate BindWritten(log: seq<Entry>, start: nat, resource: string) {
    exists i :: start <= i < |log| && log[i].frame.BindIq? && log[i].frame.resource == resource
  }

  /** A request and its reply move the automaton by one frame, or leave it when the write fails. */
  lemma AskTrace(s: Sess, f: Frame, start: nat, phase: Phase, request: Frame)
    requires Fine(s.net.log, start, {phase}) && !f.StartTls? && (f.SmResume? ==> f == request)
    ensures var (s1, r) := s.Ask(f);
            var next := if r.Some? then Advance(phase, f) else phase;
            && Fine(s1.net.log, start, {next})
            && Reach(s1.net.log, start) == next
            && s1 == s.(net := s1.net, late := s1.late)
            && (s.err.None? ==> s1.late == s.late)
            && Onward(s.net, s1.net, request) && s.net.log <= s1.net.log
            && (r.Some? ==> r.value == s.net.Next() && s1.net.log == s.net.log + [Entry(f, s.net.link)])
            && (r.Some? && r.value != ReadError ==>
                  ReadBack(s.net, s1.net, 0) == r && |s1.net.replies| == |s.net.replies| - 1)
  {
    hide Advance, Onward;
    WriteStep(s.net, f, start, {phase});
    WriteOnward(s.net, f, request);
    TurnOnward(s.net, f, request);
  }

  lemma RequestAdvances(f: Frame, p: Phase)
    ensures f.SmResume? && p == Restarted ==> Advance(p, f) == ResumeAsked
    ensures f.BindIq? && p in {Restarted, ResumeAsked} ==> Advance(p, f) == BindAsked
    ensures f.SessionIq? && p == BindAsked ==> Advance(p, f) == SessionAsked
    ensures f.SmEnable? && p in {BindAsked, SessionAsked} ==> Advance(p, f) == EnableAsked
  {
  }

  /** Whether the resumption request is made at all. */
  predicate MayResume(s: Sess, o: Settings) {
    o.smEnable && s.smResume && s.features.sm && s.sm.id != ""
  }

  /** The request to resume that belongs to a session's state. */
  function ResumeRequest(s: Sess): Frame {
    SmResume(s.sm.id, s.sm.inbound)
  }

  lemma ResumeTrace(s: Sess, start: nat, o: Settings)
    requires Fine(s.net.log, start, {Restarted}) && s.err.None? && !s.resumed
    ensures var (s1, done) := ResumeStep(s, o);
            && Fine(s1.net.log, start, {Restarted, ResumeAsked})
            && s1.late == s.late && s1.features == s.features
            && s1.resumed == done && Onward(s.net, s1.net, ResumeRequest(s))
            && (done ==>
                  && |s1.net.log| > 0 && s1.net.log[|s1.net.log| - 1].frame == ResumeRequest(s)
                  && Reach(s1.net.log, start) == ResumeAsked
                  && MayResume(s, o) && s1.err.None?
                  && s1.sm == s.sm && ResumedBy(s, ReadBack(s.net, s1.net, 0), s1.queue))
  {
    hide Sess.Ask, Onward, ReadBack, Reach, Advance;
    NothingOnward(s.net, ResumeRequest(s));
    AskTrace(s, ResumeRequest(s), start, Restarted, ResumeRequest(s));
    RequestAdvances(ResumeRequest(s), Restarted);
    assert s.Ask(ResumeRequest(s)).1.Some? ==> Reach(s.Ask(ResumeRequest(s)).0.net.log, start) == ResumeAsked;
  }

  lemma BindTrace(s: Sess, start: nat, o: Settings, request: Frame)
    requires Fine(s.net.log, start, {Restarted, ResumeAsked})
    ensures var s1 := BindStep(s, o);
            && Fine(s1.net.log, start, {Restarted, ResumeAsked, BindAsked})
            && (s1.err.None? ==>
                  && Reach(s1.net.log, start) == BindAsked
                  && BindWritten(s1.net.log, start, o.resource)
                  && ReadBack(s.net, s1.net, 0) == Some(IqBind(s1.bindJid)))
            && Onward(s.net, s1.net, request)
            && s1.late == s.late
            && s1.features == s.features && s1.resumed == s.resumed && s1.sm == s.sm && s1.queue == s.queue
  {
    hide Sess.Ask, Onward, ReadBack, Reach, Advance;
    var f := BindIq(s.lastPacketId + 1, o.resource);
    var s0 := s.(lastPacketId := s.lastPacketId + 1);
    NothingOnward(s.net, request);
    AskTrace(s0, f, start, Reach(s.net.log, start), request);
    RequestAdvances(f, Reach(s.net.log, start));
    assert s0.Ask(f).1.Some? ==> Reach(s0.Ask(f).0.net.log, start) == BindAsked;
    if s0.Ask(f).1.Some? {
      assert s0.Ask(f).0.net.log[|s.net.log|].frame == f;
    }
  }

  lemma SessionTrace(s: Sess, start: nat, request: Frame)
    requires s.err.None? && Fine(s.net.log, start, {BindAsked})
    ensures var s1 := Rfc3921Step(s);
            && Fine(s1.net.log, start, {BindAsked, SessionAsked})
            && (s1.err.None? ==>
                  && Reach(s1.net.log, start) == (if s.features.sessionRequired then SessionAsked else BindAsked)
                  && |s.net.replies| - |s1.net.replies| == (if s.features.sessionRequired then 1 else 0))
            && Onward(s.net, s1.net, request) && s.net.log <= s1.net.log && s1.bindJid == s.bindJid
            && s1.late == s.late
            && s1.features == s.features && s1.resumed == s.resumed && s1.sm == s.sm && s1.queue == s.queue
  {
    hide Sess.Ask, Onward, ReadBack, Reach, Advance;
    var f := SessionIq(s.lastPacketId + 1);
    var s0 := s.(lastPacketId := s.lastPacketId + 1);
    NothingOnward(s.net, request);
    AskTrace(s0, f, start, BindAsked, request);
    RequestAdvances(f, BindAsked);
    assert s0.Ask(f).1.Some? ==> Reach(s0.Ask(f).0.net.log, start) == SessionAsked;
  }

  /** The state that the last reply, the server's answer to the enable request, calls for. */
  predicate Fresh(v: Sess, last: Option<Reply>) {
    && last.Some? && last.value.SmEnabled?
    && v.queue == Some([]) && v.sm == SMState(last.value.id, 0, last.value.location, None)
    && v.smResume == ParsesTrue(last.value.resume)
  }

  lemma EnableTrace(s: Sess, start: nat, o: Settings, request: Frame)
    requires s.err.None? && Fine(s.net.log, start, {BindAsked, SessionAsked})
    ensures var s1 := EnableStep(s, o);
            var wanted := s.features.sm && o.smEnable;
            && Fine(s1.net.log, start, {BindAsked, SessionAsked, EnableAsked})
            && s1.late == s.late && s1.features == s.features && s1.resumed == s.resumed
            && Onward(s.net, s1.net, request) && s.net.log <= s1.net.log && s1.bindJid == s.bindJid
            && (s1.err.None? && wanted ==>
                  && Reach(s1.net.log, start) == EnableAsked
                  && |s.net.replies| - |s1.net.replies| == 1
                  && Fresh(s1, ReadBack(s.net, s1.net, 0)))
            && (!wanted ==> s1 == s)
  {
    hide Sess.Ask, Onward, ReadBack, ParsesTrue, Reach, Advance;
    var f := SmEnable(s.smResume);
    NothingOnward(s.net, request);
    AskTrace(s, f, start, Reach(s.net.log, start), request);
    RequestAdvances(f, Reach(s.net.log, start));
    assert s.Ask(f).1.Some? ==> Reach(s.Ask(f).0.net.log, start) == EnableAsked;
  }

  // ------------------------------------------------------------------
  // The parts of a negotiation

  /** The last reply grants the resumption, and its count trims the queue. */
  predicate ResumedBy(s: Sess, last: Option<Reply>, queue: Option<Items>) {
    && last.Some? && last.value.SmResumed? && last.value.prevId == s.sm.id
    && queue == if last.value.h.Some? && s.queue.Some? then Some(DropAcked(s.queue.value, last.value.h.value))
                else s.queue
  }

  /** The server resumed the old session, which keeps its Id, its count and its unacknowledged rest. */
  predicate IsResumed(s: Sess, v: Sess, o: Settings, phase: Phase) {
    && v.resumed && phase == ResumeAsked
    && o.smEnable && s.smResume && s.sm.id != ""
    && v.sm == s.sm
    && v.net.log != [] && v.net.log[|v.net.log| - 1].frame == ResumeRequest(s)
    && ResumedBy(s, ReadBack(s.net, v.net, 0), v.queue)
  }

  /**
   A resource was bound by the reply to the bind request; if stream management
   was wanted and offered, it starts afresh from the reply to that request.
   */
  ghost predicate IsBound(s: Net, v: Sess, o: Settings, start: nat, phase: Phase) {
    && BindWritten(v.net.log, start, o.resource)
    && ReadBack(s, v.net, ReadsAfterBind(v, phase)) == Some(IqBind(v.bindJid))
    && !v.resumed && TailPhase(v, o, phase)
    && (phase == EnableAsked ==> Fresh(v, ReadBack(s, v.net, 0)))
  }

  /** How many replies are read after the one to the bind request. */
  function ReadsAfterBind(v: Sess, phase: Phase): nat {
    (if v.features.sessionRequired then 1 else 0) + if phase == EnableAsked then 1 else 0
  }

  predicate TailPhase(v: Sess, o: Settings, phase: Phase) {
    && phase in {BindAsked, SessionAsked, EnableAsked}
    && (phase == EnableAsked <==> o.smEnable && v.features.sm)
    && (phase == SessionAsked ==> v.features.sessionRequired)
    && (phase == BindAsked ==> !v.features.sessionRequired)
  }

  predicate TailDone(s: Net, v: Sess, o: Settings, phase: Phase) {
    && TailPhase(v, o, phase)
    && |s.replies| - |v.net.replies| == ReadsAfterBind(v, phase)
    && (phase == EnableAsked ==> Fresh(v, ReadBack(s, v.net, 0)))
  }

  /** What follows a successful bind request. */
  lemma TailTrace(s: Sess, start: nat, o: Settings, request: Frame)
    requires s.err.None? && Fine(s.net.log, start, {BindAsked})
    ensures var v := EnableStep(Rfc3921Step(s), o);
            && Fine(v.net.log, start, {BindAsked, SessionAsked, EnableAsked})
            && v.late == s.late && Onward(s.net, v.net, request) && s.net.log <= v.net.log
            && v.resumed == s.resumed && v.bindJid == s.bindJid && v.features == s.features
            && (v.err.None? ==> TailDone(s.net, v, o, Reach(v.net.log, start)))
  {
    hide Rfc3921Step, EnableStep, Reach, Fresh, Onward, Reads, ReadBack, TailDone;
    SessionTrace(s, start, request);
    var s1 := Rfc3921Step(s);
    if s1.err.Some? {
      ErrorSkipsRest(s1, o);
    } else {
      EnableTrace(s1, start, o, request);
      var v := EnableStep(s1, o);
      OnwardOn(s.net, s1.net, v.net, request);
      if v.err.None? {
        TailByBoth(s.net, s1.net, v, o, Reach(v.net.log, start));
      }
    }
  }

  lemma TailByBoth(a: Net, b: Net, v: Sess, o: Settings, phase: Phase)
    requires Reads(a, b) && Reads(b, v.net)
    requires |a.replies| - |b.replies| == if v.features.sessionRequired then 1 else 0
    requires if v.features.sm && o.smEnable then
               phase == EnableAsked && |b.replies| - |v.net.replies| == 1 && Fresh(v, ReadBack(b, v.net, 0))
             else
               phase == (if v.features.sessionRequired then SessionAsked else BindAsked) && v.net == b
    ensures TailDone(a, v, o, phase)
  {
    hide Reads, ReadBack, Fresh;
    EnableReadLast(a, b, v);
  }

  lemma EnableReadLast(a: Net, b: Net, v: Sess)
    requires Reads(a, b) && Reads(b, v.net)
    ensures Fresh(v, ReadBack(b, v.net, 0)) ==> Fresh(v, ReadBack(a, v.net, 0))
  {
    ReadBackOn(a, b, v.net, 0);
    hide Reads, ReadBack, ParsesTrue;
  }

  /** The part of a negotiation after the resumption attempt. */
  lemma BoundTrace(s: Sess, start: nat, o: Settings, request: Frame)
    requires Fine(s.net.log, start, {Restarted, ResumeAsked}) && !s.resumed
    ensures var v := BindAndEnable(s, o);
            && Fine(v.net.log, start, {Restarted, ResumeAsked, BindAsked, SessionAsked, EnableAsked})
            && v.late == s.late && Onward(s.net, v.net, request)
            && (v.err.None? ==> IsBound(s.net, v, o, start, Reach(v.net.log, start)))
  {
    hide BindStep, Rfc3921Step, EnableStep, Reach, TailDone, Onward, Reads, ReadBack, BindWritten, IsBound;
    BindTrace(s, start, o, request);
    var s1 := BindStep(s, o);
    if s1.err.Some? {
      ErrorSkipsRest(s1, o);
    } else {
      TailTrace(s1, start, o, request);
      var v := EnableStep(Rfc3921Step(s1), o);
      OnwardOn(s.net, s1.net, v.net, request);
      if v.err.None? {
        BindStays(s1.net.log, v.net.log, start, o.resource);
        BoundByBoth(s.net, s1.net, v, o, start, Reach(v.net.log, start));
      }
    }
  }

  lemma BoundByBoth(a: Net, b: Net, v: Sess, o: Settings, start: nat, phase: Phase)
    requires Reads(a, b) && Reads(b, v.net) && !v.resumed
    requires ReadBack(a, b, 0) == Some(IqBind(v.bindJid)) && TailDone(b, v, o, phase)
    requires BindWritten(v.net.log, start, o.resource)
    ensures IsBound(a, v, o, start, phase)
  {
    ReadBackOn(a, b, v.net, 0);
    EnableReadLast(a, b, v);
    hide Reads, ReadBack, Fresh;
  }

  lemma BindStays(log: seq<Entry>, log': seq<Entry>, start: nat, resource: string)
    requires BindWritten(log, start, resource) && log <= log'
    ensures BindWritten(log', start, resource)
  {
  }

  lemma AuthenticatedTrace(s: Sess, start: nat, o: Settings)
    requires Fine(s.net.log, start, {Begin, TlsAsked})
    requires Reach(s.net.log, start) == TlsAsked ==> s.tlsEnabled || s.err.Some?
    ensures var v := Authenticated(s, o);
            && Fine(v.net.log, start, {Begin, TlsAsked, Opened, AuthSent, Responded, Restarted, Closed})
            && (v.err.None? ==> Fine(v.net.log, start, {Restarted}))
            && !v.resumed && v.sm == s.sm && v.queue == s.queue && v.smResume == s.smResume
  {
    hide AuthStep, ResetStep, Reopened, Reach;
    ReopenedTrace(s, start);
    var s1 := Reopened(s);
    AuthTrace(s1, start, o);
    var s2 := AuthStep(s1, o);
    if s2.err.None? {
      RestartTrace(s2, start);
    }
  }

  lemma InitOnward(s: Sess, request: Frame)
    ensures Onward(s.net, InitStep(s).net, request) && InitStep(s).net.log == s.net.log
  {
  }

  lemma ResetOnward(s: Sess, request: Frame)
    ensures Onward(s.net, ResetStep(s).net, request)
  {
    hide InitStep, OpenStream, Onward;
    OpenOnward(s.net, request);
    var (net, r) := OpenStream(s.net);
    if r.Ok? {
      var s1 := s.(net := net, late := s.late + if s.err.Some? then 1 else 0).(streamId := r.value, err := None);
      InitOnward(s1, request);
      OnwardOn(s.net, s1.net, InitStep(s1).net, request);
    }
  }

  lemma AuthenticatedOnward(s: Sess, o: Settings, request: Frame)
    ensures Onward(s.net, Authenticated(s, o).net, request)
  {
    hide Authenticate, ResetStep, Onward;
    NothingOnward(s.net, request);
    ResetOnward(s, request);
    var s1 := Reopened(s);
    AuthenticateOnward(s1.net, o.login, s1.features, request);
    NothingOnward(s1.net, request);
    var s2 := AuthStep(s1, o);
    OnwardOn(s.net, s1.net, s2.net, request);
    ResetOnward(s2, request);
    OnwardOn(s.net, s2.net, ResetStep(s2).net, request);
  }

  lemma AuthenticatedLate(s: Sess, o: Settings)
    ensures Authenticated(s, o).late == s.late + if s.tlsEnabled && s.err.Some? then 1 else 0
    ensures Authenticated(s, o).tlsEnabled == s.tlsEnabled
  {
    hide OpenStream, Authenticate;
  }

  /** Securing writes at most the request for TLS, and that only on a link that is not secure. */
  lemma SecuredWrites(s: Sess, o: Settings)
    ensures var n := Secured(s, o).net;
            && Reads(s.net, n)
            && (n.log == s.net.log || (!s.net.link.secure && n.log == s.net.log + [Entry(StartTls, s.net.link)]))
  {
    hide StartTlsStep;
    var s1 := InitStep(s);
    if s1.err.None? && !s1.net.link.secure {
      StartTlsWrites(s1, o);
    }
  }

  lemma StartTlsWrites(s: Sess, o: Settings)
    ensures var n := StartTlsStep(s, o).net;
            && Reads(s.net, n)
            && (n.log == s.net.log || n.log == s.net.log + [Entry(StartTls, s.net.link)])
  {
    hide Reads;
    NothingOnward(s.net, StartTls);
    var n := s.net.Write(StartTls);
    assert Reads(s.net, n) && Reads(s.net, n.Consume()) && Reads(s.net, n.Consume().Consume()) by {
      ReadTwice(s.net);
    }
    ReadsIgnoreLink(s.net, n.Consume().Consume());
  }

  lemma ReadTwice(n: Net)
    ensures var n1 := n.Write(StartTls);
            Reads(n, n1) && Reads(n, n1.Consume()) && Reads(n, n1.Consume().Consume())
  {
    var n1 := n.Write(StartTls);
    ReadOnce(n);
    ReadOnce(n1);
    ReadOnce(n1.Consume());
    hide Reads, Net.Write, Net.Consume;
    ReadsOn(n, n1, n1.Consume());
    ReadsOn(n, n1.Consume(), n1.Consume().Consume());
  }

  lemma ReadOnce(n: Net)
    ensures Reads(n, n.Consume()) && Reads(n, n.Write(StartTls))
  {
  }

  lemma ReadsIgnoreLink(a: Net, b: Net)
    requires Reads(a, b)
    ensures forall link :: Reads(a, b.(link := link))
  {
  }

  /** A link that is not secure may be upgraded; one that is stays as it is. */
  lemma SecuredLink(s: Sess, o: Settings)
    ensures var s1 := Secured(s, o);
            && (s1.net.link == s.net.link || (!s.net.link.secure && s1.net.link.encrypted))
            && (s.net.link.secure ==> s1 == InitStep(s))
            && (s1.tlsEnabled ==> s.tlsEnabled || (s1.net.link == Link(true, true) && s1.err.None?))
            && s1.late == s.late && s1.sm == s.sm && s1.queue == s.queue && s1.smResume == s.smResume
  {
    hide StartTlsStep, Net.Next;
    var s1 := InitStep(s);
    if s1.err.None? && !s1.net.link.secure {
      StartTlsLink(s1, o);
    }
  }

  lemma StartTlsLink(s: Sess, o: Settings)
    requires s.err.None?
    ensures var s1 := StartTlsStep(s, o);
            && (s1.net.link == s.net.link || s1.net.link.encrypted)
            && (s1.tlsEnabled ==> s.tlsEnabled || (s1.net.link == Link(true, true) && s1.err.None?))
            && s1 == s.(err := s1.err, tlsEnabled := s1.tlsEnabled, net := s1.net)
  {
    hide Net.Write, Net.Consume, Net.Next;
    var n := s.net.Write(StartTls);
    LinkStays(s.net, StartTls);
    LinkStays(n, StartTls);
    LinkStays(n.Consume(), StartTls);
  }

  lemma LinkStays(n: Net, f: Frame)
    ensures n.Write(f).link == n.Consume().link == n.link
  {
  }

  // ------------------------------------------------------------------
  // Whole negotiations

  ghost predicate Success(s: Sess, v: Sess, o: Settings, start: nat, phase: Phase) {
    if v.resumed then IsResumed(s, v, o, phase) else IsBound(s.net, v, o, start, phase)
  }

  ghost predicate Succeeded(s: Sess, v: Sess, o: Settings) {
    |s.net.log| <= |v.net.log| && Success(s, v, o, |s.net.log|, Reach(v.net.log, |s.net.log|))
  }

  lemma SuccessOn(s: Sess, s1: Sess, v: Sess, o: Settings, start: nat, phase: Phase)
    requires Success(s1, v, o, start, phase)
    requires Reads(s.net, s1.net) && Reads(s1.net, v.net)
    requires s1.sm == s.sm && s1.queue == s.queue && s1.smResume == s.smResume
    ensures Success(s, v, o, start, phase)
  {
    hide ReadBack, Reads, IsBound;
    ReadBackOn(s.net, s1.net, v.net, 0);
    if !v.resumed {
      BoundOn(s.net, s1.net, v, o, start, phase);
    }
  }

  lemma BoundOn(a: Net, b: Net, v: Sess, o: Settings, start: nat, phase: Phase)
    requires IsBound(b, v, o, start, phase) && Reads(a, b) && Reads(b, v.net)
    ensures IsBound(a, v, o, start, phase)
  {
    hide ReadBack, BindWritten, Reads, ParsesTrue;
    ReadBackOn(a, b, v.net, 0);
    ReadBackOn(a, b, v.net, ReadsAfterBind(v, phase));
  }

  /** The part after the link is as secure as required. */
  lemma EstablishTrace(s: Sess, start: nat, o: Settings)
    requires Fine(s.net.log, start, {Begin, TlsAsked})
    requires Reach(s.net.log, start) == TlsAsked ==> s.tlsEnabled || s.err.Some?
    ensures var (v, outcome) := EstablishOn(s, o);
            && start <= |v.net.log| && Reach(v.net.log, start) != Disorder
            && Onward(s.net, v.net, ResumeRequest(s))
            && v.late == s.late + (if s.tlsEnabled && s.err.Some? then 1 else 0)
            && (outcome.Established? ==> Success(s, v, o, start, Reach(v.net.log, start)))
  {
    hide Authenticated, EstablishRest, Onward, Success, Reach, Reads;
    var request := ResumeRequest(s);
    AuthenticatedTrace(s, start, o);
    AuthenticatedOnward(s, o, request);
    AuthenticatedLate(s, o);
    var s1 := Authenticated(s, o);
    if s1.err.None? {
      RestTrace(s1, start, o);
      var v := EstablishRest(s1, o);
      OnwardOn(s.net, s1.net, v.net, request);
      if v.err.None? {
        SuccessOn(s, s1, v, o, start, Reach(v.net.log, start));
      }
    }
  }

  /** The resumption attempt and what follows it. */
  lemma RestTrace(s: Sess, start: nat, o: Settings)
    requires Fine(s.net.log, start, {Restarted}) && s.err.None? && !s.resumed
    ensures var v := EstablishRest(s, o);
            && start <= |v.net.log| && Reach(v.net.log, start) != Disorder
            && Onward(s.net, v.net, ResumeRequest(s)) && v.late == s.late
            && (v.err.None? ==> Success(s, v, o, start, Reach(v.net.log, start)))
  {
    hide ResumeStep, BindAndEnable, Onward, IsBound, ResumedBy, Reads, Reach;
    ResumeTrace(s, start, o);
    var (s1, done) := ResumeStep(s, o);
    if !done {
      BoundTrace(s1, start, o, ResumeRequest(s));
      var v := BindAndEnable(s1, o);
      OnwardOn(s.net, s1.net, v.net, ResumeRequest(s));
      if v.err.None? {
        BoundIsUnresumed(s1.net, v, o, start, Reach(v.net.log, start));
        BoundOn(s.net, s1.net, v, o, start, Reach(v.net.log, start));
      }
    }
  }

  lemma BoundIsUnresumed(n: Net, v: Sess, o: Settings, start: nat, phase: Phase)
    requires IsBound(n, v, o, start, phase)
    ensures !v.resumed
  {
  }

  /** TLS, the stream and its features are not touched. */
  predicate SameLogin(s: Sess, s1: Sess) {
    s1.tlsEnabled == s.tlsEnabled && s1.features == s.features && s1.streamId == s.streamId
  }

  lemma RestKeepsLogin(s: Sess, o: Settings)
    ensures SameLogin(s, EstablishRest(s, o))
  {
    hide ResumeStep, BindStep, Rfc3921Step, EnableStep;
    ResumeKeepsLogin(s, o);
    var s1 := ResumeStep(s, o).0;
    var s2 := BindStep(s1, o);
    BindKeepsLogin(s1, o);
    BindKeepsLogin(s2, o);
    EnableKeepsLogin(Rfc3921Step(s2), o);
  }

  lemma ResumeKeepsLogin(s: Sess, o: Settings)
    ensures SameLogin(s, ResumeStep(s, o).0)
  {
    hide Net.Write, Net.Consume, Net.Next, DropAcked, IsPacket;
  }

  lemma BindKeepsLogin(s: Sess, o: Settings)
    ensures SameLogin(s, BindStep(s, o)) && SameLogin(s, Rfc3921Step(s))
  {
    hide Net.Write, Net.Consume, Net.Next, IsElement;
  }

  lemma EnableKeepsLogin(s: Sess, o: Settings)
    ensures SameLogin(s, EnableStep(s, o))
  {
    hide Net.Write, Net.Consume, Net.Next, IsPacket, ParsesTrue;
  }

  // ------------------------------------------------------------------
  // The login, and the features in force after it

  /**
   The replies up to `back` before the last end with the grant of the login, the
   header of the stream that the session is on, and the features in force.
   */
  predicate LoggedIn(before: Net, v: Sess, back: nat) {
    && ReadBack(before, v.net, back) == Some(FeaturesReply(v.features))
    && ReadBack(before, v.net, back + 1) == Some(OpenedStream(v.streamId))
    && ReadBack(before, v.net, back + 2).Some? && ReadBack(before, v.net, back + 2).value.SaslSuccess?
  }

  lemma ResetReads(s: Sess)
    ensures var v := ResetStep(s);
            v.err.None? ==>
            && |s.net.replies| >= 2 && s.net.replies[0] == OpenedStream(v.streamId)
            && s.net.replies[1] == FeaturesReply(v.features) && v.net.replies == s.net.replies[2..]
  {
  }

  /** A login that succeeds has just read the grant, the new stream and its features. */
  lemma LoginReads(s: Sess, o: Settings)
    ensures var v := Authenticated(s, o);
            v.err.None? ==> LoggedIn(s.net, v, 0)
  {
    hide Authenticate, ResetStep, Onward, Reads, ReadBack, LoggedIn;
    var s1 := Reopened(s);
    var s2 := AuthStep(s1, o);
    var v := Authenticated(s, o);
    if v.err.None? {
      ResetOnward(s, StartTls);
      NothingOnward(s.net, StartTls);
      AuthenticateOnward(s1.net, o.login, s1.features, StartTls);
      ResetOnward(s2, StartTls);
      OnwardOn(s.net, s1.net, s2.net, StartTls);
      OnwardOn(s.net, s2.net, v.net, StartTls);
      OnwardOn(s1.net, s2.net, v.net, StartTls);
      AuthenticateGranted(s1.net, o.login, s1.features);
      ResetReads(s2);
      LoginByParts(s.net, s1.net, s2.net, v);
    }
  }

  lemma LoginByParts(a: Net, b: Net, c: Net, v: Sess)
    requires Reads(a, b) && Reads(b, c) && Reads(c, v.net) && Granted(b, c)
    requires |c.replies| >= 2 && c.replies[0] == OpenedStream(v.streamId)
    requires c.replies[1] == FeaturesReply(v.features) && v.net.replies == c.replies[2..]
    ensures LoggedIn(a, v, 0)
  {
    assert ReadBack(c, v.net, 0) == Some(c.replies[1]) && ReadBack(c, v.net, 1) == Some(c.replies[0]);
    GrantedBack(b, c);
    ReadsOn(b, c, v.net);
    hide Reads, ReadBack, Granted;
    ReadBackOn(b, c, v.net, 0);
    ReadBackOn(b, c, v.net, 1);
    ReadBackOn(a, b, v.net, 0);
    ReadBackOn(a, b, v.net, 1);
    ReadBackOn(a, b, v.net, 2);
  }

  lemma GrantedBack(b: Net, c: Net)
    requires Granted(b, c)
    ensures ReadBack(b, c, 0).Some? && ReadBack(b, c, 0).value.SaslSuccess?
  {
  }

  /** A request that only a session that has logged in makes. */
  predicate IsRequest(f: Frame) {
    f.SmResume? || f.BindIq? || f.SessionIq? || f.SmEnable?
  }

  function Requests(log: seq<Entry>, start: nat): nat
    decreases |log|
  {
    if |log| <= start then 0
    else Requests(log[..|log| - 1], start) + if IsRequest(log[|log| - 1].frame) then 1 else 0
  }

  lemma RequestsWrite(n: Net, f: Frame, start: nat)
    requires start <= |n.log|
    ensures Requests(n.Write(f).log, start)
         == Requests(n.log, start) + if n.Accepts() && IsRequest(f) then 1 else 0
  {
    if n.Accepts() {
      assert n.Write(f).log[..|n.log|] == n.log;
    }
  }

  lemma OpenAsksNothing(n: Net, start: nat)
    requires start <= |n.log|
    ensures var log := OpenStream(n).0.log;
            |log| >= start && Requests(log, start) == Requests(n.log, start)
  {
    hide Requests;
    var n1 := n.Write(StreamOpen);
    RequestsWrite(n, StreamOpen, start);
    RequestsWrite(n1, StreamClose, start);
    RequestsWrite(n1.Consume(), StreamClose, start);
  }

  lemma ResetAsksNothing(s: Sess, start: nat)
    requires start <= |s.net.log|
    ensures var log := ResetStep(s).net.log;
            |log| >= start && Requests(log, start) == Requests(s.net.log, start)
  {
    hide OpenStream, Requests;
    OpenAsksNothing(s.net, start);
  }

  lemma ExchangeAsksNothing(n: Net, l: Login, mechanism: string, f: Features, start: nat)
    requires start <= |n.log|
    ensures var log := Exchange(n, l, mechanism, f).0.log;
            |log| >= start && Requests(log, start) == Requests(n.log, start)
  {
    hide Answer, CheckOutcome, ReadChallenge, ClientFirstBare, AlgorithmOf, Requests;
    if l.nonce.Some? {
      var first := SaslAuth(mechanism, l.crypto.Pack(GS2_HEADER + ClientFirstBare(l.user, l.nonce.value)));
      RequestsWrite(n, first, start);
      var n2 := n.Write(first).Consume();
      forall m: string {
        RequestsWrite(n2, SaslResponse(m), start);
      }
    }
  }

  lemma PlainAsksNothing(n: Net, l: Login, mechanism: string, start: nat)
    requires start <= |n.log|
    ensures var log := PlainExchange(n, l, mechanism).0.log;
            |log| >= start && Requests(log, start) == Requests(n.log, start)
  {
    hide Requests;
    RequestsWrite(n, SaslAuth(mechanism, l.crypto.Pack([0 as char] + l.user + [0 as char] + l.secret)), start);
  }

  lemma AuthAsksNothing(s: Sess, o: Settings, start: nat)
    requires start <= |s.net.log|
    ensures var log := AuthStep(s, o).net.log;
            |log| >= start && Requests(log, start) == Requests(s.net.log, start)
  {
    hide Exchange, PlainExchange, Requests;
    var choice := Choose(o.login.accepted, s.features.mechanisms);
    if choice.Some? {
      ExchangeAsksNothing(s.net, o.login, choice.value, s.features, start);
      PlainAsksNothing(s.net, o.login, choice.value, start);
    }
  }

  /** Until the login is through no such request is made. */
  lemma LoginAsksNothing(s: Sess, o: Settings, start: nat)
    requires start <= |s.net.log|
    ensures var log := Authenticated(s, o).net.log;
            |log| >= start && Requests(log, start) == Requests(s.net.log, start)
  {
    hide AuthStep, ResetStep, Requests;
    ResetAsksNothing(s, start);
    AuthAsksNothing(Reopened(s), o, start);
    ResetAsksNothing(AuthStep(Reopened(s), o), start);
  }

  lemma {:induction false} RequestsCount(log: seq<Entry>, start: nat, i: nat)
    requires start <= i < |log| && IsRequest(log[i].frame)
    ensures Requests(log, start) > 0
    decreases |log|
  {
    if i < |log| - 1 {
      RequestsCount(log[..|log| - 1], start, i);
    }
  }

  /** Each request that was written had its reply read. */
  predicate Paired(before: Net, after: Net, start: nat) {
    Requests(after.log, start) - Requests(before.log, start) == |before.replies| - |after.replies|
  }

  lemma AskPaired(s: Sess, f: Frame, start: nat)
    requires start <= |s.net.log| && IsRequest(f)
    ensures var (s1, r) := s.Ask(f);
            && s1 == s.(net := s1.net, late := s1.late)
            && (r.None? || r.value != ReadError ==> Paired(s.net, s1.net, start))
            && |s1.net.log| >= start
  {
    RequestsWrite(s.net, f, start);
    hide Requests;
  }

  lemma ResumePaired(s: Sess, o: Settings, start: nat)
    requires start <= |s.net.log| && s.err.None?
    ensures var s1 := ResumeStep(s, o).0;
            |s1.net.log| >= start && (s1.err.None? ==> Paired(s.net, s1.net, start))
  {
    hide Sess.Ask, DropAcked, Requests, Paired, IsPacket;
    PacketsAreRead();
    AskPaired(s, SmResume(s.sm.id, s.sm.inbound), start);
    assert Paired(s.net, s.net, start) by {
      PairedSelf(s.net, start);
    }
  }

  lemma PairedSelf(n: Net, start: nat)
    ensures Paired(n, n, start)
  {
  }

  lemma BindPaired(s: Sess, o: Settings, start: nat)
    requires start <= |s.net.log| && s.err.None?
    ensures var s1 := BindStep(s, o);
            |s1.net.log| >= start && (s1.err.None? ==> Paired(s.net, s1.net, start))
  {
    hide Sess.Ask, Requests, Paired;
    var s0 := s.(lastPacketId := s.lastPacketId + 1);
    AskPaired(s0, BindIq(s0.lastPacketId, o.resource), start);
  }

  lemma SessionPaired(s: Sess, start: nat)
    requires start <= |s.net.log| && s.err.None?
    ensures var s1 := Rfc3921Step(s);
            |s1.net.log| >= start && (s1.err.None? ==> Paired(s.net, s1.net, start))
  {
    hide Sess.Ask, Requests, Paired;
    var s0 := s.(lastPacketId := s.lastPacketId + 1);
    AskPaired(s0, SessionIq(s0.lastPacketId), start);
    PairedSelf(s.net, start);
  }

  lemma PacketsAreRead()
    ensures !IsPacket(ReadError)
  {
  }

  lemma EnablePaired(s: Sess, o: Settings, start: nat)
    requires start <= |s.net.log| && s.err.None?
    ensures var s1 := EnableStep(s, o);
            |s1.net.log| >= start && (s1.err.None? ==> Paired(s.net, s1.net, start))
  {
    hide Sess.Ask, Requests, Paired, ParsesTrue, IsPacket;
    PacketsAreRead();
    AskPaired(s, SmEnable(s.smResume), start);
    PairedSelf(s.net, start);
  }

  lemma RestPaired(s: Sess, o: Settings, start: nat)
    requires start <= |s.net.log| && s.err.None?
    ensures var v := EstablishRest(s, o);
            v.err.None? ==> Paired(s.net, v.net, start)
  {
    hide ResumeStep, BindStep, Rfc3921Step, EnableStep, Requests;
    ResumePaired(s, o, start);
    var (s1, done) := ResumeStep(s, o);
    if !done && s1.err.None? {
      BindPaired(s1, o, start);
      var s2 := BindStep(s1, o);
      if s2.err.None? {
        SessionPaired(s2, start);
        var s3 := Rfc3921Step(s2);
        if s3.err.None? {
          EnablePaired(s3, o, start);
        } else {
          ErrorSkipsRest(s3, o);
        }
      } else {
        ErrorSkipsRest(s2, o);
      }
    } else if !done {
      ErrorSkipsBind(s1, o);
    }
  }

  lemma ErrorSkipsBind(s: Sess, o: Settings)
    requires s.err.Some?
    ensures BindAndEnable(s, o) == s
  {
    hide Sess.Ask;
  }

  lemma LoggedInOn(before: Net, s: Sess, v: Sess)
    requires LoggedIn(before, s, 0) && Reads(before, s.net) && Reads(s.net, v.net) && SameLogin(s, v)
    ensures LoggedIn(before, v, |s.net.replies| - |v.net.replies|)
  {
    ReadBackOn(before, s.net, v.net, 0);
    ReadBackOn(before, s.net, v.net, 1);
    ReadBackOn(before, s.net, v.net, 2);
    hide ReadBack, Reads;
  }

  /** From the link's upgrade on: what deciding on requests rests upon, and that none comes before. */
  lemma EstablishLogin(s: Sess, start: nat, o: Settings)
    requires Fine(s.net.log, start, {Begin, TlsAsked})
    requires Reach(s.net.log, start) == TlsAsked ==> s.tlsEnabled || s.err.Some?
    requires Requests(s.net.log, start) == 0
    ensures var (v, outcome) := EstablishOn(s, o);
            && (outcome.Established? ==> LoggedIn(s.net, v, Requests(v.net.log, start)))
            && (Requests(v.net.log, start) > 0 ==> exists back: nat :: LoggedIn(s.net, v, back))
  {
    hide Authenticated, EstablishRest, Onward, Reach, Requests, Reads, LoggedIn, SameLogin;
    AuthenticatedTrace(s, start, o);
    AuthenticatedOnward(s, o, StartTls);
    LoginReads(s, o);
    LoginAsksNothing(s, o, start);
    var a := Authenticated(s, o);
    if a.err.None? {
      RestTrace(a, start, o);
      RestKeepsLogin(a, o);
      RestPaired(a, o, start);
      var v := EstablishRest(a, o);
      OnwardReads(s.net, a.net, StartTls);
      OnwardReads(a.net, v.net, ResumeRequest(a));
      LoggedInOn(s.net, a, v);
    }
  }

  // ------------------------------------------------------------------
  // The theorems

  /** New entries are StartTls, or written on this link; requests to resume are this one. */
  ghost predicate Guided(before: Net, after: Net, link: Link, request: Frame) {
    && before.log <= after.log && Reads(before, after)
    && forall i :: |before.log| <= i < |after.log| ==>
         after.log[i].frame.StartTls? || Proper(after.log[i], link, request)
  }

  /** Every entry but StartTls was written with the flag set, or with `Insecure`. */
  ghost predicate Guarded(log: seq<Entry>, start: nat, insecure: bool) {
    forall i :: start <= i < |log| && !log[i].frame.StartTls? ==> log[i].link.secure || insecure
  }

  /**
   For every script of replies and write failures, from any session: the
   frames written follow the protocol's order; everything but the request for
   TLS is written on the one link that securing left, with its flag set unless
   `Insecure` is; and whether or not the server goes along, a request to resume
   carries the Id and the count of the session.
   */
  lemma NegotiationTrace(s: Sess, o: Settings)
    ensures var v := Negotiate(s, o).0;
            var start := |s.net.log|;
            && Guided(s.net, v.net, Secured(s, o).net.link, ResumeRequest(s))
            && Reach(v.net.log, start) != Disorder && Guarded(v.net.log, start, o.insecure)
            && v.net.link == Secured(s, o).net.link
  {
    hide Secured, EstablishOn, Reads, Reach;
    SecuredTrace(s, o);
    SecuredWrites(s, o);
    SecuredLink(s, o);
    var s1 := Secured(s, o);
    if s1.net.link.secure || o.insecure {
      EstablishTrace(s1, |s.net.log|, o);
      ReadsOn(s.net, s1.net, EstablishOn(s1, o).0.net);
    }
  }

  lemma ReadsOn(a: Net, b: Net, c: Net)
    requires Reads(a, b) && Reads(b, c)
    ensures Reads(a, c)
  {
  }

  /**
   A negotiation succeeds in one of two ways only: the server resumed the old
   session, or a resource was bound. No bind request precedes a resumption.
   */
  lemma NegotiationOutcome(s: Sess, o: Settings)
    ensures var (v, outcome) := Negotiate(s, o);
            outcome.Established? ==>
            Succeeded(s, v, o) && LoggedIn(s.net, v, Requests(v.net.log, |s.net.log|))
  {
    hide Secured, EstablishOn, InitStep, Reads, Reach, Success, LoggedIn, Requests;
    SecuredTrace(s, o);
    SecuredWrites(s, o);
    SecuredLink(s, o);
    var s1 := Secured(s, o);
    if s1.net.link.secure || o.insecure {
      EstablishTrace(s1, |s.net.log|, o);
      var (v, outcome) := EstablishOn(s1, o);
      if outcome.Established? {
        OnwardReads(s1.net, v.net, ResumeRequest(s1));
        SuccessOn(s, s1, v, o, |s.net.log|, Reach(v.net.log, |s.net.log|));
        SecuredAsksNothing(s, o);
        EstablishLogin(s1, |s.net.log|, o);
        LoggedInFrom(s.net, s1.net, v, Requests(v.net.log, |s.net.log|));
      }
    }
  }

  lemma SecuredAsksNothing(s: Sess, o: Settings)
    ensures Requests(Secured(s, o).net.log, |s.net.log|) == 0
  {
    hide Secured;
    SecuredWrites(s, o);
    var log := Secured(s, o).net.log;
    assert |log| > |s.net.log| ==> log[..|log| - 1] == s.net.log;
  }

  lemma LoggedInFrom(a: Net, b: Net, v: Sess, back: nat)
    requires Reads(a, b) && Reads(b, v.net) && LoggedIn(b, v, back)
    ensures LoggedIn(a, v, back)
  {
    ReadBackOn(a, b, v.net, back);
    ReadBackOn(a, b, v.net, back + 1);
    ReadBackOn(a, b, v.net, back + 2);
    hide Reads, ReadBack;
  }

  /**
   Whether or not the negotiation succeeds, nothing that a session asks for
   after its login is written unless the server granted the login, restarted
   the stream and sent its features.
   */
  lemma NoRequestWithoutLogin(s: Sess, o: Settings, i: nat)
    requires |s.net.log| <= i < |Negotiate(s, o).0.net.log|
    requires IsRequest(Negotiate(s, o).0.net.log[i].frame)
    ensures exists back: nat :: LoggedIn(s.net, Negotiate(s, o).0, back)
  {
    hide Secured, EstablishOn, InitStep, Reads, Reach, LoggedIn;
    SecuredTrace(s, o);
    SecuredWrites(s, o);
    SecuredLink(s, o);
    SecuredAsksNothing(s, o);
    var s1, start := Secured(s, o), |s.net.log|;
    var v := Negotiate(s, o).0;
    RequestsCount(v.net.log, start, i);
    hide Requests;
    if s1.net.link.secure || o.insecure {
      EstablishTrace(s1, start, o);
      OnwardReads(s1.net, EstablishOn(s1, o).0.net, ResumeRequest(s1));
      EstablishLogin(s1, start, o);
      if Requests(v.net.log, start) > 0 && v == EstablishOn(s1, o).0 {
        var back: nat :| LoggedIn(s1.net, v, back);
        LoggedInFrom(s.net, s1.net, v, back);
      }
    }
  }

  lemma OnwardReads(a: Net, b: Net, request: Frame)
    requires Onward(a, b, request)
    ensures Reads(a, b)
  {
  }

  /**
   One negotiation keeps the tie between `TlsEnabled` and the transport's flag,
   never writes under a recorded error, and keeps a session only on a link
   that is as secure as required.
   */
  lemma TlsFlagStep(s: Sess, o: Settings)
    requires s.tlsEnabled ==> s.net.link.secure
    ensures var (v, outcome) := Negotiate(s, o);
            && (v.tlsEnabled ==> v.net.link.secure)
            && v.late == s.late
            && (!outcome.Lost? ==> v.net.link.secure || o.insecure)
            && (s.net.link.secure ==> v.net.link.secure)
  {
    hide Secured, EstablishOn, Reads, Reach;
    SecuredTrace(s, o);
    SecuredLink(s, o);
    var s1 := Secured(s, o);
    if s1.net.link.secure || o.insecure {
      EstablishTrace(s1, |s.net.log|, o);
      EstablishKeepsTls(s1, o);
    }
  }

  lemma EstablishKeepsTls(s: Sess, o: Settings)
    ensures EstablishOn(s, o).0.tlsEnabled == s.tlsEnabled
  {
    hide Authenticated, EstablishRest;
    AuthenticatedLate(s, o);
    RestKeepsLogin(Authenticated(s, o), o);
  }

  // ------------------------------------------------------------------
  // When something is written in clear

  /** Everything but stream headers, stream ends and the request for TLS. */
  predicate Private(f: Frame) {
    !f.StartTls? && !f.StreamOpen? && !f.StreamClose?
  }

  ghost predicate WritesPrivate(log: seq<Entry>, start: nat) {
    exists i :: start <= i < |log| && Private(log[i].frame)
  }

  /** Something private is among the entries and was not encrypted. */
  ghost predicate PrivateInClear(log: seq<Entry>, start: nat) {
    exists i :: start <= i < |log| && Private(log[i].frame) && !log[i].link.encrypted
  }

  /** The first message of the chosen mechanism can be formed. */
  predicate CanStart(l: Login, f: Features) {
    var choice := Choose(l.accepted, f.mechanisms);
    && choice.Some?
    && if choice.value in ["SCRAM-SHA-512", "SCRAM-SHA-256", "SCRAM-SHA-1"] then l.nonce.Some?
       else choice.value in ["PLAIN", "X-OAUTH2"]
  }

  /**
   Without a request for TLS, the server lets the client come to its first SASL
   message: it sends its features, after a second stream header if TLS was
   enabled before, and offers a mechanism that the client can start.
   */
  predicate Authenticates(s: Sess, o: Settings) {
    var n := s.net;
    && |n.replies| > 0 && n.replies[0].FeaturesReply? && n.Accepts()
    && if s.tlsEnabled then
         && |n.replies| > 2 && n.replies[1].OpenedStream? && n.replies[2].FeaturesReply?
         && !n.fault(n.attempts + 1) && CanStart(o.login, n.replies[2].features)
       else CanStart(o.login, n.replies[0].features)
  }

  lemma AuthenticateWrites(n: Net, l: Login, f: Features)
    ensures var (n', e) := Authenticate(n, l, f);
            if n.Accepts() && CanStart(l, f) then
              && |n'.log| > |n.log| && n'.log[|n.log|].frame.SaslAuth?
              && n'.log[|n.log|].frame.mechanism == Choose(l.accepted, f.mechanisms).value
            else n'.log == n.log && e.Some?
  {
    hide Answer, CheckOutcome, ReadChallenge, ClientFirstBare, AlgorithmOf, Crypto.Pack;
  }

  lemma OpenQuiet(n: Net)
    ensures n.log <= OpenStream(n).0.log && !WritesPrivate(OpenStream(n).0.log, |n.log|)
  {
  }

  lemma ReopenedQuiet(s: Sess)
    ensures s.net.log <= Reopened(s).net.log && !WritesPrivate(Reopened(s).net.log, |s.net.log|)
  {
    hide OpenStream;
    OpenQuiet(s.net);
  }

  /** Reopening ends ready to write the first SASL message exactly when the script says so. */
  lemma ReopenedReady(s: Sess, o: Settings)
    requires InitStep(s).err.None?
    ensures var v := Reopened(InitStep(s));
            v.err.None? && v.net.Accepts() && CanStart(o.login, v.features) <==> Authenticates(s, o)
  {
    hide CanStart;
  }

  lemma OnwardLog(a: Net, b: Net, request: Frame)
    requires Onward(a, b, request)
    ensures a.log <= b.log
  {
  }

  /** On a link that stays as it is, something private is written exactly when the script says so. */
  lemma EstablishPrivateIff(s: Sess, o: Settings)
    requires InitStep(s).err.None?
    ensures WritesPrivate(EstablishOn(InitStep(s), o).0.net.log, |s.net.log|) <==> Authenticates(s, o)
  {
    var s0 := InitStep(s);
    var s1 := Reopened(s0);
    var s2 := AuthStep(s1, o);
    var v := EstablishOn(s0, o).0;
    ReopenedQuiet(s0);
    ReopenedReady(s, o);
    AuthenticateWrites(s1.net, o.login, s1.features);
    hide Authenticate, Reopened, ResetStep, EstablishRest, InitStep, CanStart, Authenticates, WritesPrivate;
    assert s0.net.log == s.net.log by {
      InitOnward(s, StartTls);
    }
    if Authenticates(s, o) {
      AuthStays(s, o);
      SomePrivate(v.net.log, |s.net.log|, |s1.net.log|);
    } else {
      assert v.net.log == s1.net.log;
    }
  }

  lemma SomePrivate(log: seq<Entry>, start: nat, i: nat)
    requires start <= i < |log| && Private(log[i].frame)
    ensures WritesPrivate(log, start)
  {
  }

  /** What authentication wrote is still there at the end. */
  lemma AuthStays(s: Sess, o: Settings)
    requires InitStep(s).err.None?
    ensures AuthStep(Reopened(InitStep(s)), o).net.log <= EstablishOn(InitStep(s), o).0.net.log
  {
    hide AuthStep, Reopened, ResetStep, EstablishRest, InitStep, Onward, Reach;
    var s0 := InitStep(s);
    var s2 := AuthStep(Reopened(s0), o);
    InitOnward(s, StartTls);
    ReachStart(s.net.log);
    AuthenticatedTrace(s0, |s.net.log|, o);
    ResetOnward(s2, StartTls);
    OnwardLog(s2.net, ResetStep(s2).net, StartTls);
    var s3 := Authenticated(s0, o);
    if s3.err.None? {
      RestTrace(s3, |s.net.log|, o);
      OnwardLog(s3.net, EstablishRest(s3, o).net, ResumeRequest(s3));
    }
  }

  /**
   With `Insecure` unset a negotiation writes something private in clear exactly
   when the flag was carried over to a link that is not encrypted, and the
   script lets the client come to its first SASL message.
   */
  lemma PrivateInClearIff(s: Sess, o: Settings)
    requires !o.insecure
    ensures PrivateInClear(Negotiate(s, o).0.net.log, |s.net.log|)
       <==> s.net.link.secure && !s.net.link.encrypted && Authenticates(s, o)
  {
    hide Secured, EstablishOn, Reads, Reach, Authenticates, InitStep, StartTlsStep;
    SecuredTrace(s, o);
    SecuredWrites(s, o);
    SecuredLink(s, o);
    var s1 := Secured(s, o);
    if InitStep(s).err.None? && s1.net.link.secure {
      EstablishTrace(s1, |s.net.log|, o);
      if s.net.link.secure {
        EstablishPrivateIff(s, o);
      }
    } else {
      NoFeaturesNoAuth(s, o);
    }
  }

  lemma NoFeaturesNoAuth(s: Sess, o: Settings)
    ensures InitStep(s).err.Some? ==> !Authenticates(s, o)
  {
  }
}

/**
 The inbound side of stream management (section 4 of XEP-0198): what the
 client answers to requests, over whole receive loops and across resumption,
 and when it sends its initial presence.
 */
module Inbound {
  import opened Wrappers
  import opened UnAckQueues
  import opened Transports
  import opened Sessions
  import opened Clients
  import Negotiation

  // ------------------------------------------------------------------
  // What a script of packets asks for

  /** The packets the loop gets to see: up to the first close. */
  function Live(packets: seq<Incoming>): seq<Incoming> {
    if packets == [] || packets[0].InClose? then [] else [packets[0]] + Live(packets[1..])
  }

  function CountStanzas(packets: seq<Incoming>): nat {
    if packets == [] then 0 else (if IsStanza(packets[0]) then 1 else 0) + CountStanzas(packets[1..])
  }

  function CountRequests(packets: seq<Incoming>): nat {
    if packets == [] then 0 else (if packets[0].InRequest? then 1 else 0) + CountRequests(packets[1..])
  }

  /** The counts owed to the requests of a script, starting from `inbound`. */
  function Owed(inbound: nat, packets: seq<Incoming>): seq<nat>
    decreases |packets|
  {
    if packets == [] then []
    else (if packets[0].InRequest? then [inbound] else [])
         + Owed(inbound + if IsStanza(packets[0]) then 1 else 0, packets[1..])
  }

  lemma {:induction false} OwedAt(inbound: nat, packets: seq<Incoming>, i: nat)
    requires i < |packets| && packets[i].InRequest?
    ensures CountRequests(packets[..i]) < |Owed(inbound, packets)|
    ensures Owed(inbound, packets)[CountRequests(packets[..i])] == inbound + CountStanzas(packets[..i])
    decreases i
  {
    if i > 0 {
      assert packets[..i][1..] == packets[1..][..i - 1];
      OwedAt(inbound + if IsStanza(packets[0]) then 1 else 0, packets[1..], i - 1);
    }
  }

  /** The packets before request number `k`, or all of them when there are not so many. */
  function UpTo(packets: seq<Incoming>, k: nat): seq<Incoming> {
    if packets == [] || (k == 0 && packets[0].InRequest?) then []
    else [packets[0]] + UpTo(packets[1..], if packets[0].InRequest? then k - 1 else k)
  }

  lemma {:induction false} OwedIsCountUpTo(inbound: nat, packets: seq<Incoming>, k: nat)
    requires k <= |Owed(inbound, packets)|
    ensures inbound + CountStanzas(UpTo(packets, k))
         == if k < |Owed(inbound, packets)| then Owed(inbound, packets)[k] else inbound + CountStanzas(packets)
    decreases |packets|
  {
    if packets != [] && !(k == 0 && packets[0].InRequest?) {
      var k' := if packets[0].InRequest? then k - 1 else k;
      OwedIsCountUpTo(inbound + if IsStanza(packets[0]) then 1 else 0, packets[1..], k');
      assert UpTo(packets, k)[1..] == UpTo(packets[1..], k');
    }
  }

  // ------------------------------------------------------------------
  // What the loop answers

  function AnswersIn(log: seq<Entry>): seq<nat> {
    if log == [] then []
    else
      var e := log[|log| - 1];
      AnswersIn(log[..|log| - 1]) + if e.frame.SmAnswer? then [e.frame.h] else []
  }

  lemma AnswersInWrite(n: Net, f: Frame)
    ensures AnswersIn(n.Write(f).log) == AnswersIn(n.log) + if n.Accepts() && f.SmAnswer? then [f.h] else []
  {
    if n.Accepts() {
      assert n.Write(f).log[..|n.log|] == n.log;
    }
  }

  lemma {:induction false} ResendAnswersNothing(n: Net, pending: seq<string>)
    ensures AnswersIn(WriteAll(n, pending).0.log) == AnswersIn(n.log)
    ensures WriteAll(n, pending).0.fault == n.fault && WriteAll(n, pending).0.attempts >= n.attempts
    decreases |pending|
  {
    if pending != [] {
      AnswersInWrite(n, Stanza(pending[0]));
      if n.Accepts() {
        ResendAnswersNothing(n.Write(Stanza(pending[0])), pending[1..]);
      }
    }
  }

  lemma SendMissingAnswersNothing(c: State, h: int)
    ensures var c' := SendMissing(c, h).0;
            && AnswersIn(c'.net.log) == AnswersIn(c.net.log) && c'.inbound == c.inbound
            && c'.net.fault == c.net.fault && c'.net.attempts >= c.net.attempts
  {
    if c.queue.Some? {
      var pending := Stanzas(DropAcked(c.queue.value, h));
      ResendAnswersNothing(c.net, pending);
      AnswersInWrite(WriteAll(c.net, pending).0, SmRequest);
    }
  }

  /** No write fails from some attempt on. */
  ghost predicate Reliable(n: Net) {
    forall i :: i >= n.attempts ==> !n.fault(i)
  }

  /** How many answers were written. */
  function Written(c: State, after: State): int {
    |AnswersIn(after.net.log)| - |AnswersIn(c.net.log)|
  }

  /**
   The answers written are the first of those owed, and all of them when no
   write fails; the count stops at the first request that was not answered.
   */
  ghost predicate Answered(c: State, after: State, packets: seq<Incoming>) {
    var owed, k := Owed(c.inbound, Live(packets)), Written(c, after);
    && 0 <= k <= |owed|
    && AnswersIn(after.net.log) == AnswersIn(c.net.log) + owed[..k]
    && after.inbound == (if k < |owed| then owed[k] else c.inbound + CountStanzas(Live(packets)))
    && (Reliable(c.net) ==> k == |owed|)
  }

  lemma {:induction false} ReceiveAnswers(c: State, smEnable: bool, packets: seq<Incoming>)
    ensures Answered(c, Receive(c, smEnable, packets).0, packets)
    decreases |packets|
  {
    if packets != [] && !packets[0].InClose? {
      var p, rest := packets[0], packets[1..];
      AfterOneAnswers(c, smEnable, p);
      ReceiveUnfolds(c, smEnable, packets);
      OwedUnfolds(c.inbound, packets);
      if !(p.InRequest? && !c.net.Accepts()) {
        var c1 := AfterOne(c, smEnable, p);
        ReceiveAnswers(c1, smEnable, rest);
        AnsweredCons(c, c1, Receive(c1, smEnable, rest).0, packets);
      }
    }
  }

  lemma OwedUnfolds(inbound: nat, packets: seq<Incoming>)
    requires packets != [] && !packets[0].InClose?
    ensures Owed(inbound, Live(packets))
         == (if packets[0].InRequest? then [inbound] else [])
            + Owed(inbound + if IsStanza(packets[0]) then 1 else 0, Live(packets[1..]))
    ensures CountStanzas(Live(packets)) == (if IsStanza(packets[0]) then 1 else 0) + CountStanzas(Live(packets[1..]))
  {
    assert Live(packets)[1..] == Live(packets[1..]);
  }

  lemma AnsweredCons(c: State, c1: State, after: State, packets: seq<Incoming>)
    requires packets != [] && !packets[0].InClose?
    requires AnswersIn(c1.net.log) == AnswersIn(c.net.log) + (if packets[0].InRequest? then [c.inbound] else [])
    requires c1.inbound == c.inbound + (if IsStanza(packets[0]) then 1 else 0)
    requires c1.net.fault == c.net.fault && c1.net.attempts >= c.net.attempts
    requires Answered(c1, after, packets[1..])
    ensures Answered(c, after, packets)
  {
    hide AnswersIn, Live;
    OwedUnfolds(c.inbound, packets);
    hide Owed, CountStanzas;
    var first := if packets[0].InRequest? then [c.inbound] else [];
    var rest, k := Owed(c1.inbound, Live(packets[1..])), Written(c1, after);
    assert (first + rest)[..|first| + k] == first + rest[..k];
    assert AnswersIn(c.net.log) + (first + rest[..k]) == (AnswersIn(c.net.log) + first) + rest[..k];
  }

  /** The state after one packet that does not end the loop. */
  function AfterOne(c: State, smEnable: bool, p: Incoming): State {
    if p.InRequest? then SendPacket(c, smEnable, AnswerPacket(c.inbound)).0
    else if p.InAnswer? then SendMissing(c, p.h).0
    else if p.InStreamError? then c.(net := c.net.Close())
    else if IsStanza(p) then c.(inbound := c.inbound + 1)
    else c
  }

  lemma AfterOneAnswers(c: State, smEnable: bool, p: Incoming)
    ensures var c1 := AfterOne(c, smEnable, p);
            && AnswersIn(c1.net.log)
               == AnswersIn(c.net.log) + (if p.InRequest? && c.net.Accepts() then [c.inbound] else [])
            && c1.inbound == c.inbound + (if IsStanza(p) then 1 else 0)
            && c1.net.fault == c.net.fault && c1.net.attempts >= c.net.attempts
  {
    AnswersInWrite(c.net, SmAnswer(c.inbound));
    AnswersInWrite(c.net, StreamClose);
    if p.InAnswer? {
      SendMissingAnswersNothing(c, p.h);
    }
  }

  /** What the loop reports for one packet that does not end it. */
  function EventsOf(p: Incoming): seq<Event> {
    if p.InRequest? then []
    else if p.InStreamError? then [Routed(p), StreamErrorSeen, ErrorReported, Routed(p)]
    else [Routed(p)]
  }

  lemma ReceiveUnfolds(c: State, smEnable: bool, packets: seq<Incoming>)
    requires packets != [] && !packets[0].InClose?
    ensures Receive(c, smEnable, packets)
         == if packets[0].InRequest? && !c.net.Accepts() then (AfterOne(c, smEnable, packets[0]), [ErrorReported])
            else Prepend(EventsOf(packets[0]), Receive(AfterOne(c, smEnable, packets[0]), smEnable, packets[1..]))
  {
    hide SendMissing, Net.Write;
    var tail := Receive(AfterOne(c, smEnable, packets[0]), smEnable, packets[1..]);
    assert [] + tail.1 == tail.1;
  }

  /**
   The answer to the request at place `i` carries the starting count plus the
   number of messages, presences and IQs received before it.
   */
  lemma AnswerCarriesCount(c: State, smEnable: bool, packets: seq<Incoming>, i: nat)
    requires i < |Live(packets)| && Live(packets)[i].InRequest?
    ensures var before := Live(packets)[..i];
            var answers := AnswersIn(Receive(c, smEnable, packets).0.net.log);
            var k := |AnswersIn(c.net.log)| + CountRequests(before);
            && (Reliable(c.net) ==> k < |answers|)
            && (k < |answers| ==> answers[k] == c.inbound + CountStanzas(before))
  {
    ReceiveAnswers(c, smEnable, packets);
    OwedAt(c.inbound, Live(packets), i);
  }

  /**
   Whatever made the receive loop end, a failing write included, the count it
   leaves is the starting count plus the messages, presences and IQs before
   the first request that was not answered.
   */
  lemma ReceiveCounts(c: State, smEnable: bool, packets: seq<Incoming>)
    ensures var after := Receive(c, smEnable, packets).0;
            && 0 <= Written(c, after)
            && after.inbound == c.inbound + CountStanzas(UpTo(Live(packets), Written(c, after)))
  {
    hide Receive, Owed, CountStanzas, AnswersIn, Live, UpTo;
    ReceiveAnswers(c, smEnable, packets);
    OwedIsCountUpTo(c.inbound, Live(packets), Written(c, Receive(c, smEnable, packets).0));
  }

  /**
   Every request to resume, whatever becomes of it, carries the running count
   of the connection that ended; and after a resumption the answers go on
   counting from there.
   */
  lemma CountSurvivesResumption(c: State, smEnable: bool, packets: seq<Incoming>, s: Sess, o: Settings,
                                later: seq<Incoming>, i: nat)
    requires s.sm.inbound == Receive(c, smEnable, packets).0.inbound
    requires i < |Live(later)| && Live(later)[i].InRequest?
    ensures var v := Negotiate(s, o).0;
            var answered := Written(c, Receive(c, smEnable, packets).0);
            && 0 <= answered
            && var total := c.inbound + CountStanzas(UpTo(Live(packets), answered));
            && |s.net.log| <= |v.net.log|
            && (forall j :: |s.net.log| <= j < |v.net.log| && v.net.log[j].frame.SmResume? ==>
                  v.net.log[j].frame == SmResume(s.sm.id, total))
            && (Negotiate(s, o).1.Established? && v.resumed ==>
                  && v.net.log != [] && v.net.log[|v.net.log| - 1].frame == SmResume(s.sm.id, total)
                  && var c2 := State(v.net, v.queue, v.sm.inbound);
                     var answers := AnswersIn(Receive(c2, smEnable, later).0.net.log);
                     var k := |AnswersIn(v.net.log)| + CountRequests(Live(later)[..i]);
                     k < |answers| ==> answers[k] == total + CountStanzas(Live(later)[..i]))
  {
    hide Negotiate, Receive, Owed, CountStanzas, CountRequests, AnswersIn, Live, UpTo;
    ReceiveCounts(c, smEnable, packets);
    Negotiation.NegotiationTrace(s, o);
    Negotiation.NegotiationOutcome(s, o);
    var v := Negotiate(s, o).0;
    AnswerCarriesCount(State(v.net, v.queue, v.sm.inbound), smEnable, later, i);
  }

  // ------------------------------------------------------------------
  // How the loop ends

  /** The state in which the loop meets the packet after these. */
  function StateAt(c: State, smEnable: bool, packets: seq<Incoming>): State
    decreases |packets|
  {
    if packets == [] then c else StateAt(AfterOne(c, smEnable, packets[0]), smEnable, packets[1..])
  }

  /** The write of the answer goes through at each request. */
  ghost predicate AnswersPass(c: State, smEnable: bool, packets: seq<Incoming>) {
    forall i :: 0 <= i < |packets| && packets[i].InRequest? ==> StateAt(c, smEnable, packets[..i]).net.Accepts()
  }

  lemma AnswersPassUnfolds(c: State, smEnable: bool, packets: seq<Incoming>)
    requires packets != []
    ensures AnswersPass(c, smEnable, packets)
       <==> && (packets[0].InRequest? ==> c.net.Accepts())
            && AnswersPass(AfterOne(c, smEnable, packets[0]), smEnable, packets[1..])
  {
    hide AfterOne, Net.Accepts;
    var c1, rest := AfterOne(c, smEnable, packets[0]), packets[1..];
    forall i | 0 <= i < |rest|
      ensures StateAt(c, smEnable, packets[..i + 1]) == StateAt(c1, smEnable, rest[..i])
    {
      assert packets[..i + 1][1..] == rest[..i];
    }
    assert packets[..0] == [];
    if AnswersPass(c, smEnable, packets) {
      assert packets[0].InRequest? ==> StateAt(c, smEnable, packets[..0]).net.Accepts();
      forall i | 0 <= i < |rest| && rest[i].InRequest?
        ensures StateAt(c1, smEnable, rest[..i]).net.Accepts()
      {
        assert packets[i + 1] == rest[i];
      }
    } else {
      var i :| 0 <= i < |packets| && packets[i].InRequest? && !StateAt(c, smEnable, packets[..i]).net.Accepts();
      assert i > 0 ==> rest[i - 1] == packets[i] && packets[..i - 1 + 1] == packets[..i];
    }
  }

  /** What the last event tells. */
  ghost predicate Ended(c: State, r: (State, seq<Event>), owed: nat, pass: bool, closed: bool) {
    && r.1 != []
    && (pass ==> |r.1| > 1 && r.1[|r.1| - 2] == if closed then CloseSeen else ErrorReported)
    && r.1[|r.1| - 1] == (if pass then Disconnected(r.0.inbound) else ErrorReported)
    && (pass <==> Written(c, r.0) == owed)
  }

  lemma EndedCons(c: State, c1: State, r: (State, seq<Event>), events: seq<Event>, owed: nat, pass: bool,
                  closed: bool)
    requires AnswersIn(c.net.log) <= AnswersIn(c1.net.log) && Ended(c1, r, owed, pass, closed)
    ensures Ended(c, Prepend(events, r), Written(c, c1) + owed, pass, closed)
  {
    hide AnswersIn;
  }

  lemma EndedFailing(c: State, c1: State, owed: nat, closed: bool)
    requires Written(c, c1) < owed
    ensures Ended(c, (c1, [ErrorReported]), owed, false, closed)
  {
  }

  ghost predicate EndedAsOwed(c: State, smEnable: bool, packets: seq<Incoming>) {
    Ended(c, Receive(c, smEnable, packets), |Owed(c.inbound, Live(packets))|, AnswersPass(c, smEnable, Live(packets)),
          |Live(packets)| < |packets|)
  }

  lemma EndedStep(c: State, smEnable: bool, packets: seq<Incoming>)
    requires packets != [] && !packets[0].InClose?
    requires EndedAsOwed(AfterOne(c, smEnable, packets[0]), smEnable, packets[1..])
    ensures EndedAsOwed(c, smEnable, packets)
  {
    hide Receive, AfterOne, AnswersIn, Owed, CountStanzas, Ended, AnswersPass, Live, Net.Accepts, EventsOf, Prepend;
    var p, rest := packets[0], packets[1..];
    LiveUnfolds(packets);
    AfterOneAnswers(c, smEnable, p);
    ReceiveUnfolds(c, smEnable, packets);
    OwedUnfolds(c.inbound, packets);
    AnswersPassUnfolds(c, smEnable, Live(packets));
    var c1 := AfterOne(c, smEnable, p);
    if p.InRequest? && !c.net.Accepts() {
      EndedFailing(c, c1, |Owed(c.inbound, Live(packets))|, |Live(packets)| < |packets|);
    } else {
      EndedCons(c, c1, Receive(c1, smEnable, rest), EventsOf(p), |Owed(c1.inbound, Live(rest))|,
                AnswersPass(c1, smEnable, Live(rest)), |Live(rest)| < |rest|);
    }
  }

  lemma LiveUnfolds(packets: seq<Incoming>)
    requires packets != [] && !packets[0].InClose?
    ensures Live(packets) != [] && Live(packets)[0] == packets[0] && Live(packets)[1..] == Live(packets[1..])
  {
  }

  /**
   The loop ends by reporting the disconnection, with the count it leaves, after
   the close or the error that ended it, exactly when at every request before the first close the write of the answer
   goes through; then every answer owed was written. Otherwise it ends with the
   error alone, and whoever reconnects is not told.
   */
  lemma {:induction false} DisconnectedIff(c: State, smEnable: bool, packets: seq<Incoming>)
    ensures EndedAsOwed(c, smEnable, packets)
    decreases |packets|
  {
    if packets != [] && !packets[0].InClose? {
      DisconnectedIff(AfterOne(c, smEnable, packets[0]), smEnable, packets[1..]);
      EndedStep(c, smEnable, packets);
      hide EndedAsOwed;
    } else {
      EndedAtOnce(c, smEnable, packets);
      hide EndedAsOwed;
    }
  }

  lemma EndedAtOnce(c: State, smEnable: bool, packets: seq<Incoming>)
    requires packets == [] || packets[0].InClose?
    ensures EndedAsOwed(c, smEnable, packets)
  {
  }

  // ------------------------------------------------------------------
  // The initial presence

  /** A successful connect writes its presence, once and last, exactly when the session was not resumed. */
  lemma PresenceOnlyWhenBound(k: Kept, o: Settings, dialled: Option<seq<Reply>>)
    ensures var s := Dialled(k.s, o, dialled).0;
            var v := ConnectOn(k, o, dialled).0.s;
            var n := Negotiate(s, o).0;
            ConnectOn(k, o, dialled).1.Connected? ==>
            && Negotiation.Succeeded(s, n, o)
            && (n.resumed ==> v.net.log == n.net.log)
            && (!n.resumed ==> v.net.log == n.net.log + [Entry(Stanza("<presence/>"), n.net.link)])
            && v.sm == n.sm && v.queue == n.queue
  {
    hide Negotiate, Dial;
    Negotiation.NegotiationOutcome(Dialled(k.s, o, dialled).0, o);
  }
}

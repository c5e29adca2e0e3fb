/**
 Stream management over whole runs (XEP-0198, sections 4 and 5): what a peer
 has handled, what is still queued, and what both sides count.
 */
module Delivery {
  import opened Wrappers
  import opened UnAckQueues
  import opened Transports
  import opened Sessions
  import opened Clients
  import Negotiation

  // ------------------------------------------------------------------
  // What one resending writes

  /** How many of the next `limit` writes, from attempt `at`, go through before one fails. */
  function Accepted(fault: nat -> bool, at: nat, limit: nat): (k: nat)
    ensures k <= limit
    ensures forall i :: at <= i < at + k ==> !fault(i)
    ensures k < limit ==> fault(at + k)
    decreases limit
  {
    if limit == 0 || fault(at) then 0 else 1 + Accepted(fault, at + 1, limit - 1)
  }

  /** The count is the only one that fits the failures. */
  lemma AcceptedUnique(fault: nat -> bool, at: nat, limit: nat, k: nat)
    requires k <= limit
    requires forall i :: at <= i < at + k ==> !fault(i)
    requires k < limit ==> fault(at + k)
    ensures Accepted(fault, at, limit) == k
  {
  }

  function Entries(stanzas: seq<string>, link: Link): seq<Entry> {
    seq(|stanzas|, i requires 0 <= i < |stanzas| => Entry(Stanza(stanzas[i]), link))
  }

  lemma {:induction false} WriteAllWrites(n: Net, pending: seq<string>)
    ensures var (n', ok) := WriteAll(n, pending);
            var k := Accepted(n.fault, n.attempts, |pending|);
            && n'.log == n.log + Entries(pending[..k], n.link)
            && n'.attempts == n.attempts + k + (if ok then 0 else 1)
            && (ok <==> k == |pending|)
            && n'.link == n.link && n'.fault == n.fault && n'.replies == n.replies
    decreases |pending|
  {
    if pending != [] && n.Accepts() {
      var e := Entry(Stanza(pending[0]), n.link);
      var n1 := n.Write(Stanza(pending[0]));
      assert n1 == n.(attempts := n.attempts + 1, log := n.log + [e]);
      WriteAllWrites(n1, pending[1..]);
      EntriesCons(pending, Accepted(n.fault, n.attempts, |pending|), n.link, n.log);
    }
  }

  lemma EntriesCons(pending: seq<string>, k: nat, link: Link, log: seq<Entry>)
    requires 0 < k <= |pending|
    ensures log + Entries(pending[..k], link)
         == (log + [Entry(Stanza(pending[0]), link)]) + Entries(pending[1..][..k - 1], link)
  {
    assert pending[..k] == [pending[0]] + pending[1..][..k - 1];
  }

  /** The stanzas still queued, and one request if there are any. */
  function Burst(rest: Items, link: Link): seq<Entry> {
    Entries(Stanzas(rest), link) + if rest == [] then [] else [Entry(SmRequest, link)]
  }

  /**
   An acknowledgement trims the queue once and writes the rest in order, then
   one request; a failing write cuts that short and never changes the queue.
   */
  lemma ResendWrites(c: State, h: int)
    requires c.queue.Some? && c.queue.value != []
    ensures var (c', err) := SendMissing(c, h);
            var rest := DropAcked(c.queue.value, h);
            var burst := Burst(rest, c.net.link);
            var k := Accepted(c.net.fault, c.net.attempts, |burst|);
            && c'.queue == Some(rest) && c'.inbound == c.inbound
            && c'.net.log == c.net.log + burst[..k]
            && (err.None? <==> k == |burst|)
            && c'.net.attempts == c.net.attempts + k + (if err.None? then 0 else 1)
            && c'.net.link == c.net.link && c'.net.fault == c.net.fault
  {
    var rest := DropAcked(c.queue.value, h);
    WriteAllWrites(c.net, Stanzas(rest));
    BurstAccepted(rest, c.net.link, c.net.fault, c.net.attempts);
    hide WriteAll, Accepted, Burst, Entries, DropAcked;
    var net := WriteAll(c.net, Stanzas(rest)).0;
    assert net.log + [Entry(SmRequest, net.link)]
        == c.net.log + (Entries(Stanzas(rest)[..Accepted(c.net.fault, c.net.attempts, |rest|)], c.net.link)
                        + [Entry(SmRequest, c.net.link)]);
  }

  /** What goes through of a burst, in terms of what goes through of its stanzas. */
  lemma BurstAccepted(rest: Items, link: Link, fault: nat -> bool, at: nat)
    ensures var stanzas, burst := Stanzas(rest), Burst(rest, link);
            var k, all := Accepted(fault, at, |rest|), Accepted(fault, at, |burst|);
            && |burst| == |rest| + (if rest == [] then 0 else 1)
            && (if k < |rest| || rest == [] || fault(at + k)
                then all == k && burst[..all] == Entries(stanzas[..k], link)
                else all == k + 1 && burst[..all] == Entries(stanzas[..k], link) + [Entry(SmRequest, link)])
  {
    var stanzas, burst := Stanzas(rest), Burst(rest, link);
    var k := Accepted(fault, at, |rest|);
    assert stanzas[..|rest|] == stanzas;
    if k < |rest| || rest == [] || fault(at + k) {
      AcceptedUnique(fault, at, |burst|, k);
      assert burst[..k] == Entries(stanzas[..k], link);
    } else {
      AcceptedUnique(fault, at, |burst|, k + 1);
      assert burst[..k + 1] == burst;
    }
  }

  // ------------------------------------------------------------------
  // A finite exchange

  /** Answers processed one after the other, with nothing sent in between. */
  function Answers(c: State, hs: seq<int>): State
    decreases |hs|
  {
    if hs == [] then c else Answers(SendMissing(c, hs[0]).0, hs[1..])
  }

  /** Every answer acknowledges at least the head of the queue it meets. */
  ghost predicate CoverHeads(c: State, hs: seq<int>)
    requires c.queue.Some?
    decreases |hs|
  {
    hs != [] ==>
      && (c.queue.value != [] ==> c.queue.value[0].id <= hs[0])
      && CoverHeads(SendMissing(c, hs[0]).0, hs[1..])
  }

  lemma AnswerShrinks(c: State, h: int)
    requires c.queue.Some? && (c.queue.value != [] ==> c.queue.value[0].id <= h)
    ensures var c' := SendMissing(c, h).0;
            && c'.queue.Some?
            && (c.queue.value == [] ==> c' == c)
            && (c.queue.value != [] ==> |c'.queue.value| < |c.queue.value|)
  {
    if c.queue.value != [] {
      ResendWrites(c, h);
    }
  }

  /** Such an exchange empties the queue within as many answers as it held stanzas, then stays silent. */
  lemma {:induction false} ExchangeStops(c: State, hs: seq<int>)
    requires c.queue.Some? && CoverHeads(c, hs)
    ensures var c' := Answers(c, hs);
            && c'.queue.Some?
            && |c'.queue.value| <= (if |hs| <= |c.queue.value| then |c.queue.value| - |hs| else 0)
            && (c.queue.value == [] ==> c' == c)
    decreases |hs|
  {
    if hs != [] {
      AnswerShrinks(c, hs[0]);
      ExchangeStops(SendMissing(c, hs[0]).0, hs[1..]);
    }
  }

  // ------------------------------------------------------------------
  // One stream, seen from both ends

  /** The stanzas among the entries, in order. */
  function StanzasIn(log: seq<Entry>): seq<string> {
    if log == [] then []
    else
      var e := log[|log| - 1];
      StanzasIn(log[..|log| - 1]) + if e.frame.Stanza? then [e.frame.data] else []
  }

  lemma {:induction false} StanzasInAppend(a: seq<Entry>, b: seq<Entry>)
    ensures StanzasIn(a + b) == StanzasIn(a) + StanzasIn(b)
  {
    if b == [] {
      assert a + b == a;
    } else {
      var ab := a + b;
      assert ab[..|ab| - 1] == a + b[..|b| - 1];
      StanzasInAppend(a, b[..|b| - 1]);
    }
  }

  lemma {:induction false} StanzasInEntries(stanzas: seq<string>, link: Link)
    ensures StanzasIn(Entries(stanzas, link)) == stanzas
  {
    if stanzas != [] {
      var init := stanzas[..|stanzas| - 1];
      StanzasInEntries(init, link);
      assert Entries(stanzas, link)[..|stanzas| - 1] == Entries(init, link);
      assert init + [stanzas[|stanzas| - 1]] == stanzas;
    }
  }

  /**
   `sent` is what the application gave the client, `handled` what the peer
   took, and the entries from `cursor` on have neither been taken nor lost.
   `refills` counts the stanzas, after the first, that found the queue empty.
   */
  datatype World = World(client: State, sent: seq<string>, handled: seq<string>, cursor: nat, refills: nat)

  datatype Act = AppSends(data: string) | AppRequests | PeerHandles(count: nat) | PeerAnswers

  /** The Id, in the queue's own numbering, of the last stanza the peer handled. */
  function OwnCount(w: World): int {
    if w.client.queue.None? then 0 else CountFor(w.client.queue.value, |w.sent|, |w.handled|)
  }

  function CountFor(q: Items, sent: nat, handled: nat): int {
    if q == [] then 0 else q[0].id - 1 + handled - (sent - |q|)
  }

  function Min(a: nat, b: nat): nat {
    if a < b then a else b
  }

  /** When an answer is processed, what was written but not handled is lost. */
  function Act1(w: World, act: Act): World {
    match act
    case AppSends(data) =>
      var refill := w.client.queue == Some([]) && w.sent != [];
      w.(client := SendStanza(w.client, true, data).0, sent := w.sent + [data],
         refills := w.refills + if refill then 1 else 0)
    case AppRequests => w.(client := SendPacket(w.client, true, RequestPacket).0)
    case PeerHandles(count) =>
      if w.cursor > |w.client.net.log| then w
      else
        var upTo := w.cursor + Min(count, |w.client.net.log| - w.cursor);
        w.(handled := w.handled + StanzasIn(w.client.net.log[w.cursor..upTo]), cursor := upTo)
    case PeerAnswers =>
      w.(client := SendMissing(w.client, OwnCount(w)).0, cursor := |w.client.net.log|)
  }

  function Acts(w: World, acts: seq<Act>): World {
    if acts == [] then w else Act1(Acts(w, acts[..|acts| - 1]), acts[|acts| - 1])
  }

  /** Once a write fails the link stays down. */
  ghost predicate StaysDown(fault: nat -> bool) {
    forall i, j :: i <= j && fault(i) ==> fault(j)
  }

  predicate Up(n: Net) {
    n.attempts == 0 || !n.fault(n.attempts - 1)
  }

  /** The queue holds what was sent last, all but what the peer has surely handled. */
  ghost predicate QueueSound(q: Items, sent: seq<string>, handled: nat) {
    && |q| <= |sent| && |sent| - |q| <= handled <= |sent|
    && Stanzas(q) == sent[|sent| - |q|..]
    && Numbered(q)
  }

  /** What was handled and what is on the wire together begin what was sent, and are all of it while the link is up. */
  ghost predicate WireSound(n: Net, cursor: nat, sent: seq<string>, handled: seq<string>) {
    && StaysDown(n.fault) && cursor <= |n.log|
    && handled + StanzasIn(n.log[cursor..]) <= sent
    && (Up(n) ==> handled + StanzasIn(n.log[cursor..]) == sent)
  }

  ghost predicate CountSound(q: Items, sent: nat, refills: nat) {
    && (sent == 0 ==> refills == 0)
    && (q != [] ==> if refills == 0 then q[|q| - 1].id == sent else q[|q| - 1].id < sent)
  }

  ghost predicate Sound(w: World) {
    && w.client.queue.Some?
    && QueueSound(w.client.queue.value, w.sent, |w.handled|)
    && WireSound(w.client.net, w.cursor, w.sent, w.handled)
    && CountSound(w.client.queue.value, |w.sent|, w.refills)
  }

  lemma QueueSend(q: Items, sent: seq<string>, handled: nat, data: string)
    requires QueueSound(q, sent, handled)
    ensures QueueSound(Enqueue(q, data), sent + [data], handled)
  {
    var q', sent' := Enqueue(q, data), sent + [data];
    assert Stanzas(q') == Stanzas(q) + [data];
    assert sent'[|sent'| - |q'|..] == sent[|sent| - |q|..] + [data];
  }

  lemma WireStanza(n: Net, cursor: nat, sent: seq<string>, handled: seq<string>, data: string)
    requires WireSound(n, cursor, sent, handled)
    ensures WireSound(n.Write(Stanza(data)), cursor, sent + [data], handled)
  {
    if n.Accepts() {
      var e := Entry(Stanza(data), n.link);
      WireAppend(n, cursor, e);
      assert handled + (StanzasIn(n.log[cursor..]) + [data]) == (handled + StanzasIn(n.log[cursor..])) + [data];
    }
  }

  lemma WireAppend(n: Net, cursor: nat, e: Entry)
    requires cursor <= |n.log|
    ensures StanzasIn((n.log + [e])[cursor..])
         == StanzasIn(n.log[cursor..]) + if e.frame.Stanza? then [e.frame.data] else []
  {
    var log := (n.log + [e])[cursor..];
    assert log == n.log[cursor..] + [e];
    assert log[..|log| - 1] == n.log[cursor..];
  }

  lemma WireRequest(n: Net, cursor: nat, sent: seq<string>, handled: seq<string>)
    requires WireSound(n, cursor, sent, handled)
    ensures WireSound(n.Write(SmRequest), cursor, sent, handled)
  {
    if n.Accepts() {
      WireAppend(n, cursor, Entry(SmRequest, n.link));
    }
  }

  lemma Reassociate(a: seq<string>, b: seq<string>, c: seq<string>)
    ensures (a + b) + c == a + (b + c)
  {
  }

  lemma WireHandled(n: Net, cursor: nat, upTo: nat, sent: seq<string>, handled: seq<string>)
    requires WireSound(n, cursor, sent, handled) && cursor <= upTo <= |n.log|
    ensures WireSound(n, upTo, sent, handled + StanzasIn(n.log[cursor..upTo]))
  {
    var taken, left := n.log[cursor..upTo], n.log[upTo..];
    assert n.log[cursor..] == taken + left;
    StanzasInAppend(taken, left);
    Reassociate(handled, StanzasIn(taken), StanzasIn(left));
    hide StanzasIn, StaysDown, Up;
  }

  /** Trimming by the peer's own count leaves exactly what it has not handled. */
  lemma OwnCountTrims(q: Items, sent: seq<string>, handled: nat)
    requires QueueSound(q, sent, handled) && q != []
    ensures var rest := DropAcked(q, q[0].id - 1 + handled - (|sent| - |q|));
            && rest == q[|q| - (|sent| - handled)..]
            && Stanzas(rest) == sent[handled..]
            && QueueSound(rest, sent, handled)
            && (rest != [] ==> rest[|rest| - 1] == q[|q| - 1])
  {
    var k := handled - (|sent| - |q|);
    TrimmedSuffix(q, k);
    SuffixSound(q, sent, k);
    SoundStanzas(q[k..], sent, handled);
    hide QueueSound, DropAcked, Stanzas;
  }

  /** A numbered queue loses its first `k` to the count of the `k`-th. */
  lemma TrimmedSuffix(q: Items, k: nat)
    requires Numbered(q) && q != [] && k <= |q|
    ensures DropAcked(q, q[0].id - 1 + k) == q[k..]
  {
    DropAckedCount(q, q[0].id - 1 + k);
    hide AckedUpTo, Numbered;
  }

  lemma SoundStanzas(q: Items, sent: seq<string>, handled: nat)
    requires QueueSound(q, sent, handled) && |q| == |sent| - handled
    ensures Stanzas(q) == sent[handled..]
  {
    hide Stanzas, Numbered;
  }

  lemma SuffixSound(q: Items, sent: seq<string>, k: nat)
    requires k <= |q| <= |sent| && Stanzas(q) == sent[|sent| - |q|..] && Numbered(q)
    ensures QueueSound(q[k..], sent, |sent| - |q| + k)
  {
    NumberedSuffix(q, k);
    hide Numbered;
    var handled := |sent| - |q| + k;
    assert Stanzas(q[k..]) == Stanzas(q)[k..];
    hide Stanzas;
    assert sent[|sent| - |q|..][k..] == sent[handled..];
  }

  lemma NumberedSuffix(q: Items, k: nat)
    requires Numbered(q) && k <= |q|
    ensures Numbered(q[k..])
  {
  }

  lemma BurstStanzas(rest: Items, link: Link, k: nat)
    requires k <= |Burst(rest, link)|
    ensures StanzasIn(Burst(rest, link)[..k]) == Stanzas(rest)[..Min(k, |rest|)]
  {
    var stanzas := Stanzas(rest);
    if k <= |rest| {
      assert Burst(rest, link)[..k] == Entries(stanzas[..k], link);
      StanzasInEntries(stanzas[..k], link);
    } else {
      assert Burst(rest, link)[..k] == Entries(stanzas, link) + [Entry(SmRequest, link)];
      StanzasInAppend(Entries(stanzas, link), [Entry(SmRequest, link)]);
      StanzasInEntries(stanzas, link);
      assert stanzas[..|rest|] == stanzas;
    }
  }

  lemma WireResent(c: State, h: int, sent: seq<string>, handled: seq<string>)
    requires c.queue.Some? && c.queue.value != [] && StaysDown(c.net.fault)
    requires handled <= sent && Stanzas(DropAcked(c.queue.value, h)) == sent[|handled|..]
    ensures WireSound(SendMissing(c, h).0.net, |c.net.log|, sent, handled)
  {
    ResendWrites(c, h);
    var rest := DropAcked(c.queue.value, h);
    var burst := Burst(rest, c.net.link);
    var k := Accepted(c.net.fault, c.net.attempts, |burst|);
    var n := SendMissing(c, h).0.net;
    assert n.log[|c.net.log|..] == burst[..k];
    BurstStanzas(rest, c.net.link, k);
    assert handled + sent[|handled|..] == sent;
    assert sent[|handled|..][..Min(k, |rest|)] <= sent[|handled|..];
    if k == |burst| {
      assert Stanzas(rest)[..|rest|] == Stanzas(rest);
    }
  }

  /** Processing an answer with the peer's own count, on a queue that is not empty. */
  lemma BusyAnswer(c: State, h: int, sent: seq<string>, handled: seq<string>, refills: nat)
    requires c.queue.Some? && c.queue.value != [] && StaysDown(c.net.fault) && handled <= sent
    requires QueueSound(c.queue.value, sent, |handled|) && CountSound(c.queue.value, |sent|, refills)
    requires h == c.queue.value[0].id - 1 + |handled| - (|sent| - |c.queue.value|)
    ensures var c' := SendMissing(c, h).0;
            && c'.queue.Some?
            && QueueSound(c'.queue.value, sent, |handled|)
            && WireSound(c'.net, |c.net.log|, sent, handled)
            && CountSound(c'.queue.value, |sent|, refills)
  {
    hide WireSound, QueueSound, SendMissing, Accepted, Burst, StaysDown, DropAcked, Stanzas;
    var q := c.queue.value;
    OwnCountTrims(q, sent, |handled|);
    WireResent(c, h, sent, handled);
    ResendWrites(c, h);
  }

  lemma AnswerKeepsSound(w: World)
    requires Sound(w)
    ensures Sound(Act1(w, PeerAnswers))
  {
    HandledIsPrefix(w);
    hide WireSound, QueueSound, CountSound, SendMissing, StaysDown;
    if w.client.queue.value == [] {
      AnswerShrinks(w.client, OwnCount(w));
      QuietAnswer(w.client.net, w.cursor, w.sent, w.handled);
    } else {
      BusyAnswer(w.client, OwnCount(w), w.sent, w.handled, w.refills);
    }
  }

  lemma HandledIsPrefix(w: World)
    requires Sound(w)
    ensures w.handled <= w.sent && StaysDown(w.client.net.fault) && w.cursor <= |w.client.net.log|
  {
    assert w.handled <= w.handled + StanzasIn(w.client.net.log[w.cursor..]);
  }

  lemma QuietAnswer(n: Net, cursor: nat, sent: seq<string>, handled: seq<string>)
    requires QueueSound([], sent, |handled|) && WireSound(n, cursor, sent, handled)
    ensures WireSound(n, |n.log|, sent, handled)
  {
    assert n.log[|n.log|..] == [];
  }

  lemma SendKeepsSound(w: World, data: string)
    requires Sound(w)
    ensures Sound(Act1(w, AppSends(data)))
  {
    hide WireSound, QueueSound, Net.Write;
    QueueSend(w.client.queue.value, w.sent, |w.handled|, data);
    WireStanza(w.client.net, w.cursor, w.sent, w.handled, data);
  }

  lemma RequestKeepsSound(w: World)
    requires Sound(w)
    ensures Sound(Act1(w, AppRequests))
  {
    hide WireSound, QueueSound, CountSound, Net.Write;
    WireRequest(w.client.net, w.cursor, w.sent, w.handled);
  }

  lemma ActKeepsSound(w: World, act: Act)
    requires Sound(w)
    ensures Sound(Act1(w, act))
  {
    hide Sound, Act1;
    match act
    case AppSends(data) => SendKeepsSound(w, data);
    case AppRequests => RequestKeepsSound(w);
    case PeerHandles(count) => HandlingKeepsSound(w, count);
    case PeerAnswers => AnswerKeepsSound(w);
  }

  lemma HandlingKeepsSound(w: World, count: nat)
    requires Sound(w)
    ensures Sound(Act1(w, PeerHandles(count)))
  {
    var w' := Act1(w, PeerHandles(count));
    WireHandled(w.client.net, w.cursor, w'.cursor, w.sent, w.handled);
    HandledIsPrefix(w);
    assert w'.handled <= w'.handled + StanzasIn(w.client.net.log[w'.cursor..]);
  }

  lemma {:induction false} ActsKeepSound(w: World, acts: seq<Act>)
    requires Sound(w)
    ensures Sound(Acts(w, acts))
  {
    if acts != [] {
      ActsKeepSound(w, acts[..|acts| - 1]);
      ActKeepsSound(Acts(w, acts[..|acts| - 1]), acts[|acts| - 1]);
    }
  }

  /** A stream on which nothing has been sent since stream management was enabled. */
  function NewWorld(c: State): World {
    World(c, [], [], |c.net.log|, 0)
  }

  /** What the peer has is a prefix of what was sent, and what it does not have is still queued. */
  ghost predicate InOrder(w: World) {
    && w.handled <= w.sent
    && w.client.queue.Some?
    && var queued, missing := Stanzas(w.client.queue.value), w.sent[|w.handled|..];
    && |missing| <= |queued|
    && queued[|queued| - |missing|..] == missing
  }

  /**
   Over every run of sends, partial handling, losses and resends on a link that
   stays down once a write has failed: the peer has handled a prefix of what
   the application sent, in order and each once, and whatever it has not
   handled is still in the queue. `StaysDownIsNeeded` shows that the premise on
   the link is needed.
   */
  lemma GoBackN(c: State, acts: seq<Act>)
    requires c.queue == Some([]) && StaysDown(c.net.fault) && Up(c.net)
    ensures InOrder(Acts(NewWorld(c), acts))
  {
    NewWorldSound(c);
    ActsKeepSound(NewWorld(c), acts);
    SoundInOrder(Acts(NewWorld(c), acts));
  }

  lemma SoundInOrder(w: World)
    requires Sound(w)
    ensures InOrder(w)
  {
    HandledIsPrefix(w);
    hide WireSound, CountSound;
    var q := w.client.queue.value;
    assert Stanzas(q)[|q| - (|w.sent| - |w.handled|)..] == w.sent[|w.handled|..];
  }

  /** On a link that comes back after a failed write, a later stanza overtakes. */
  lemma StaysDownIsNeeded(link: Link)
    ensures var c := State(Net([], 0, [], link, true, n => n == 0), Some([]), 0);
            var w := Acts(NewWorld(c), [AppSends("A"), AppSends("B"), PeerHandles(1)]);
            w.sent == ["A", "B"] && w.handled == ["B"]
  {
    var c := State(Net([], 0, [], link, true, n => n == 0), Some([]), 0);
    var all := [AppSends("A"), AppSends("B"), PeerHandles(1)];
    assert all[..2] == [AppSends("A"), AppSends("B")] && all[..2][..1] == [AppSends("A")] && all[..2][..1][..0] == [];
    var w1 := Act1(NewWorld(c), AppSends("A"));
    var w2 := Act1(w1, AppSends("B"));
    assert w1.client.net == c.net.(attempts := 1) && w1.client.queue.Some?;
    SendAccepted(w1.client, "B");
    hide SendStanza;
    TakesOne(w2, Entry(Stanza("B"), link));
    assert Acts(NewWorld(c), all[..2][..1]) == Act1(Acts(NewWorld(c), []), AppSends("A"));
    assert Acts(NewWorld(c), all[..2]) == w2;
  }

  lemma NewWorldSound(c: State)
    requires c.queue == Some([]) && StaysDown(c.net.fault) && Up(c.net)
    ensures Sound(NewWorld(c))
  {
    assert c.net.log[|c.net.log|..] == [];
  }

  /**
   The count that trims safely is the peer's plain count of handled stanzas
   exactly as long as the queue has not refilled after draining.
   */
  lemma OwnCountIsPeerCount(c: State, acts: seq<Act>)
    requires c.queue == Some([]) && StaysDown(c.net.fault) && Up(c.net)
    requires Acts(NewWorld(c), acts).client.queue != Some([])
    ensures var w := Acts(NewWorld(c), acts);
            OwnCount(w) == |w.handled| <==> w.refills == 0
  {
    hide WireSound, Acts;
    NewWorldSound(c);
    ActsKeepSound(NewWorld(c), acts);
  }

  /**
   Losing the rest is needed: if what was still on the wire arrives after all,
   then, once the peer has also taken the resent stanzas, its log is still a
   prefix of what was sent exactly when nothing was on the wire.
   */
  lemma LossIsNeeded(w: World)
    requires Sound(w) && w.client.queue.value != []
    requires SendMissing(w.client, OwnCount(w)).1 == None
    ensures var onWire := StanzasIn(w.client.net.log[w.cursor..]);
            var log' := SendMissing(w.client, OwnCount(w)).0.net.log;
            w.cursor <= |log'| && (w.handled + StanzasIn(log'[w.cursor..]) <= w.sent <==> onWire == [])
  {
    hide SendMissing, WireSound, CountSound, QueueSound, DropAcked, StaysDown, StanzasIn, Stanzas;
    HandledIsPrefix(w);
    var c := w.client;
    OwnCountTrims(c.queue.value, w.sent, |w.handled|);
    FullResend(c, OwnCount(w), w.cursor);
    PrefixByLength(w.handled, StanzasIn(c.net.log[w.cursor..]), w.sent);
  }

  /** An example: a stanza still on its way is resent, and the peer sees it twice. */
  lemma RepeatExample(link: Link)
    ensures var w := Acts(NewWorld(State(Net([], 0, [], link, true, n => false), Some([]), 0)), [AppSends("A")]);
            var log' := SendMissing(w.client, OwnCount(w)).0.net.log;
            w.sent == ["A"] && w.cursor <= |log'| && w.handled + StanzasIn(log'[w.cursor..]) == ["A", "A"]
  {
    var c := State(Net([], 0, [], link, true, n => false), Some([]), 0);
    var acts := [AppSends("A")];
    assert acts[..0] == [];
    var w := SentOne(c.net, "A");
    assert Acts(NewWorld(c), acts) == w by {
      SendsOne(c.net, "A");
      hide Act1;
    }
    ResendsOne(w.client, "A");
    hide SendMissing, StanzasIn;
    StanzasInTwice(link, "A");
    assert w.handled == [] && forall s: seq<string> :: [] + s == s;
  }

  /** A new stream on which one stanza was sent. */
  function SentOne(n: Net, data: string): World {
    var net := n.(log := n.log + [Entry(Stanza(data), n.link)], attempts := n.attempts + 1);
    World(State(net, Some([UnAckedStz(1, data)]), 0), [data], [], |n.log|, 0)
  }

  lemma SendsOne(n: Net, data: string)
    requires n.Accepts()
    ensures Act1(NewWorld(State(n, Some([]), 0)), AppSends(data)) == SentOne(n, data)
  {
    assert Enqueue([], data) == [UnAckedStz(1, data)];
    assert [] + [data] == [data];
  }

  lemma ResendsOne(c: State, data: string)
    requires c.queue == Some([UnAckedStz(1, data)])
    requires c.net.Accepts() && !c.net.fault(c.net.attempts + 1)
    ensures SendMissing(c, 0).0.net.log
         == c.net.log + [Entry(Stanza(data), c.net.link), Entry(SmRequest, c.net.link)]
  {
    assert DropAcked(c.queue.value, 0) == c.queue.value;
    assert Stanzas(c.queue.value) == [data] && [data][1..] == [];
    var n1 := c.net.Write(Stanza(data));
    assert WriteAll(c.net, [data]) == WriteAll(n1, []) == (n1, true);
    var a, r := Entry(Stanza(data), c.net.link), Entry(SmRequest, c.net.link);
    assert n1.Write(SmRequest).log == (c.net.log + [a]) + [r] == c.net.log + [a, r];
  }

  lemma StanzasInTwice(link: Link, data: string)
    ensures var a := Entry(Stanza(data), link);
            StanzasIn([] + [a] + [a, Entry(SmRequest, link)]) == [data, data]
  {
    var a, r := Entry(Stanza(data), link), Entry(SmRequest, link);
    assert [] + [a] + [a, r] == [a, a] + [r] && [a, a] == [a] + [a];
    StanzasInAppend([a, a], [r]);
    StanzasInAppend([a], [a]);
    assert StanzasIn([a]) == [data] && StanzasIn([r]) == [];
  }

  lemma FullResend(c: State, h: int, cursor: nat)
    requires c.queue.Some? && c.queue.value != [] && SendMissing(c, h).1 == None && cursor <= |c.net.log|
    ensures var log' := SendMissing(c, h).0.net.log;
            && cursor <= |log'|
            && StanzasIn(log'[cursor..]) == StanzasIn(c.net.log[cursor..]) + Stanzas(DropAcked(c.queue.value, h))
  {
    ResendWrites(c, h);
    var rest := DropAcked(c.queue.value, h);
    var burst := Burst(rest, c.net.link);
    hide SendMissing, Burst, DropAcked, Accepted;
    assert burst[..|burst|] == burst;
    assert SendMissing(c, h).0.net.log[cursor..] == c.net.log[cursor..] + burst;
    StanzasInAppend(c.net.log[cursor..], burst);
    assert |rest| <= |burst| by {
      BurstLength(rest, c.net.link);
    }
    BurstStanzas(rest, c.net.link, |burst|);
    assert Stanzas(rest)[..|rest|] == Stanzas(rest);
  }

  lemma BurstLength(rest: Items, link: Link)
    ensures |Burst(rest, link)| == |rest| + if rest == [] then 0 else 1
  {
  }

  lemma PrefixByLength(handled: seq<string>, onWire: seq<string>, sent: seq<string>)
    requires handled <= sent
    ensures handled + (onWire + sent[|handled|..]) <= sent <==> onWire == []
  {
    assert |handled + (onWire + sent[|handled|..])| == |sent| + |onWire|;
    if onWire == [] {
      assert handled + (onWire + sent[|handled|..]) == sent;
    }
  }

  // ------------------------------------------------------------------
  // Across a resumption

  /**
   The session resumed on a new connection with the peer's own count: the queue
   is trimmed, and nothing is written for it.
   */
  function Resumed(w: World, net: Net): World {
    var queue := if w.client.queue.None? then None else Some(DropAcked(w.client.queue.value, OwnCount(w)));
    w.(client := w.client.(net := net, queue := queue), cursor := |net.log|)
  }

  /** This is what a negotiation does that ends in a resumption with that count. */
  lemma NegotiationResumes(s: Sess, o: Settings, w: World)
    requires w.client.queue.Some? && s.queue == w.client.queue
    ensures var v := Negotiate(s, o).0;
            Negotiate(s, o).1.Established? && v.resumed ==>
            && Negotiation.ReadBack(s.net, v.net, 0).Some?
            && var reply := Negotiation.ReadBack(s.net, v.net, 0).value;
            && reply.SmResumed?
            && (reply.h == Some(OwnCount(w)) ==> v.queue == Resumed(w, v.net).client.queue)
            && |s.net.log| <= |v.net.log| && StanzasIn(v.net.log[|s.net.log|..]) == []
            && forall i :: |s.net.log| <= i < |v.net.log| ==> !v.net.log[i].frame.SmRequest?
  {
    hide Negotiate, DropAcked, OwnCount;
    Negotiation.NegotiationOutcome(s, o);
    Negotiation.NegotiationTrace(s, o);
    var v := Negotiate(s, o).0;
    Negotiation.OrderlyFrames(v.net.log, |s.net.log|);
    NoStanzas(v.net.log[|s.net.log|..]);
  }

  lemma {:induction false} NoStanzas(log: seq<Entry>)
    requires forall i :: 0 <= i < |log| ==> !log[i].frame.Stanza?
    ensures StanzasIn(log) == []
  {
    if log != [] {
      NoStanzas(log[..|log| - 1]);
    }
  }

  /** After a resumption exactly the unhandled stanzas are queued, and none of them is on its way. */
  ghost predicate Trimmed(w: World) {
    && w.client.queue.Some? && StaysDown(w.client.net.fault)
    && w.handled <= w.sent
    && QueueSound(w.client.queue.value, w.sent, |w.handled|)
    && CountSound(w.client.queue.value, |w.sent|, w.refills)
    && Stanzas(w.client.queue.value) == w.sent[|w.handled|..]
    && w.cursor <= |w.client.net.log| && StanzasIn(w.client.net.log[w.cursor..]) == []
  }

  lemma CountTrims(q: Items, sent: seq<string>, handled: nat, refills: nat)
    requires QueueSound(q, sent, handled) && CountSound(q, |sent|, refills)
    ensures var rest := DropAcked(q, CountFor(q, |sent|, handled));
            QueueSound(rest, sent, handled) && CountSound(rest, |sent|, refills) && Stanzas(rest) == sent[handled..]
  {
    if q == [] {
      assert DropAcked(q, 0) == [];
    } else {
      OwnCountTrims(q, sent, handled);
      hide QueueSound, DropAcked, Stanzas;
    }
  }

  lemma ResumedKeepsUnhandled(w: World, net: Net)
    requires StaysDown(net.fault) && (Sound(w) || Trimmed(w))
    ensures Trimmed(Resumed(w, net))
  {
    if Sound(w) {
      HandledIsPrefix(w);
    }
    CountTrims(w.client.queue.value, w.sent, |w.handled|, w.refills);
    assert net.log[|net.log|..] == [];
    hide WireSound, StaysDown, QueueSound, CountSound, DropAcked, Stanzas, CountFor;
  }

  lemma QuietWire(n: Net, sent: seq<string>, handled: seq<string>)
    requires StaysDown(n.fault) && handled <= sent && sent[|handled|..] == []
    ensures WireSound(n, |n.log|, sent, handled)
  {
    assert n.log[|n.log|..] == [];
    assert sent == handled + sent[|handled|..];
  }

  lemma TrimmedAnswer(c: State, sent: seq<string>, handled: seq<string>, refills: nat)
    requires c.queue.Some? && StaysDown(c.net.fault) && handled <= sent
    requires QueueSound(c.queue.value, sent, |handled|) && CountSound(c.queue.value, |sent|, refills)
    requires Stanzas(c.queue.value) == sent[|handled|..]
    ensures var c' := SendMissing(c, CountFor(c.queue.value, |sent|, |handled|)).0;
            && c'.queue.Some?
            && QueueSound(c'.queue.value, sent, |handled|)
            && WireSound(c'.net, |c.net.log|, sent, handled)
            && CountSound(c'.queue.value, |sent|, refills)
  {
    var q := c.queue.value;
    if q == [] {
      assert Stanzas(q) == [];
      QuietWire(c.net, sent, handled);
      hide WireSound, QueueSound, CountSound;
    } else {
      BusyAnswer(c, CountFor(q, |sent|, |handled|), sent, handled, refills);
      hide WireSound, QueueSound, CountSound, SendMissing, StaysDown;
    }
  }

  /** The first answer after a resumption puts the stream in order again. */
  lemma AnswerRestores(w: World)
    requires Trimmed(w)
    ensures Sound(Act1(w, PeerAnswers))
  {
    hide WireSound, QueueSound, CountSound, SendMissing, StaysDown, Stanzas, CountFor;
    TrimmedAnswer(w.client, w.sent, w.handled, w.refills);
  }

  /** Requests and handling change nothing before that answer, as no stanza is on its way. */
  lemma WaitingKeepsTrimmed(w: World, act: Act)
    requires Trimmed(w) && (act.AppRequests? || act.PeerHandles?)
    ensures Trimmed(Act1(w, act))
  {
    hide StaysDown, QueueSound, CountSound, Stanzas;
    var n := w.client.net;
    if act.AppRequests? {
      WireAppend(n, w.cursor, Entry(SmRequest, n.link));
    } else {
      var upTo := w.cursor + Min(act.count, |n.log| - w.cursor);
      assert n.log[w.cursor..] == n.log[w.cursor..upTo] + n.log[upTo..];
      StanzasInAppend(n.log[w.cursor..upTo], n.log[upTo..]);
      assert w.handled + [] == w.handled;
    }
  }

  // ------------------------------------------------------------------
  // Runs over many connections

  /** One act on the connection, or the session resumed on the next one. */
  datatype Turn = Does(act: Act) | Resumes(net: Net)

  function Turn1(w: World, turn: Turn): World {
    match turn
    case Does(act) => Act1(w, act)
    case Resumes(net) => Resumed(w, net)
  }

  function Turns(w: World, turns: seq<Turn>): World {
    if turns == [] then w else Turn1(Turns(w, turns[..|turns| - 1]), turns[|turns| - 1])
  }

  /** There was a resumption, and no answer since. */
  predicate Unanswered(turns: seq<Turn>) {
    && turns != []
    && var last := turns[|turns| - 1];
       last.Resumes? || (!last.act.PeerAnswers? && Unanswered(turns[..|turns| - 1]))
  }

  /** Nothing is sent between a resumption and the next answer. */
  predicate Patient(turns: seq<Turn>) {
    turns != [] ==>
      && var init, last := turns[..|turns| - 1], turns[|turns| - 1];
      Patient(init) && (last.Does? && last.act.AppSends? ==> !Unanswered(init))
  }

  ghost predicate LinksStayDown(turns: seq<Turn>) {
    forall i :: 0 <= i < |turns| && turns[i].Resumes? ==> StaysDown(turns[i].net.fault)
  }

  /**
   The same as `GoBackN`, over any number of resumptions, one after the other or
   with handling, loss, requests and answers between them, as long as nothing
   is sent between a resumption and the next answer.
   */
  lemma GoBackNAcross(c: State, turns: seq<Turn>)
    requires c.queue == Some([]) && StaysDown(c.net.fault) && Up(c.net)
    requires LinksStayDown(turns) && Patient(turns)
    ensures InOrder(Turns(NewWorld(c), turns))
  {
    NewWorldSound(c);
    TurnsKeepSound(NewWorld(c), turns);
    var w := Turns(NewWorld(c), turns);
    hide Turns, Sound, Trimmed;
    if Unanswered(turns) {
      TrimmedInOrder(w);
    } else {
      SoundInOrder(w);
    }
  }

  lemma TrimmedInOrder(w: World)
    requires Trimmed(w)
    ensures InOrder(w)
  {
    hide QueueSound, CountSound, StaysDown, StanzasIn;
    var queued := Stanzas(w.client.queue.value);
    assert queued[0..] == queued;
  }

  lemma {:induction false} TurnsKeepSound(w: World, turns: seq<Turn>)
    requires Sound(w) && LinksStayDown(turns) && Patient(turns)
    ensures if Unanswered(turns) then Trimmed(Turns(w, turns)) else Sound(Turns(w, turns))
  {
    if turns != [] {
      hide Sound, Trimmed, StaysDown;
      var init, last := turns[..|turns| - 1], turns[|turns| - 1];
      TurnsKeepSound(w, init);
      var before := Turns(w, init);
      if last.Resumes? {
        ResumedKeepsUnhandled(before, last.net);
      } else if !Unanswered(init) {
        ActKeepsSound(before, last.act);
      } else if last.act.PeerAnswers? {
        AnswerRestores(before);
      } else {
        WaitingKeepsTrimmed(before, last.act);
      }
    }
  }

  /**
   A stanza sent between a resumption and its first answer overtakes whatever
   is still queued: the peer's log stays a prefix of what was sent exactly when
   nothing is, or when the new stanza equals the first that is.
   */
  lemma SendBeforeAnswer(w: World, net: Net, data: string)
    requires Sound(w) && net.Accepts()
    ensures var unhandled := w.sent[|w.handled|..];
            var w' := Act1(Act1(Resumed(w, net), AppSends(data)), PeerHandles(1));
            && w'.handled == w.handled + [data] && w'.sent == w.sent + [data]
            && (w'.handled <= w'.sent <==> unhandled == [] || unhandled[0] == data)
  {
    HandledIsPrefix(w);
    PrefixWithNext(w.handled, w.sent, data);
    hide Sound, OwnCount, DropAcked, StaysDown, QueueSound, CountSound, WireSound, SendStanza;
    var w1 := Act1(Resumed(w, net), AppSends(data));
    SendAccepted(Resumed(w, net).client, data);
    hide Resumed;
    TakesOne(w1, Entry(Stanza(data), net.link));
  }

  /** An example, on any two connections that work: the second of two stanzas is handled, the first is not. */
  lemma OvertakingExample(n: Net, next: Net)
    requires StaysDown(n.fault) && Up(n) && n.Accepts() && next.Accepts()
    ensures var turns := [Does(AppSends("A")), Resumes(next), Does(AppSends("B")), Does(PeerHandles(1))];
            var w := Turns(NewWorld(State(n, Some([]), 0)), turns);
            w.sent == ["A", "B"] && w.handled == ["B"]
  {
    SentOneSound(n, "A");
    hide Sound, Act1, Resumed, Turns, SentOne, NewWorld, StaysDown, Up, Net.Accepts;
    FourTurns(NewWorld(State(n, Some([]), 0)),
              [Does(AppSends("A")), Resumes(next), Does(AppSends("B")), Does(PeerHandles(1))]);
    OvertakesFrom(SentOne(n, "A"), next);
  }

  lemma SentOneSound(n: Net, data: string)
    requires StaysDown(n.fault) && Up(n) && n.Accepts()
    ensures Sound(SentOne(n, data)) && SentOne(n, data).sent == [data] && SentOne(n, data).handled == []
    ensures Act1(NewWorld(State(n, Some([]), 0)), AppSends(data)) == SentOne(n, data)
  {
    var c := State(n, Some([]), 0);
    SendsOne(n, data);
    NewWorldSound(c);
    SendKeepsSound(NewWorld(c), data);
    hide Sound, Act1;
  }

  lemma OvertakesFrom(w: World, net: Net)
    requires Sound(w) && net.Accepts() && w.sent == ["A"] && w.handled == []
    ensures var w' := Act1(Act1(Resumed(w, net), AppSends("B")), PeerHandles(1));
            w'.sent == ["A", "B"] && w'.handled == ["B"]
  {
    SendBeforeAnswer(w, net, "B");
    hide Sound, Act1, Resumed;
    assert [] + ["B"] == ["B"] && ["A"] + ["B"] == ["A", "B"];
  }

  lemma FourTurns(w: World, turns: seq<Turn>)
    requires |turns| == 4
    ensures Turns(w, turns) == Turn1(Turn1(Turn1(Turn1(w, turns[0]), turns[1]), turns[2]), turns[3])
  {
    hide Turn1;
    assert turns[..3][..2] == turns[..2] && turns[..2][..1] == turns[..1] && turns[..1][..0] == [];
    assert Turns(w, turns[..1]) == Turn1(w, turns[0]);
    assert Turns(w, turns[..2]) == Turn1(Turns(w, turns[..1]), turns[1]);
    assert Turns(w, turns[..3]) == Turn1(Turns(w, turns[..2]), turns[2]);
  }

  lemma SendAccepted(c: State, data: string)
    requires c.queue.Some? && c.net.Accepts()
    ensures SendStanza(c, true, data).0.net.log == c.net.log + [Entry(Stanza(data), c.net.link)]
  {
  }

  lemma TakesOne(w: World, e: Entry)
    requires e.frame.Stanza? && w.cursor + 1 == |w.client.net.log| && w.client.net.log[w.cursor] == e
    ensures Act1(w, PeerHandles(1)) == w.(handled := w.handled + [e.frame.data], cursor := w.cursor + 1)
  {
    assert w.client.net.log[w.cursor..w.cursor + 1] == [e];
    assert StanzasIn([e]) == [e.frame.data];
  }

  lemma PrefixWithNext(handled: seq<string>, sent: seq<string>, data: string)
    requires handled <= sent
    ensures handled + [data] <= sent + [data] <==> sent[|handled|..] == [] || sent[|handled|..][0] == data
  {
    assert (sent + [data])[..|handled|] == handled;
    assert handled + [data] <= sent + [data] <==> (sent + [data])[|handled|] == data;
  }
}

/**
 The queue of sent but unacknowledged stanzas (stanza/stream_management.go),
 and what its numbering means over whole runs of pushes and removals.
 */
module UnAckQueues {
  import opened Wrappers

  datatype UnAckedStz = UnAckedStz(id: int, stz: string)

  /** Anything that can be offered to a FIFO queue; only `Unacked` fits this one. */
  datatype Queueable = Unacked(elt: UnAckedStz) | Foreign

  type Items = seq<UnAckedStz>

  // ------------------------------------------------------------------
  // The queue operations on values

  function Enqueue(q: Items, stz: string): Items {
    q + [UnAckedStz(if q == [] then 1 else q[|q| - 1].id + 1, stz)]
  }

  function Take(q: Items, n: int): Items {
    if n <= 0 then [] else if n < |q| then q[..n] else q
  }

  /** As many of the oldest as are asked for, or all there are; in order. */
  lemma TakeMeans(q: Items, n: int)
    ensures Take(q, n) <= q
    ensures |Take(q, n)| == if n < 0 then 0 else if n > |q| then |q| else n
  {
  }

  /** The first index from `i` on whose element is numbered above `h`. */
  function AckedUpTo(q: Items, h: int, i: nat): (r: nat)
    requires i <= |q|
    ensures i <= r <= |q|
    ensures forall j :: i <= j < r ==> q[j].id <= h
    ensures r < |q| ==> h < q[r].id
    decreases |q| - i
  {
    if i < |q| && q[i].id <= h then AckedUpTo(q, h, i + 1) else i
  }

  /** What is left when the leading elements numbered up to `h` are dropped. */
  function DropAcked(q: Items, h: int): Items {
    q[AckedUpTo(q, h, 0)..]
  }

  function Stanzas(q: Items): (s: seq<string>)
    ensures |s| == |q|
    ensures forall i :: 0 <= i < |q| ==> s[i] == q[i].stz
  {
    seq(|q|, i requires 0 <= i < |q| => q[i].stz)
  }

  /** Ids are consecutive and start at 1 or above. */
  ghost predicate Numbered(q: Items) {
    && (q != [] ==> q[0].id >= 1)
    && forall i :: 0 <= i < |q| ==> q[i].id == q[0].id + i
  }

  // ------------------------------------------------------------------
  // The queue object

  class UnAckQueue {
    var uslice: Items

    constructor ()
      ensures uslice == []
    {
      uslice := [];
    }

    method Push(s: Queueable) returns (ok: bool)
      modifies this
      ensures ok == s.Unacked?
      ensures uslice == if ok then Enqueue(old(uslice), s.elt.stz) else old(uslice)
    {
      var pushIdx := 1;
      if |uslice| != 0 {
        pushIdx := uslice[|uslice| - 1].id + 1;
      }
      if !s.Unacked? {
        return false;
      }
      uslice := uslice + [UnAckedStz(pushIdx, s.elt.stz)];
      return true;
    }

    method Peek() returns (r: Option<UnAckedStz>)
      ensures r == if uslice == [] then None else Some(uslice[0])
    {
      if |uslice| == 0 {
        return None;
      }
      return Some(uslice[0]);
    }

    method PeekN(n: int) returns (r: Items)
      ensures r == Take(uslice, n)
    {
      r := [];
      if n <= 0 {
        return;
      }
      var bound := n;
      if |uslice| < n {
        bound := |uslice|;
      }
      for i := 0 to bound
        invariant r == uslice[..i]
      {
        r := r + [uslice[i]];
      }
    }

    method Pop() returns (r: Option<UnAckedStz>)
      modifies this
      ensures r == if old(uslice) == [] then None else Some(old(uslice)[0])
      ensures uslice == old(uslice)[|Take(old(uslice), 1)|..]
    {
      r := Peek();
      if r.Some? {
        uslice := uslice[1..];
      }
    }

    method PopN(n: int) returns (r: Items)
      modifies this
      ensures r == Take(old(uslice), n)
      ensures uslice == old(uslice)[|r|..]
    {
      r := PeekN(n);
      uslice := uslice[|r|..];
    }

    method Empty() returns (r: bool)
      ensures r == (uslice == [])
    {
      var n := |uslice|;
      r := n == 0;
    }

    /** The scanning loop shared by SendMissingStz and Session.resume. */
    method Trim(h: int)
      modifies this
      ensures uslice == DropAcked(old(uslice), h)
    {
      var ackIdx := 0;
      while ackIdx < |uslice| && uslice[ackIdx].id <= h
        invariant 0 <= ackIdx <= |uslice|
        invariant AckedUpTo(uslice, h, ackIdx) == AckedUpTo(uslice, h, 0)
      {
        ackIdx := ackIdx + 1;
      }
      uslice := uslice[ackIdx..];
    }
  }

  // ------------------------------------------------------------------
  // Trimming

  function Keep(q: Items, h: int): Items {
    if q == [] then [] else (if q[0].id > h then [q[0]] else []) + Keep(q[1..], h)
  }

  lemma {:induction false} KeepAll(q: Items, h: int)
    requires forall i :: 0 <= i < |q| ==> q[i].id > h
    ensures Keep(q, h) == q
  {
    if q != [] {
      KeepAll(q[1..], h);
    }
  }

  lemma {:induction false} KeepSkips(q: Items, h: int, n: nat)
    requires n <= |q|
    requires forall i :: 0 <= i < n ==> q[i].id <= h
    ensures Keep(q, h) == Keep(q[n..], h)
  {
    if n > 0 {
      KeepSkips(q[1..], h, n - 1);
      assert q[1..][n - 1..] == q[n..];
    } else {
      assert q[0..] == q;
    }
  }

  /** On a numbered queue both scanning loops are the filter `id > h`. */
  lemma DropAckedIsFilter(q: Items, h: int)
    requires Numbered(q)
    ensures DropAcked(q, h) == Keep(q, h)
  {
    var n := AckedUpTo(q, h, 0);
    KeepSkips(q, h, n);
    KeepAll(q[n..], h);
  }

  /** How many elements an acknowledgement of `h` removes. */
  lemma DropAckedCount(q: Items, h: int)
    requires Numbered(q) && q != []
    ensures AckedUpTo(q, h, 0) == if h < q[0].id then 0 else if h >= q[0].id + |q| then |q| else h - q[0].id + 1
  {
    var n := AckedUpTo(q, h, 0);
    if n > 0 {
      assert q[n - 1].id <= h;
    }
  }

  // ------------------------------------------------------------------
  // Runs: any sequence of operations on one queue that starts empty

  datatype Op = OpPush(stz: string) | OpPop | OpPopN(n: int) | OpTrim(h: int)

  /**
   The queue together with everything removed from it and pushed to it.
   `refills` counts the pushes, after the first, that found the queue empty.
   */
  datatype History = History(queue: Items, removed: Items, pushed: seq<string>, refills: nat)

  const START := History([], [], [], 0)

  function Remove(h: History, n: nat): History
    requires n <= |h.queue|
  {
    h.(queue := h.queue[n..], removed := h.removed + h.queue[..n])
  }

  function Step(h: History, op: Op): History {
    match op
    case OpPush(stz) =>
      History(Enqueue(h.queue, stz), h.removed, h.pushed + [stz],
              h.refills + if h.queue == [] && h.pushed != [] then 1 else 0)
    case OpPop => Remove(h, |Take(h.queue, 1)|)
    case OpPopN(n) => Remove(h, |Take(h.queue, n)|)
    case OpTrim(n) => Remove(h, AckedUpTo(h.queue, n, 0))
  }

  function Run(ops: seq<Op>): History {
    if ops == [] then START else Step(Run(ops[..|ops| - 1]), ops[|ops| - 1])
  }

  ghost predicate Invariant(h: History) {
    && Stanzas(h.removed + h.queue) == h.pushed
    && Numbered(h.queue)
    && (h.pushed == [] ==> h.refills == 0)
    && (h.queue != [] ==>
          var last := h.queue[|h.queue| - 1].id;
          if h.refills == 0 then last == |h.pushed| else last < |h.pushed|)
  }

  lemma RemoveKeepsInvariant(h: History, n: nat)
    requires Invariant(h) && n <= |h.queue|
    ensures Invariant(Remove(h, n))
  {
    var h' := Remove(h, n);
    assert h'.removed + h'.queue == h.removed + h.queue;
    if h'.queue != [] {
      assert h'.queue[|h'.queue| - 1] == h.queue[|h.queue| - 1];
    }
  }

  lemma PushKeepsInvariant(h: History, stz: string)
    requires Invariant(h)
    ensures Invariant(Step(h, OpPush(stz)))
  {
    var h' := Step(h, OpPush(stz));
    var last := h'.queue[|h'.queue| - 1];
    assert h'.removed + h'.queue == (h.removed + h.queue) + [last];
    assert Stanzas(h'.removed + h'.queue) == h.pushed + [stz];
    assert |h.removed + h.queue| == |h.pushed|;
  }

  lemma StepKeepsInvariant(h: History, op: Op)
    requires Invariant(h)
    ensures Invariant(Step(h, op))
  {
    match op
    case OpPush(stz) => PushKeepsInvariant(h, stz);
    case OpPop => RemoveKeepsInvariant(h, |Take(h.queue, 1)|);
    case OpPopN(n) => RemoveKeepsInvariant(h, |Take(h.queue, n)|);
    case OpTrim(n) => RemoveKeepsInvariant(h, AckedUpTo(h.queue, n, 0));
  }

  lemma {:induction false} RunInvariant(ops: seq<Op>)
    ensures Invariant(Run(ops))
  {
    if ops != [] {
      RunInvariant(ops[..|ops| - 1]);
      StepKeepsInvariant(Run(ops[..|ops| - 1]), ops[|ops| - 1]);
    }
  }

  /** Nothing is lost, duplicated or reordered, and Ids stay consecutive. */
  lemma Conservation(ops: seq<Op>)
    ensures var h := Run(ops);
            && Stanzas(h.removed) + Stanzas(h.queue) == h.pushed
            && Numbered(h.queue)
  {
    RunInvariant(ops);
    var h := Run(ops);
    assert Stanzas(h.removed) + Stanzas(h.queue) == Stanzas(h.removed + h.queue);
  }

  /**
   An Id counts the stanzas sent since stream management was enabled exactly
   as long as no push after the first has found the queue drained.
   */
  lemma NumberingCountsPushes(ops: seq<Op>)
    requires Run(ops).queue != []
    ensures var h := Run(ops);
            && (h.queue[|h.queue| - 1].id == |h.pushed| <==> h.refills == 0)
            && (h.queue[0].id == |h.removed| + 1 <==> h.refills == 0)
            && h.queue[0].id <= |h.removed| + 1
  {
    RunInvariant(ops);
    var h := Run(ops);
    assert |Stanzas(h.removed + h.queue)| == |h.removed| + |h.queue|;
  }

  /** An example: the second stanza, pushed when the queue has drained, is numbered 1 like the first. */
  lemma RefillExample()
    ensures var h := Run([OpPush("A"), OpPop, OpPush("B")]);
            h.refills == 1 && h.queue == [UnAckedStz(1, "B")] && h.pushed == ["A", "B"]
  {
    var ops := [OpPush("A"), OpPop, OpPush("B")];
    assert ops[..2] == [OpPush("A"), OpPop] && ops[..2][..1] == [OpPush("A")] && ops[..2][..1][..0] == [];
    assert Run(ops[..2][..1]) == Step(START, OpPush("A"));
  }

  // ------------------------------------------------------------------
  // Acknowledgement counts of a peer

  /**
   A peer whose count runs `offset` ahead of the stanzas taken from this
   queue: for every number `m` of queued stanzas it has handled, its count
   trims exactly those, if and only if the count lines up with the first Id.
   */
  lemma CountTrimsExactlyIff(q: Items, removed: nat, offset: nat)
    requires Numbered(q) && q != []
    ensures TrimsExactly(q, offset + removed) <==> offset + removed == q[0].id - 1
  {
    var base := offset + removed;
    if base == q[0].id - 1 {
      forall m: nat | m <= |q|
        ensures TrimsAt(q, base, m)
      {
        DropAckedCount(q, base + m);
      }
    } else if TrimsExactly(q, base) {
      assert TrimsAt(q, base, 0) && TrimsAt(q, base, |q|);
      DropAckedCount(q, base);
      DropAckedCount(q, base + |q|);
      assert false;
    }
  }

  /** A peer that has handled `m` queued stanzas and answers `base + m` has exactly those dropped. */
  ghost predicate TrimsAt(q: Items, base: int, m: nat) {
    AckedUpTo(q, base + m, 0) == m
  }

  ghost predicate TrimsExactly(q: Items, base: int) {
    forall m: nat :: m <= |q| ==> TrimsAt(q, base, m)
  }

  /**
   Over any run, the count of a peer that counts every stanza it handled, and
   `offset` stanzas that were written without being queued, is safe to trim
   with exactly when there are no such stanzas and the queue never refilled.
   */
  lemma PeerCountSafeIff(ops: seq<Op>, offset: nat)
    requires Run(ops).queue != []
    ensures TrimsExactly(Run(ops).queue, offset + |Run(ops).removed|) <==> offset == 0 && Run(ops).refills == 0
  {
    hide Run, TrimsExactly, Stanzas, Numbered;
    Conservation(ops);
    NumberingCountsPushes(ops);
    CountTrimsExactlyIff(Run(ops).queue, |Run(ops).removed|, offset);
  }

  /**
   The client writes its initial presence without queueing it (client.go:237).
   A peer that counts it is always at least one ahead of the queue: each of
   its answers that leaves work to do also drops a stanza it has not handled.
   */
  lemma UnqueuedStanzaDropsUnhandled(ops: seq<Op>, m: nat)
    requires m < |Run(ops).queue|
    ensures AckedUpTo(Run(ops).queue, 1 + |Run(ops).removed| + m, 0) > m
  {
    RunInvariant(ops);
    NumberingCountsPushes(ops);
    DropAckedCount(Run(ops).queue, 1 + |Run(ops).removed| + m);
  }
}

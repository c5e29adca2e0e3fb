/** Dispatch of received packets (router.go:44-82, 125-177, 266-277). */
module Routers {
  import opened Wrappers
  import opened Xml
  import opened StanzaErrors
  import opened Iqs

  const NOT_IMPLEMENTED := Err.Err(Name("", "error"), 501, "cancel", "feature-not-implemented", "")

  // ------------------------------------------------------------------
  // Packets and routes

  datatype Packet = IqPacket(iq: Iq) | MessagePacket(kind: string) | PresencePacket(kind: string) | OtherPacket

  /** A packet with the value of its IQ at the time it is looked at. */
  datatype PacketValue = IqV(iq: IqValue) | MessageV(kind: string) | PresenceV(kind: string) | OtherV

  datatype Matcher =
    | NameMatcher(name: string)
    | TypeMatcher(types: seq<string>)
    | IqNamespaceMatcher(namespaces: seq<string>)
    | Custom(accepts: PacketValue -> bool)

  /** A route whose handler is known by a number. */
  datatype Route = Route(handler: nat, matchers: seq<Matcher>)

  function ValueOf(p: Packet): PacketValue
    reads if p.IqPacket? then {p.iq} else {}
  {
    match p
    case IqPacket(iq) => IqV(iq.Value())
    case MessagePacket(kind) => MessageV(kind)
    case PresencePacket(kind) => PresenceV(kind)
    case OtherPacket => OtherV
  }

  /** A packet is looked at as it is. */
  lemma PacketsAsTheyAre(iq: Iq, kind: string)
    ensures ValueOf(IqPacket(iq)) == IqV(IqValue(iq.name, iq.id, iq.kind, iq.from, iq.to, iq.payload, iq.error, iq.any))
    ensures ValueOf(MessagePacket(kind)) == MessageV(kind) && ValueOf(PresencePacket(kind)) == PresenceV(kind)
  {
  }

  predicate Matches(m: Matcher, p: PacketValue) {
    match m
    case NameMatcher(name) =>
      name == (match p
               case IqV(_) => "iq"
               case MessageV(_) => "message"
               case PresenceV(_) => "presence"
               case OtherV => "")
    case TypeMatcher(types) =>
      (match p
       case IqV(iq) => iq.kind in types
       case PresenceV(kind) => kind in types
       case MessageV(kind) => (if kind == "" then "normal" else kind) in types
       case OtherV => false)
    case IqNamespaceMatcher(namespaces) => p.IqV? && p.iq.payload.Some? && p.iq.payload.value.name.space in namespaces
    case Custom(accepts) => accepts(p)
  }

  ghost predicate RouteMatches(r: Route, p: PacketValue) {
    forall m :: m in r.matchers ==> Matches(m, p)
  }

  method MatchRoute(r: Route, p: PacketValue) returns (matched: bool)
    ensures matched <==> RouteMatches(r, p)
  {
    for i := 0 to |r.matchers|
      invariant forall m :: m in r.matchers[..i] ==> Matches(m, p)
    {
      if !Matches(r.matchers[i], p) {
        assert r.matchers[i] in r.matchers;
        return false;
      }
    }
    assert r.matchers[..|r.matchers|] == r.matchers;
    return true;
  }

  /** Where the first route that accepts the packet stands. */
  ghost function FirstMatch(routes: seq<Route>, p: PacketValue): (r: Option<nat>)
    ensures r.None? <==> forall k :: 0 <= k < |routes| ==> !RouteMatches(routes[k], p)
    ensures r.Some? ==> r.value < |routes| && RouteMatches(routes[r.value], p)
    ensures r.Some? ==> forall k :: 0 <= k < r.value ==> !RouteMatches(routes[k], p)
  {
    if routes == [] then None
    else if RouteMatches(routes[0], p) then Some(0)
    else match FirstMatch(routes[1..], p)
      case None => None
      case Some(k) => Some(k + 1)
  }

  lemma FirstMatchAt(routes: seq<Route>, p: PacketValue, k: nat)
    requires k < |routes| && RouteMatches(routes[k], p)
    requires forall j :: 0 <= j < k ==> !RouteMatches(routes[j], p)
    ensures FirstMatch(routes, p) == Some(k)
  {
  }

  // ------------------------------------------------------------------
  // The router on values

  datatype Delivery = Delivery(channel: nat, iq: IqValue)
  datatype Handling = Handling(handler: nat, packet: PacketValue)

  /**
   `waiting` maps an IQ id to the result channel registered for it; channels
   are numbered in the order of registration, `owners` gives their ids. What
   left the router is recorded in `delivered`, `handled` and `replies`.
   */
  datatype State = State(
    routes: seq<Route>,
    waiting: map<string, nat>,
    owners: seq<string>,
    delivered: seq<Delivery>,
    handled: seq<Handling>,
    replies: seq<IqValue>)

  function Register(s: State, id: string): State {
    s.(waiting := s.waiting[id := |s.owners|], owners := s.owners + [id])
  }

  function Unregister(s: State, id: string): State {
    s.(waiting := s.waiting - {id})
  }

  /** The context of a registration is done: whatever waits for its id is forgotten. */
  function Expire(s: State, channel: nat): State {
    if channel < |s.owners| then Unregister(s, s.owners[channel]) else s
  }

  predicate WantsReply(p: PacketValue) {
    p.IqV? && p.iq.kind in ["get", "set"]
  }

  ghost function Dispatch(s: State, p: PacketValue): State {
    if p.IqV? && p.iq.id in s.waiting then
      Unregister(s, p.iq.id).(delivered := s.delivered + [Delivery(s.waiting[p.iq.id], p.iq)])
    else match FirstMatch(s.routes, p)
      case Some(k) => s.(handled := s.handled + [Handling(s.routes[k].handler, p)])
      case None =>
        if WantsReply(p) then s.(replies := s.replies + [ErrorReply(p.iq, NOT_IMPLEMENTED)]) else s
  }

  // ------------------------------------------------------------------
  // The router object

  class Router {
    var routes: seq<Route>
    var iqResultRoutes: map<string, nat>
    var owners: seq<string>
    var delivered: seq<Delivery>
    var handled: seq<Handling>
    var replies: seq<IqValue>

    constructor ()
      ensures Value() == State([], map[], [], [], [], [])
    {
      routes, iqResultRoutes, owners := [], map[], [];
      delivered, handled, replies := [], [], [];
    }

    ghost function Value(): State
      reads this
    {
      State(routes, iqResultRoutes, owners, delivered, handled, replies)
    }

    method NewIQResultRoute(id: string) returns (channel: nat)
      modifies `iqResultRoutes, `owners
      ensures channel == old(|owners|) && Value() == Register(old(Value()), id)
    {
      channel := |owners|;
      owners := owners + [id];
      iqResultRoutes := iqResultRoutes[id := channel];
    }

    /** What happens when the context of the registration with this channel is done. */
    method ContextDone(channel: nat)
      requires channel < |owners|
      modifies `iqResultRoutes
      ensures Value() == Expire(old(Value()), channel)
    {
      RemoveIQResultRoute(owners[channel]);
    }

    method RemoveIQResultRoute(id: string)
      modifies `iqResultRoutes
      ensures Value() == Unregister(old(Value()), id)
    {
      iqResultRoutes := iqResultRoutes - {id};
    }

    method Match(p: PacketValue) returns (k: Option<nat>)
      ensures k == FirstMatch(routes, p)
    {
      for i := 0 to |routes|
        invariant forall j :: 0 <= j < i ==> !RouteMatches(routes[j], p)
      {
        var matched := MatchRoute(routes[i], p);
        if matched {
          FirstMatchAt(routes, p, i);
          return Some(i);
        }
      }
      return None;
    }

    method RoutePacket(p: Packet)
      modifies `iqResultRoutes, `delivered, `handled, `replies, if p.IqPacket? then {p.iq} else {}
      ensures Value() == Dispatch(old(Value()), old(ValueOf(p)))
      ensures p.IqPacket? ==>
        p.iq.Value() == if |replies| > |old(replies)| then ErrorReply(old(p.iq.Value()), NOT_IMPLEMENTED)
                        else old(p.iq.Value())
    {
      var value := ValueOf(p);
      if p.IqPacket? {
        if p.iq.id in iqResultRoutes {
          var channel := iqResultRoutes[p.iq.id];
          RemoveIQResultRoute(p.iq.id);
          delivered := delivered + [Delivery(channel, p.iq.Value())];
          return;
        }
      }
      var k := Match(value);
      if k.Some? {
        handled := handled + [Handling(routes[k.value].handler, value)];
        return;
      }
      if p.IqPacket? && (p.iq.kind == "get" || p.iq.kind == "set") {
        p.iq.MakeError(NOT_IMPLEMENTED);
        replies := replies + [p.iq.Value()];
      }
    }
  }

  // ------------------------------------------------------------------
  // One packet

  /**
   A packet ends in exactly one place: the channel waiting for its id, which
   gets the IQ as it is, the handler of the first route all of whose matchers
   accept it, a reply that swaps the addresses and keeps the rest, or nowhere.
   */
  lemma OnePlaceOnly(s: State, p: PacketValue)
    ensures var s' := Dispatch(s, p);
            && |s'.delivered| + |s'.handled| + |s'.replies| <= |s.delivered| + |s.handled| + |s.replies| + 1
            && s.delivered <= s'.delivered && s.handled <= s'.handled && s.replies <= s'.replies
            && (|s'.delivered| > |s.delivered| <==> p.IqV? && p.iq.id in s.waiting)
            && (|s'.delivered| > |s.delivered| ==>
                  s'.delivered == s.delivered + [Delivery(s.waiting[p.iq.id], p.iq)])
            && (|s'.handled| > |s.handled| <==>
                  && !(p.IqV? && p.iq.id in s.waiting)
                  && exists k :: 0 <= k < |s.routes| && RouteMatches(s.routes[k], p))
            && (|s'.replies| > |s.replies| <==>
                  && p.IqV? && p.iq.kind in ["get", "set"] && p.iq.id !in s.waiting
                  && forall k :: 0 <= k < |s.routes| ==> !RouteMatches(s.routes[k], p))
            && (|s'.replies| > |s.replies| ==>
                  var reply := s'.replies[|s.replies|];
                  && reply.id == p.iq.id && reply.from == p.iq.to && reply.to == p.iq.from
                  && reply.kind == "error" && reply.payload == p.iq.payload
                  && reply.error == Some(Err.Err(Name("", "error"), 501, "cancel", "feature-not-implemented", ""))
                  && reply.name == p.iq.name && reply.any == p.iq.any)
            && s'.routes == s.routes && s'.owners == s.owners
            && (|s'.handled| > |s.handled| ==>
                  exists k :: 0 <= k < |s.routes| && RouteMatches(s.routes[k], p)
                    && (forall j :: 0 <= j < k ==> !RouteMatches(s.routes[j], p))
                    && s'.handled[|s.handled|] == Handling(s.routes[k].handler, p))
  {
    var k := FirstMatch(s.routes, p);
  }

  // ------------------------------------------------------------------
  // Runs

  datatype Op =
    | OpRegister(id: string)
    | OpUnregister(id: string)
    | OpExpire(channel: nat)
    | OpAddRoute(route: Route)
    | OpRoute(packet: PacketValue)

  ghost function Step(s: State, op: Op): State {
    match op
    case OpRegister(id) => Register(s, id)
    case OpUnregister(id) => Unregister(s, id)
    case OpExpire(channel) => Expire(s, channel)
    case OpAddRoute(route) => s.(routes := s.routes + [route])
    case OpRoute(packet) => Dispatch(s, packet)
  }

  ghost function Run(ops: seq<Op>): State {
    if ops == [] then State([], map[], [], [], [], []) else Step(Run(ops[..|ops| - 1]), ops[|ops| - 1])
  }

  ghost predicate Delivers(s: State, channel: nat) {
    exists i :: 0 <= i < |s.delivered| && s.delivered[i].channel == channel
  }

  ghost predicate OneShot(s: State) {
    && (forall id :: id in s.waiting ==>
          s.waiting[id] < |s.owners| && s.owners[s.waiting[id]] == id && !Delivers(s, s.waiting[id]))
    && (forall i :: 0 <= i < |s.delivered| ==>
          s.delivered[i].channel < |s.owners| && s.owners[s.delivered[i].channel] == s.delivered[i].iq.id)
    && (forall i, j :: 0 <= i < j < |s.delivered| ==> s.delivered[i].channel != s.delivered[j].channel)
  }

  lemma StepKeepsOneShot(s: State, op: Op)
    requires OneShot(s)
    ensures OneShot(Step(s, op))
  {
    var s' := Step(s, op);
    forall id | id in s'.waiting
      ensures !Delivers(s', s'.waiting[id])
    {
      if op.OpRegister? && op.id == id {
        assert s'.waiting[id] == |s.owners|;
      } else {
        assert id in s.waiting && !Delivers(s, s.waiting[id]);
      }
    }
    if |s'.delivered| > |s.delivered| {
      var channel := s.waiting[op.packet.iq.id];
      assert !Delivers(s, channel);
      assert forall i :: 0 <= i < |s.delivered| ==> s'.delivered[i] == s.delivered[i];
    }
  }

  /**
   Over any run of registrations, expirations and packets, a result channel
   gets at most one IQ, and only one with the id it was registered for.
   */
  lemma {:induction false} ChannelsGetOneIq(ops: seq<Op>)
    ensures OneShot(Run(ops))
  {
    if ops != [] {
      ChannelsGetOneIq(ops[..|ops| - 1]);
      StepKeepsOneShot(Run(ops[..|ops| - 1]), ops[|ops| - 1]);
    }
  }

  // ------------------------------------------------------------------
  // What the matchers look at

  predicate Typed(p: PacketValue, t: string) {
    || (p.IqV? && p.iq.kind == t)
    || (p.PresenceV? && p.kind == t)
    || (p.MessageV? && p.kind != "" && p.kind == t)
    || (p == MessageV("") && t == "normal")
  }

  /** The name and the type a packet goes by; a message without a type is a normal one. */
  lemma MatchersMean(name: string, types: seq<string>, accepts: PacketValue -> bool, p: PacketValue)
    ensures Matches(Custom(accepts), p) <==> accepts(p)
    ensures Matches(NameMatcher(name), p) <==>
            if p.IqV? then name == "iq" else if p.MessageV? then name == "message"
            else if p.PresenceV? then name == "presence" else name == ""
    ensures Matches(TypeMatcher(types), p) <==>
            exists t :: t in types && Typed(p, t)
    ensures Matches(IqNamespaceMatcher(types), p) <==>
            p.IqV? && exists ns, local, ts :: ns in types && p.iq.payload == Some(Payload(Name(ns, local), ts))
  {
    var t := if p.IqV? then p.iq.kind else if p.PresenceV? then p.kind
             else if p.MessageV? && p.kind != "" then p.kind else "normal";
    assert !p.OtherV? ==> Typed(p, t);
    if p.IqV? && p.iq.payload.Some? && p.iq.payload.value.name.space in types {
      var pay := p.iq.payload.value;
      assert p.iq.payload == Some(Payload(Name(pay.name.space, pay.name.local), pay.tokens));
    }
  }

  /** A registration starts to wait at once and changes nothing else. */
  lemma RegistrationWaits(s: State, id: string)
    ensures var s' := Register(s, id);
            && Waits(s', |s.owners|) && s'.owners == s.owners + [id]
            && s' == s.(waiting := s'.waiting, owners := s'.owners)
  {
  }

  // ------------------------------------------------------------------
  // How long a registration waits

  /** The registration with this channel has not been served, replaced or dropped. */
  ghost predicate Waits(s: State, channel: nat) {
    channel < |s.owners| && s.owners[channel] in s.waiting && s.waiting[s.owners[channel]] == channel
  }

  /**
   Over any run: a step ends the wait of a registration exactly when it serves
   an IQ with the id, registers or removes the id again, or when the context of
   any registration of that id is done.
   */
  lemma WaitEndsIff(ops: seq<Op>, op: Op, channel: nat)
    requires Waits(Run(ops), channel)
    ensures var s := Run(ops);
            var id := s.owners[channel];
            !Waits(Step(s, op), channel) <==>
            || op == OpRegister(id) || op == OpUnregister(id)
            || (op.OpExpire? && op.channel < |s.owners| && s.owners[op.channel] == id)
            || (op.OpRoute? && op.packet.IqV? && op.packet.iq.id == id)
  {
    ChannelsGetOneIq(ops);
    hide Run;
  }

  /** A registration outlives the contexts of all others exactly when its id was registered only once. */
  lemma OutlivesOthersIff(ops: seq<Op>, channel: nat)
    requires Waits(Run(ops), channel)
    ensures var s := Run(ops);
            (forall c :: 0 <= c < |s.owners| && c != channel ==> Waits(Step(s, OpExpire(c)), channel))
            <==> (forall c :: 0 <= c < |s.owners| && c != channel ==> s.owners[c] != s.owners[channel])
  {
    var s := Run(ops);
    forall c | 0 <= c < |s.owners|
      ensures Waits(Step(s, OpExpire(c)), channel) <==> s.owners[c] != s.owners[channel]
    {
      WaitEndsIff(ops, OpExpire(c), channel);
    }
  }

  /** An old context ends a newer registration of the same id. */
  lemma OldContextEndsNewWait(id: string)
    ensures var s := Run([OpRegister(id), OpRegister(id)]);
            Waits(s, 1) && !Waits(Step(s, OpExpire(0)), 1)
  {
    var two := [OpRegister(id), OpRegister(id)];
    assert two[..1] == [OpRegister(id)] && two[..1][..0] == [];
    assert Run(two[..1]) == Step(Run([]), OpRegister(id));
    assert Run(two) == Step(Run(two[..1]), OpRegister(id));
  }
}

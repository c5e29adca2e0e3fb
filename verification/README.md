# Verified model of go-xmpp

This project models the parts of the go-xmpp client library that carry protocol
state or arithmetic, and proves what they promise. Go methods that update an
object are methods of a Dafny class, each tied by its `ensures` to a function on
the object's value; the theorems are lemmas about those functions and about runs
of them.

| file | models |
|---|---|
| `UnAckQueue.dfy` | the queue of unacknowledged stanzas and its numbering over whole runs |
| `Transport.dfy` | what is written to the peer and what it replies, as a script; dialling and the upgrade to TLS |
| `Client.dfy` | sending, resending, the receive loop, connecting |
| `Delivery.dfy` | go-back-N delivery over whole runs and over resumptions; what one resend writes; termination |
| `Inbound.dfy` | the inbound count over receive loops and resumptions; how the loop ends; the initial presence |
| `Session.dfy`, `Negotiation.dfy` | session negotiation; its traces and outcomes for every script |
| `Lifetime.dfy` | a client over its whole life of connections, sends and receive loops: what goes out on which kind of link |
| `Exposure.dfy` | when something private goes out in clear, per attempt to connect and over a whole life |
| `Welcome.dfy` | when a negotiation succeeds, all that it writes, and which failures end the reconnection loop |
| `Retention.dfy` | what reconnecting does to the unacknowledged stanzas |
| `ScramText.dfy`, `Downgrade.dfy`, `Scram.dfy` | the text layer, the downgrade string and the exchange of SCRAM; PLAIN |
| `Authentication.dfy` | what a login has read when it succeeds, to whom the proof goes, and which errors are permanent |
| `ScramAgreement.dfy`, `CryptoExample.dfy` | the client against a server of RFC 5802; the assumed laws can hold |
| `Xml.dfy`, `Node.dfy`, `StanzaError.dfy`, `Iq.dfy` | tokens and well-formed content; the tree, error and IQ codecs |
| `Jid.dfy` | parsing and printing of JIDs |
| `Backoff.dfy`, `StreamManager.dfy` | exponential backoff and the reconnection loop |
| `Router.dfy` | dispatch of packets and one-shot IQ result routes |
| `Text.dfy`, `Wrappers.dfy` | the string functions of Go's library; optional values |

## The outside world

- A write attempt number `n` fails when `fault(n)` holds, for an arbitrary function `fault`; replies come from an arbitrary list, at whose end reading fails. Each read takes one reply.
- A link has two sides: `secure` is the flag that `IsSecure()` reports, `encrypted` says whether TLS runs on the connection in use. Dialling again keeps the flag of a TCP transport and starts a plain connection. Each log entry records both sides at the time of writing. Whether dialling, the handshake and the check of the host name succeed is part of the script.
- Hash functions, HMAC, PBKDF2, base64 and character encoding are arbitrary functions. `Scram.Crypto.Lawful` lists what is assumed of them (output lengths, decode after encode, no comma in base64), and `CryptoExample.LawsAreConsistent` shows that these laws can hold together. The random nonce and the outcome of drawing it are parameters.
- The random delay of the backoff is any number below its bound.
- Which IQ payloads are registered, and which of them the library can fill, are parameters (`Iqs.Registry`).
- Raw tags, not characters, stand between encoder and decoder: `Xml.Resolve` gives a tag the namespace that its `xmlns` attribute declares, else the inherited one.

## What turned out false of the code

Each of these is proved together with the exact condition under which the code does meet the property.

- A queue Id is not the count of stanzas sent: numbering restarts at 1 whenever the queue drains (stanza/stream_management.go:111-114). It is the count exactly while no push after the first has met an empty queue (`UnAckQueues.NumberingCountsPushes`, `UnAckQueues.PeerCountSafeIff`, `Delivery.OwnCountIsPeerCount`); `UnAckQueues.RefillExample` is a run in which it is not.
- The initial presence is written without being queued (client.go:237). A peer that counts it is always ahead of the queue, and every answer that leaves work to do also drops a stanza it has not handled (`UnAckQueues.UnqueuedStanzaDropsUnhandled`).
- A resend repeats whatever of the queue is still on its way; the peer sees each stanza once exactly when nothing is (`Delivery.LossIsNeeded`, `Delivery.RepeatExample`).
- A tree that was decoded does not always survive encoding: no `xmlns=""` is ever written, so an element without a namespace comes back in its parent's (`Nodes.RoundTripIdentityIff`, `Nodes.UndeclaredExample`).
- A stanza error whose reason is `text` or `gone` loses it (`StanzaErrors.ErrSurvivesIff`).
- A JID without a node and with `@` in its resource cannot be parsed back (`Jids.PrintParseIff`).
- A TCP transport keeps its secure flag when it is dialled again (xmpp_transport.go:35-48), so a second connection skips STARTTLS and authenticates in clear although `Insecure` is unset (`Lifetimes.ReconnectInClear`, with PLAIN). Connecting lets something private out in clear, that is, anything but stream headers, stream ends and the request for TLS, exactly when a TCP transport is dialled with the flag set and the script lets the client come to its first SASL message (`Exposures.ConnectInClearIff`, `Negotiation.PrivateInClearIff`); over a whole life, exactly when some step does that or goes on sending or answering on such a connection (`Exposures.LifeInClearIff`). A first connection and every websocket are safe (`Lifetimes.PrivateIsEncrypted`).
- Reconnecting can forget stanzas that are not acknowledged: a connection that breaks before the features, or on which TLS fails, drops the session with its queue (session.go:42-54), a request to resume that is refused drops the queue (session.go:206-212), and enabling stream management anew replaces it. They survive exactly when the script leads to none of these (`Retention.SurvivesIff`, `Retention.QueueFate`, `Retention.BrokenBeforeFeatures`).
- After a resumption nothing is resent until the next answer arrives (session.go:195-205). A stanza sent before it overtakes those still queued, and the peer's log stays in order exactly when none is, or the first one has the same text (`Delivery.SendBeforeAnswer`, `Delivery.OvertakingExample`).
- A receive loop whose answer to a request cannot be written ends without reporting the disconnection (client.go:443-447), so no event asks for a reconnection; it is reported exactly when at each request before the first close the write of the answer goes through (`Inbound.DisconnectedIff`).
- The context of an old registration removes a newer one of the same id (router.go:155-160). A registration outlives the contexts of all others exactly when its id was registered only once (`Routers.OutlivesOthersIff`, `Routers.OldContextEndsNewWait`).
- SASL success with no value is accepted without the server's signature (auth.go:211-213, `ScramAgreement.AcceptanceMeans`).

Where comments and code disagree the model follows the code: `durationForAttempt` is called stateless but reads the attempt counter of the object (backoff.go:62-65), the first sleep is drawn below the base and not equal to it (backoff.go:98), and an unmatched IQ is answered although a comment lists that as still to do (router.go:24, router.go:78-81).

## Model

| member | source | states |
|---|---|---|
| UnAckQueues.UnAckQueue.Push | stanza/stream_management.go:107-129 | a stanza joins at the end, numbered one above the last or 1; anything else is refused and changes nothing |
| UnAckQueues.UnAckQueue.Pop | stanza/stream_management.go:75-84 | takes the oldest element, if there is one |
| UnAckQueues.UnAckQueue.PopN | stanza/stream_management.go:87-94 | takes the first n elements in order, or all, and leaves the rest |
| UnAckQueues.UnAckQueue.Peek | stanza/stream_management.go:96-105 | the oldest element, if there is one |
| UnAckQueues.UnAckQueue.PeekN | stanza/stream_management.go:53-72 | the first n elements in order; none for n at or below 0 |
| UnAckQueues.TakeMeans | stanza/stream_management.go:53-72 | a prefix of the queue, as long as asked for or as there are elements |
| UnAckQueues.UnAckQueue.Empty | stanza/stream_management.go:131-137 | whether nothing is queued |
| UnAckQueues.UnAckQueue.Trim | router.go:94-98 | drops the leading elements numbered up to the acknowledged count |
| UnAckQueues.AckedUpTo | router.go:94-97 | the scan stops at the first Id above the count |
| UnAckQueues.DropAckedIsFilter | session.go:195-203 | on a numbered queue the scanning loop keeps exactly the elements with Id above h |
| UnAckQueues.DropAckedCount | router.go:94-98 | how many elements an acknowledgement removes from a numbered queue |
| UnAckQueues.Conservation | stanza/stream_management.go:75-129 | over every run of push, pop, pop-n and trim, removed then queued is what was pushed, in order, and Ids stay consecutive from at least 1 |
| UnAckQueues.NumberingCountsPushes | stanza/stream_management.go:111-114 | the last Id is the number of pushes, and the first is removals + 1, exactly while the queue has not refilled after draining |
| UnAckQueues.RefillExample | stanza/stream_management.go:111-114 | a run in which the second stanza gets Id 1 |
| UnAckQueues.CountTrimsExactlyIff | router.go:94-98 | a peer's count trims exactly what it handled, whatever its progress, if and only if it lines up with the first Id |
| UnAckQueues.PeerCountSafeIff | router.go:85-98 | over every run, a peer's plain count is safe exactly with no unqueued stanza and no refill |
| UnAckQueues.UnqueuedStanzaDropsUnhandled | client.go:237 | a counted but unqueued stanza makes every answer that leaves work drop an unhandled stanza |
| Transports.Transport.Write | xmpp_transport.go:130-135 | a write appends one frame or fails |
| Transports.Transport.Connect | xmpp_transport.go:35-48 | a failed dial changes nothing and is permanent; otherwise a stream is opened on a new connection, plain for TCP, with the flag kept |
| Transports.Transport.StartStream | xmpp_transport.go:50-62 | opens a stream or closes the transport; a failed write is permanent, a bad reply is not |
| Transports.OpenStreamMeans | xmpp_transport.go:50-62 | a stream opens exactly when its header is written and answered; otherwise only a failed write is permanent, and the end of the stream is written |
| Transports.DialMeans | xmpp_transport.go:35-48 | a failed dial is permanent and changes nothing; otherwise the flag stays, the link is new, and the header decides |
| Transports.Transport.StartTLS | xmpp_transport.go:80-110 | TLS runs after every completed handshake; the flag is set exactly when the host name is verified too, and cleared when it is not; a failed handshake changes neither |
| Clients.Client.Send | client.go:330-360 | the checks in order; with stream management on or off the stanza itself is what an accepted send writes, and it is queued before exactly when stream management is on; requests and answers are not queued; nothing else of the session changes |
| Clients.Client.SendRaw | client.go:386-405 | the string itself is what an accepted send writes, whether or not stream management is on; it is queued before exactly when it is on, also when the write fails |
| Clients.SendPacketMeans | client.go:330-360 | for every packet and both settings, the frame that is written, the queue, and the error |
| Clients.Client.SendMissingStz | router.go:85-123 | the new queue, the writes and the error of a resend |
| Clients.Client.Recv | client.go:417-464 | state and events of the receive loop on every script of packets; of the session only queue and count change |
| Clients.Client.PostSessionSetup | client.go:228-244 | presence unless resumed |
| Clients.Client.Connect | client.go:248-298 | dialling, negotiation, stream id and presence; after every failure, which session the client keeps, with which state, and what was written to close the stream |
| Clients.Client.Disconnect | client.go:317-323 | writes the end of the stream if there has been a connection, and changes nothing else |
| Delivery.WriteAllWrites | router.go:105-116 | stanzas go out in order up to the first failing write |
| Delivery.ResendWrites | router.go:85-123 | a resend trims once and writes the queued stanzas in order, then one request if any; an error after k writes leaves k frames, no request and the full trimmed queue |
| Delivery.ExchangeStops | router.go:85-123 | if every answer covers the head and nothing is sent, the queue is empty within as many answers as it held stanzas, and then nothing more is written |
| Delivery.GoBackN | router.go:85-123 | over every run of sends, partial handling, loss and resending, on a link that stays down once a write has failed: the peer's log is a prefix of what was sent, each once, and nothing unhandled has left the queue |
| Delivery.StaysDownIsNeeded | router.go:105-116 | on a link that comes back after one failed write, a later stanza is handled and the earlier one is not |
| Delivery.NegotiationResumes | session.go:195-205 | a negotiation that resumes trims the queue by the count in the reply to its request and writes no stanza and no request for an answer |
| Delivery.ResumedKeepsUnhandled | session.go:195-205 | after a resumption, also one that follows another, exactly the unhandled stanzas are queued, in order, and none is on its way |
| Delivery.GoBackNAcross | session.go:164-213 | the same as GoBackN over any number of resumptions, with no stanza sent between a resumption and the next answer; requests, handling and further resumptions may come between |
| Delivery.SendBeforeAnswer | client.go:344-359 | a stanza sent before that answer is handled first; the order holds exactly when nothing was unhandled or the texts agree |
| Delivery.OvertakingExample | session.go:195-205 | two stanzas and a resumption between them after which the peer has the second and not the first |
| Delivery.OwnCountIsPeerCount | stanza/stream_management.go:111-114 | the count that trims safely is the peer's count exactly while the queue has not refilled |
| Delivery.LossIsNeeded | router.go:105-116 | if the rest was not lost, the peer's log stays a prefix of what was sent exactly when nothing was on its way |
| Delivery.RepeatExample | router.go:105-116 | a stanza on its way is resent and arrives twice |
| Retention.QueueFate | session.go:164-213 | for every script, whether connecting keeps the queue, trims it by the count in the server's reply, or forgets it |
| Retention.SurvivesIff | session.go:42-54 | unacknowledged stanzas survive connecting exactly when the features arrive, TLS succeeds where it must, and after logging in no reply refuses the resumption or enables stream management anew |
| Retention.BrokenBeforeFeatures | session.go:42-44 | whatever is queued, a connection that breaks before the features leaves no session, no queue and no state |
| Inbound.AnswerCarriesCount | client.go:437-457 | an answer carries the starting count plus the messages, presences and IQs received before its request |
| Inbound.ReceiveAnswers | client.go:417-464 | the answers written begin those owed, and are all of them when no write fails; the count stops at the first request that was not answered |
| Inbound.ReceiveCounts | client.go:417-464 | however the loop ends, it leaves the starting count plus the messages, presences and IQs before the first request that was not answered |
| Inbound.DisconnectedIff | client.go:417-464 | the loop ends by reporting the disconnection, with the count, after the close or the error that ended it, exactly when at every request before the first close, in the state the loop has then, the write of the answer goes through; otherwise by the error alone. The same tells whether every answer owed was written |
| Inbound.CountSurvivesResumption | session.go:175-178 | after a receive loop that ended in any way, every request to resume carries the session's Id and the running count, whatever the server replies; and after a resumption the answers go on from that count |
| Inbound.PresenceOnlyWhenBound | client.go:228-244 | a successful connect writes its presence, once and last, exactly when the session was not resumed |
| Sessions.NewSession | session.go:28-92 | the session, transport and flags after a negotiation, for fresh and earlier sessions; what that negotiation is, `Welcomes.NegotiationSucceedsIff`, `Welcomes.NegotiationTranscript` and `Negotiation.NegotiationOutcome` say |
| Sessions.Session.StartTlsIfSupported | session.go:120-153 | every branch of the TLS step |
| Sessions.Session.Resume | session.go:164-213 | every branch of the resumption attempt |
| Sessions.Session.Bind | session.go:215-272 | the bind request and what each reply does |
| Sessions.Session.Rfc3921Session | session.go:275-311 | the session request, only when mandatory |
| Sessions.Session.EnableStreamManagement | session.go:314-355 | the enable request, the fresh state and the flag taken from the reply |
| Sessions.Session.Reset | session.go:104-118 | a new stream and its features; overwrites the error |
| Negotiation.NegotiationTrace | session.go:28-92 | for every script, from any session: the frames follow the protocol's automaton; all but StartTLS are written on the one link left by the TLS step, with its flag set or with Insecure set; every request to resume carries the session's Id and count; replies are read in order |
| Negotiation.NegotiationOutcome | session.go:164-213 | success is one of two cases: resumed by the reply to the session's own request, with the same state and the queue trimmed by that reply; or bound by the reply to the bind request, and, if stream management was wanted and offered, with a fresh state from the reply to that request. The features that decide are those read just before the first of these requests, after the SASL success and the new stream header |
| Negotiation.NoRequestWithoutLogin | session.go:59-88 | on every script, also when the negotiation fails later, no request is written unless a SASL success, a new stream header and features were read |
| Welcomes.NegotiationSucceedsIff | session.go:28-92 | a negotiation succeeds if and only if the script brings features, TLS where it is needed, the login, the new stream, and a resumption or every reply that is asked for; with Insecure it goes on without TLS |
| Welcomes.NegotiationTranscript | session.go:28-92 | everything that a successful negotiation writes, in order, with the packet ids, the resource, the resumption flag and the session's Id and count; the features after the login decide which requests there are |
| Welcomes.FailureMarked | session.go:42-92 | a session that is dropped leaves a permanent error; any other error of a negotiation is permanent exactly when a later attempt cannot go better |
| Welcomes.RefusedLoginStops | auth.go:237-239 | a login that the server refuses ends the negotiation with that refusal, marked permanent |
| Welcomes.ConnectStopsIff | stream_manager.go:142-150 | which results of connecting end the reconnection loop for good |
| Welcomes.ConnectLeaves | client.go:262-298 | which session a client keeps after every result of connecting, with the id of the stream that was dialled, and when the presence fails |
| Negotiation.TlsFlagStep | session.go:46-65 | a negotiation keeps TlsEnabled implying the transport's flag, keeps a session only on a link that is secure or with Insecure set, and never writes under a recorded error |
| Negotiation.PrivateInClearIff | session.go:46-48 | with Insecure unset a negotiation writes something private in clear exactly when the flag was carried over to a link without TLS and the script lets the client come to its first SASL message |
| Lifetimes.NeverLate | session.go:46-65 | over every life of a client, TlsEnabled implies the transport's flag and no negotiation writes under a recorded error |
| Lifetimes.PrivateIsEncrypted | xmpp_transport.go:35-48 | over every life of a client with Insecure unset, all but stream tags and StartTLS is written with the flag set, and encrypted as long as no TCP transport is dialled with the flag set; `Exposures.LifeInClearIff` gives the exact condition |
| Exposures.ConnectInClearIff | xmpp_transport.go:35-48 | with Insecure unset an attempt to connect lets something private out in clear exactly on a TCP transport dialled with its flag set and a script that lets the client authenticate |
| Exposures.LifeInClearIff | xmpp_transport.go:35-48 | over every life of a client with Insecure unset something private goes out in clear exactly when some step exposes it: such an attempt to connect, or a write that sending or answering makes on a connection without TLS |
| Lifetimes.ReconnectInClear | session.go:46-48 | two connections to one server after which the secret of PLAIN has gone out in clear, with Insecure unset and TLS offered on both |
| Negotiation.LoginReads | session.go:56-65 | a login without an error has read, as its last three replies, the SASL success, the new stream and the features now in force |
| Negotiation.AuthenticateStep | session.go:155-161 | authentication writes one request and at most one response, and a success has written the request |
| Scram.XorBytes | auth.go:414-423 | the bytewise exclusive or; nothing for different lengths |
| Scram.XorUndoes | auth.go:414-423 | a mask applied twice is gone |
| Scram.Choose | auth.go:46-53 | the client's first mechanism that the server offers |
| Scram.AuthSASL | auth.go:46-68 | which exchange runs |
| Scram.AuthPlain | auth.go:80-114 | the PLAIN exchange |
| Scram.AuthScram | auth.go:116-243 | the writes, reads and outcome of the SCRAM exchange; `Authentication.AuthenticateGranted`, `Authentication.ProofOnlyForFairTerms` and `ScramAgreement.Agreement` say what that exchange comes to |
| Authentication.AuthenticateGranted | auth.go:46-243 | an authentication without an error has read a SASL success as its last reply and written at least one frame |
| Authentication.ProofOnlyForFairTerms | auth.go:134-182 | the proof is written only after a message whose nonce extends the client's, with at least 4096 iterations, a salt, no reserved attribute, and a downgrade hash that matches if there is one |
| Authentication.TermsIff | auth.go:143-167 | the checks on the server's first message, attribute by attribute, and the terms taken over |
| Authentication.AuthenticateErrors | auth.go:46-243 | a refusal is always an error and permanent; other errors are permanent exactly when no mechanism fits or a message is rejected |
| Authentication.RejectionReasons | auth.go:209-236 | which fault of the server's final message is reported |
| Authentication.PlainAgreement | auth.go:80-114 | a server of RFC 4616 reads the user and the secret, each in its place |
| Scram.Respond | auth.go:134-199 | the checks on the server's first message in order, and the proof |
| Scram.VerifyDowngradeHash | auth.go:344-356 | the hash is accepted exactly when the lists can be written down and their string hashes to it; an empty one is compared like any other |
| ScramText.EscapeLacksComma | auth.go:321-324 | an escaped name has no comma |
| ScramText.EscapeIsTheOnlySpelling | auth.go:321-324 | escaping is a bijection onto what a server can unescape |
| ScramText.ParseSCRAMFields | auth.go:326-342 | the fields, or the first error |
| ScramText.ParseFieldsIff | auth.go:326-342 | parsing succeeds exactly when every part has `=` and keys are distinct; the fields re-join to the message |
| ScramText.FirstBadPart | auth.go:326-342 | the first part that does not fit decides on the error |
| ScramText.ParseMessage | auth.go:326-342 | printed fields with distinct keys parse to themselves |
| Downgrade.IsValidSASLMechanismName | auth.go:382-393 | accepts exactly the names of 1 to 20 allowed characters that do not start with a digit |
| Downgrade.IsValidChannelBindingName | auth.go:395-406 | accepts exactly the non-empty names of allowed characters |
| Downgrade.NameCharacters | auth.go:382-406 | the allowed characters, by their codes |
| Downgrade.MechanismNames | auth.go:382-393 | a letter, - or _ and at most nineteen more characters |
| Downgrade.ScramDowngradeString | auth.go:358-380 | the canonical string, or the first invalid name |
| Downgrade.DowngradeStringLists | auth.go:358-380 | cut at 0x1f and split at 0x1e, the string lists the mechanisms and then the bindings, each sorted |
| Downgrade.DowngradeStringFails | auth.go:358-364 | the first mechanism that is not a name is reported, whatever the bindings are |
| Downgrade.DowngradeBindingFails | auth.go:371-377 | after valid mechanisms the first binding that is not a name is reported |
| Downgrade.SortedUnique | auth.go:366 | a multiset has one sorted listing, so any sort gives the same string |
| Downgrade.LeIsLexicographic | auth.go:366 | the order is that of the first differing characters, then of the lengths |
| Downgrade.DowngradeStringCanonical | auth.go:358-380 | two accepted inputs give the same string exactly when the lists are permutations, and both have bindings or neither |
| ScramAgreement.ClientFirstParses | auth.go:122 | the client's first message parses to the escaped user and the nonce |
| ScramAgreement.FirstMessageParts | auth.go:122-125 | the first message is y, nothing, the escaped user and the nonce |
| ScramAgreement.AlgorithmNamed | auth.go:169-177 | the hash function is the one the mechanism is named after |
| ScramAgreement.ClientAcceptsTerms | auth.go:143-167 | the terms of every honest server are accepted and taken over exactly |
| ScramAgreement.ServerAccepts | auth.go:184-199 | the server rebuilds AuthMessage from the messages, recovers ClientKey and accepts the proof |
| ScramAgreement.ClientAcceptsVerifier | auth.go:219-236 | the client accepts that server's verifier |
| ScramAgreement.Agreement | auth.go:116-243 | for every user, secret, nonce extension, salt and count in range the whole exchange succeeds on both sides with two writes |
| ScramAgreement.DowngradeDetected | auth.go:178-182 | lists differing from those hashed by the server are refused, unless the hash collides on the two strings |
| ScramAgreement.AcceptanceMeans | auth.go:209-236 | which success replies are accepted |
| Nodes.UnmarshalXMLDepth | stanza/node.go:39-74 | the tree, the tokens left, or the error |
| Nodes.DecodeBalanced | stanza/node.go:39-74 | on every balanced stream of tokens decoding succeeds exactly when fewer than 128 elements are open at once, and leaves what follows the element's end tag |
| Nodes.DecodeWellFormed | stanza/node.go:39-74 | on well-formed input decoding succeeds exactly below depth 128, keeps children in order, joins character data and takes exactly the element |
| Nodes.NoForeignEnd | stanza/node.go:66-69 | on every balanced stream of tokens the decoder meets no end tag of another name: refusing one would give the same result |
| Nodes.ForeignEndPassed | stanza/node.go:67-69 | an end tag of another name, in another namespace too, is passed over |
| Nodes.MarshalXML | stanza/node.go:78-97 | the tags written: start, children, text, end; an element without a name stops it |
| Nodes.EncodeOkIff | stanza/node.go:78-97 | encoding succeeds exactly when every element has a name; what precedes the first without one is written |
| Nodes.TreeRoundTrip | stanza/node.go:39-97 | decoding the encoding gives the tree with empty namespaces inherited and takes exactly that element; too high a tree is refused |
| Nodes.SecondRoundTrip | stanza/node.go:39-97 | the tree that encoding and decoding gives, encoded and decoded again, comes back unchanged |
| Nodes.RoundTripIdentityIff | stanza/node.go:78-97 | exactly which trees survive unchanged |
| Nodes.DecodedSurvivesIff | stanza/node.go:39-97 | exactly which decoded trees survive unchanged |
| Nodes.UndeclaredExample | stanza/node.go:78-97 | a decoded tree whose encoding decodes to another tree |
| StanzaErrors.UnmarshalErr | stanza/error.go:24-78 | the error read, or the decoding error |
| StanzaErrors.ErrAttrsMean | stanza/error.go:28-37 | the type is that of the last such attribute, the code that of the last that is a number |
| StanzaErrors.ErrChildrenMean | stanza/error.go:55-69 | the text is that of the last text or gone child, the reason the name of the last other child in the stanza or publish-subscribe error namespace |
| StanzaErrors.MarshalErr | stanza/error.go:80-136 | the tags written; none without a code |
| StanzaErrors.ErrNodeLean | stanza/error.go:85-134 | only what the error has is written |
| StanzaErrors.ErrLoopOnContent | stanza/error.go:40-77 | on well-formed content the children are folded in order and exactly the element is taken |
| StanzaErrors.ErrRoundTrip | stanza/error.go:24-136 | every error with a code is read back with code, type and text; only a reason named text or gone is lost |
| StanzaErrors.ErrSurvivesIff | stanza/error.go:24-136 | exactly which errors survive unchanged |
| Text.AtoiItoa | stanza/error.go:33-91 | parsing a printed 64-bit integer gives it back |
| Text.AtoiMeans | stanza/error.go:33-36 | an optional sign and digits in the 64-bit range, and nothing else, are a number |
| Iqs.Iq.Unmarshal | stanza/iq.go:88-147 | the fields of the IQ and the tokens left, or the error; `Iqs.IqElement` says which attribute and child each field comes from |
| Iqs.IqAttrsMean | stanza/iq.go:91-105 | id, type, to and from are each the value of the last attribute of that name, and unchanged without one; nothing else is touched |
| Iqs.IqElement | stanza/iq.go:88-147 | a whole well-formed IQ element: its four attributes, its children, the tokens left, and exactly when it fails |
| Iqs.IqFraming | stanza/iq.go:107-146 | on well-formed input the loop succeeds exactly when each child can be decoded, takes exactly the element, and keeps the last error, payload and unknown child |
| Iqs.ShallowIsDigestible | stanza/iq.go:107-146 | when nesting stays below the limit, a child fails exactly if the library cannot fill a registered payload that is present |
| Iqs.Iq.MakeError | stanza/iq.go:56-66 | swaps the addresses, keeps id and payload, sets type and error |
| Jids.HasNoneOf | stanza/jid.go:74-101 | whether no rune is a space or listed as invalid |
| Jids.NewJid | stanza/jid.go:15-51 | the parts as far as filled in, and the first error |
| Jids.ParseWithNode | stanza/jid.go:15-51 | what a string with a node comes to: the parts and the error, in the order of the checks |
| Jids.ParseWithoutNode | stanza/jid.go:15-51 | the same for a string without a node |
| Jids.RefusedCharacters | stanza/jid.go:74-101 | the refused characters, by their code points |
| Jids.PrintParseIff | stanza/jid.go:15-69 | valid parts survive print and parse exactly when there is a node or no `@` in the resource |
| Jids.ParsePrint | stanza/jid.go:15-69 | an accepted string is the full form of its parse, up to one trailing slash |
| Jids.ReparseIsIdentity | stanza/jid.go:15-69 | parsing the full form of a parsed JID changes nothing |
| Backoffs.BoundPositive | backoff.go:63-71 | with defaults filled in the random bound is positive and at most the cap |
| Backoffs.Backoff.DurationForAttempt | backoff.go:63-71 | the delay is the bound of the object's own attempt, or below it with jitter |
| Backoffs.Backoff.Duration | backoff.go:51-55 | the same, and the attempt counter moves on |
| Backoffs.Backoff.SetDefault | backoff.go:79-91 | zero fields get their defaults |
| Backoffs.Backoff.Reset | backoff.go:75-77 | the attempt counter restarts |
| Backoffs.TotalBoundClosed | backoff.go:63-71 | the bounds add up to 20 * (2^n - 1), with the cap from the fifteenth on |
| StreamManagers.StreamManager.Resume | stream_manager.go:135-159 | stops at the first success or permanent error; one sleep per temporary failure, each below its bound; one new metrics per attempt; the hook only on success |
| StreamManagers.WaitingIsBounded | stream_manager.go:135-153 | the total wait after n temporary failures, and each sleep |
| Routers.MatchRoute | router.go:266-277 | a route matches exactly when all its matchers accept |
| Routers.MatchersMean | router.go:286-345 | what each matcher looks at; a message without a type is a normal one |
| Routers.Router.Match | router.go:170-177 | the first route that matches |
| Routers.Router.RoutePacket | router.go:56-82 | where the packet went, and what became of its IQ, as `Routers.OnePlaceOnly` spells out |
| Routers.Router.NewIQResultRoute | router.go:146-162 | a new channel takes over the id |
| Routers.RegistrationWaits | router.go:146-152 | a registration waits at once and changes nothing else |
| Routers.Router.RemoveIQResultRoute | router.go:164-168 | the id is forgotten, whichever channel holds it |
| Routers.Router.ContextDone | router.go:155-160 | when a registration's context is done its id is forgotten, whichever channel holds it |
| Routers.OnePlaceOnly | router.go:44-82 | a packet ends in exactly one of pending delivery, which gets the IQ as it is, first matching handler, not-implemented reply with addresses swapped and the rest kept, or nothing |
| Routers.ChannelsGetOneIq | router.go:58-68 | over every run a result channel gets at most one IQ, with the id it was registered for |
| Routers.WaitEndsIff | router.go:56-168 | over every run, a step ends a registration's wait exactly when it delivers an IQ with the id, registers or removes the id again, or ends the context of any registration of that id |
| Routers.OutlivesOthersIff | router.go:155-160 | a registration outlives the contexts of all others exactly when its id was registered only once |
| Routers.OldContextEndsNewWait | router.go:155-160 | an old context ends a newer registration of the same id |

## Left out

- Goroutines: each call is one step; `Push` without a lock, handlers running beside the receive loop and the two lock sections of an IQ lookup are not interleaved.
- Sockets, TLS handshakes, websockets, DNS, keepalive and the wait for a closing tag: only the two sides of the link and the success or failure of each step remain.
- XML lexing, escaping, character data normalisation and the library's reflection: the codecs work on tags and tokens. A written element name is taken to be an XML name, so the error round trip speaks of reasons that are.
- Prefixed attributes: the tree round trip is about attributes without a namespace; the library would add prefix declarations to others.
- `Message` and `Presence` decoding, pubsub, disco, roster, version, forms, the stream error table and the type registry: they would add easy members.
- Nil receivers of the queue methods, and `SendMissingStz` for senders other than a client.
- Pointers in the queue: elements are values here, so changing one through a pointer that `Pop` returned is not modelled.
- Writes that report zero bytes and no error, and SM `failed` elements with no cause, on which the Go code panics.
- Counters do not wrap around; `int` and `uint` conversions of counts are exact. Decimal parsing has the 64-bit range.
- Backoff fields are natural numbers; negative values, which nothing in the library sets, are not covered. Delays are exact integers.
- Custom matchers are pure functions, and every route has a handler.
- The client hooks after connecting, event states other than those of the receive loop, and the choice of server addresses.
- Strings are sequences of characters, not bytes; all separators and length limits concern ASCII characters.

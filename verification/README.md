# A distributed mutual-exclusion testbed, modelled and verified in Dafny

The testbed runs one of two mutual-exclusion algorithms on a set of machines and checks from the logs
whether two critical sections overlapped:

- `MAKNode`, Maekawa-style voting: a node asks the members of its quorum for their votes and enters
  when it has them all;
- `LAKNode`, token passing: requests travel to the node that is believed to hold the token, and the
  token travels with the list of waiting requests.

Around them are the text codecs and the binary frame the messages travel in, the builder of grid
quorums, the translation of node numbers to machine numbers, the start-up contact list, and the
overlap check.

The project states, for all inputs and all runs, what each part does and when the parts together keep
two nodes from being in their critical sections at the same time.

## How the model is built

- The handlers are pure transition functions (`MakProtocol`, `LakProtocol`). The classes
  `MakNode.MAKNode` and `LakNode.LAKNode` have the fields of the originals, update them in place, with
  the same loops, and are verified against these functions: the whole new state, the messages sent and
  the control messages logged. So every statement about runs is a statement about the classes.
- What the handlers must do is also said without them. A node's history is the list of what has happened
  to it (it has issued a request, messages have come, it has finished). `MakHistory`, `MakDuties`,
  `LakHistory` and `LakDuties` say from the history alone what the node remembers and what it sends next;
  `MakRuns`, `LakRuns`, `MakLoop` and `LakLoop` prove that every node of every run and both main loops are
  such histories.
- A run is a sequence of steps of all nodes together: a node issues a request, a message is delivered,
  a node leaves its critical section, a message is lost. The network is a bag: messages may be delayed,
  reordered and dropped, but are never duplicated (`MakSystem`, `LakSystem`).
- What the code leaves undefined is a guard or a parameter: a handler that reads `*begin()` of an empty
  queue is not enabled, and a field that no code assigns is an arbitrary value (`unset`).
- `std::set<Message>` is a set of keys, (sequence number, sender) in lexicographic order. For the token
  list it is a map from keys, because `insert` keeps an entry that has an equal key.

## What holds and what does not

Neither algorithm, as coded, excludes unconditionally. The results say exactly when each does.

- **Voting, without RELINQUISH.** In runs that process no RELINQUISH, requesters exclude one another if and
  only if every two that can enter at all share a quorum member that issues no requests, or that is alone
  in its quorum and has a smaller id than both (`MakReliable.ExclusionIffReliablyShared`). Any other shared
  member fails: a node that issues a request overwrites a vote it has given (`node/MAKNode.cpp:86`) and,
  while locked for itself, grants another one (`node/MAKNode.cpp:148-152`).
- **Voting, all runs.** Quorums do not help once RELINQUISH is processed: requesters exclude one another in
  all runs if and only if at most one of them can enter at all, that is, has another member in its quorum
  (`MakRelinquish.ExclusionIffOneRequester`). A refused node gives its votes back while their LOCKs are
  still on their way to it, and counts them when they arrive (`node/MAKNode.cpp:166-208`). What is left in
  every run is a bound: the votes of an arbiter that are out, and the nodes inside on them, exceed one by at
  most the votes it has abandoned and the times a node has granted its own request by message
  (`MakBound.EveryRunIsBounded`).
- **Token.** `receive_relay` tests `token_holder`, which is never 0, where it would have to test
  `has_token` (`node/LAKNode.cpp:261`), so a RELAY at a node without the token mints one. The nodes in
  their critical sections are at most one more than these stray RELAYs, and one of them does let two in; there
  is exactly one token throughout a loss-free run if and only if there is no stray RELAY. Runs deliver a
  TOKEN as its text is read: a node may read it without end, or find another node's request first and send
  it back, and it is stated exactly when. All runs
  exclude only when no other node has node 1 in its quorum, which on the testbed's grids means one node.
- **Who is served.** Leaving sends the token, with every request that has come inside, to the sender of the
  first of them (`LakRuns.FinishPassesTheList`, `LakRuns.RequestTravels`). But a node that does not know where
  the token is gets it only through a member that does, which is sent a TOKEN without requests first, and
  such a TOKEN is read to its end only by ids of one digit. So when nobody else asks, a node can ever enter
  exactly if node 1 or such a member is in its quorum (`LakReach.CanEnterAloneIff`): on the grid every node
  can for up to 81 nodes and not beyond (`GridReach.EveryNodeEntersIff`).
- **Token codec.** Reading a printed TOKEN ends if and only if the last number in it has one digit.
- **Grid.** The quorums intersect for every number of nodes. Composed with the protocol and with the
  translation to machine numbers: requesters in pairwise distinct rows and columns exclude one another,
  and when all nodes issue requests, two or more nodes do not.
- **Overlap check.** It misses exactly the overlaps in which the later section of the list encloses the
  earlier one, and those whose earlier section was never finished.

## Files

| file | contents |
|---|---|
| `Options.dfy`, `Priority.dfy`, `Sums.dfy`, `Text.dfy`, `TextLoop.dfy` | results that may be missing; request order; sizes and sums over sets; decimal texts and cutting at spaces; loops that read a text |
| `ControlLog.dfy`, `Iteration.dfy` | control messages and their log; rounds and schedules |
| `MakProtocol.dfy`, `MakNode.dfy`, `MakTimed.dfy`, `MakCodec.dfy` | the voting node: transition functions, class, timed main loop, text form |
| `MakHistory.dfy`, `MakDuties.dfy`, `MakRuns.dfy`, `MakLoop.dfy` | what a voting node remembers and sends, from its history; every run and the main loop are histories |
| `MakSystem.dfy`, `MakSafety.dfy`, `MakBound.dfy`, `MakArbiter.dfy`, `MakExclusion.dfy`, `MakRelinquish.dfy`, `MakReliable.dfy` | runs, vote potential, the bound for all runs, arbiter invariant, the two halves of exclusion, the theorem with RELINQUISH, the theorem without |
| `LakProtocol.dfy`, `LakNode.dfy`, `LakTimed.dfy`, `LakCodec.dfy`, `LakReading.dfy` | the token node: transition functions, class, timed main loop, text form, what arrives of a TOKEN |
| `LakHistory.dfy`, `LakDuties.dfy`, `LakRuns.dfy`, `LakLoop.dfy` | what a token node remembers and sends, from its history; every run and the main loop are histories |
| `LakSystem.dfy`, `LakSafety.dfy`, `LakStray.dfy`, `LakExclusion.dfy`, `LakReach.dfy` | runs, token potential and discipline, the stray run, the exclusion theorem, who can enter at all |
| `Frame.dfy`, `Delivery.dfy` | the binary frame; printing, framing, receiving and reading together |
| `Grid.dfy`, `GridQuorums.dfy`, `GridExclusion.dfy`, `GridReach.dfy` | the quorum builder, its theory, the protocols on grids |
| `Hosts.dfy`, `Deployed.dfy` | machine numbers, quorum files, contact list; the protocol on the files |
| `Overlap.dfy` | the overlap check |

`dafny verify dfyconfig.toml` checks everything.

## Model

| member | source | states |
|---|---|---|
| MakReliable.ExclusionIffReliablyShared | node/MAKNode.cpp:77-345 | In all RELINQUISH-free runs with requests from a given set at most one node is in its critical section, if and only if every two requesters with another quorum member share a member that issues no requests, or that is alone in its quorum and has a smaller id |
| MakReliable.AloneArbiterExcludes | node/MAKNode.cpp:132-164 | An arbiter alone in its quorum keeps two clients with larger ids apart although it issues requests itself |
| MakExclusion.SharedArbiterExcludes | node/MAKNode.cpp:132-192 | Two nodes that share an arbiter which issues no requests are never in their critical sections together in a RELINQUISH-free run |
| MakExclusion.TwoInside | node/MAKNode.cpp:77-98 | For any two requesters without a reliable shared member there is a RELINQUISH-free run that ends with both inside |
| MakArbiter.ArbiterInvariant | node/MAKNode.cpp:132-270 | A vote of a non-requesting arbiter is in at most one place: LOCK under way, at the client, or RELEASE under way; and only with the client the arbiter is locked for |
| MakArbiter.EveryRunAgrees | node/MAKNode.cpp:77-345 | In every run `is_locked`, `waiting_queue` and `locked_for` agree at every node; queued and travelling requests are at quorum members of their senders with numbers already used; only quorum members have answered |
| MakArbiter.EveryEntry | node/MAKNode.cpp:166-192 | After any run a node enters only by a LOCK that completes quorum size less one LOCK answers; these are those of all other members in RELINQUISH-free runs, and in any run unless one is a LOCK it sent to itself |
| MakRuns.EveryRunRemembers | node/MAKNode.cpp:77-345 | In every run, from what has been delivered to a node: its next number, which answers are on record, the last one of each member counting, and whether it is inside |
| MakRuns.VotesGivenBack | node/MAKNode.cpp:194-232 | In every run, from deliveries: a FAIL sends to each inquirer one RELINQUISH per INQUIRE that found the node neither inside nor refused since its last refusal or section; an INQUIRE that finds it refused and not inside is answered at once; nothing else sends one |
| MakRuns.NextRefusalGivesBack | node/MAKNode.cpp:194-232 | In every run, after an INQUIRE that finds a node neither inside nor refused, the next FAIL before it finishes puts a RELINQUISH for the inquirer on the network |
| MakRuns.RequestStaysQueued | node/MAKNode.cpp:132-345 | In every run a delivered request stays queued until its sender's RELEASE comes or the node finishes |
| MakRuns.ReleaseIsServed | node/MAKNode.cpp:242-270 | In every run, after a RELEASE the first request left has the vote, and a LOCK is under way to its sender unless it is the arbiter's own |
| MakRuns.NextIsServed | node/MAKNode.cpp:292-345 | In every run, after a section the next request is under way to all other members if it is the node's own, and else its sender's LOCK is, and a RELEASE to every other member |
| MakDuties.QueueStep | node/MAKNode.cpp:77-345 | The queue after any event, exactly: a request received or issued comes in, the sender's first goes at a RELEASE, the first of all at finishing |
| MakDuties.QueuedWasAsked | node/MAKNode.cpp:77-164 | Whatever is queued has been received or was issued by the node itself |
| MakDuties.IssueSends | node/MAKNode.cpp:77-98 | Issuing sends the request with the next number once to each other member and to nobody else, one control message each, and takes the own vote |
| MakDuties.RequestAnswered | node/MAKNode.cpp:132-164 | Every request is answered by exactly one message: LOCK by a free node or over an own request that goes later, else FAIL if another request goes first, else INQUIRE to the vote's holder |
| MakDuties.AnswerKeepsVote | node/MAKNode.cpp:166-232 | LOCK, FAIL and INQUIRE leave the own vote where it is and send nothing but RELINQUISHes |
| MakDuties.RelinquishServes | node/MAKNode.cpp:234-240 | A RELINQUISH moves the vote to the first request of the queue and sends it one LOCK |
| MakDuties.FinishServes | node/MAKNode.cpp:292-345 | How often every packet is sent at finishing: one RELEASE to each other member, the next own request once to each of them with one control message each, or one LOCK to another node's next request |
| MakDuties.ControlPerRequest | node/MAKNode.cpp:90-97 | Every event logs one request control message per REQUEST it sends |
| MakBound.NextChangesVotes | node/MAKNode.cpp:77-345 | Any step whatever changes votes out less votes recorded by exactly 1 if it abandons a vote, and otherwise raises it by at most 1, and only when a client enters without a LOCK of the arbiter and with an answer of its own on record |
| MakBound.EveryRunIsBounded | node/MAKNode.cpp:77-345 | At every moment of every run, with RELINQUISH and losses, the votes of an arbiter that are out, and the nodes inside that ask for its vote, are at most those it records plus those it has abandoned plus the self-grants so far |
| MakBound.NextKeepsCharge | node/MAKNode.cpp:77-345 | Any step whatever raises votes out less votes recorded plus own votes by at most one for an abandoned vote and one for a self-grant |
| MakSystem.NextKeepsInv | node/MAKNode.cpp:77-345 | Every step keeps the node and packet invariants behind these statements |
| MakRelinquish.ExclusionIffOneRequester | node/MAKNode.cpp:77-345 | Over all runs, RELINQUISH included, requesters exclude one another if and only if at most one of them has another quorum member |
| MakRelinquish.TwoEnter | node/MAKNode.cpp:194-240 | Any two nodes with another quorum member, whatever their quorums, end up inside together in a run in which they alone ask and nothing is lost |
| MakRelinquish.OnlyAbleEnter | node/MAKNode.cpp:166-192 | In every run only requesters with another quorum member are ever inside |
| MakNode.MAKNode.SendRequest | node/MAKNode.cpp:77-98 | Queues the own request, overwrites `locked_for`, and sends one REQUEST and one control message per other member |
| MakNode.MAKNode.ReceiveRequest | node/MAKNode.cpp:132-164 | Grants, refuses or inquires exactly as the transition function that the run theorems are about |
| MakNode.MAKNode.ReceiveLocked | node/MAKNode.cpp:166-192 | Records the LOCK and enters on a full set of answers without refusal |
| MakNode.MAKNode.ReceiveInquiry | node/MAKNode.cpp:194-213 | Ignored inside; answered with RELINQUISH after a refusal; saved otherwise |
| MakNode.MAKNode.ReceiveFailed | node/MAKNode.cpp:215-232 | Records the refusal and sends one RELINQUISH per saved inquiry |
| MakNode.MAKNode.ReceiveRelinquish | node/MAKNode.cpp:234-240 | Votes for the first request in the queue, whoever sent it |
| MakNode.MAKNode.ReceiveRelease | node/MAKNode.cpp:242-270 | Erases the sender's first request and votes for the first one left, or for nobody |
| MakNode.MAKNode.FinishCriticalSection | node/MAKNode.cpp:292-345 | Resets the fields, erases the first queued request, releases all other members and votes for the next request |
| MakNode.MAKNode.ReceiveMessage | node/MAKNode.cpp:100-130 | A received text has the effect of the message it decodes to, and none if its type is unknown |
| MakNode.MAKNode.ReceiveText | node/MAKNode.cpp:100-130 | The text of a message has the effect of that message, whatever the unassigned fields hold |
| MakNode.MAKNode.Run | node/MAKNode.cpp:27-74 | The main loop does 60000 rounds of handling arrivals, counting down and issuing scheduled requests; then one number has been used per schedule entry, each entry's request has been sent to all other members, and every REQUEST sent has its control message |
| MakLoop.LoopIsHistory | node/MAKNode.cpp:43-71 | After any number of rounds the node is the history of all that has arrived, in order, with one request issued per schedule entry passed, and has sent and logged what that history sends and logs |
| MakLoop.ScheduleIsKept | node/MAKNode.cpp:64-69 | After any number of rounds, for every schedule entry passed, the request numbered by its rank has been sent to every other member, and the control messages count the REQUESTs sent |
| MakTimed.RunIsPunctual | node/MAKNode.cpp:43-71 | Entering and finishing strictly alternate, each finish comes exactly `CS_time` rounds after its entry, the countdown is positive only inside, and requests issued are the schedule entries passed |
| MakCodec.RoundTrip | node/MAKNode.cpp:383-421 | Every message decodes from its text to itself, for all integers; a short message leaves `seq` unassigned |
| MakCodec.Injective | node/MAKNode.cpp:383-400 | Different messages have different texts |
| MakCodec.Texts | node/Node.h:14-26 | The texts begin with 0, 1, 6, 7, 8 and 9 for REQUEST, RELEASE, LOCK, FAIL, INQUIRE and RELINQUISH |
| LakSafety.NextKeepsPotential | node/LAKNode.cpp:100-370 | Any step changes nodes with token or inside plus tokens under way by at most 0, except that a stray RELAY raises it by exactly 1 |
| LakSafety.InsideBoundedByStrays | node/LAKNode.cpp:257-273 | In every run, with TOKENs delivered as they are read, at most one node more is inside than stray RELAYs have been delivered |
| LakStray.OneStrayDefeatsExclusion | node/LAKNode.cpp:257-273 | One stray RELAY is enough: for any other node whose quorum starts with 1 there is a loss-free run with a single stray that ends with both inside |
| LakSafety.ConservationIffNoStray | node/LAKNode.cpp:170-288 | A run that loses no token, under way or to endless reading, has exactly one token at every moment if and only if no stray RELAY is delivered in it |
| LakSafety.StrayFreeExclusion | node/LAKNode.cpp:170-370 | Without stray RELAYs at most one node is inside and it has the token; a list is non-empty only inside; every TOKEN under way was sent empty or with its addressee's request first; without loss no token disappears |
| LakSafety.ArrivalOfToken | node/LAKNode.cpp:210-244 | In such runs the addressee of a TOKEN sends an empty one back if and only if another node's entry comes, as read, before all of its own; else it keeps the token, and enters unless the list is empty |
| LakHistory.EveryHistory | node/LAKNode.cpp:100-370 | After every history that never names holder 0: number, believed holder, token, critical section and waiting requests are what the reference definitions over the list of events say |
| LakDuties.EveryEventSends | node/LAKNode.cpp:100-370 | After every such history, the next event sends exactly the token and, of every letter, exactly the number due by those definitions, and calls `accessCS` exactly when asking with the token or taking one with the own request first |
| LakDuties.WordsAddUp | node/LAKNode.cpp:216-320 | Over every such history each other member has been sent one RELEASE per time the token was passed on, and per time it was taken as many RECEIVEs as there are other members |
| LakDuties.NumbersAreUsedOnce | node/LAKNode.cpp:100-138 | No number is used for two requests to one member, and all are below the next number |
| LakRuns.EveryRunRemembers | node/LAKNode.cpp:100-370 | In every run each node is what the reference definitions say of the deliveries to it |
| LakRuns.EveryStepSends | node/LAKNode.cpp:100-370 | In every run each step changes the network by what it takes and by exactly what is due from the node it is at |
| LakRuns.AskReaches | node/LAKNode.cpp:100-138 | In every run, asking without the token sends one more request, with the next number, to the holder last heard of if it is a member, and else to every other member |
| LakRuns.RequestIsAnswered | node/LAKNode.cpp:170-198 | In every run a request that reaches a node without the token is answered by one ACK if the node has forgotten the holder, and else by one RELAY to the holder last heard of |
| LakRuns.FinishPassesTheList | node/LAKNode.cpp:354-370 | In stray-free runs, leaving with requests waiting puts the only token under way to the sender of the first of them, with all requests that have come inside, and one RELEASE to each other member, and the node has neither any more; else the token stays |
| LakRuns.RequestTravels | node/LAKNode.cpp:170-180 | In stray-free runs a request that reaches a node inside waits there, whatever else happens, until the node leaves, and then travels with the token |
| LakReach.CanEnterAloneIff | node/LAKNode.cpp:100-273 | When nobody else asks, a node can enter in some run if and only if node 1 is in its quorum or in the quorum of a member whose id has one digit; then it can without loss and without stray RELAY |
| LakReach.GuidedEnters | node/LAKNode.cpp:100-273 | The run of a node that does not know the holder: broadcast request, RELAY, empty TOKEN, RECEIVE (or none), second request, TOKEN, entry |
| LakReading.BounceIff | node/LAKNode.cpp:226-229 | The list as read begins with another node's request if and only if some entry of another node, with its relay for its number if relayed, precedes all entries of the addressee |
| LakReading.AsReadIsTheReading | node/LAKNode.cpp:402-475 | What runs deliver is what decoding the printed TOKEN gives, or endless reading |
| LakSafety.NextKeepsIds | node/LAKNode.cpp:246-344 | Every step keeps all stored and travelling senders, addressees and relays real node ids, and `token_holder` -1 or a real id, so it is never 0 |
| LakExclusion.ExclusionIffAlone | node/LAKNode.cpp:31-45 | With node 1 in its own quorum, all runs keep at most one node inside if and only if no other quorum contains node 1 |
| LakNode.LAKNode.constructor | node/LAKNode.cpp:20-48 | Node 1 starts with the token, and nodes whose quorum starts with 1 know where it is |
| LakNode.LAKNode.SendRequest | node/LAKNode.cpp:100-138 | Enters with the token; otherwise asks the known holder, or all other members |
| LakNode.LAKNode.ReceiveRequest | node/LAKNode.cpp:170-198 | Lists, passes the token, acknowledges or relays exactly as the transition function that the run theorems are about |
| LakNode.LAKNode.ReceiveToken | node/LAKNode.cpp:210-244 | Keeps an empty token, bounces one that starts with another's request, enters on its own |
| LakNode.LAKNode.ReceiveRelay | node/LAKNode.cpp:257-273 | Lists the request inside and otherwise sends a token, held or not |
| LakNode.LAKNode.FinishCriticalSection | node/LAKNode.cpp:354-370 | Passes the token to the first listed request's sender and leaves |
| LakNode.LAKNode.SendReceives | node/LAKNode.cpp:216-221 | Every other member is told of the new holder once per other member |
| LakNode.LAKNode.Run | node/LAKNode.cpp:50-95 | The main loop does 60000 rounds of reading texts, counting down and asking as scheduled, or stops at a TOKEN that is never read to its end; then one request has been counted and logged per schedule entry |
| LakTimed.RunIsPunctual | node/LAKNode.cpp:66-92 | Every finish message follows an enter message exactly `CS_time` rounds later with no other in between, and a node inside entered last, at most `CS_time` rounds ago |
| LakLoop.LoopIsHistory | node/LAKNode.cpp:66-92 | After any number of rounds the node is the history of all that its texts amount to, in order, having asked once per schedule entry passed, and has sent, logged and counted what that history does |
| LakNode.LAKNode.ReceiveText | node/LAKNode.cpp:140-168 | A received text has the effect of what it decodes to, none if its type is unknown, and it is reported when decoding would not end |
| LakCodec.StringMessage | node/LAKNode.cpp:402-475 | Decoding, with the loop over a TOKEN's entries, computes the specified reading of every text |
| LakCodec.ReadList | node/LAKNode.cpp:439-462 | The entry loop ends exactly on the texts on which repeated passes reach at most one character, and then has inserted what the passes read |
| LakCodec.TokenStopsIffOneDigit | node/LAKNode.cpp:432-462 | On a printed TOKEN the loop ends if and only if the last printed number has one digit; then all entries come back in order, relayed ones with `seq` replaced by the relay |
| LakCodec.TokenReading | node/LAKNode.cpp:402-462 | A printed TOKEN is read with its header and the set of returning entries, or without end |
| LakCodec.RequestTokenIsTheSame | node/LAKNode.cpp:386-462 | A TOKEN with a list of requests whose last number has one digit is read back as it was sent |
| LakCodec.RoundTrip | node/LAKNode.cpp:372-437 | REQUEST, RELAY and the short messages decode from their texts to themselves, for all integers |
| LakCodec.FlatTexts | node/Node.h:14-26 | The texts begin with 0, 1, 2, 3 and 4 for REQUEST, RELEASE, RECEIVE, ACK and RELAY |
| LakCodec.TokenTexts | node/LAKNode.cpp:386-393 | A TOKEN's text begins with 5, and one entry more adds a space and the entry's text |
| LakReading.SortedAscends | node/LAKNode.cpp:388-391 | Entries are printed in the order of their keys, each once |
| TextLoop.ParseIsTheLoop | node/LAKNode.cpp:439-462 | For any consuming loop body the recursive reading exists exactly when the loop ends and lists what its passes read |
| Text.RestShrinks | node/LAKNode.cpp:407 | Cutting at the first space shortens a text that has one and leaves any other as it is, because `npos + 1` is 0 |
| Text.AtoiPrint | node/LAKNode.cpp:378-379 | `atoi` gives back every printed integer |
| Text.Decimal | node/LAKNode.cpp:378-379 | Printing is decimal notation |
| Frame.Send | node/NodeNetwork.cpp:95-101 | The buffer is the two id bytes, the eight time bytes and 1014 bytes from where the text starts |
| Frame.Accept | node/NodeNetwork.cpp:390-417 | The bytes are taken for START, for END, or decoded into ids, time and text, and the text is handed to the node if and only if the frame is addressed to it |
| Frame.TakenForControlIff | node/NodeNetwork.cpp:394-399 | A frame is taken for START or END exactly when its header spells it, whatever its text |
| Frame.FrameArrives | node/NodeNetwork.cpp:95-101 | Every other frame arrives with the low id bytes, the time and the first 1014 bytes of the text, whatever followed it in memory |
| Frame.NodeToNode | node/NodeNetwork.cpp:394-417 | Between node ids every text that fits is handed unchanged to its addressee, to no other node, and is no control word |
| Delivery.MakMessageArrives | node/NodeNetwork.cpp:95-101 | A voting message printed, framed, received and read is the message sent, at its addressee and nowhere else |
| Delivery.LakMessageArrives | node/NodeNetwork.cpp:95-101 | So is every message of the token algorithm but the TOKEN |
| Grid.QuorumAssignment | testbed.cpp:320-399 | The loops over the matrix return the specified list of quorums, for every integer |
| Grid.SideIsLeast | testbed.cpp:326-328 | The side is the least positive integer whose square is at least the number of nodes |
| GridQuorums.MemberIff | testbed.cpp:356-385 | A quorum holds exactly the nodes in its owner's row or column |
| GridQuorums.GridShape | testbed.cpp:326-390 | One quorum a node in order of ids; each holds its owner, repeats nobody and has row length plus column height less one members, at most 2K - 1 |
| GridQuorums.MembersInOrder | testbed.cpp:356-385 | A quorum lists its owner's row from left to right and then the rest of the column downwards |
| GridQuorums.GridIntersection | testbed.cpp:326-390 | Any two quorums share a member, also on grids with partial or empty rows |
| GridQuorums.Symmetric | testbed.cpp:356-390 | A node is in another's quorum if and only if the other is in its own |
| GridQuorums.Load | testbed.cpp:356-390 | A node is in as many quorums as its own has members |
| GridExclusion.ScatteredRequestersExclude | testbed.cpp:320-399 | On the grid, requesters in pairwise distinct rows and columns are never inside together in a RELINQUISH-free run |
| GridExclusion.GridExclusionIff | testbed.cpp:320-399 | On the grid, requesters exclude in all RELINQUISH-free runs if and only if every two leave a place on both their lines to a non-requester |
| GridExclusion.AllRequestersDoNotExclude | testbed.cpp:320-399 | With two nodes or more and everybody issuing requests, some RELINQUISH-free run has two nodes inside |
| GridExclusion.GridExclusionIffOneRequester | testbed.cpp:320-399 | On the grid, over all runs with RELINQUISH, requesters exclude if and only if there is at most one |
| GridExclusion.TokenGridExclusionIff | testbed.cpp:320-399 | On the grid the token algorithm excludes in all runs if and only if there is one node |
| GridReach.GridEntersIff | testbed.cpp:320-399 | On the grid, when nobody else asks, the token algorithm can let a node in if and only if it is in the first row or in one of the first nine columns |
| GridReach.EveryNodeEntersIff | testbed.cpp:320-399 | So every node can enter in some run in which it alone asks if and only if there are at most 81 nodes |
| Hosts.FillTable | testbed.cpp:403-419 | The loop stays in bounds and fills `trans[k]` with k + (k - 1) / 4 |
| Hosts.HostsAreTheNodeMachines | testbed.cpp:403-419 | Translation is increasing and one to one between 1..36 and the machines below 45 that have no switch |
| Hosts.WriteQuorums | testbed.cpp:427-449 | The loops write each translated quorum to its owner's machine file |
| Hosts.ContactServers | testbed.cpp:212-265 | The machines 1 to the last node's are contacted, then its switch |
| Hosts.ContactsAreTheNeeded | testbed.cpp:212-265 | Contacted are exactly the nodes' machines and the switches they connect to (node/NodeNetwork.cpp, line 67), each once |
| Deployed.AllTranslatable | testbed.cpp:403-449 | For up to 36 nodes every id and member of the builder's quorums is within the table |
| Deployed.DeployedIntersection | testbed.cpp:427-449 | Quorums read from the files intersect and are symmetric |
| Deployed.DeployedExclusionIff | testbed.cpp:320-449 | On the quorum files, machines of given nodes exclude in all RELINQUISH-free runs if and only if every two leave a common place to another node |
| Deployed.DeployedExclusionIffOneRequester | testbed.cpp:320-449 | On the quorum files, over all runs, if and only if there is at most one requester |
| Overlap.GetConflict | testbed.cpp:471-500 | The two cursors report a conflict if and only if some section is hit by a later one |
| Overlap.ReportIff | testbed.cpp:471-500 | A conflict is reported if and only if some finished section overlaps a later one that does not enclose it; sections never entered cause none, and one never finished is noticed only as the later one |
| Overlap.EnclosedIsMissed | testbed.cpp:482-483 | An enclosed section is missed when it comes first; when it comes second it is reported if the enclosing one has finished |
| Overlap.EqualLengthsReportIff | testbed.cpp:482-483 | When all sections last equally long, exactly the overlaps of coinciding sections are missed |

## Left out

- LakSafety.NextKeepsIds: asks that node ids are positive and quorum members are nodes, as the files provide.
- Hosts.ContactServers: takes a natural number, because the original loop does not end for a negative one.
- Overlap.ReportIff: asks that a section that has both times ends after it starts, as the clocks of the nodes give it.
- Frame.Send: takes at least 1014 readable bytes from the text on, which is what the original copies however short the text is.
- Sockets, threads, locks, sleeping, host names, logging and the switch program: the switch is the network that delays, reorders and drops.
- Configuration, schedule, quorum-file and log parsing: quorums, schedules and section lists are inputs. Writing the config files is not modelled either.
- Wait and run time statistics and debug printing: no effect on the protocols.
- `acked_node` and `expt_resp` of the token node: they only lead to a printed warning.
- Clocks in runs: a run of all nodes lets a node issue a request or leave at any time; only the main loops of single nodes count time.
- Liveness: the handlers drop pending requests (a received list of requests is never stored), so no request is sure to be served; it is stated who can be served at all.
- LakHistory.EveryHistory: asks that the recorded holder is never 0, which holds in every run, because a text from outside could name a node 0.
- Integer overflow: sequence numbers, ids and clocks are unbounded; only the frame's bytes have their width.
- The list cells of the overlap check have only the fields that it reads.
- The matrix of the quorum builder is one two-dimensional array, not an array of rows.
- Iteration over a `std::set` of ids takes the ids in any order; only bags of messages are compared.
- dumpswitch, listenserver and older socket code: superseded, with another frame layout.

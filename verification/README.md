# Utu, verified

Utu is a small encrypted message hub. This project models the parts of it that carry the hard
invariants, from the bytes of a message to the life of a connection, and proves what those parts
promise each other:

- **Stackish** (`Scanner`, `Stackish`, `RoundTrip`, `Nodes`, `ParserObject`, `Printer`, `Destroy`, `Format`,
  `NodeFormat`, `Ruby`): the table-driven scanner, the tree it links up while reading, the canonical
  printer, the two format-string interpreters, the explicit-stack traversal, and the Ruby twin.
- **Frames and the sealed channel** (`Frames`, `Messages`, `Headers`, `Handshake`, `Channel`, `Conversation`,
  `Hate`): length-prefixed frames, the header that numbers a message, the four-message key transport
  (mechanism 6 of ISO/IEC 11770-3), the nonce counters that must stay in step afterwards, two peers talking in
  both directions at once, and hate challenges. CCM (section 6 of NIST SP 800-38C) is an abstract pair of
  functions that undo each other under the same key, nonce and header.
- **The hub** (`Heaps`, `Routing`, `Queues`, `Connections`, `Lives`, `Delivery`, `Offices`, `Postings`, `Ids`): the
  sorted array, the trie of routes and the two-way relation between routes and members, ring queues that share
  reference-counted messages, the connection state chart with its aborts, its two tasks, its two-stage close and its
  free list, the life of a connection from its opening to its second close, delivery from a route into the queues, the
  connections and the queues running together, what every kind of message does there, and message numbers.
- **bstrlib** (`Bstring`, `Splitter`): in-place find/replace with its three strategies, and the stream splitter
  that must agree with the in-memory one.
- **The mendicant** (`Relay`): the select-driven relay.

`Bytes` and `Counting` hold shared definitions. Code that updates things in place is modelled by classes,
arrays and loops proved against specification functions; the theorems are about those functions and about
the invariants every method keeps. `dafny verify dfyconfig.toml` checks everything.

Results where the code does not do what its documentation or its other half suggests are stated as such,
each with the exact condition under which the promise holds:

- the canonical text of a well-formed group parses back to it exactly when its root is named by a word
  (`RoundTrip.CanonicalRoundTrip`);
- `Node_decons` undoes `Node_cons` exactly when no group of the format is empty (`Format.DeconsUndoesCons`);
- a route that was just extended is found again exactly when the node has at most 30 children
  (`Routing.Table.ExtendThenFind`, `Routing.LoseRoute`), because the two functions count different things;
- `bssplitscb` with no separator characters ends exactly when the stream is empty
  (`Splitter.ReadRounds`), although its comment promises one call with the whole stream;
- a frame's length arrives exactly when it is below 2^16 (`Frames.LengthField`);
- readn returns its bytes exactly when no read on the way is interrupted or fails; one signal sets `errno` and
  the process stops at readn's own assertion, although every byte is there (`Frames.WholeMeans`,
  `Frames.OneSignal`);
- what `CryptState_decrypt_node` returns was sealed under our key, counter and header whenever the packet is
  named "env" and holds two strings (`Handshake.AcceptedMeans`); a packet is returned under two different
  settings of key, counter and header exactly when it holds two blobs, has another name, and the second blob
  reads as a document (`Handshake.AcceptedAnyway`, `Handshake.MisnamedIsAccepted`);
- after a queued message is announced without an error there is a member to send it to exactly when the
  connection was idle; a message the hub cannot decode, followed by one for its sender, leads from a fresh
  connection to the missing member (`Connections.QueuedMember`, `Connections.AbortedSend`);
- a message stops the hub at an assertion exactly when its number is right and it asks to register a route
  without a name on a short enough path (`Connections.Hub.Exec`);
- the order by address that the hub's lists of members and routes rely on is one exactly as far as the last 32
  bits of a distance have its sign; addresses further apart can go round in a circle
  (`Heaps.PointerOrder`, `Heaps.PointerCycle`);
- a hate answer is accepted exactly when no smaller value collides with the hidden one, and at level 0 none
  is ever found (`Hate.Play`);
- a client's number arrives exactly while it is below 2^64; at 2^64 the mendicant finds no body and its relay
  ends, so that the hub never compares it, while the client itself is out of sync from the hub's message 2^64 on
  (`Headers.PushedArrives`, `Ids.RunOutcome`);
- find/replace gives the one-pass replacement also when its arguments are parts of the buffer, except that a
  longer replacement from in front of the position is read from memory already given up when the buffer has to
  move (`Bstring.Buffer.FindReplace`).

## Model

| member | source | states |
|---|---|---|
| Scanner.TablesAscend | src/stackish/stackish.c:113-190 | the keys of every state's table ascend without overlap, as bisection needs |
| Scanner.SingleKeyMeansGrammar | src/stackish/stackish.rl:107-160 | a single-character key leads where the token grammar leads, with the same actions |
| Scanner.RangeKeyMeansGrammar | src/stackish/stackish.rl:107-160 | so does a range key, for every character in the range that no single key takes |
| Scanner.NoKeyMeansGrammar | src/stackish/stackish.rl:107-160 | and so does the default entry, for every character no key covers |
| Scanner.FindSingle | src/stackish/stackish.c:223-247 | bisection over the single keys finds the grammar's move or shows that no key matches |
| Scanner.FindRange | src/stackish/stackish.c:249-270 | the same for the range keys |
| Scanner.Lookup | src/stackish/stackish.c:223-275 | the two searches together compute the grammar's transition for every state and byte |
| Nodes.Builder.Push | src/stackish/node.c:140-167 | a leaf is linked in front of the current group's children; the links stay well formed and the tree is the specification's |
| Nodes.Builder.Start | src/stackish/stackish.c:90-104 | a new group becomes root or youngest child, and current; nothing else moves |
| Nodes.Builder.Close | src/stackish/stackish.c:40-67 | the current group takes (or loses) its name and current moves up, or the document is done |
| Nodes.Builder.NameNewest | src/stackish/stackish.c:76-87 | an attribute names the youngest child only |
| Nodes.WholeIsLinked | src/stackish/stackish.c:40-104 | whatever groups are open, the links above them make one well-linked document that holds the specified tree |
| ParserObject.StackishParser.HandlePush | src/stackish/stackish.c:21-36 | a value is added under an open group and refused otherwise |
| ParserObject.StackishParser.HandleWord | src/stackish/stackish.c:40-73 | a word or bracket closes the current group; only the root's stops the scan |
| ParserObject.StackishParser.Do | src/stackish/stackish.c:276-345 | every action does to the linked nodes what its specification does to the tree, with the same break or crash |
| ParserObject.StackishParser.Execute | src/stackish/stackish.c:209-355 | the scanning loop over linked nodes ends in the state, at the position, that the specification run does |
| ParserObject.StackishParser.ParseSeq | src/stackish/node.c:417-452 | scan, jump over blobs, resume: the linked nodes hold the specified tree and `from` is where the specification says, on success, failure and abort |
| RoundTrip.ParseDocument | src/stackish/node.c:417-452 | anywhere in a buffer, the print of a document parses to exactly that tree and `from` ends behind it and its newlines |
| RoundTrip.ParseBracketedRoot | src/stackish/stackish.c:40-73 | a root closed by a bracket loses its attribute name and leaves its last separator unread |
| RoundTrip.CanonicalRoundTrip | src/stackish/node.c:45-114 | parsing the canonical text gives back the tree with everything read, if and only if the root is named by a word |
| RoundTrip.LeafText | src/stackish/node.c:84-96 | the bytes of a number, a string and a blob, behind those of the older siblings |
| RoundTrip.GroupText | src/stackish/node.c:61-114 | those of a group: bracket, children, then the word that names it or a bracket |
| RoundTrip.AttrText | src/stackish/node.c:110-113 | an attribute goes behind what it names |
| RoundTrip.ParseNext | src/stackish/node.c:441-446 | documents written one after the other are read one after the other |
| RoundTrip.ParseManyRoundTrip | src/stackish/node.c:417-452 | any number of documents in one buffer come back in order |
| Printer.CatBstr | src/stackish/node.c:61-114 | the recursive printer on linked nodes appends the specified text of the whole chain |
| Printer.Bstr | src/stackish/node.c:45-59 | and a root's text ends with a newline |
| Printer.PrintThenParse | src/stackish/node.c:408-415 | nodes printed and parsed come back as new nodes that hold the same tree, with the whole text read |
| Destroy.PostorderListsOnce | src/stackish/node_algo.h:15-57 | recursive postorder lists every node of a well-linked tree once |
| Destroy.Follow | src/stackish/node_algo.h:33-35 | the only reads of a node's links, each on a node the command has not run on |
| Destroy.Walker.PushDown | src/stackish/node_algo.h:30-43 | descending keeps the stack in step with the traversal, or the tree has a path of 128 nodes |
| Destroy.Walker.Climb | src/stackish/node_algo.h:44-56 | climbing visits exactly the finished nodes and stops at the next right subtree |
| Destroy.NodeDestroy | src/stackish/node.c:116-133 | the traversal visits every node exactly once in recursive postorder, and gives up if and only if some path has 128 nodes |
| Format.ConsMakesShape | src/stackish/node.c:189-276 | for every format and its arguments, the interpreter builds the tree the format describes |
| Format.FirstRootStays | src/stackish/node.c:202-207 | once a root is closed, nothing a format builds after it can become the result |
| Format.DeconsUndoesCons | src/stackish/node.c:286-387 | the group-wise reversed format returns the arguments in reverse, at any nesting, if and only if no group is empty |
| Format.DotSkips | src/stackish/node.c:286-387 | `.` passes over a node, and stays on the last |
| NodeFormat.NodeCons | src/stackish/node.c:189-276 | the loop over format characters on linked nodes makes what the specification makes, and fails or aborts where it does |
| NodeFormat.NodeDecons | src/stackish/node.c:286-387 | walking the links takes out what the specification takes out, on every well-linked tree and every format, and on a mismatch leaves the outputs written before it |
| Ruby.EmitterAgrees | src/lang/ruby/utuclient/lib/utu/stackish.rb:295-321 | the Ruby emitter and the C printer produce the same bytes for every well-formed float-free tree |
| Ruby.ParserAgrees | src/lang/ruby/utuclient/lib/utu/stackish.rb:177-202 | on newline-free strings Ruby's two-stack parser and C's linked parser rebuild the same tree from those bytes |
| Ruby.StackishParser.Group | src/lang/ruby/utuclient/lib/utu/stackish.rb:218-291 | a closing token collapses the stack down to the last mark, or raises when there is none |
| Ruby.StackishParser.ProcessText | src/lang/ruby/utuclient/lib/utu/stackish.rb:177-202 | the token loop on the two stacks computes the specified result for every string |
| Bytes.DecimalRoundTrip | src/stackish/node.c:454-483 | the decimal text of a number is digits only and reads back as that number |
| Bytes.PlaceValue | src/stackish/node.c:467 | a digit counts as many powers of ten as there are digits behind it: the first is the highest |
| Bytes.NoLeadingZero | src/stackish/node.c:93 | a number is written with a leading zero if and only if it is zero |
| Bytes.DecimalIsUnique | src/stackish/node.c:93 | every text of digits without one is the text of its value |
| Frames.LengthField | src/protocol/frame.c:90-110 | the two length bytes carry the length modulo 2^16, hence the length if and only if it is below 2^16 |
| Frames.NetworkOrder | src/protocol/frame.c:63-128 | the length comes first, its high byte before its low one, and is read the same way |
| Frames.TakeFrameUndoesWire | src/protocol/frame.c:63-76 | a frame on the wire is taken off again whole, with the rest untouched |
| Frames.UnpackUndoesPack | src/protocol/frame.c:76-87 | a header and a body, each with or without its newline, come apart into the same trees and the byte-exact header, nothing left over |
| Frames.UnpackLoneDocument | src/protocol/frame.c:76-87 | a message sent without a header arrives as a header without a body |
| Frames.SendThenRecv | src/protocol/frame.c:49-128 | FrameSource_send then FrameSource_recv give back header and body, for every total length below 2^16 |
| Frames.Socket.ReadN | src/client/io.c:9-37 | readn takes exactly the next bytes for every pattern of short, interrupted and failing reads, and stops the process exactly when it has them all but errno is set |
| Frames.WholeMeans | src/client/io.c:19-36 | it returns with all bytes if and only if they are there, errno was clear, and no read on the way is interrupted or fails |
| Frames.Socket.ReadFrame | src/client/io.c:40-67 | a frame is returned if and only if it is complete and both its reads go smoothly; the process stops exactly at a signal or a zero length |
| Frames.Socket.ReadFrames | src/client/io.c:40-67 | every frame the peer wrote is recovered in order if and only if no read on the way is interrupted or fails, otherwise a proper prefix |
| Frames.OneSignal | src/client/io.c:24-35 | one signal while a complete frame is read stops the process |
| Messages.MessageFields | src/stackish/node.c:189-387 | every flat message the protocol builds with one format is read back with the reversed one |
| Messages.FlatReading | src/stackish/node.c:286-387 | Node_decons with the format of a flat message succeeds if and only if the message has that name and its newest fields are of the kinds asked for, and hands exactly these out |
| Messages.MessagePrints | src/stackish/node.c:61-114 | such a message is a document that survives the wire, and no blob in it is longer than its text |
| Headers.HeaderText | src/lang/ruby/utuclient/lib/utu/client.rb:126 | the text of the client's header, for every number |
| Headers.NumberTooBig | src/stackish/node.c:454-483 | a number of 2^64 or more stops the scanner behind it with nothing added |
| Headers.PushedArrives | src/client/io.c:69-87 | the mendicant reads the client's header and body back if and only if the number is below 2^64; otherwise it has no body |
| Headers.NumberArrives | src/protocol/message.c:42-65 | Message_decons finds the client's number in that header |
| Headers.PulledArrives | src/lang/ruby/utuclient/lib/utu/client.rb:133-141 | and the client finds the hub's number in the hub's |
| Handshake.UnsealedUndoesSealed | src/protocol/crypto.c:522-625 | a sealed payload opens to the same tree under the same key, nonce and header |
| Handshake.SealedArrives | src/protocol/peer.c:141-183 | through the bytes of a frame that fits, header and sealed payload arrive unchanged and open |
| Handshake.HelloArrives | src/protocol/peer.c:58-61 | the receiver's first message arrives as a header without a body |
| Handshake.IdentStep | src/protocol/crypto.c:291-320 | what the receiver's step makes of an honest second message |
| Handshake.ReplyStep | src/protocol/crypto.c:435-465 | what the initiator's step makes of an honest third message |
| Handshake.FinalStep | src/protocol/crypto.c:358-385 | what the receiver's last step makes of an honest fourth message |
| Handshake.DoneMeans | src/protocol/crypto.c:358-385 | for every header and packet: the receiver ends the handshake if and only if the packet opens to a last message whose nonce is the one its counter stood at (or, for a packet that was never sealed, the one before); otherwise all keys stay |
| Handshake.FinalNonce | src/protocol/crypto.c:376-377 | of the sealed last messages, for every nonce, only the one with the receiver's own is accepted |
| Handshake.SharedKeyMeans | src/protocol/crypto.c:231-268 | keys are agreed if and only if the header has the right form and its key is confirmed; then the secret is the one agreed with that key |
| Handshake.ReceiverMeans | src/protocol/crypto.c:291-320 | for every header and packet: the receiver goes on if and only if the key is confirmed and the packet opens, under the secret agreed with it, to an identity, which is then what it knows of the other side |
| Handshake.InitiatorMeans | src/protocol/crypto.c:435-465 | for every header and packet: the initiator goes on if and only if the packet opens to a reply; whether its nonce came back is compared and makes no difference |
| Handshake.CryptState.EncryptNode | src/protocol/crypto.c:522-569 | seals under the peer's counter, which then advances |
| Handshake.CryptState.DecryptNode | src/protocol/crypto.c:572-625 | what is returned, and our counter, which advances exactly for a packet of two blobs named "env", even when the tag is wrong |
| Handshake.EnvelopeReading | src/protocol/crypto.c:584-585 | a packet with its two blobs is a sealing if and only if it is named "env"; under any other name its second string is taken as it is |
| Handshake.AcceptedMeans | src/protocol/crypto.c:572-625 | a node returned for a packet named "env" that holds two strings was sealed under our key, counter and header |
| Handshake.SealingIsBound | src/protocol/crypto.c:587-599 | such a packet is not accepted under a second key, counter or header |
| Handshake.AcceptedAnyway | src/protocol/crypto.c:584-604 | a packet is accepted under two different settings of key, counter and header if and only if it holds two blobs, is not named "env", and the second blob reads as a document |
| Handshake.MisnamedIsAccepted | src/protocol/crypto.c:584-604 | any document in two blobs under another name is returned as it stands, whatever the key, the counter and the header |
| Handshake.CryptState.CreateSharedKey | src/protocol/crypto.c:231-268 | takes the peer's key (and nonce) from the header, asks for confirmation, agrees on the secret; an unreadable header leaves the nonce as far as it was read |
| Handshake.CryptState.FinalizeSession | src/protocol/crypto.c:497-519 | session keys become working keys; both session keys and the shared secret are wiped |
| Handshake.CryptState.ReceiverStart | src/protocol/crypto.c:272-286 | the first message carries the fresh nonce and the public key |
| Handshake.CryptState.InitiatorStart | src/protocol/crypto.c:389-431 | the answer carries the initiator's key in clear and name, session and nonce sealed under the received nonce |
| Handshake.CryptState.ReceiverProcess | src/protocol/crypto.c:291-320 | accepts exactly what parses, is confirmed, decrypts and reads; the whole state afterwards, also when it fails on the way |
| Handshake.CryptState.ReceiverSendFinal | src/protocol/crypto.c:324-354 | both nonces go back sealed under the initiator's nonce |
| Handshake.CryptState.InitiatorProcess | src/protocol/crypto.c:435-465 | takes the receiver's identity as far as it reads and compares the returned nonce; as in the source, the result does not depend on the comparison |
| Handshake.CryptState.InitiatorSendFinal | src/protocol/crypto.c:469-494 | returns the receiver's nonce and switches to the session keys |
| Handshake.CryptState.ReceiverDone | src/protocol/crypto.c:358-385 | does what the specification of the step says, of which `Handshake.DoneMeans` and `Handshake.FinalNonce` say which nonce is accepted; the session keys are switched to only then |
| Handshake.Introduce | src/protocol/peer.c:49-118 | on honest states the first two frames are exactly the specified ones, up to the first that a refused key or a length of 2^16 stops; after both, the two sides hold the same secret and the receiver knows the initiator |
| Handshake.Conclude | src/protocol/peer.c:75-138 | the last two frames, likewise; after them both nonces match and the session keys are crosswise equal |
| Handshake.Establish | src/protocol/peer.c:49-138 | every honest run sends exactly the four specified frames up to the first it cannot pass, with the outcome that goes with it; after all four both checks have passed, keys are crosswise and counters in step |
| Handshake.HonestOutcome | src/protocol/peer.c:49-138 | a run is established if and only if both keys are confirmed and none of the four frames is too long |
| Handshake.CryptState.PeerSend | src/protocol/peer.c:163-183 | seals the payload under the peer's session key and counter |
| Handshake.CryptState.PeerRecv | src/protocol/peer.c:141-161 | what a frame's body gives under our own session key and counter, and when that counter advances |
| Handshake.Converse | src/protocol/peer.c:141-183 | after the handshake messages arrive as sent, through the bytes of their frames, up to and excluding exactly the first whose frame is too long, and the two sides stay in agreement |
| Conversation.SendFrame | src/protocol/peer.c:163-183 | Peer_send on a state is a send of the channel and adds the bytes of its packet to those in flight, and it fails if and only if that frame is too long |
| Conversation.RecvFrame | src/protocol/peer.c:141-161 | Peer_recv on a state, from the oldest frame's bytes, is a receive of the channel and returns the payload sent |
| Conversation.Talk | src/protocol/peer.c:141-183 | for every interleaving of both directions on the two states, with frames in flight: states and frames are those of the channel's run, each side has received a prefix of what the other sent, and the rest is in flight; it stops exactly at the first step that sends an oversize frame |
| Conversation.Meet | src/protocol/peer.c:49-183 | the same, started by the handshake with exactly its frames and its outcome, on the keys and counters the handshake leaves |
| Channel.AdvanceInc | src/protocol/crypto.h:174 | incrementing commutes with advancing, through the wrap of each half |
| Channel.BothHalvesCount | src/protocol/crypto.h:174 | after k packets each half of the counter is k further, modulo 2^64 |
| Channel.NonceRepeats | src/protocol/crypto.h:170-174 | a counter shows a value again exactly after a multiple of 2^64 packets |
| Channel.SendKeepsSkew | src/protocol/crypto.c:522-569 | sending keeps the distance between the counters, and the k-th packet in flight sealed k steps ahead of the receiver |
| Channel.RecvKeepsSkew | src/protocol/crypto.c:572-605 | so does receiving, whether the tag matches or not |
| Channel.RecvOpens | src/protocol/crypto.c:572-605 | the oldest packet opens to its payload if and only if the counters agree modulo 2^64 |
| Channel.ChannelStaysInStep | src/protocol/peer.c:141-183 | for every interleaving over both directions, every packet in flight is sealed for its turn and every packet received opened to its payload, in order |
| Channel.CounterCountsPackets | src/protocol/crypto.c:522-545 | in every run a direction's counter moves on by exactly the packets sent in it |
| Channel.NeverReusesNonce | src/protocol/crypto.h:170-174 | in every run no direction seals under the same nonce again with fewer than 2^64 packets in between |
| Channel.DriftIsForever | src/protocol/crypto.c:572-605 | counters that have drifted apart never recover: every later packet is refused |
| Hate.BoundCoversRange | src/protocol/crypto.c:799-852 | level << (level+1) covers 1 << (level+1) exactly from level 1 on, without wrapping up to level 30 |
| Hate.RangeDoubles | src/protocol/crypto.c:799-852 | every level doubles what there is to search, from 2 |
| Hate.SearchFinds | src/protocol/crypto.c:854-865 | the search finds a value no larger than the hidden one, and the hidden one if and only if nothing smaller collides |
| Hate.Generate | src/protocol/crypto.c:789-821 | the hidden half is the random one modulo the level's range and the challenge carries its hash |
| Hate.AnswerChallenge | src/protocol/crypto.c:823-872 | the counting loop returns the least match below its bound, for every challenge node |
| Hate.Play | src/protocol/crypto.c:789-897 | at an allowed level from 1 to 30 the challenge is always answered, and accepted exactly without a smaller collision |
| Hate.InjectiveAlwaysAccepted | src/protocol/crypto.c:874-897 | with an injective hash there is no such collision |
| Heaps.CmpSwaps | src/myriad/bstring/bstrlib.c:789-807 | swapping bstrcmp's arguments negates its result |
| Heaps.CmpChains | src/myriad/bstring/bstrlib.c:789-807 | bstrcmp is transitive, on all byte strings |
| Heaps.CmpZero | src/myriad/bstring/bstrlib.c:789-807 | zero exactly on strings equal up to their first NUL, so exactly on equal ones when neither has any |
| Heaps.CmpDecides | src/myriad/bstring/bstrlib.c:789-807 | behind a common start the first difference decides, by the bytes as signed characters; a string that goes on where the other ends is the greater |
| Heaps.Bstrcmp | src/myriad/bstring/bstrlib.c:789-807 | the comparison loop computes that order |
| Heaps.PointerOrder | src/hub/heap.c:24-27 | comparing pointers as an int tells which is lower if and only if the last 32 bits of their distance have its sign, so within 2^31 bytes |
| Heaps.PointerCycle | src/hub/heap.c:24-27 | three addresses further apart that are each lower than the next, around in a circle |
| Heaps.SortSorts | src/hub/heap.c:45-47 | the sort gives a sorted permutation |
| Heaps.Search | src/hub/heap.c:83-109 | bisection returns an equal element if and only if there is one |
| Heaps.Heap.Resize | src/hub/heap.c:67-81 | growing or shrinking keeps every live element and clears the rest |
| Heaps.Heap.Sort | src/hub/heap.c:45-47 | sorts the live part in place and touches nothing behind it |
| Heaps.Heap.Add | src/hub/heap.c:49-65 | one element more, still sorted, doubling when full |
| Heaps.Heap.Find | src/hub/heap.c:83-109 | an index of an equal element if and only if one is present |
| Heaps.Heap.Delete | src/hub/heap.c:111-136 | one equal element less if there was any, otherwise nothing changes; still sorted, shrinking when half empty |
| Heaps.Heap.Replay | src/hub/heap.c:49-136 | any run of adds and deletes leaves a sorted permutation of the abstract multiset |
| Routing.FindChild | src/hub/routing.c:52-66 | the child with the name, if and only if there is one |
| Routing.BuildPath | src/hub/routing.c:109-123 | the path of a node, or nothing if a child comes when 30 elements are taken; which children count is `Routing.ElementsAre` |
| Routing.ElementsAre | src/hub/routing.c:119-121 | a path's elements are the names of exactly those children that are groups named by something other than an attribute, in their order |
| Routing.PathOfNode | src/hub/routing.c:109-123 | every path of plain names is the path of the node made for it, which fits if and only if it has at most 30 names |
| Routing.ConsPath | src/hub/commands.c:231 | the nodes the hub registers its own routes with are such nodes |
| Routing.Separate | src/hub/routing.c:109-127 | on every table two paths lead to one route if and only if they are the same |
| Routing.GrowTrie | src/hub/routing.c:10-28 | adding a route keeps the trie: prefix-closed, one object per path, children sorted by distinct names |
| Routing.PrefixClosed | src/hub/routing.c:68-91 | every prefix of a path in the table is in the table |
| Routing.NoTwins | src/hub/routing.c:68-91 | no parent has two children with the same name |
| Routing.Table.AddPath | src/hub/routing.c:68-91 | after adding a path the table has the old routes, unchanged, and the path's prefixes |
| Routing.Table.Extend | src/hub/routing.c:109-127 | extension returns the path's route, and the table is exactly the prefixes of the paths ever extended |
| Routing.Table.Find | src/hub/routing.c:178-193 | lookup returns the path's route if the path is in the table and the node has at most 30 children, otherwise NULL |
| Routing.Table.Resolve | src/hub/routing.c:178-193 | lookups succeed exactly on nonempty prefixes of paths ever extended, always with the same object |
| Routing.Table.ExtendThenFind | src/hub/routing.c:109-193 | an extended route is found again if and only if the node has at most 30 children |
| Routing.LostRoute | src/hub/routing.c:187 | a node with 31 children that fits the one count and not the other |
| Routing.LoseRoute | src/hub/routing.c:109-193 | on every table that node's route is made and then not found |
| Routing.Table.AddMember | src/hub/routing.c:93-107 | one registration more on both sides, unless the route is internal; both lists stay in the order of the addresses |
| Routing.DeleteIsMinus | src/hub/heap.c:111-136 | whichever of the equal entries bisection finds, deleting it takes one registration out and keeps the others in order |
| Routing.DeleteByAddress | src/hub/heap.c:111-136 | searching by address and deleting at the index found takes exactly one registration of that object out, if there is any |
| Routing.Table.Register | src/hub/routing.c:129-136 | the path is extended, and the member is added to its route, exactly when that is not internal; what becomes of the whole table; a short path without a name stops the process |
| Routing.Table.RegisterCallback | src/hub/routing.c:138-148 | the path is extended and its route becomes internal, with the callback; nothing else in the table changes |
| Routing.Table.Unregister | src/hub/routing.c:150-165 | one registration less on both sides if there was any, nothing else in the table touched |
| Routing.Table.UnregisterAll | src/hub/routing.c:167-176 | afterwards every route's list is what it was without the member |
| Routing.Table.Serve | src/hub/routing.c:93-176 | through every run of these operations, up to one that stops the process, m is in r's list as often as r is in m's |
| Queues.Message.Destroy | src/protocol/message.c:85-97 | one reference less; freed exactly at zero, never below |
| Queues.MsgQueue.Add | src/hub/queue.c:31-43 | the ring refines a FIFO that takes a message exactly while fewer than dim-1 wait |
| Queues.MsgQueue.Delete | src/hub/queue.c:45-60 | the oldest message leaves the FIFO and loses a reference |
| Queues.Post.Send | src/hub/member.c:47-61 | over all queues, every message's count stays the number of slots that hold it |
| Queues.Post.Drop | src/hub/member.c:40-45 | so does deleting; the message is freed if and only if that was its last slot |
| Queues.Post.Drain | src/hub/queue.c:62-74 | destroying a queue frees exactly the messages no other queue holds |
| Queues.Post.Deliver | src/hub/routing.c:217-229 | members are served in order up to the first full queue, with the count or -1 |
| Queues.SpreadStops | src/hub/routing.c:217-229 | delivering gives a copy to each queue in front of the first full one and to no other |
| Queues.GivenCopies | src/hub/routing.c:224-225 | a queue named several times gets as many copies |
| Queues.RefsFit | src/protocol/message.h:28-50 | a message's count never exceeds the slots of all queues together, so that it fits its `short` while those do |
| Queues.Post.Serve | src/hub/queue.c:31-74 | any mix of deliveries, deletions and queue destructions keeps every count exact |
| Queues.Post.Open | src/hub/queue.c:17-29 | a new, empty queue, with every count still exact |
| Connections.TablesMatchChart | src/hub/connection.c:26-81 | the generated tables encode the state chart for every state and event; what the chart means is `Lives.ExecIs` |
| Connections.Lookup | src/hub/connection.c:144-196 | the generated bisection computes the chart |
| Connections.Connection.Move | src/hub/connection.c:193-196 | after the state change every action finds what it dereferences |
| Connections.Connection.Local | src/hub/connection.c:206-350 | counters, message slots and aborts, action by action, and that the actions still to come can run; a message's number is checked against the counter before it is serviced |
| Connections.Hub.HalfClose | src/hub/connection_state.c:108-124 | client and member go, and no route holds the member any more |
| Connections.Hub.RestClose | src/hub/connection_state.c:126-136 | the assertion holds and the connection is put on the free list for the first time |
| Connections.Hub.ServiceMessage | src/hub/commands.c:244-263 | finds the message's route, runs the hub's own callback for the sender only or names the members to deliver to in the list's order, says when a callback has an answer, refuses exactly what the table does not allow, makes of the table exactly what the message asks for, and leaves no registration of anyone not connected; what that comes to for each kind of message is `Postings.DeliversTo` and the rows below it |
| Connections.Hub.DoTune | src/hub/connection.c:237-246 | the handshake runs an exec of its own for the confirmation, and its failure aborts |
| Connections.Confirms | src/hub/connection_state.c:72-75 | that inner step registers the member or leaves the connection aborting, whatever else was asked |
| Connections.Hub.RunAll | src/hub/connection.c:200-407 | actions run in order up to the first that jumps to Aborting, and leave a good connection either way |
| Connections.Hub.Exec | src/hub/connection.c:121-415 | for every event and every outcome the connection becomes what the chart and its actions specify (`Lives.ExecIs`), and: the client is gone exactly in Closing, final and error, the connection is on the free list exactly when done and gets there once, serviced and sent numbers are 1, 2, ...; a new member comes only with the opening handshake; when the process stops in it, what mail it leaves to deliver, and what becomes of the routing table |
| Connections.Hub.NewOrReuse | src/hub/hub_state.c:16-31 | the pool hands out only connections that were done |
| Connections.Hub.QueueConn | src/hub/hub_state.c:33-42 | a new client gets the head of the free list, or a new connection if and only if that is empty, opened |
| Connections.Hub.ReadMsg | src/hub/connection_state.c:77-84 | nothing is read for a done connection or one without a client; a client without a member is a NULL dereference |
| Connections.Hub.DequeueMsg | src/hub/connection_state.c:21-30 | the next message, or none; an assertion without a member |
| Connections.Hub.SendMsg | src/hub/connection_state.c:32-47 | the header carries the next number; without a member it is a NULL dereference |
| Connections.Hub.Outgoing | src/hub/connection_state.c:49-69 | a round of the sending task finds its member missing if and only if there was none or a message comes up while the connection is aborting |
| Connections.Hub.Incoming | src/hub/connection_state.c:86-105 | a round of the reading task reads, decodes and services a message, and when it stops the process |
| Connections.Hub.Run | src/hub/connection_state.c:49-136 | any number of connections under any schedule: every step makes of all connections, their members and the routing table exactly what is specified, up to who a new member is; only members of connections are ever registered; the process stops exactly at the first step that sends on a closing connection or on an aborting one with a message, or services a nameless registration with the right number; no read ever finds its member missing |
| Connections.Hub.Go | src/hub/connection_state.c:49-136 | one step of that, with the mail it leaves: the one of a message that is serviced, and no other |
| Connections.StillComes | src/hub/connection_state.c:114-117 | members that leave make no difference to what comes of anyone's message |
| Connections.QueuedMember | src/hub/connection_state.c:49-69 | announcing a queued message succeeds from Idle and from Aborting, and then there is a member if and only if it was Idle |
| Connections.AbortedSend | src/hub/connection_state.c:32-69 | the events that lead from a fresh connection to sending without a member |
| Connections.StageNext | src/hub/connection_state.c:86-92 | the three opening events, with every outcome, leave a connection that has a member if it has a client |
| Connections.ExecStaysOpen | src/hub/connection.c:121-415 | and no event changes that |
| Connections.RunLeadsTo | src/hub/connection.c:193-407 | outside the handshake a transition ends in its target or, if one of its actions can fail, in Aborting |
| Lives.ExecIs | src/hub/connection.rl:44-85 | for every state, event and outcome an exec does what the chart says in plain terms: which events each state waits for, that any other one ends the connection, what closes, aborts and the rest make of counters, numbers and member |
| Lives.FirstClose | src/hub/connection.rl:47-57 | the first close of a connection takes client and member and leads to Closing, not to an end |
| Lives.EndsWith | src/hub/connection.rl:44-85 | an event ends a connection in use if and only if it is already closing or was not waiting for that event |
| Lives.StepEnds | src/hub/connection_state.c:49-136 | which rounds of the two tasks and which events end a connection, and that no others do |
| Lives.InUseNext | src/hub/hub_state.c:16-42 | over one step of the hub a connection in use stays so if and only if that step ends it, and is not handed out again |
| Lives.StaysInUse | src/hub/hub_state.c:16-42 | over every run: until its second close or an event it was not waiting for, a connection is not on the free list and not accepted for another client |
| Lives.FreedWhenEnded | src/hub/connection_state.c:126-136 | with that step it is on the free list |
| Lives.Observe | src/hub/connection_state.c:49-136 | the instants of the hub's own run, from any state of it, are such a run |
| Delivery.Dispatch | src/hub/commands.c:244-263 | the delivery of one exec, tied to its mail: a message goes to the queues of the members its mail names, in order, up to the first full one; an answering callback puts one new message into the sender's queue unless it is full; nothing else touches a queue. Who that is, on the queues, is `Postings.DeliversTo` |
| Delivery.Deposit | src/hub/commands.c:11-18 | a mail's one new message goes to the addressees' queues up to the first full one, or as a reply into the sender's if there is room |
| Offices.Office.Put | src/hub/commands.c:244-263 | the same with a record of all that has been posted, which keeps being what was taken, thrown away and is waiting |
| Offices.Office.Take | src/hub/connection.c:335 | a message that has been sent leaves the front of its member's queue and is recorded as taken |
| Offices.Office.Close | src/hub/member.c:94-122 | a member that logs out throws away what is waiting for it, and nothing of anyone else |
| Offices.Office.OpenFor | src/hub/member.c:63-91 | a member that logs in gets an empty queue of its own, of length 30 |
| Offices.Office.Settle | src/hub/connection.c:200-407 | after a step of the hub the queues have seen its mail, or the message it has sent, then a logout, then a login, and nothing else; every connected member has its queue, of which nothing was thrown away |
| Offices.Office.Move | src/hub/connection_state.c:49-136 | one errand of any client makes of connections, members, routing table and queues exactly what is specified; a sending task finds a message exactly if its member's queue holds one |
| Offices.Office.Run | src/hub/connection_state.c:49-136 | any errands of any clients in any order: every moment is what its errand makes of the one before, at every moment what was ever posted to a connected member is what its connection has taken, followed by what is waiting, and the run ends early exactly where the process stops |
| Offices.DidGrows | src/hub/queue.c:31-74 | whatever happens to the queues only adds to what has been posted, taken and thrown away, and keeps the three in balance with what waits |
| Offices.RunGrows | src/hub/connection_state.c:49-136 | so over every run, from any moment to any later one; a member keeps its queue |
| Offices.TakesWhatWasPosted | src/hub/connection_state.c:49-69 | over every run what a connection has taken is a prefix of what was posted: in order, without gaps and without doubles; the rest is waiting unless it was thrown away |
| Postings.DeliversTo | src/hub/commands.c:244-263 | when a message for a path with a route arrives, the queue of each member gains one new message as often as the member is registered for the path, up to the first full queue of the list; everyone else gains nothing; without members nothing changes |
| Postings.Registering | src/hub/routing.c:129-136 | a request to register adds one registration of the sender for the path asked for, with the routes leading to it, and changes nobody else's |
| Postings.Unregistering | src/hub/routing.c:150-165 | a request to unregister takes one of the sender's out if there is any, and changes nothing else |
| Postings.Answering | src/hub/commands.c:11-18 | a request with an answer puts one new message into the sender's queue unless 29 wait there, and into no other |
| Postings.ServedExactly | src/hub/commands.c:244-263 | a message is carried out if and only if its path has a route and, for the hub's own, the message inside is what the callback needs; otherwise there is no mail and the table stays |
| Postings.Refusing | src/hub/commands.c:244-263 | a message that is refused leaves its connection aborting and everything else in the hub and the queues as it was |
| Postings.OwnStays | src/hub/routing.c:93-107 | no step makes a route of the hub's own into another, or registers anyone for one |
| Postings.StaysRegistered | src/hub/routing.c:93-176 | over every run a member stays connected, with as many registrations for every path, through all that other connections do |
| Postings.Parting | src/hub/routing.c:167-176 | a member that leaves is registered nowhere any more |
| Postings.RegisteredGetsIt | src/hub/commands.c:244-263 | over every run: a member registered for a path that does nothing itself gets, from any later message for that path whose list is served to its end, as many copies as it had registrations |
| Postings.Writing | src/hub/connection_state.c:32-69 | when the sending task writes, the oldest waiting message is taken, under the next number, and the connection is idle again; a failed write leaves it aborting and the queue as it was |
| Postings.JoiningOpens | src/hub/member.c:63-91 | a new member comes with an empty queue of its own, in a step of the opening handshake and in no other |
| Postings.PartingDrains | src/hub/member.c:94-122 | when a member leaves, exactly what waited for it is thrown away |
| Postings.SentIsTaken | src/hub/connection_state.c:41-69 | over every run an idle connection has sent under as many numbers as messages were taken from its queue |
| Ids.DoKeepsOrder | src/lang/ruby/utuclient/lib/utu/client.rb:122-141 | each push, service, forward and pull keeps the numbers in flight consecutive and continuing what the receiver has seen, whatever they have come to |
| Ids.ServiceDoes | src/hub/connection.c:313-324 | a message's number is the one the hub expects, and it is serviced, if and only if it is below 2^64; otherwise the relay ends |
| Ids.RunOutcome | src/client/proxy.c:165-177 | over every run of any length: the hub never aborts over a number, the relay has ended exactly when it has read message 2^64, the client is out of sync exactly from its pull 2^64 on |
| Ids.RunPushes | src/lang/ruby/utuclient/lib/utu/client.rb:125-128 | over every run the client has numbered exactly the messages it has pushed |
| Ids.StartIsReached | src/hub/connection_state.c:86-92 | such a run starts from what a new connection, opened without a failure, has become |
| Ids.NeverTrips | src/lang/ruby/utuclient/lib/utu/client.rb:105-141 | from a fresh connection nobody objects to a number in any interleaving of fewer than 2^64 steps |
| Bstring.ReplaceNext | src/myriad/bstring/bstrlib.c:1405-1530 | up to an occurrence text is copied, there the replacement goes in, and the scan resumes behind it |
| Bstring.OwedAtMark | src/myriad/bstring/bstrlib.c:1476-1520 | the j-th occurrence ends up j growths to the right |
| Bstring.ScanStep | src/myriad/bstring/bstrlib.c:1443-1461 | closing the gap and putting the replacement completes the result one occurrence further and leaves the unscanned text alone |
| Bstring.UnrollStep | src/myriad/bstring/bstrlib.c:1506-1520 | moving right to left, nothing is overwritten before it has moved |
| Bstring.Buffer.Balloc | src/myriad/bstring/bstrlib.c:58-126 | room for the asked length, contents kept, and exactly when the memory is new |
| Bstring.Buffer.Instr | src/myriad/bstring/bstrlib.c:929-966 | the leftmost occurrence at or after the position, or none exists |
| Bstring.Buffer.Overwrite | src/myriad/bstring/bstrlib.c:1432-1440 | equal lengths: the in-place result is the one-pass replacement |
| Bstring.Buffer.Shrink | src/myriad/bstring/bstrlib.c:1443-1469 | shrinking left to right: the same |
| Bstring.Buffer.Collect | src/myriad/bstring/bstrlib.c:1473-1502 | all leftmost non-overlapping occurrences are recorded and their growth summed |
| Bstring.Buffer.Expand | src/myriad/bstring/bstrlib.c:1470-1522 | expanding right to left: the same, in a buffer large enough, unless the replacement lay in memory given up for it |
| Bstring.Buffer.FindReplace | src/myriad/bstring/bstrlib.c:1405-1540 | all three strategies compute one specification: leftmost, non-overlapping, from the position, never rescanning what was put in; errors leave the text alone; arguments may be parts of the buffer, and exactly when reading the replacement is then undefined |
| Splitter.SplitAt | src/myriad/bstring/bstrlib.c:2221-2238 | the calls for every piece from the position on, stopping at the first negative return |
| Splitter.SplitAtAny | src/myriad/bstring/bstrlib.c:2255-2281 | the same for any of several separators; with none, one call for the whole text |
| Splitter.SplitMeans | src/myriad/bstring/bstrlib.c:2221-2281 | every call hands over a maximal stretch without separators and its offset, the next starts behind the separator that ended it, and the result is the first negative return, or 0 at the end of the text |
| Splitter.Stream.Reada | src/myriad/bstring/bstrlib.c:1965-2003 | appends exactly the next n bytes or what is left, for every chunking and buffer size |
| Splitter.Stream.Unread | src/myriad/bstring/bstrlib.c:2059-2062 | the bytes come first again |
| Splitter.Stream.SplitStream | src/myriad/bstring/bstrlib.c:2139-2187 | the stream splitter makes exactly the calls the in-memory one makes on the whole content |
| Splitter.SplitBoth | src/myriad/bstring/bstrlib.c:2139-2281 | both splitters on the same content, side by side: same pieces, same offsets, same result |
| Splitter.ReadsUntilFailure | src/myriad/bstring/bstrlib.c:2150-2153 | after any number of reads nothing has been read if and only if the stream was empty, and nothing is lost |
| Splitter.ReadRounds | src/myriad/bstring/bstrlib.c:2150-2153 | without separators no round of the read loop fails, so that it never ends, if and only if the stream is not empty |
| Splitter.SplitCuts | src/myriad/bstring/bstrlib.c:2221-2238 | pieces hold no separator, and joined by it they are the text |
| Splitter.Bsplit | src/myriad/bstring/bstrlib.c:2295-2334 | bsplit returns those pieces |
| Splitter.Bjoin | src/myriad/bstring/bstrlib.c:2080-2118 | the preallocated buffer is filled exactly with the joined entries; NULL exactly for an empty list with a separator, and when the terminator would be written outside |
| Splitter.SplitThenJoin | src/myriad/bstring/bstrlib.c:2080-2334 | joining what bsplit cut rebuilds the text |
| Relay.Proxy.HandleEvent | src/client/proxy.c:165-177 | a side reads only into an empty slot and writes only a freshly filled one, as its specification says; the other side is untouched |
| Relay.Proxy.HandleRound | src/client/proxy.c:202-212 | a round of select does to both directions what their specification does, and goes on exactly if nothing failed |
| Relay.Proxy.EventLoop | src/client/proxy.c:182-216 | for every select schedule both directions, and the number of rounds, are exactly those of the specification's run; what has gone out is what has come in, in order, but for at most one message |
| Relay.EndsWhen | src/client/proxy.c:165-216 | the relay goes on after a round if and only if neither side finds nothing to read where something was announced, or cannot pass on what it holds; a side that fails loses nothing |
| Relay.SidesApart | src/client/proxy.c:202-212 | as long as neither fails, the two directions do what each would do alone |
| Relay.GoesThrough | src/client/proxy.c:165-177 | a direction takes the message that is there, keeps it for as long as the other end cannot be written to, passes it on at the first chance and waits for the next |

## Left out

- Floats in Stackish: printing with `%f` rounds, so no round trip is meant; a float's text stands for its value. An `f` that fails in `Node_decons` has written its output too.
- `G` in `Node_cons`/`Node_decons` formats, except for the body in `Headers.MessageId`.
- Parsing of ill-formed or truncated text, beyond the fact that the linked parser and its specification agree on it.
- libtomcrypt: key agreement, CCM, hashing and signatures are functions with stated laws, and key scheduling, key import and random numbers always succeed.
- Sockets, task switching, sbuf, logging and files: apart from `readn`, reads and writes are complete and `errno` is 0; assertions are compiled in; memory does not run out.
- Handshake.CryptState.DecryptNode: opening a packet in place and destroying its string on a wrong tag leave the packet itself changed, which is not modelled.
- Hate.Generate: levels above 30 shift a 32-bit 1 out of range and are not modelled; challenges are not signed.
- Hate.AnswerChallenge: levels from 63 on shift a 64-bit value out of range and are not modelled; answers are not signed.
- Hate.Play: levels above 30 and signatures, as for its two halves.
- Bstring.Buffer.FindReplace: lengths are below 2^30, so that no `int` overflows; the array of positions is a sequence; an argument inside the buffer lies within its text.
- Splitter.Stream.SplitStream: the callback does not move the stream, and the stream's buffer is a sequence; without separators see `Splitter.ReadRounds`.
- Heaps.Heap.Sort: SGLIB's heap sort is replaced by an insertion sort, which fixes the order among equal elements (in a heap of pointers these are the same).
- Routing.Table.AddMember: addresses are numbers that lie within 2^31 bytes of each other, where comparing them as an int is exact (`Heaps.PointerOrder`); a freed address is not handed out again.
- Routing.Table.Find: names hold no NUL, as every word the scanner makes.
- Connections.Hub.Exec: an exec nested in another one (other than the key confirmation) is a step of its own; the member map, `ConnectionState_finish` and the yield inside logout are not modelled.
- Connections.Hub.Run: the lock between a connection's two tasks, and a task that outlives its connection's return to the free list, are not modelled.
- Connections.Hub.ServiceMessage: whether the callbacks other than registering and unregistering succeed, and the text of their answers, are parameters; that an answer is queued is `Delivery.Dispatch`.
- Offices.Office.Run: key confirmation apart, clients act through the events of their two tasks; a member's key and the member map are not modelled.
- Ids.RunOutcome: every frame fits its length bytes, and the sealed hop between mendicant and hub is `Handshake.Converse`.
- The SGLIB member tree, the other hub callbacks, file serving, the hub's outer state machine and the Ruby examples would only add easy members.

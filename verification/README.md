# Verified models of the router's data plane

Skupper router is an AMQP 1.0 message router written in C. This project models nine of its data-plane
structures in Dafny and proves them correct against simple specifications: a naive matcher, a finite map, a
queue, one octet stream, a recursive encoding, a table of deadlines. Where the C code updates fields, lists or
arrays step by step, the model does too: there is a class or a loop, proved against a function of the old state.
Where threads share state, each section of code under one lock, or each access of a shared atomic, is one step
of a state machine, and the theorems are about every interleaving. The classes are proved to do steps of these
machines.

Check the whole project with `dafny verify dfyconfig.toml`.

## The areas

**Wildcard pattern trie** (`Patterns`, `Tokens`, `Spellings`, `Rewriting`, `Hash`, `TrieNodes`, `TrieSearch`,
`TrieUpdates`, `ParseTree`). Patterns are token lists of literals, `*` (one token) and `#` (zero or more). The
text of a pattern is rewritten in place, merged into a trie whose literal children are found through a hash
table, searched by backtracking, and pruned on removal. `Patterns.Matches` is the naive matcher; `ParseTree.Dict`
is the finite map, from pattern to payload and stored text, that the trie stands for. Search, best match, add,
get and remove are proved against these two.

**Cut-through ring** (`CutThrough`, `RingPasses`). One producer and one consumer exchange lists of buffers through eight slots
without a lock, and wake each other up. Each read or write of an index or flag that the other side uses, and each
wake-up, is a step of its own. Moves of buffers within a slot go with the step before or behind: only one side may
touch the slot then, as `CutThrough.RingIsAQueue` shows, so no other interleaving differs. `RingPasses` has whole
passes of either side, and a whole message through the ring.

**Multicast and Q2** (`Multicast`, `MulticastCases`, `Passes`). One chain of reference-counted buffers is received,
parsed and sent by any number of outgoing copies at the same time. Flow control ("Q2") stops the receiver when 64
unprotected buffers wait, and starts it again below 32. `Multicast` is the state machine; `Passes` has the two
loops around it, with any steps of other threads between their turns; `MulticastCases` has concrete interleavings.

**AMQP encoder and decoder** (`Amqp`, `Grammar`, `Numbers`, `Buffers`, `BufferField`, `Compose`, `Decode`). A composer writes
nested values into a chain of buffers and patches size and count fields afterwards, across buffer ends where need
be. A recursive decoder reads them back through cursors, and fields are converted to numbers. The specification is
the encoding of AMQP 1.0 Part 1, sections 1.2 and 1.6, as a recursive function on flat octet sequences, and a grammar
of well-formed values, which the decoder accepts and no others.

**Section parser** (`Sections`, `SectionScan`, `SectionParser`, `Messages`). The sections of a message (AMQP 1.0 Part 3,
section 3.2) are found while the message is still arriving. A check stops at "incomplete" and goes on from there
later. The specification is one parse of the complete stream, and what that finds is stated in `Messages` about
messages as lists of sections.

**Timers** (`Timers`, `TimerCalls`). A list of relative delays stands for absolute deadlines; each timer has five phases
and a reference count. `TimerCalls` tells what becomes of a timer from the requests alone, and has the calls.

**Pooled allocator** (`AllocPool`, `AllocCalls`). Stacks of items in linked chunks, one list per thread and a
global one, bulk moves between them, and counters. `AllocCalls` has the two calls over stacks and counters, proved
to be steps of the machine of `AllocPool`.

**Longest-prefix lookup** (`Prefix`). The hashes of all prefixes of an address are taken in one pass; the view is
then trimmed from the longest to the shortest until the table knows it.

**Flow-record publishing** (`Vanflow`, `VanflowCases`, `VanflowTimes`). Records hold sorted attribute lists; a flush sends what has
changed since the last flush, and records wait on one of five slots or on a list of deferred ones.

`Basics` and `Options` hold octets, lists without repetition, and optional values.

## Where the code does less than one might expect

Each of these has an instance, or a family of them, and the exact condition.

- A stored pattern that ends in `#.#` is missed on its shortest values (`TrieSearch.GlobPairMissesShortest`); a
  pattern is found for all values it matches if and only if it does not end so (`TrieSearch.SearchMeaning`). The
  rewrite rules this out, but MQTT patterns are not rewritten and adding one does not validate it. Patterns that
  pass the validation are found (`ParseTree.LegalMqttIsFound`).
- The debug assertions at `src/parse_tree.c:504` and `src/parse_tree.c:753` say that a text looked up equals the
  stored one. Texts of one pattern may differ in the separators between tokens, in front or at the end
  (`ParseTree.SeparatorSpellingIsLost`, `Spellings.LeadingSeparator`, `Spellings.TrailingSeparator`). They are equal
  if and only if they have the same tokens and separators (`Spellings.TextIsSpelling`), and the assertions hold if
  and only if the separators that the rewrite leaves are the same (`ParseTree.AddThenFind`, and the contracts of
  `FindPattern` and `RemovePattern`).
- A copy added after a buffer behind the head has been freed skips that buffer, and completes
  (`MulticastCases.LateCopySkips`). A copy that completes unaborted has sent the stream if and only if no such buffer
  was missing when it was added (`Multicast.CopyIsSoundIffGapless`).
- The guard that keeps the parser off freed buffers (`src/message.c:2291`) counts only buffers freed by sending, so
  it can pass when a freed copy took the parser's buffer with it (`MulticastCases.GuardMisses`).
  `Multicast.GuardIsEnough` says exactly when.
- A header parsed after receiving has been held off can leave it held off with fewer than 32 unprotected buffers
  (`Multicast.LateParseExample`); `Multicast.LateParseStrands` says exactly when. That ends exactly when a send
  frees a buffer or Q2 is disabled, and not when a copy is freed (`Multicast.StrandedUntil`).
- Buffers pushed because nothing more has come yet are not checked against the limit of 64, so any number of short
  transfers can wait without receiving being held off (`MulticastCases.ShortTransfers`). `Multicast.FewBuffersWait` bounds
  what waits by 64 and the number of such pushes.
- A send pass over an aborted content that is given no capacity does not end while the ring holds something
  (`RingPasses.NoCapacityNoEnd`); every other pass does, as `RingPasses.SendBuffers` says.
- A body of data or of a value whose type is not permitted, or that is cut off, is taken for no body, where any other
  section would be an error (`Messages.DepthRefuses`, `Messages.DepthWaits`).
- A section of 2^31 octets or more is found but not passed over (`Messages.HugeIsNotSkipped`, `Messages.HugeClaim`), since
  its length is taken as a signed number; a smaller one is (`Messages.SectionIsFound`).
- An unsigned number that fits is refused as a signed 64-bit one (`Numbers.FittingNumberRefused`), if and only if it
  is in the upper half of the range of its encoding, which for 128 to 255 is one octet (`Numbers.LongExact`,
  `Numbers.ConvertsEncoded`).
- The time base zero means "no time yet", so with a clock that reads zero delays are not counted down
  (`Timers.ClockFromZero`); `Timers.AdjustExact` says exactly when a reading keeps every delay right.
- A thread's free list stays below its maximum if and only if the maximum is positive and a batch is no larger
  (`AllocPool.BelowExactly`, `AllocPool.OverRun`).
- An attribute flushed while the collector is not reached is not sent again (`VanflowCases.LostUpdate`) unless it is
  written or refreshed in between (`VanflowCases.RewrittenUpdate`). What was sent and is to be sent make up what was
  written if and only if the collector knows each such attribute already (`Vanflow.UnreachedFlushExact`).
- After a refresh an attribute is sent again with each flush until the ordinal has passed its stamp
  (`VanflowTimes.RefreshResends`). A record that was never refreshed sends exactly what was written since its last flush
  (`VanflowTimes.SendsWhatChanged`).

## Model

| member | source | states |
|---|---|---|
| Patterns.NormalizeKeepsMeaning | src/parse_tree.c:148-193 | for every pattern and every value, the rewritten pattern matches the value exactly when the pattern itself does |
| Patterns.NormalizeReachesNormalForm | src/parse_tree.c:148-193 | one pass of the rewrite reaches a form where no `#` is followed by `#` or `*` |
| Patterns.NormalFormIsFixed | src/parse_tree.c:148-193 | a pattern already in that form is left alone, so the rewrite is idempotent |
| Patterns.NormalizeIsCanonical | src/parse_tree.c:139-193 | two patterns are rewritten to the same token list if and only if they match the same values, over an unbounded token alphabet |
| Tokens.TokensOfJoin | src/parse_tree.c:54-117 | splitting a text into tokens undoes joining them with any separator of the tree's type |
| Tokens.FindSep | src/parse_tree.c:54-98 | the end found is the first separator at or after the start, or the end of the text |
| Tokens.InitIter | src/parse_tree.c:54-85 | a new iterator skips leading separators and has all tokens of the text still to give |
| Tokens.NextToken | src/parse_tree.c:88-98 | moving on drops exactly the head token; an iterator at its end stays there |
| Tokens.StoredMeaning | src/parse_tree.c:148-193 | for every text and value, the pattern a text is stored under matches the value exactly when the pattern it spells does; for MQTT the two are the same, for the others it is the rewritten form |
| Tokens.Wildcards | src/parse_tree.c:54-137 | the separators and wildcards of the three types of tree, on texts that have all of them |
| Spellings.TextIsSpelling | src/parse_tree.c:54-117 | two texts are equal if and only if they have the same tokens and the same spelling: separators in front, between tokens, and at the end |
| Spellings.PatternTextIsSpelling | src/parse_tree.c:459-509 | of texts that name the same pattern, two are equal if and only if they have the same spelling |
| Spellings.LeadingSeparator | src/parse_tree.c:54-85 | a separator more in front, in a tree of any type, names the same pattern and is spelled differently |
| Spellings.TrailingSeparator | src/parse_tree.c:88-117 | so does one separator at the end |
| Rewriting.PlainSpells | src/parse_tree.c:157-185 | a turn that only moves on keeps: separators of the tokens done, followed by what the rewrite leaves of those ahead, are those of the stored text |
| Rewriting.CollapseSpells | src/parse_tree.c:162-172 | dropping one of two `#` drops exactly the separator between them |
| Rewriting.SwapSpells | src/parse_tree.c:173-177 | exchanging `#` and `*` moves no separator |
| Rewriting.RewriteTurn | src/parse_tree.c:157-185 | one turn of the loop in the character array: tokens done followed by the rewrite of the tokens left is always the rewrite of the original text, its separators are those the rewrite leaves, and what is left gets shorter |
| Rewriting.MoveDown | src/parse_tree.c:165-170 | the overlapping copy that closes the gap of a dropped `#` moves the text down unchanged and leaves what is in front of it |
| Rewriting.NormalizePattern | src/parse_tree.c:148-193 | the in-place rewrite leaves in the array a text whose tokens are the rewritten pattern (or the pattern itself for MQTT) and whose separators are the original ones less those of dropped `#`; it reports a change exactly when there is one, and touches nothing when there is none |
| Hash.HashFromConcat | include/qpid/dispatch/hash.h:31-32 | the hash of a text continues from the hash of any front part of it |
| Hash.HashIsPolynomial | include/qpid/dispatch/hash.h:31-32 | for every text, the hash is the polynomial in 33 over its octets with 5381 in front, modulo 2^32 |
| Hash.OneItemPerKey | src/hash.c:155-208 | a key is in the table at most once |
| Hash.AppendKeepsTable | src/hash.c:155-208 | a new item with a handle extends the table's map by its key; items and handles point at each other |
| Hash.RemoveKeepsTable | src/hash.c:107-128 | taking an item out takes out its key and clears the one handle that pointed at it |
| Hash.DetachKeepsTable | src/hash.c:447-459 | freeing a handle leaves its item in the table, now without a handle |
| Hash.HandleLeadsToItem | src/hash.c:447-494 | a live handle names the bucket its item is in, and only that item has the identity and handle it names |
| Hash.HashTable.constructor | src/hash.c:84-103 | a new table holds nothing and has no handles |
| Hash.HashTable.FindWithHash | src/hash.c:294-306 | walking the bucket of a key's hash finds an item if and only if the key is in the table's map, and it is that key's item |
| Hash.HashTable.FindItem | src/hash.c:309-313 | the same, with the hash taken from the key |
| Hash.HashTable.RetrieveWithHash | src/hash.c:294-306 | the value of the key, or nothing if and only if the key is absent |
| Hash.HashTable.Retrieve | src/hash.c:360-374 | the value of the key, or nothing if and only if the key is absent |
| Hash.HashTable.Insert | src/hash.c:155-235 | a new key is added with a new handle; an existing key keeps its value, and gives no handle |
| Hash.HashTable.RemoveItem | src/hash.c:107-128 | the table loses exactly the key of the item |
| Hash.HashTable.RemoveByHandle | src/hash.c:470-494 | a live handle removes exactly the key it leads to; a handle whose item is gone does nothing |
| Hash.HashTable.FreeHandle | src/hash.c:447-459 | the map stays as it is and the handle is gone |
| TrieNodes.KeyInjective | src/parse_tree.c:297-356 | different pairs of parent prefix and token have different index keys, whatever the tokens contain |
| TrieNodes.IndexFindsChild | src/parse_tree.c:343-356 | the index finds the literal child of a parent by its token if there is one, and never anything else |
| TrieNodes.PathsAreDistinct | src/parse_tree.c:363-454 | no two nodes of a sound trie spell the same token list |
| TrieNodes.FrontsArePaths | src/parse_tree.c:363-454 | every front part of a node's token list belongs to a node |
| TrieNodes.LeadsToTerminal | src/parse_tree.c:740-795 | below every node other than the root there is one that ends a pattern |
| TrieNodes.ShapeIsDetermined | src/parse_tree.c:740-795 | the shape of a pruned trie is determined by what it stores: its token lists are exactly the front parts of stored patterns, and the empty one |
| TrieSearch.ReachedIsMatched | src/parse_tree.c:518-630 | every pattern the search arrives at matches the value, from every kind of node |
| TrieSearch.MatchedIsReached | src/parse_tree.c:518-630 | every pattern that matches the value and does not end in `#.#` is arrived at |
| TrieSearch.GlobPairMissesShortest | src/parse_tree.c:596-612 | a stored pattern that ends in `#.#` is missed on the shortest values it matches |
| TrieSearch.SearchMeaning | src/parse_tree.c:518-630 | a stored pattern is found for all values it matches, and no others, if and only if it does not end in `#.#` |
| TrieSearch.LiteralVisits | src/parse_tree.c:556-568 | the visits through the literal child are exactly those of patterns that go on with the value's first token |
| TrieSearch.OneVisits | src/parse_tree.c:573-591 | the visits through the `*` child are exactly those of patterns that go on with `*` |
| TrieSearch.GlobVisits | src/parse_tree.c:596-612 | the visits through the `#` child are exactly those of patterns that go on with `#` |
| TrieSearch.VisitedIsReached | src/parse_tree.c:616-630 | the nodes visited from the root are exactly the terminal ones whose token list the search reaches |
| TrieSearch.SearchIsExact | src/parse_tree.c:518-630 | for every sound trie and every value, the search visits exactly the stored patterns that the naive matcher accepts |
| TrieSearch.FirstVisitIsBest | src/parse_tree.h:85-102 | the first pattern visited precedes every stored pattern that matches: where the two first differ, unless a `#` comes before, it has the literal before the wildcard and `*` before `#` |
| TrieSearch.FirstVisitPrecedes | src/parse_tree.h:85-102 | the same about the patterns the search reaches, whatever is stored: the first visited precedes every stored pattern that is reached |
| TrieUpdates.GrowKeeps | src/parse_tree.c:297-339 | a new childless node keeps the trie sound and the stored patterns as they are, and only that node can be a dead end |
| TrieUpdates.GrownHandles | src/parse_tree.c:297-339 | a new literal node gets the one handle that leads to its index key |
| TrieUpdates.ShrinkKeeps | src/parse_tree.c:268-289 | a childless node that ends no pattern can go: the trie stays sound, stores the same, and only its parent can be a dead end |
| TrieUpdates.ShrunkHandles | src/parse_tree.c:277-289 | with a literal node goes exactly its own index key and handle |
| TrieUpdates.MarkKeepsTree | src/parse_tree.c:363-454 | setting or clearing what a node stores changes neither shape, index nor handles |
| TrieUpdates.MarkAdds | src/parse_tree.c:363-454 | marking the last node of a pattern adds exactly that pattern and leaves no dead end |
| TrieUpdates.UnmarkRemoves | src/parse_tree.c:740-795 | unmarking a node removes exactly the pattern it ended |
| ParseTree.ParseTree.constructor | src/parse_tree.c:650-672 | a new tree stores nothing |
| ParseTree.ParseTree.NewChild | src/parse_tree.c:297-339 | the new child spells its parent's token list and one token more; nothing stored changes |
| ParseTree.ParseTree.AddPattern | src/parse_tree.c:363-454 | on the map of stored patterns: a text without tokens is refused, a stored pattern is left alone, any other is added with its payload and the rewritten text, whose pattern and spelling are those of the given text after the rewrite |
| ParseTree.ParseTree.Descend | src/parse_tree.c:363-454 | the node reached, with missing nodes grown on the way, spells the text's token list; nothing stored changes |
| ParseTree.ParseTree.DescendOne | src/parse_tree.c:363-454 | one token further down, on an existing or a new child |
| ParseTree.ParseTree.FindPattern | src/parse_tree.c:459-509 | finds the terminal node of a pattern if and only if the pattern is stored; the stored text equals the text looked up (the assertion at line 504) if and only if the two have the same spelling |
| ParseTree.ParseTree.Follow | src/parse_tree.c:459-509 | finds the node that spells the text's token list, or there is no such node |
| ParseTree.ParseTree.FollowOne | src/parse_tree.c:459-509 | the child for one token, or no node spells anything that goes on with it |
| ParseTree.ParseTree.GetPattern | src/parse_tree.c:724-736 | the payload of the map entry of the rewritten pattern, or nothing if there is none |
| ParseTree.ParseTree.RemovePattern | src/parse_tree.c:740-795 | gives back the payload of the map entry and removes that entry alone; the pruned trie is sound and has no dead ends; the assertion at line 753 holds if and only if the stored text has the spelling of the given one |
| ParseTree.ParseTree.DropLeaf | src/parse_tree.c:277-289 | frees a dead end with its index entry and handle and goes up to its parent; nothing stored changes |
| ParseTree.ParseTree.FindChildren | src/parse_tree.c:518-551 | the callbacks made are those of the specified order of visits below a node, up to the first that answers false |
| ParseTree.ParseTree.FindLiteral | src/parse_tree.c:518-568 | the same for the literal child, found through the hash table |
| ParseTree.ParseTree.FindOne | src/parse_tree.c:518-591 | the same for the `*` child |
| ParseTree.ParseTree.FindGlob | src/parse_tree.c:518-551 | the same for the `#` child |
| ParseTree.ParseTree.FindFromGlob | src/parse_tree.c:596-612 | the loop of a `#` node: its children on every non-empty rest of the value, then the node itself |
| ParseTree.ParseTree.VisitSelf | src/parse_tree.c:556-612 | calls back for the node itself exactly when the value is used up and the node ends a pattern |
| ParseTree.ParseTree.VisitSelfAndChildren | src/parse_tree.c:556-591 | the node itself and then what lies below it, up to the first callback that answers false |
| ParseTree.ParseTree.Find | src/parse_tree.c:616-630 | the visits from a node of any kind, up to the first callback that answers false |
| ParseTree.ParseTree.Search | src/parse_tree.c:696-708 | every pattern visited is stored and matches; when no callback stops the search, every stored pattern that matches is visited |
| ParseTree.ParseTree.RetrieveMatch | src/parse_tree.c:677-692 | the payload of a stored pattern that matches and precedes all others the search reaches, or nothing if and only if none is reached; where no MQTT pattern ends in `#.#`, reached is the same as matched |
| ParseTree.SeenAllMatches | src/parse_tree.c:696-708 | a search whose callbacks all say "go on" finds every stored pattern that matches |
| ParseTree.ReachedIsVisited | src/parse_tree.c:518-630 | a stored pattern is visited if and only if its token list is one the search reaches, also for MQTT patterns that end in `#.#` |
| ParseTree.ParseTree.ValidatePattern | src/parse_tree.c:830-863 | a pattern is legal if and only if it has a token and, for MQTT, `#` comes last only |
| ParseTree.LegalMqttIsFound | src/parse_tree.c:845-856 | an MQTT pattern that passes validation is found for exactly the values it matches |
| ParseTree.SeparatorSpellingIsLost | src/parse_tree.c:459-509 | `a.b` and `a/b`, `.a.b` and `a.b`, `a/b/` and `a/b` name the same stored pattern with different spellings, in trees of three types |
| ParseTree.AddThenFind | src/parse_tree.c:459-509 | for every two texts of one pattern: after adding one, looking up the other meets an equal text if and only if both have the same spelling after the rewrite |
| ParseTree.AddThenRemove | src/parse_tree.c:740-795 | removing a pattern just added restores the stored patterns and the shape of the trie |
| CutThrough.Distance | src/message.c:2949-2967 | the unsigned 32-bit difference of two indices modulo the slot count is their distance around the ring, also across wrap-around |
| CutThrough.ProducerKeepsOrder | src/message.c:1654-1699 | each producer step keeps: buffers consumed, then those in the ring, then those being filled in, are those produced, in order; slots outside the full ones are empty |
| CutThrough.ConsumerKeepsOrder | src/message.c:1983-2027 | each consumer step keeps the same, and frees at most one slot |
| CutThrough.OtherSlot | src/message.c:1983-2027 | the slot being drained is never the one being filled |
| CutThrough.ProducerKeepsWakes | src/message.c:1606-1699 | each producer step keeps that neither side is left waiting without a wake-up pending or about to be issued |
| CutThrough.ConsumerKeepsWakes | src/message.c:1606-2027 | each consumer step keeps the same |
| CutThrough.StepKeepsCompletion | src/message.c:1983-2027 | each step keeps that a completed, unaborted send has delivered everything produced |
| CutThrough.StepKeepsInv | src/message.c:1606-2027 | each step of either side keeps all of the above together |
| CutThrough.RunKeepsInv | src/message.c:1606-2027 | the invariant holds in every state of every interleaving |
| CutThrough.RingIsAQueue | src/message.c:1654-1699 | in every interleaving, what was consumed followed by what is in the ring is what was produced, in order; slots outside the full ones are empty, and a slot is never filled while it is drained |
| CutThrough.NoLostWakeups | src/message.c:1606-1629 | in every interleaving with both activations registered, a producer that stopped on "full" with fewer than the resume threshold of full slots, and a consumer that stopped on "empty" with a full slot, have an activation pending or about to be issued, unless the send completed |
| CutThrough.RestingSidesAreWoken | src/message.c:1606-1629 | when both sides rest, whichever could go on has its activation pending, and two sides that both stopped are not both asleep |
| CutThrough.StepAfterComplete | src/message.c:1983-2027 | a completed send stays complete, and nothing is produced after it unless the content is aborted |
| CutThrough.CompleteSendDeliversAll | src/message.c:1983-2027 | once an unaborted send is complete, all that is ever produced has been delivered; `RingPasses.SendBuffers` and `RingPasses.Relay` say when it becomes complete |
| CutThrough.DeliveredIsAPrefix | src/message.c:1983-2027 | what the receiver has got is always a front part of what was produced |
| CutThrough.UnicastRing.constructor | src/message.c:2949-2967 | a new ring is empty |
| CutThrough.PutSteps | src/message.c:2970-2980 | one call that produces is a series of steps: the slot filled, the index moved, the consumer woken if it listens, nothing else changed |
| CutThrough.TakeDrains | src/message.c:2983-3010 | a buffer taken by the loop is a step of the machine that takes the same buffer |
| CutThrough.TakeLeaves | src/message.c:2983-3010 | so is leaving a slot: the index moves exactly when the slot is empty |
| CutThrough.TakeEnds | src/message.c:2983-3010 | the end of the call is the rest of the consumer's pass, with the same wake-up of the producer |
| CutThrough.UnicastRing.ProduceBuffers | src/message.c:2970-2980 | a list of buffers put into a ring with room is appended to the ring's contents, by steps of the machine that produce exactly that list and end with the consumer woken if it listens |
| CutThrough.UnicastRing.DrainSlot | src/message.c:2983-3010 | the inner loop takes buffers off the front in order until the slot is empty or the limit is reached, each by a step of the machine |
| CutThrough.UnicastRing.ConsumeBuffers | src/message.c:2983-3010 | the buffers taken are the front of the contents, as many as the limit allows, by steps of the machine that consume exactly these; the producer is woken exactly when a slot was freed and fewer than the threshold are full |
| RingPasses.SendSlot | src/message.c:1994-2006 | the inner loop sends from one slot in order until it is empty or the capacity is used up |
| RingPasses.SendTurn | src/message.c:1990-2013 | one turn of the send loop: the slot is left exactly when it is empty, and the pass is held exactly when an unaborted content has used up the capacity |
| RingPasses.SendChecks | src/message.c:2014-2022 | behind the loop, the message is marked as sent exactly if the content is aborted or complete and the indices are equal |
| RingPasses.SendBuffers | src/message.c:1983-2029 | a whole send pass, by steps of the machine: what is sent is the front of the contents up to the first buffer that uses up the capacity; send-complete is set if and only if it was, or the content is aborted or complete and the indices are equal; the producer is woken exactly when not, a slot was freed and fewer than 4 are full |
| RingPasses.NoCapacityNoEnd | src/message.c:1983-2013 | a pass over an aborted content with no capacity and something in the ring comes back to the same state in three steps |
| RingPasses.FillSlot | src/message.c:1637-1652 | the inner receive loop takes at most 16 buffers, or all there are, and sees the end of the link only if it asked for more |
| RingPasses.ReceiveTurn | src/message.c:1659-1693 | one turn of the receive loop fills and publishes one slot |
| RingPasses.ReceiveBuffers | src/message.c:1654-1699 | a whole receive pass, by steps of the machine: the link's buffers go into the ring in order, 16 to a slot, until 7 slots are full or they are used up; the message is complete exactly if it was or the end was reported; the consumer is woken exactly if a slot was filled |
| RingPasses.PollSteps | src/message.c:2949-2953 | an adaptor finds room exactly if the ring is not full |
| RingPasses.Relay | src/message.c:1983-2980 | for every list of lists of buffers and all capacities: a message offered as there is room and sent in passes is delivered whole, in order, and marked as sent |
| Multicast.AdvanceMoves | src/message.c:468-496 | moving along the chain ends that many octets further in the stream |
| Multicast.NextIsListed | src/message.c:2102-2200 | the buffer behind one in the list is the next listed that arrived, whatever has been freed in between; there is none only behind the last |
| Multicast.GiveBackKeeps | src/message.c:1145-1176 | when a copy gives back a stretch it holds, every count stays right and no buffer that anyone still holds leaves the list |
| Multicast.PushKeeps | src/message.c:1785-1845 | appending a received buffer with the present number of copies keeps every count right |
| Multicast.FinishKeeps | src/message.c:1785-1815 | completing the message keeps the invariant |
| Multicast.ProtectKeeps | src/message.c:838-881 | protecting the buffers of a parsed section, at any time the guard lets the parser through, keeps the invariant |
| Multicast.ProtectedKept | src/message.c:866-881 | the number of protected buffers is that of the listed ones up to the last protected |
| Multicast.ParserKeeps | src/message.c:2290-2300 | starting the parse at the head, and moving on, keeps the invariant |
| Multicast.TransferKeeps | src/message.c:2115-2141 | sending part of a buffer keeps the invariant |
| Multicast.BeginKeeps | src/message.c:2052-2100 | the first send, which skips the old router annotations, keeps the invariant |
| Multicast.SettleKeeps | src/message.c:2143-2187 | giving up a buffer sent whole, and moving to the next, keeps the invariant |
| Multicast.FailKeeps | src/message.c:2124-2136 | a failed send aborts the content and keeps the invariant |
| Multicast.FreeKeeps | src/message.c:1145-1176 | freeing a copy in the middle of sending keeps the invariant |
| Multicast.AddFanoutKeeps | src/message.c:1398-1429 | adding a copy at any time keeps the invariant, also when the pending buffer has to be appended first; the copy's missing buffers are those freed behind the head |
| Multicast.StepKeepsInv | src/message.c:1145-2200 | every step of every thread keeps the invariant: every count is right for the copies that hold the buffer, and each copy has sent its own stream so far |
| Multicast.RunKeepsInv | src/message.c:1145-2200 | the invariant holds in every state of every interleaving, however late copies are added and sections parsed |
| Multicast.UnsentBuffersStay | src/message.c:1145-1176 | in every interleaving no buffer leaves the list while a live copy that got it has yet to send from it, and its count is never below the number of copies at or before it |
| Multicast.CopiesSendTheStream | src/message.c:2102-2200 | in every interleaving what a copy has sent is a stretch of the one stream, less the buffers already gone when it was added, from where it began; a copy complete and unaborted has sent that to the end |
| Multicast.RunKeepsCopies | src/message.c:2102-2200 | in every interleaving a copy keeps where it began and which buffers it never got |
| Multicast.NoneMissing | src/message.c:1398-1429 | a new copy misses nothing if and only if no buffer behind the head has been freed |
| Multicast.EarlyCopiesSendPrefixes | src/message.c:2102-2200 | when all copies are added before a buffer is freed, each has sent a prefix of the same content less the section it skipped, and all of it when complete and unaborted |
| Multicast.CopyIsSoundIffGapless | src/message.c:1398-1429 | in every interleaving, a copy that completes unaborted has sent the whole stream from where it began if and only if no buffer behind the head had been freed when it was added; otherwise it has sent fewer octets |
| MulticastCases.LateCopySkips | src/message.c:1398-1429 | an interleaving from the start in which a copy added late completes unaborted with `[10, 12]` of the stream `[10, 11, 12]` |
| Multicast.StepListed | src/message.c:1145-2187 | for every step, the buffers it takes off the list: those of a freed copy that no other holds and nothing protects, and the one a settled copy leaves as its last holder |
| Multicast.SettleCounts | src/message.c:2143-2187 | the counter of freed buffers goes up by exactly the buffers a send frees |
| Multicast.GuardIsEnough | src/message.c:2290-2300 | in every interleaving, while the counter of freed buffers is zero, the buffer the parser stands in is gone if and only if an earlier free of a copy was by its only holder with nothing protecting it |
| MulticastCases.GuardMisses | src/message.c:1154-1162 | an interleaving in which the counter is zero, the list is not empty, and the parser's buffer is gone |
| Multicast.Q2StepExact | src/message.c:2843-2856 | each step keeps "held off implies at least 32 unprotected buffers, and protected buffers are listed", if and only if it is not a header parsed while held off that leaves fewer than 32 |
| Multicast.HoldoffIsHysteresis | src/message.c:2843-2856 | receiving is held off if and only if a checked push for a bounded link leaves 64 or more unprotected buffers with Q2 on, and resumed if and only if Q2 is disabled or fewer than 32 are left once a buffer or a copy is given up |
| Multicast.FewBuffersWait | src/message.c:1821-1841 | in every interleaving with Q2 on whose receiver pushes only while not held off, fewer than 64 unprotected buffers are listed while it is not held off, and no more than 64 otherwise, plus one for each push without a check |
| MulticastCases.ShortTransfers | src/message.c:1880-1893 | for every number, an interleaving in which so many buffers of short transfers wait and receiving is not held off |
| Multicast.KeptGrows | src/message.c:866-881 | parsing more headers never protects fewer buffers |
| Multicast.DisabledForGood | src/message.c:2821-2840 | in every interleaving, once Q2 has been disabled receiving is never held off again |
| Multicast.AbortIsFinal | src/message.c:2124-2136 | in every interleaving, once the content is aborted it stays so and no copy sends any more |
| Multicast.Q2Run | src/message.c:2758-2856 | in every interleaving where headers are parsed while receiving is not held off, holdoff implies at least 32 unprotected buffers and protected buffers never exceed the list |
| Multicast.LateParseStrands | src/message.c:866-881 | a step leaves receiving held off with fewer than 32 unprotected buffers if and only if it is such a parse |
| Multicast.StrandedUntil | src/message.c:1145-2187 | that holdoff ends exactly when Q2 is disabled or a send frees a buffer; freeing a copy does not end it |
| Multicast.LateParseExample | src/message.c:866-881 | such a content, with 64 buffers of which 33 turn out to hold headers |
| Multicast.Content.DropReference | src/message.c:1157-1160 | the count of a buffer is lowered, and the buffer leaves the list when that was its last reference |
| Multicast.Content.ReleaseFrom | src/message.c:1154-1162 | the loop of a freed copy gives back exactly the listed buffers from its own to the end, also over a list with gaps |
| Passes.RunGoesOn | src/message.c:1702-2229 | a pass of either loop continues an interleaving, so that the theorems about interleavings speak of passes |
| Passes.BeginMoves | src/message.c:2052-2100 | the first send of an aborted content completes with nothing sent; any other begins at the head of the list, less the section skipped |
| Passes.TransferMoves | src/message.c:2115-2141 | a partial send moves the copy along its buffer by exactly the octets taken and changes nothing else |
| Passes.OthersMove | src/message.c:1145-2200 | no step of another thread moves a sending copy or changes what is left of its buffer |
| Passes.Others | src/message.c:2102-2213 | any steps of other threads between two turns of the send loop leave the pass under way, with the copy where it was |
| Passes.SettleMoves | src/message.c:2143-2187 | a buffer sent whole is followed by the next listed, with none of the copy's own in between; without one the copy is complete if the message is, and else waits where it is |
| Passes.SendPass | src/message.c:2102-2213 | the send loop, with a link that takes any amount or fails and any steps of other threads between its turns: it sends at most the session's capacity, in stream order, and stops early only if the link refused, the content was aborted, or else has sent all of its own stream that was received and is complete if the message is |
| Passes.PushMoves | src/message.c:1785-1845 | appending or finishing loses and reorders no octet and leaves nothing pending |
| Passes.OthersLetReceive | src/message.c:1145-2200 | no step of another thread loses, adds or completes what the receiver has, except that a new copy may append the pending buffer |
| Passes.OthersReceiving | src/message.c:1755-1899 | any steps of other threads between two turns of the receive loop leave its pass under way |
| Passes.Append | src/message.c:1785-1845 | appending the pending buffer, or the end of the message, goes on with the pass |
| Passes.Read | src/message.c:1846-1879 | one read takes at least one octet and no more than the pending buffer has room for |
| Passes.ReceivePass | src/message.c:1755-1899 | the receive loop, with reads of any size, a size limit, and any steps of other threads between its turns: what was there followed by what was read is all received, in order; the pass ends exactly because the message is whole, because receiving is held off, because the limit is passed, or because nothing more has come and all is in the list; on the way it pushes full buffers only, each checked, and goes on only while fewer than 64 unprotected buffers wait |
| Passes.StepReceives | src/message.c:1398-1899 | only receiving adds octets to what the content has, and no step of anyone loses or reorders any |
| Passes.RunReceives | src/message.c:1755-1899 | in every interleaving the chain and the pending buffer hold exactly the octets that came, in order |
| Passes.CopiesSendWhatCame | src/message.c:2102-2200 | in every interleaving whose copies are added before a buffer is freed, each copy has sent a prefix of what came less the section it skipped, and all of it when complete and unaborted |
| Amqp.NumberOfBytes | src/compose.c:87-116 | reading back a number written most significant octet first gives the number |
| Amqp.SignedPattern | src/compose.c:338-361 | reading a two's complement pattern of 8, 32 or 64 bits gives the signed number it was made from |
| Amqp.ParseHeader | src/parse.c:95-178 | the header decoder never leaves its field, and on success the value it names ends where the cursor ends |
| Amqp.Parse | src/parse.c:186-216 | the decoder never leaves its field, and on success it consumes at least one octet |
| Amqp.NodeBound | src/parse.c:186-216 | whatever the count fields claim, a decode makes at most one node per octet and one more, and one per octet when it succeeds |
| Amqp.ChildrenBound | src/parse.c:186-216 | the same for the children of one field |
| Amqp.ParseNests | src/parse.c:186-216 | in a successful decode every child lies inside its parent's value, and siblings follow each other end to end |
| Amqp.EndToEndOrdered | src/parse.c:186-216 | so the extents of siblings are ordered and disjoint |
| Amqp.DecodeScalar | src/parse.c:95-216 | every null, boolean, int, uint, long and ulong is read back from its encoding, in all its widths |
| Amqp.DecodeCompound | src/parse.c:186-216 | a list or map decodes to its items in order |
| Amqp.DecodeEncode | src/parse.c:95-216 | for every nested value under 2^32 octets, wherever its encoding stands in a stream, decoding gives the value back and consumes exactly its encoding |
| Grammar.HeaderIsValue | src/parse.c:95-178 | a header that is accepted has behind it one value of the formats of the standard, with its size and count |
| Grammar.ParseIsWellFormed | src/parse.c:186-216 | whatever the decoder accepts is a well-formed value that ends where the decoder says |
| Grammar.WellFormedParses | src/parse.c:186-216 | every well-formed value is accepted wherever it stands |
| Grammar.ParsesExactly | src/parse.c:186-216 | for every stream and place, the decoder succeeds if and only if a well-formed value stands there, and ends behind it; well-formedness is a grammar over octets of its own |
| Grammar.CutIsRefused | src/parse.c:95-178 | a well-formed value cut off anywhere is refused |
| Grammar.EncodedIsWellFormed | src/compose.c:146-207 | the encoding of every value is well formed |
| Grammar.EncodeIsShortest | src/compose.c:308-500 | whatever octets the decoder reads a number, truth value or octet string from, its encoding is no longer |
| Numbers.WordsAreNumber | src/parse.c:361-530 | octets and 32-bit words put together as the conversions do give the number the octets encode |
| Numbers.ULongExact | src/parse.c:361-446 | for every tag but text: reading a field as unsigned gives the number in it if that is not negative and is refused otherwise, except that a time before the epoch wraps round |
| Numbers.LongExact | src/parse.c:465-572 | for every tag but text: reading a field as signed gives the number in it, except that a time is refused, a truth value is taken as a signed octet, and an unsigned number is refused from half the range of its encoding on |
| Numbers.ConvertsEncoded | src/parse.c:345-596 | for every scalar value, wherever its encoding stands: which number, if any, each of the five conversions gives, in both directions |
| Numbers.ReadsBackAsItself | src/parse.c:345-596 | every number or truth value reads back as itself through the conversion of its own type |
| Numbers.FittingNumberRefused | src/parse.c:534-563 | the unsigned number 200 is refused as a signed one of 64 bits, and 256 is not |
| BufferField.Normalize | src/buffer_field_api.h:38-48 | the cursor moves onto the next octet and stays at the same place of the stream |
| BufferField.Copy | src/buffer_field_api.h:88-118 | copies the next octets of the stream, across buffers, as many as asked for or left |
| BufferField.Advance | src/buffer_field_api.h:127-152 | moves past as many octets as asked for or left |
| BufferField.NextOctet | src/buffer_field_api.h:161-173 | gives the next octet of the stream if and only if one is left |
| BufferField.NextUInt32 | src/buffer_field_api.h:185-196 | gives the next four octets as a number if and only if four are left, and else does not move |
| BufferField.Equal | src/buffer_field_api.h:227-264 | says whether the field starts with the given octets, and moves past them only then |
| Compose.RenderAdd | src/compose.c:61-84 | appending the encoding of a value to what is written adds that value to the innermost open list or map |
| Compose.RenderClose | src/compose.c:187-207 | writing size and count over the placeholders of the innermost level gives the encoding of that list or map as an item of the level around it |
| Compose.InsertKeeps | src/compose.c:61-84 | octets appended keep every recorded place and are counted in the innermost length |
| Compose.ItemKeeps | src/compose.c:36-58 | one item more keeps lengths and counts of all open levels right |
| Compose.OpenKeeps | src/compose.c:146-184 | opening a level records where its size and count go |
| Compose.CloseKeeps | src/compose.c:187-207 | closing a level adds its length to the one around it and keeps all levels right |
| Compose.Composer.constructor | src/compose.c:210-226 | a new field holds nothing |
| Compose.Composer.Insert | src/compose.c:61-84 | octets are appended to the chain, filling the last buffer and adding new ones, and no octet or place moves |
| Compose.Composer.BumpCount | src/compose.c:36-41 | the innermost level counts one item more |
| Compose.Composer.Overwrite | src/compose.c:119-131 | one octet of the stream is replaced, and the place moves to the next octet, in the next buffer where need be |
| Compose.Composer.Overwrite32 | src/compose.c:134-143 | four octets of the stream are replaced by a 32-bit number, across buffers where need be, and nothing else changes |
| Compose.Composer.Mark | src/compose.c:146-184 | the place recorded is where the next octet of the stream goes |
| Compose.Composer.StartComposite | src/compose.c:146-184 | opens a list or map inside the innermost level |
| Compose.Composer.EndComposite | src/compose.c:187-207 | closes the innermost level: the stream then holds its encoding, with size and count, as an item of the level around it |
| Compose.Composer.InsertNull | src/compose.c:294-298 | adds null to the innermost level |
| Compose.Composer.InsertEmptyList | src/compose.c:275-279 | adds the empty list, in its own short form |
| Compose.Composer.InsertBool | src/compose.c:301-305 | adds a boolean |
| Compose.Composer.InsertUInt | src/compose.c:308-320 | adds a uint, in the shortest of three forms |
| Compose.Composer.InsertULong | src/compose.c:323-335 | adds a ulong, in the shortest of three forms |
| Compose.Composer.InsertInt | src/compose.c:338-348 | adds an int, in the shorter of two forms |
| Compose.Composer.InsertLong | src/compose.c:351-361 | adds a long, in the shorter of two forms |
| Compose.Composer.InsertTagged | src/compose.c:87-116 | a tag and the octets behind it add the value they encode |
| Compose.Composer.InsertSized | src/compose.c:380-500 | adds binary, string or symbol, in the short form below 256 octets |
| Compose.Composer.ComposeValue | src/compose.c:263-452 | a whole nested value adds exactly that value |
| Compose.Composer.ComposeItems | src/compose.c:263-291 | a list or map composed item by item adds exactly that list or map |
| Decode.DecodeValue | src/parse.c:95-178 | checking a header and skipping the value over buffers does what the decoder on flat octets does |
| Decode.DecodeHeader | src/parse.c:95-178 | reading tag, size and count through the cursor agrees with the decoder on flat octets, errors included |
| Decode.DecodeLong | src/parse.c:95-178 | the same for four-octet size and count |
| Decode.DecodeShort | src/parse.c:95-178 | the same for one-octet size and count |
| Decode.DecodeField | src/parse.c:186-216 | the recursive decoder over a chain of buffers gives the same tree, the same extents and the same error as the one on flat octets, and stops at the same octet |
| Decode.DecodeChildren | src/parse.c:186-216 | the same for the loop over the children of a field |
| Decode.DecodeIsBounded | src/parse.c:186-216 | so the decoder over buffers makes at most one node per octet and one more, and its extents nest |
| Decode.ListLength | src/buffer.c:102-111 | the length of a chain is that of its stream |
| Decode.ComposeThenDecode | src/compose.c:146-207 | for every nested value under 2^32 octets and every buffer capacity, the composed chain holds its recursive encoding, and decoding the chain gives the value back and consumes every octet |
| Sections.MatchIsStable | src/message.c:743-756 | a descriptor match or mismatch stays whatever octets follow |
| Sections.SectionIsStable | src/message.c:722-900 | any answer of the section check but "need more" stays whatever octets follow |
| Sections.DepthIsStable | src/message.c:2232-2273 | a verdict on one section other than "incomplete" stays whatever arrives, and only an accepted section changes the parse |
| Sections.Resumes | src/message.c:2276-2452 | a check of several sections that stops and is asked again later ends as if it had been asked only later |
| Sections.CheckResumes | src/message.c:2276-2452 | the same from any state a parse may be in |
| Sections.CheckKeeps | src/message.c:2276-2452 | a check never moves or drops a section location found before |
| Sections.ResumableIsOneShot | src/message.c:2276-2452 | however the stream is cut into arrivals and whatever depths are asked for, each final verdict and each location found is that of one parse of the complete stream |
| Sections.VerdictsStay | src/message.c:2276-2452 | a verdict other than "incomplete" is given again to everyone who asks for that depth later |
| SectionScan.CanAdvance | src/message.c:442-453 | an octet can be consumed if and only if the stream goes on, and the place does not change |
| SectionScan.Advance | src/message.c:468-496 | moving on by a signed count succeeds if and only if there is an octet and all of them are there; a negative count moves nothing |
| SectionScan.NextOctet | src/message.c:551-559 | gives the next octet of the stream if and only if there is one |
| SectionScan.MatchPattern | src/message.c:737-756 | comparing a descriptor across buffers gives the specified answer |
| SectionScan.ReadSize | src/message.c:794-831 | reads a big-endian size of one or four octets if and only if all of it is there |
| SectionScan.IsExpected | src/message.c:761-764 | a tag is accepted if and only if it is one of those listed for the section |
| SectionScan.SkipValue | src/message.c:833-838 | skipping a value gives the specified answer, with its length |
| SectionScan.CheckSection | src/message.c:722-900 | the section check over a chain of buffers gives the specified answer, location and next place, error cases included |
| SectionParser.ScanSection | src/message.c:722-900 | the same, with the places of the chain read as offsets of the stream |
| SectionParser.ScanTwoForms | src/message.c:2232-2273 | the short descriptor is tried first and the long one if that does not match |
| SectionParser.LocationsStay | src/message.c:722-900 | what arrives later moves no section location, as an offset of the stream |
| SectionParser.Parser.constructor | src/message.c:2276-2300 | a new parse has found nothing |
| SectionParser.Parser.Arrive | src/message.c:1785-1845 | octets that arrive extend the stream and leave the parse as it is |
| SectionParser.Parser.Complete | src/message.c:1785-1815 | completing the stream leaves the parse as it is |
| SectionParser.Parser.SettleScan | src/message.c:2232-2273 | the answer of a section check is turned into the specified verdict and parse state, for optional and required sections and at the end of the stream |
| SectionParser.Parser.CheckBody | src/message.c:2276-2452 | the body is looked for as value, data and sequence, as specified |
| SectionParser.Parser.CheckSectionAt | src/message.c:2276-2452 | one depth of the parse does what the specification on flat octets does |
| SectionParser.Parser.CheckDepthNow | src/message.c:2276-2465 | a depth check over buffers gives the verdict and the parse state of the specification on flat octets, so that `Sections.ResumableIsOneShot` and `Messages.OneShotFinds` speak of it |
| SectionParser.ArriveUpTo | src/message.c:1785-1845 | octets that arrive in buffers of any sizes extend the stream and leave the parse as it is |
| SectionParser.ParseHistory | src/message.c:2276-2465 | a parser fed a stream in any buffers and asked for any depths at any times: each final verdict and each location found is that of one parse of the complete stream, a final verdict is given again, and once all is there and asked for, state and verdict are those of that parse |
| SectionParser.HistoryIsOneShot | src/message.c:2276-2452 | so for the answers of the specification to any history of arrivals and requests |
| Messages.SectionIsFound | src/message.c:722-900 | a descriptor with one value of a listed tag behind it is found: its place, the length of the value and of the descriptor, its tag; and the check goes on behind the value |
| Messages.DepthFinds | src/message.c:2232-2465 | the same for each depth, with its descriptors and tags given as numbers |
| Messages.FoundInPlace | src/message.c:2232-2465 | the same for every stream taken apart, and the parse goes on where the decoder ends the value |
| Messages.DepthPasses | src/message.c:2254-2257 | where the section of another depth stands, a depth is passed over |
| Messages.DepthRefuses | src/message.c:758-767 | a value of another type is an error, but a body of data or of a value is then taken for no body |
| Messages.DepthWaits | src/message.c:2259-2272 | a section cut off is waited for; at the end of the stream it is an error, but a body of data or of a value is taken for no body once its descriptor is there |
| Messages.HugeIsNotSkipped | src/message.c:468-496 | a section of 2^31 octets or more is found, and the check goes on inside it |
| Messages.HugeClaim | src/message.c:833-838 | a stream of nine octets in which such a section is found |
| Messages.OneShotFinds | src/message.c:2276-2452 | for every list of sections in order, each with a descriptor of its depth and one value of a permitted type, and every depth asked for: exactly the sections up to that depth are found, each exactly where it stands |
| Messages.ParseMessage | src/message.c:2276-2465 | a parser fed such a message in any buffers and asked for any depths on the way ends with exactly its sections, and reports no error |
| Timers.ElapsedDue | src/timer.c:115-132 | time passing brings every timer closer by that time, down to zero |
| Timers.InsertedDue | src/timer.c:211-257 | a timer put into the list is due when asked, and no other timer's delay changes |
| Timers.RemovedDue | src/timer.c:101-111 | taking a timer off changes no other timer's delay |
| Timers.ScheduleKeeps | src/timer.c:211-257 | scheduling, also of a listed or running timer, keeps list membership, phase and reference count of every timer in step |
| Timers.CancelKeeps | src/timer.c:260-277 | cancelling keeps them in step |
| Timers.FreeKeeps | src/timer.c:174-202 | freeing keeps them in step |
| Timers.FireKeeps | src/timer.c:299-337 | taking a due timer off to call it keeps them in step |
| Timers.StepKeepsLife | src/timer.c:101-337 | every step of every thread keeps them in step |
| Timers.TimersLiveLongEnough | src/timer.c:101-337 | in every interleaving a timer is listed exactly when its phase is "scheduled", and its count is one for the user, one for the list and one for each callback in flight, so it is never freed while listed or running |
| Timers.AdjustExact | src/timer.c:115-132 | a clock reading keeps every delay equal to what is left of the deadline, if and only if the time base is not zero, or the reading is zero, or nothing is left to wait for |
| Timers.ClockFromZero | src/timer.c:115-132 | a list and a reading after zero for which the delay is not counted down |
| Timers.StepKeepsDelays | src/timer.c:211-337 | every step with a positive clock that never goes back keeps every listed delay equal to what is left of the requested deadline |
| Timers.NeverEarly | src/timer.c:299-337 | in every such interleaving no timer fires before the deadline it was last scheduled for, read off the requests made |
| Timers.NoneLeftDue | src/timer.c:299-337 | when a visit finds nothing more to fire, every listed timer was last scheduled for a time after its last clock reading |
| Timers.ArmsForTheLeast | src/timer.c:250-333 | the delta of the head, for which the timeout is armed, is the least time left until a requested deadline of a listed timer |
| Timers.RunReads | src/timer.c:115-257 | in every interleaving the time base is the last clock reading, and each deadline is the time and delay of the last request |
| TimerCalls.RunShows | src/timer.c:101-337 | in every interleaving the phase of a timer is what its requests say, read off them alone; a timer that is gone was deleted |
| TimerCalls.ListedExactly | src/timer.c:101-337 | in every interleaving a timer is listed, and may fire, if and only if a request to schedule it has come that no firing, effective cancel or effective free has stopped since |
| TimerCalls.StoppedIsOff | src/timer.c:260-277 | in every interleaving a timer whose cancel or free has taken effect is not listed and cannot fire until it is scheduled again |
| Timers.TimerList.constructor | src/timer.c:284-289 | a new list is empty |
| Timers.TimerList.AdjustNow | src/timer.c:115-132 | the loop takes the elapsed time off the deltas at the front as specified |
| Timers.TimerList.Insert | src/timer.c:211-257 | the loop finds the place of a timer and splits the delta of the one behind it, as specified |
| Timers.TimerList.Remove | src/timer.c:101-111 | the timer goes and the one behind takes over its delta, as specified |
| TimerCalls.Service.constructor | src/timer.c:284-289 | a new service has no timers |
| TimerCalls.Service.CancelLocked | src/timer.c:101-111 | a scheduled timer is taken off the list, any other is left alone |
| TimerCalls.Service.ScheduleTimer | src/timer.c:211-257 | the call over list and timers is the step of the machine |
| TimerCalls.Service.CancelTimer | src/timer.c:260-277 | so is a cancel that need not wait, and one that has waited |
| TimerCalls.Service.FreeTimer | src/timer.c:174-202 | so is a free |
| TimerCalls.Service.FireNext | src/timer.c:299-337 | taking the head off for its callback is a step, and is done exactly if the head is due |
| AllocPool.Stack.constructor | src/alloc_pool.c:134-140 | a new stack is empty |
| AllocPool.Stack.PreviousChunk | src/alloc_pool.c:142-155 | stepping back to the full chunk below changes no item |
| AllocPool.Stack.NextChunk | src/alloc_pool.c:188-202 | stepping on to the next chunk, made where missing, changes no item |
| AllocPool.Stack.Push | src/alloc_pool.c:204-214 | one item is put on top, across chunk ends |
| AllocPool.Stack.Pop | src/alloc_pool.c:157-174 | the top item is taken off, across chunk ends; nothing if and only if the stack is empty |
| AllocPool.Stack.TakeTop | src/alloc_pool.c:216-244 | items are taken off the top chunk as they lie there |
| AllocPool.Stack.PutTop | src/alloc_pool.c:216-244 | items are put on the top chunk as they come |
| AllocPool.MoveSome | src/alloc_pool.c:216-244 | one turn of the bulk move moves at least one item and no more than fit both top chunks and the limit |
| AllocPool.Move | src/alloc_pool.c:216-244 | the bulk move takes exactly the requested number, or all there are, off the top of one stack and adds the same multiset to the other, whose items stay below |
| AllocPool.TakeKeeps | src/alloc_pool.c:267-378 | taking an item from the thread's list conserves all items and counters |
| AllocPool.RefillGlobalKeeps | src/alloc_pool.c:267-378 | refilling from the global list conserves them |
| AllocPool.RefillKeeps | src/alloc_pool.c:267-378 | refilling from the heap conserves them |
| AllocPool.GiveKeeps | src/alloc_pool.c:382-447 | giving an item back conserves them |
| AllocPool.RebalanceKeeps | src/alloc_pool.c:382-447 | moving a batch to the global list and freeing what is over its maximum conserves them |
| AllocPool.StepKeepsConserved | src/alloc_pool.c:267-447 | every step of every thread conserves them |
| AllocPool.ItemsAreConserved | src/alloc_pool.c:267-447 | in every interleaving an item is in at most one of a caller's hands, one thread's list and the global list, and held by threads plus global size is allocated less freed |
| AllocPool.StepKeepsLists | src/alloc_pool.c:267-447 | with a positive maximum no smaller than a batch, every list ends each call below its maximum, and each move to the global list is one whole batch |
| AllocPool.BelowExactly | src/alloc_pool.c:382-447 | all lists stay below the maximum in all interleavings, if and only if the maximum is positive and no smaller than a batch |
| AllocPool.OverRun | src/alloc_pool.c:382-447 | for any other configuration, a run of one thread that goes over |
| AllocPool.DrawsOnlyWhenShort | src/alloc_pool.c:315-356 | items come new from the heap only for an empty list while the global list has no whole batch, and then one batch |
| AllocPool.GlobalIsBounded | src/alloc_pool.c:434-445 | in every interleaving the global list keeps to its limit |
| AllocPool.MemoryIsBounded | src/alloc_pool.c:267-447 | in every interleaving, if the callers never hold more than some number of items, no more than these, a full list for each thread and one batch are taken from the heap and not given back |
| AllocCalls.Desc.constructor | src/alloc_pool.c:725-735 | a new descriptor has an empty global list and zero counters |
| AllocCalls.TakeTopItem | src/alloc_pool.c:267-378 | popping the thread's stack is the step that takes that item, or the list is empty |
| AllocCalls.Draw | src/alloc_pool.c:337-353 | the loop that fills an empty list from the heap adds one batch of new items |
| AllocCalls.Refill | src/alloc_pool.c:315-356 | refilling an empty list is a step of the machine: a batch comes off the top of the global list if it has one, and else from the heap |
| AllocCalls.Alloc | src/alloc_pool.c:267-378 | a call that allocates, over stacks and counters, is a series of steps that adds the item given out to the callers' hands: the top one of the thread's list, or after a refill that takes exactly one batch off the global list if it has one, and draws from the heap only if not; none is given only if a batch is empty |
| AllocCalls.Trim | src/alloc_pool.c:434-445 | the loop that frees from the global list frees exactly what is over its maximum and counts it |
| AllocCalls.GiveBatch | src/alloc_pool.c:421-447 | moving a batch to the global list and trimming it is one step of the machine; lengths and the counter of freed items are exact |
| AllocCalls.Dealloc | src/alloc_pool.c:382-447 | a call that gives an item back is a series of steps that takes it out of the callers' hands: it goes on top of the thread's list, and if that reaches its limit one batch goes to the global list, less what is over the limit there, which is freed |
| Prefix.SegmentsAreCandidates | src/iterator.c:949-981 | the segments up to a point are exactly the prefixes that end before a separator, shortest first, each with its hash |
| Prefix.SegmentsOfView | src/iterator.c:949-981 | the segments of a view are those prefixes and the whole view |
| Prefix.AddressIterator.constructor | src/iterator.c:532-545 | a new iterator shows the prefix character and the text |
| Prefix.AddressIterator.TrimView | src/iterator.c:617-633 | the view is cut to the given length, the text before the prefix character |
| Prefix.AddressIterator.HashViewSegments | src/iterator.c:949-981 | one pass over the view records all segments with the hashes of the whole prefixes |
| Prefix.AddressIterator.NextSegment | src/iterator.c:984-998 | the view is trimmed to the longest segment left, whose hash is given; nothing if and only if none is left |
| Prefix.FoundLongest | src/hash.c:316-334 | the first segment found in the table is the longest stored candidate |
| Prefix.FoundNone | src/hash.c:316-334 | when no segment is found, no candidate is stored |
| Prefix.TrySegment | src/hash.c:316-334 | one turn of the loop: the hash is that of the trimmed view, and either it is the longest stored candidate or the search goes on below it |
| Prefix.RetrievePrefix | src/hash.c:316-334 | the value of the longest stored key that is the whole view or a prefix ending just before a separator, and nothing if and only if there is none |
| Vanflow.PutSets | src/vanflow.c:648-735 | setting an attribute keeps the list sorted and changes that attribute alone |
| Vanflow.PutAllOf | src/vanflow.c:648-735 | as a map, the list changes in that one place |
| Vanflow.AttributeList.Find | src/vanflow.c:253-271 | the backward walk stops at the attribute or at the one it goes behind |
| Vanflow.AttributeList.Set | src/vanflow.c:648-735 | the list becomes the sorted list with that attribute set |
| Vanflow.FlushIsExact | src/vanflow.c:1112-1212 | what the collector has and what a flush sends make up the record's attributes exactly |
| Vanflow.FlushKeeps | src/vanflow.c:1112-1238 | after a flush a followed record has nothing left to send |
| Vanflow.FlushTracks | src/vanflow.c:1112-1238 | a flush, whether it reaches the collector or not, keeps track of which attributes were sent when nobody listened and have not been written since |
| Vanflow.SetKeeps | src/vanflow.c:648-780 | setting an attribute of a waiting record keeps the collector's copy right, and so does setting the value it has |
| Vanflow.ScheduleKeeps | src/vanflow.c:399-448 | scheduling a record puts it on the one list it belongs on, and keeps the deferred list in the order of its ticks |
| Vanflow.StartKeeps | src/vanflow.c:479-565 | starting a record, with no attribute yet and on no list, keeps the invariant |
| Vanflow.EndKeeps | src/vanflow.c:574-621 | ending a record keeps the invariant |
| Vanflow.SetIntKeeps | src/vanflow.c:695-735 | setting a number, scheduled only when it changes, keeps the invariant |
| Vanflow.PostKeeps | src/vanflow.c:1446-1457 | scheduling, refreshing and ending keep the invariant |
| Vanflow.TickKeeps | src/vanflow.c:1290-1339 | a tick, which flushes the slot's four lists and the due front of the deferred list and frees ended records, keeps the invariant |
| Vanflow.StepKeepsInv | src/vanflow.c:399-1526 | every handler step keeps the invariant |
| Vanflow.NoUpdateIsLost | src/vanflow.c:1112-1238 | in every run, what the collector has of a followed record and what the next flush would send of it make up its attribute list, and it has all of a followed record that does not wait |
| Vanflow.StepReflects | src/vanflow.c:399-1526 | every handler keeps the attribute list equal to the map of what was written to the record, and the collector's copy equal to the maps sent laid over each other |
| Vanflow.RunReflects | src/vanflow.c:399-1526 | so in every run, read off its requests |
| Vanflow.SentIsWritten | src/vanflow.c:1112-1238 | in every run, if each attribute lost in an unreached flush is known to the collector with its value, the maps sent and the one to be sent next make up exactly what was written to the record; if every flush reached it there is no such attribute, and nothing is left to send of a record that does not wait |
| Vanflow.OnOneList | src/vanflow.c:399-448 | in every run a record is at most once on at most one flush list |
| Vanflow.TickCountsDown | src/vanflow.c:1513-1526 | a waiting record is flushed at the tick that takes its waiting time to zero, within five ticks, or twenty-five when deferred |
| Vanflow.OthersDoNotDelay | src/vanflow.c:399-448 | no handler but the record's own end changes when a waiting record is flushed |
| Vanflow.FlushedInTime | src/vanflow.c:1290-1339 | in every run a waiting record that has not been flushed has seen fewer than five ticks, or fewer than twenty-five when deferred |
| VanflowTimes.ScheduledFor | src/vanflow.c:399-448 | when a record that is scheduled will be flushed: at the next tick the first time, at its slot's turn of five later, as before if it waits already, and after 25 ticks when a transport flow ends |
| VanflowTimes.FlushesOnItsTurn | src/vanflow.c:1290-1339 | in every run two flushes of one record are a multiple of five ticks apart |
| VanflowTimes.GoesWhenFlushed | src/vanflow.c:1214-1238 | a record is there from its start until the tick that flushes it after its end, and no longer |
| Vanflow.StaysFollowed | src/vanflow.c:1112-1212 | a record stays followed as long as its collector is reached at each of its flushes |
| Vanflow.UnreachedFlushExact | src/vanflow.c:1112-1212 | in every run and for every record, the maps sent and the one to be sent next make up what was written, if and only if each attribute flushed when the collector was not reached, and neither written nor refreshed since, is known to it with its value |
| VanflowTimes.SendsWhatChanged | src/vanflow.c:1112-1212 | in every run, the next flush of a record sends every attribute written since its last flush, and no other if it was never refreshed |
| VanflowTimes.RefreshResends | src/vanflow.c:1112-1238 | after a refresh an attribute is sent with each flush until the ordinal, counted from zero again, has passed its stamp, and no longer |
| VanflowCases.LostUpdate | src/vanflow.c:1112-1212 | a run in which an attribute flushed while the collector is not reached is not sent by the flushes that reach it later |
| VanflowCases.RewrittenUpdate | src/vanflow.c:1112-1212 | a run in which the attribute is written in between and so is sent after all |

## Left out

Within the modelled areas:

- Tokens: the NUL at the end of a text is the length of the array part in use; characters are Dafny characters.
- TrieNodes: node prefixes are unbounded numbers, so fewer than 2^32 nodes are ever created; a node's identity is its prefix, and nodes are entries of a map, not linked objects.
- ParseTree.ParseTree.RetrieveMatch: for MQTT trees that hold patterns ending in `#.#`, "nothing matches" and best match are about the patterns the search reaches, because the search misses some that match (`TrieSearch.SearchMeaning`).
- ParseTree.ParseTree.Search: for such trees, completeness is stated only when no stored pattern ends in `#.#`; `ParseTree.ReachedIsVisited` says what is visited then.
- Hash: the bucket index is the hash modulo the number of buckets, of which the mask of the source is the case of a power of two; constant and non-constant values are not told apart; a failed allocation is not modelled.
- CutThrough: memory order is that of atomic accesses one at a time. The wake-up of a consumer at the end of a message whose ring is empty is not claimed.
- RingPasses.SendBuffers: not for an aborted content with no capacity and something in the ring, because such a pass does not end (`RingPasses.NoCapacityNoEnd`).
- Multicast: steps are functions on a record of the content, not methods on linked buffers; the loops that free a copy's buffers, send and receive are methods. Sends that are not fanout sends, retransmission of released messages and the octets of new router annotations are left out.
- Multicast.RunKeepsInv: a parse that goes on from a buffer already gone is not a step, because what it would read is no longer the message; `Multicast.GuardIsEnough` says exactly when the code gets there.
- Multicast.Q2Run: holds for runs that parse headers before receiving is held off, because it fails in others (`Multicast.Q2StepExact`, `Multicast.LateParseStrands`).
- Passes.SendPass: other threads step between the turns of the loop; what the source does in one turn under the content lock is one step.
- Passes.ReceivePass: likewise; the size limit ends the pass, and the discarding of the rest of the message is left out.
- Amqp: arrays, described values, floating point and UUIDs are decoded, but not read as values.
- Grammar.ParsesExactly: which error is reported for a value that is not well formed is stated only of the decoder over buffers, against the one on flat octets.
- Numbers.ULongExact: text fields are left out, because what is read from a text is the C library's scanning; it is a parameter of the conversions. The error that a refused conversion leaves on the field, and the debug assertion for tags that have no conversion, are the result "none".
- Numbers.LongExact: text fields are left out likewise.
- Compose: descriptors, values copied from iterators and buffer lists, and strings in two parts; all buffers of a chain have the same capacity.
- BufferField: the cursor is a value that each method takes and gives back, not a record changed in place; duplicating a field and appending one to a list.
- Sections: the fields inside the properties section; the protection of buffers is a step of `Multicast`.
- SectionParser.Parser.CheckDepthNow: the parser's buffers are never freed here; the guard of the source counts only buffers freed by sending, and `Multicast.GuardIsEnough` says when that suffices.
- Timers: durations are not negative; a freed timer is not used again by its owner; waiting for a running callback is a phase, and nothing is claimed about waiters being woken, since a callback that schedules its own timer overwrites that phase.
- Timers.StepKeepsDelays: for clocks that read more than zero, because zero stands for "no time yet" (`Timers.AdjustExact`).
- AllocPool: the order of items in free lists, debug fields, sequence numbers and the memory of the process.
- AllocPool.StepKeepsLists: for configurations where a list can stay below its maximum at all (`AllocPool.BelowExactly`).
- AllocCalls.Alloc: the thread's list exists already; a first call that makes it, and a failed allocation, which ends the process, are left out.
- Prefix: addresses of 7-bit characters without NUL in a view that goes to the end of the text; the other views of an iterator.
- Prefix.AddressIterator.constructor: the read position and the state in which the prefix character is given out are left out, because hashing and trimming work on the whole view from its start.
- Vanflow: ticks and ordinals are unbounded, where the source has 32 and 64 bits; rates, logs, the batches of fifty records in one event message, and the beacons. Records and lists are values, except the attribute list, which is a class.
- Vanflow.ScheduleKeeps: a record whose parent was never logged schedules the parent too; in a run that is a further posting step, and since every posting may come at any time the theorems about runs cover it. Which ancestors are posted, and their logging, are left out.
- Vanflow.StartKeeps: the start time and the parent's identity, which the handler sets next, are further steps of a run that set an attribute; the links between records and their peers and children are left out.

Of the rest of the repository:

- Proton, libwebsockets, the Python agent, logging, the server and main loops: input, output and foreign calls. Receiving and sending are transfers of any size.
- The router core: addresses, links, deliveries, route tables and edge routing.
- The HTTP, TCP and other protocol adaptors.
- Policy, failover lists, trace masks, bit masks and configuration: they would add easier members.
- Memory that runs out, and destruction of whole structures at exit.

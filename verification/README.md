# Verified models of the Go engine and the SDN slice allocator

The project models, in Dafny, the two programs at the heart of the repository, and two small loops beside them:

* the Go rules engine and Monte Carlo tree search of `darknet/examples/go.c`, up to whole runs of `self_go`;
* the slice allocator of `SDN/Network_API`: flow-number windows, the grouping pass, the controller's ledger, the update of
  users' slices, and the two-thread request queue;
* the double-buffered loader of `darknet/examples/detector.c` and the one-hot batcher of `darknet/examples/rnn.c`.

Code that works in place is modelled in place: boards, liberty counts and visited flags are arrays, tree nodes are objects with
mutable counters and child links, the controller's tables and the ledger are fields that methods reassign. Each method is proved
against a specification over values, and the lemmas say what that specification promises.

`dafny verify dfyconfig.toml` checks everything. Every lemma carries `{:induction false}`: where a proof is by induction, the
recursive call is written out. `Facts.Known` is the identity; it only keeps the verifier from taking a long precondition apart.

## The Go engine

A board is a sequence of 1083 bits: the mover's stones, the other side's stones, and the turn plane. `Grid` defines reachability
inside a set of cells by walks, `Board` defines chains and liberties by it, and nothing else in the specifications of the rules
mentions an algorithm.

* *Liberties.* `CalculateLiberties` computes exactly the number of empty points next to a stone's chain, for every board.
* *Moves.* `MoveGo` computes `Moved`; `CaptureExact` and `MoveExact` say what that is in terms of liberties before the move.
* *Legality.* The suicide test looks only at counts from before the move. `SuicideExact` shows it to be the definition of suicide,
  and `LegalExact` that `legal_go` accepts exactly the empty points that avoid the ko position and leave no dead chain.
* *Colours.* `flip_board` is an involution on every board whose turn plane is a bit plane, moving for -1 is moving for 1 in the
  flipped view, legality does not depend on the view, and the ko test compares positions in absolute colours.
* *Search.* A valid node has `total_count` = 1 + the visits over edges that have a child. An illegal try takes the total back but
  not the visit, so the sum over all edges would be false. Every edge with a child is a pass or a legal move, its child's board
  is the flipped board after it, and its visits and value mirror the child's. `SelectMcts` keeps all of this, and its recursion on
  illegal moves terminates because each retry takes one edge out of play for good. What it makes of a node's record is `Simulated`:
  refused choices are ruled out one by one, and the next choice is backed up. `SelectionExact` says this without the retries: the
  edge gone through is the first of highest score among those with a child, the pass and the legal moves, the illegal ones before it
  are struck out, and nothing else changes. A whole search is a run of such steps (`SearchLeads`).
* *Games.* `SelfGo` runs any number of turns. The loop invariant says that both trees, where they exist, stand at the live board in
  the mover's view, which is the assertion of `run_mcts`; it is a precondition of `RootFor`. The games it plays are records that hold,
  for every stone and for the pass that ends the game, the root of the search it was sampled from. That search begins at a fresh node
  if the mover has no tree, and at its tree otherwise; it has the exploration weight of the mover in this game, avoids the position in
  the buffer, and goes on for 500 simulations or until an edge has 500 visits. Before the next ply each tree is the subtree under the
  ply's edge: there is one if and only if the tree was there and that edge had a child. The sampled edge has a child if and only if
  the ply is no suicide, does not restore the position of two plies before and, at the first two plies, does not lead to the position
  that is in the buffer; and the positions up to any ply are without dead chains if and only if no ply before it was a suicide.

Two facts about `self_go` show up in the statements. An illegal try keeps its visit, so it may be sampled and played: the plies that
are not `Kept` are exactly those. And the two ko buffers are not cleared between games, so the searches of the first two plies of a
later game are given positions of the game before. A record carries these as `before`; a proper ply that runs into its one is refused,
at the first and at the second ply alike: `StaleRefusal` gives two games as `SelfGo` may play them, with all their searches, for
every square root. The second ply is no different because its mover has no tree yet, so its search begins at a fresh node. From the
third ply on, and everywhere in the first game, `Kept` and `Proper` are the same.

The network is an oracle that may give any priors >= 0 with a positive prior for the pass, and any winning chance in [0, 1]; the
clamp of occupied points is part of `expand`. Square root is any function that is positive on positive arguments. Floats are reals.
`kos`, a field of the node's record that the program does not have, remembers the boards a node's moves were checked against.

## The slice allocator

The OpenDaylight store is one map of flows and one of meters for each switch.

* *Windows.* Meter k owns the flow numbers from 1 + m(k - 1) to mk. First-free probing keeps a flow in its window if and only if
  the meter holds fewer than m flows. The scan that stops after m + 1 misses removes exactly the meter's flows. The last meter is
  that of the ARP entries; its flows may run past its window, into numbers that no meter owns.
* *Window size.* Users are allowed path 0, and for it twice its connections are enough. The size that `flow_v013.py` computes always
  is at least that (`DoubledWindowSuffices`), although it doubles inside the running maximum: `DoublingSuffices` says for which other
  paths it would do, and `DoublingFallsShort` gives two paths for which it would not. `flow_v012.py` computes twice the largest.
* *Grouping.* The in-place pass over the route list computes `Verdict` for every route and the group table; `ForwardingPreserved`
  shows that rules and groups together deliver to exactly the ports of the routes, and `EntriesConserved` that leaders' paths
  account for every route once.
* *Updates.* `Update` handles any list of addresses and rates. Its contract is the whole effect: flows, meters, topologies and
  ledger rows of the users found, and that everything else is as before. `Session` draws the conclusion for whole runs: after
  bringing up the network and any requests that settle, topologies and rates are what the requests made them, every user's active
  meter has exactly its rules, the other meter none, and the ledger agrees with the switches. `UserPackets` and `ArpPackets` say
  what that does to packets, and `TablePackets` says it of a switch's whole table: with distinct addresses no entry of another user,
  of an old slice or of the ARP meter gets in the way. `ConfiguredPackets` and `ConfiguredArp` say it from the configured paths and
  connections (`RoutesExact`), and `ShippedPackets` for the configuration as shipped.
* *Requests that settle.* The executing thread takes an update for finished when its script prints an error. With a known address
  before an unknown one the script has yet to rebuild then (`WaitsExactly`, `KnownThenUnknown`), and a next request for the same user
  that starts in between can leave its meter with twice its flows, more than its window holds (`OverlappingRebuild`,
  `NoRoomForTwo`). `Session` is for the other requests, and so is `Serve`, which puts the two threads and the controller together.
* *Ledger.* `add_f_l` fills the first free rows; `modify_f_l` followed by it leaves no hole as long as a table belongs to one
  meter, and the listing of `output_flow` is complete if and only if there is no hole.
* *Queue.* The two threads take turns between any two accesses to shared data. A turn of the executing thread carries what it
  reads from the script, an error or not; `Serve` says that the answers are true of the requests if that is what the update
  script prints (`Honest`). `ExecutedInOrder` and `NoneLost` hold for every interleaving, and under every fair one everything
  gets answered (`FairDrains`); without the lock a request can be lost. The receiving thread queues more than the executing
  thread accepts: an address such as 155.0.1.2 is dropped without an answer (`HeardNotWanted`).

Facts about the code that the statements keep: addresses of base station 1 are found by substring, so that an earlier address can
shadow a later one (`OwnAddress`); an unknown address ends the list of orders, and when it is the first the script stops at an unset
variable before it has changed anything; users of base station 2 are given no rules, because their list of paths is empty.

## Model

| member | source | states |
|---|---|---|
| Grid.AdjIsStep | darknet/examples/go.c:212-224 | the four steps of the recursion reach exactly the orthogonal neighbours on the board; rows do not wrap |
| Grid.ReachLeast | darknet/examples/go.c:212-224 | the region of a cell is inside every closed set that holds it |
| Grid.ReachSame | darknet/examples/go.c:212-224 | regions partition the cells, so a chain is the same seen from any of its stones |
| LibertyCounting.PropagateLiberty | darknet/examples/go.c:212-224 | the flood fill terminates, marks its start and nothing outside the chain, and counts each newly marked stone once |
| LibertyCounting.CalculateLiberties | darknet/examples/go.c:227-245 | each stone gets the number of distinct empty points next to its chain, and empty points 0, on every board |
| LibertyCounting.CountAround | darknet/examples/go.c:232-243 | one empty point adds one to exactly the stones whose chain it touches, once even when several neighbours are one chain |
| LibertyCounting.FillsAroundDone | darknet/examples/go.c:236-241 | the fills from all four neighbours mark exactly the stones that have the point as a liberty |
| Moves.RemoveConnected | darknet/examples/go.c:330-341 | the removal terminates and empties cells of the region in atari around its start, and only those |
| Moves.MoveGo | darknet/examples/go.c:344-354 | the board becomes the one with the stone placed and the regions in atari next to it emptied |
| Capture.CaptureExact | darknet/examples/go.c:330-354 | removed are exactly the opponent's stones whose only liberty, before the move, was the point played |
| Capture.MoveExact | darknet/examples/go.c:344-354 | what every cell holds after a move; the turn plane is unchanged, no cell becomes doubly occupied |
| Capture.OwnChainKept | darknet/examples/go.c:344-354 | the mover's chains only grow and keep their liberties other than the point |
| Capture.JoinedChainExact | darknet/examples/go.c:614-635 | without captures, the new stone's chain is exactly the stone and the chains of its colour next to it |
| Capture.SuicideExact | darknet/examples/go.c:614-635 | the suicide test by counts from before the move holds if and only if the new stone's chain has no liberty after it |
| Rules.MakesSafeGo | darknet/examples/go.c:614-623 | the answer for one neighbour, from the counts before the stone is placed; 0 off the board |
| Rules.SuicideGo | darknet/examples/go.c:625-635 | true if and only if no neighbour makes the point safe |
| Rules.FlipBoard | darknet/examples/go.c:286-295 | in place, the two stone planes change places and the turn plane is complemented |
| Rules.CheckKo | darknet/examples/go.c:637-645 | true if and only if the ko board, turned to the same first turn cell, is the board |
| Rules.LegalGo | darknet/examples/go.c:647-656 | accepts exactly the empty points that avoid the ko board and are no suicide, leaving the board alone |
| Survival.AliveIffNotSuicide | darknet/examples/go.c:625-656 | on a board without dead chains, a move leaves no dead chain of either colour if and only if it is no suicide |
| Survival.LegalExact | darknet/examples/go.c:647-656 | legal is: empty, not the ko position, and no dead chain afterwards |
| Survival.OpponentKept | darknet/examples/go.c:344-354 | an opponent chain that is not captured stays whole and keeps all its liberties other than the point |
| Symmetry.FlipInvolution | darknet/examples/go.c:286-295 | flipping twice is the identity |
| Symmetry.KoIsAbsolute | darknet/examples/go.c:637-645 | the ko test is equality of positions in absolute colours, whichever side's view each board is in |
| Symmetry.KoExact | darknet/examples/go.c:637-645 | on uniform turn planes the ko test is: the same stones for the same player |
| Symmetry.FlipChains | darknet/examples/go.c:286-295 | chains and liberties do not depend on the view |
| Symmetry.MoveSymmetric | darknet/examples/go.c:344-354 | moving for -1 is flipping, moving for 1, and flipping back |
| Symmetry.LegalSymmetric | darknet/examples/go.c:647-656 | `legal_go` gives the same answer through either view |
| Codec.StringToBoard | darknet/examples/go.c:53-69 | each cell is decoded from its two bits, first plane first, within bounds up to the last partial byte |
| Codec.BoardToString | darknet/examples/go.c:71-86 | each cell's two bits are packed at its place and the padding bits are zero |
| Codec.CellBits | darknet/examples/go.c:60-61 | the bits of a byte's four cells weigh 1 and 2, 4 and 8, 16 and 32, 64 and 128 |
| Codec.EncodedByte | darknet/examples/go.c:77-82 | each byte of an encoded board from its four cells |
| Codec.DecodeEncode | darknet/examples/go.c:53-86 | decoding an encoded board restores the stone planes if and only if no cell is doubly occupied |
| Codec.EncodeDecode | darknet/examples/go.c:53-86 | encoding a decoded record restores the record if and only if it has no 11 pair and zero padding |
| SearchStats.ScoreBound | darknet/examples/go.c:468 | a score is at least the mean, equal for prior 0 and larger for a positive prior |
| SearchStats.ScoreExact | darknet/examples/go.c:468 | the part of a score beyond the mean, times one more than the visits, is the product of weight, prior and root |
| SearchStats.ScoreFalls | darknet/examples/go.c:468 | with a positive prior the score falls with every visit |
| SearchStats.FreshNode | darknet/examples/go.c:424-452 | the result is the winning chance scaled to [-1, 1]; empty points and the pass have the network's priors and that result as mean, occupied points prior 0 and mean -1; no visits |
| SearchStats.AfterExact | darknet/examples/go.c:496-500 | the child's board shows, from the other side, what the move has left, and after a pass the same stones |
| SearchStats.SumBound | darknet/examples/go.c:505-506 | values bounded by visits on each edge stay bounded in total |
| SearchStats.ExpandedOk | darknet/examples/go.c:424-452 | a fresh node satisfies the accounting, with occupied points ruled out |
| SearchStats.RuleOutStep | darknet/examples/go.c:481-486 | an illegal try keeps the accounting and takes exactly one edge out of play |
| SearchStats.ChoiceLive | darknet/examples/go.c:463-488 | the first edge of highest score is still in play if and only if some edge in play scores above -1, or the first edge is in play |
| SearchStats.RetryForever | darknet/examples/go.c:463-488 | a fresh node with a stone on the first point, no priors and no winning chance: every retry chooses that illegal point again |
| Retries.RetryEnds | darknet/examples/go.c:463-488 | the retry comes to an end if and only if an edge with a child, the pass, or a legal move scores above -1 or is the first edge |
| Retries.NodeHasWay | darknet/examples/go.c:463-488 | on a valid node the pass is such an edge |
| Simulations.SelectionExact | darknet/examples/go.c:461-507 | the selection with its retries is one step: it goes through the first edge of highest score among those with a child, the pass and the legal moves, the illegal ones that come before it are struck out, and no other edge changes; every such step comes about |
| Simulations.TriedSoFar | darknet/examples/go.c:481-488 | after any number of retries each edge is as it was, or is illegal, comes before all that the selection can go on through, and was struck once |
| SearchStats.GrowStats | darknet/examples/go.c:490-506 | expanding a legal edge keeps the accounting and makes the edge mirror its child |
| SearchStats.DescendStats | darknet/examples/go.c:476-507 | a simulation through a child keeps the accounting, the mirror, and what the parent sees |
| SearchStats.OneKo | darknet/examples/go.c:479-495 | as long as a node is checked against one position, its edges with a child are exactly legal against it |
| Search.MctsTree.Expand | darknet/examples/go.c:424-452 | a valid leaf for any board without doubly occupied cells |
| Search.MctsTree.Choose | darknet/examples/go.c:465-473 | the first edge of highest score, which is never one that was ruled out |
| Search.MctsTree.SelectMcts | darknet/examples/go.c:461-508 | terminates, keeps every node of the tree valid, and changes its node's counters by what its parent will add; the record becomes what retries and the step through the next choice make of it, the child there is new or has made a simulation itself, and all other subtrees are as they were |
| Search.MctsTree.GoThrough | darknet/examples/go.c:476-507 | the same for the edge that was chosen |
| Search.MctsTree.Retry | darknet/examples/go.c:481-488 | the retry after an illegal choice, with fewer edges in play: one more rule-out before the step |
| Search.MctsTree.RuleOut | darknet/examples/go.c:481-485 | value and mean -1, prior 0, the total taken back and the visit kept |
| Search.MctsTree.IsLegal | darknet/examples/go.c:481 | the pass is always legal, a stone is put to `legal_go` |
| Search.MctsTree.Grow | darknet/examples/go.c:489-507 | the child is linked, expanded for the position the edge leads to, and value, mean and visit of its edge are backed up; all else is unchanged |
| Search.MctsTree.NewChild | darknet/examples/go.c:490-501 | the child's board is the flipped board after the move or the pass; the second pass in a row ends the line |
| Search.MctsTree.Descend | darknet/examples/go.c:478-507 | one simulation in the child that is there, with the board before as the one to avoid, and its backup; all else is unchanged |
| Search.NetworkPredictRotations | darknet/examples/go.c:393-422 | any priors >= 0 with a positive one for the pass, and any chance in [0, 1] |
| Release.EdgeApart | darknet/examples/go.c:376-391 | subtrees under different edges share no node |
| Release.FreeMcts | darknet/examples/go.c:376-391 | every node of the tree is released exactly once |
| Release.Cut | darknet/examples/go.c:534-537 | taking a child out splits the nodes into the subtree and the rest |
| Release.MoveMcts | darknet/examples/go.c:528-540 | the chosen subtree is returned as it was, every other node is released exactly once, all of them when there is no such child |
| SelfPlay.MaxIntIndex | darknet/examples/go.c:519 | the first index of a largest entry |
| SelfPlay.Simulate | darknet/examples/go.c:517-522 | the simulations keep the tree valid and at its board; they are a run of n, or fewer if some edge has n visits then and none had before |
| SelfPlay.RunMcts | darknet/examples/go.c:510-526 | the board comes back unchanged, the tree stands at it in the player's view, the assertion on the boards holds, and the root is what the search makes of a fresh node or of the tree at hand |
| SelfPlay.PickMove | darknet/examples/go.c:549-584 | any visited edge; never an occupied point; an edge with a child was accepted by the legality test, one without was refused |
| SelfPlay.StepTree | darknet/examples/go.c:528-540 | the subtree under the move remains, as it was, if and only if there is a tree and its edge has a child; otherwise nothing does |
| SelfPlay.FollowBoth | darknet/examples/go.c:1292-1293 | both trees become their subtrees under the move |
| SelfPlay.SearchPly | darknet/examples/go.c:1286-1298 | the move was sampled at the root of a search of the live board that began in the mover's tree, and both trees follow it |
| SelfPlay.PlayStone | darknet/examples/go.c:1313-1314 | the stone is played and the position copied into the buffer |
| SelfPlay.PlyDone | darknet/examples/go.c:1302-1316 | a stone extends the record by a searched ply and re-establishes trees and buffers |
| SelfPlay.PassDone | darknet/examples/go.c:1295-1298 | a pass ends the record with the search it was sampled from |
| SelfPlay.PlayTurn | darknet/examples/go.c:1287-1316 | one turn keeps the state of a game in progress, or ends the game, if and only if a pass was sampled |
| SelfPlay.TakeTurn | darknet/examples/go.c:1278-1316 | whichever tree is to move, with its exploration weight, and with the two buffers swapped after a stone |
| SelfPlay.LoopBody | darknet/examples/go.c:1247-1317 | one round of the endless loop, with the reset after a game |
| SelfPlay.ClearGame | darknet/examples/go.c:1249-1271 | every node of both trees is released once and the board is the empty one turned to the first player |
| SelfPlay.SelfGo | darknet/examples/go.c:1213-1318 | for any number of turns: as many stones and passes as turns; each stone and each final pass with the search it was sampled from, at the position before it, in the mover's tree as the plies before have left it; games that begin with the buffers the last one left and end with a pass, each of them sound; the board at the last position and the trees at the board; the tree assertion never fails |
| GameRecord.SearchOfPly | darknet/examples/go.c:1278-1288 | the search of a ply begins in the mover's tree or at a fresh node, has weight 5 for the player who begins the games of even number and 1 for the other, and ends after 500 simulations or when an edge has 500 visits |
| GameRecord.PositionFacts | darknet/examples/go.c:1302-1316 | no position of a game has a doubly occupied cell or a mixed turn plane |
| GameRecord.NoDeadChains | darknet/examples/go.c:1247-1317 | every position up to a ply is without dead chains if and only if no ply before it is a suicide |
| GameRecord.PassesExact | darknet/examples/go.c:647-656 | a ply's stone passes `legal_go` if and only if it is no suicide and does not lead to the position to avoid |
| GameRecord.KeptIsProper | darknet/examples/go.c:1287-1314 | the edge sampled at the root of the search has a child if and only if the ply is no suicide, does not restore the position of two plies before and, at the first two plies, does not lead to the position left in the buffer; in the first game of a run the last condition is void |
| StaleBuffers.CanSample | darknet/examples/go.c:461-526 | there are searches, from a fresh node to their end, in which any empty point or the pass is sampled, with a child exactly when it is legal |
| StaleBuffers.StaleRefusal | darknet/examples/go.c:1236-1304 | two games as `SelfGo` may play them, of the same two stones: in the second both plies are proper, and both are refused for what the first game has left in the buffers |
| GameRecord.SearchedIsSound | darknet/examples/go.c:1247-1317 | both equivalences for every game whose plies were searched |
| GameRecord.KosAgree | darknet/examples/go.c:1302-1314 | whatever board a search checks against shows the position in the buffer, at every ply |
| GameRecord.SampledLegal | darknet/examples/go.c:481-495 | a child on the sampled edge was accepted, an edge sampled without one was refused, by a board the node was checked against |
| GameRecord.CheckSeen | darknet/examples/go.c:481 | the sampled edge has a child if and only if the stone passes `legal_go` on the board in absolute colours against the position in the buffer |
| FlowTable.WindowsApart | SDN/Network_API/flow_v013.py:345 | windows of different meters do not meet |
| FlowTable.WindowsInTurn | SDN/Network_API/flow_v013.py:345 | meter k has the numbers after m(k - 1) up to mk; the first has 1 to m |
| FlowTable.ProbeLands | SDN/Network_API/flow_v013.py:345-362 | first-free probing lands in the window if and only if the meter holds fewer than m flows |
| FlowTable.ProbeKeepsWindows | SDN/Network_API/flow_v013.py:345-362 | adding a flow keeps every flow where it belongs if and only if the meter is not full, or is the last, whose flows may run on |
| FlowTable.OneFlowMore | SDN/Network_API/flow_v013.py:345-362 | a probe adds exactly one flow to its meter |
| FlowTable.InstallNext | SDN/Network_API/flow_v013.py:345-362 | on an empty window, rules get consecutive numbers in order |
| FlowTable.InstalledWindowed | SDN/Network_API/flow_v013.py:345-362 | installing gives the meter exactly the rules, overwrites nothing, and leaves every other meter's flows alone |
| FlowTable.Store.AddMeter | SDN/Network_API/flow_v013.py:95-175 | the smallest free meter number; its entry is 8000 times the rate, truncated toward zero |
| FlowTable.Store.AddFlow | SDN/Network_API/flow_v013.py:345-362 | the first free number from the base of the meter's window; no other entry changes |
| FlowTable.Store.DeleteMeter | SDN/Network_API/flow_v013.py:179-224 | the scan terminates and takes out exactly the entries of the meter, and those without a meter that are not ARP, that lie before its miss m + 1, so all in the window; on a windowed table these are the meter's flows |
| FlowTable.Store.ModifyMeter | SDN/Network_API/flow_v013.py:227-306 | the meter comes back with 8000 times the new rate, truncated toward zero, and exactly its flows are gone |
| Capacity.MaxFlows | SDN/Network_API/flow_v012.py:14-28 | twice the connections of the largest path |
| Capacity.MaxFlowsDoubling | SDN/Network_API/flow_v013.py:20-35 | the maximum with the doubling inside the loop |
| Capacity.DoublingExact | SDN/Network_API/flow_v013.py:20-35 | the two agree if and only if the first largest path still exceeds the doubled value when its turn comes |
| Capacity.DoublingSuffices | SDN/Network_API/flow_v013.py:20-35 | the window is twice the connections of a path if and only if some path with no fewer exceeds the running value at its turn |
| Capacity.DoublingFirst | SDN/Network_API/flow_v013.py:20-35 | for the first path it always is |
| Capacity.PathWindowExact | SDN/Network_API/flow_v013.py:20-35 | room for a path through a single switch, if and only if the same condition holds |
| Capacity.DoublingFallsShort | SDN/Network_API/flow_v013.py:20-35 | paths of 3 and 5 connections through one switch: ten entries wanted for the second, in a window of six |
| Capacity.ListRoutes | SDN/Network_API/flow_v013.py:1641-1654 | both directions of every connection, in order of paths and switches |
| Capacity.RoutesExact | SDN/Network_API/flow_v013.py:1641-1654 | a route is listed if and only if it takes some configured connection of its path and switch, from first port to second in direction 0, or back in direction 1 |
| Capacity.OutputsJoin | SDN/Network_API/flow_v013.py:1641-1654 | some route leads from one port to another of a switch if and only if a connection there joins them |
| Capacity.AllRoutesOn | SDN/Network_API/flow_v013.py:1641-1654 | every listed route is on a switch of its path |
| Capacity.OneSwitchNeeds | SDN/Network_API/flow_v013.py:1641-1654 | a path through a single switch needs two entries for each connection there |
| Capacity.PathFits | SDN/Network_API/flow_v012.py:14-28 | one path's routes through any switch fit a window of twice its connections |
| Grouping.ClaimOne | SDN/Network_API/flow_v013.py:1675-1706 | a later route with the same switch and input port is struck off and recorded with the leader |
| Grouping.Claim | SDN/Network_API/flow_v013.py:1673-1708 | the inner loop gathers exactly the leader's members, with their paths, directions and differing outputs |
| Grouping.Lead | SDN/Network_API/flow_v013.py:1669-1751 | a leader gets a single-output rule or the next group number of its switch |
| Grouping.GroupRoutes | SDN/Network_API/flow_v013.py:1666-1755 | the whole pass: every route's verdict, and the group table |
| Forwarding.OneLeaderPerKey | SDN/Network_API/flow_v013.py:1668-1755 | at most one leader for each switch and input port |
| Forwarding.LeaderOf | SDN/Network_API/flow_v013.py:1668-1755 | every route has a leader at or before it |
| Forwarding.OutputsExact | SDN/Network_API/flow_v013.py:1670-1708 | a leader's outputs are exactly the out-ports of the routes with its key |
| Forwarding.GroupKeysDiffer | SDN/Network_API/flow_v013.py:1720-1721 | group numbers are unique on a switch |
| Forwarding.ForwardingPreserved | SDN/Network_API/flow_v013.py:1625-1755 | rules and groups deliver a packet to a port if and only if some route does |
| Forwarding.EntriesConserved | SDN/Network_API/flow_v013.py:1685-1706 | whatever is counted, leaders' recorded members account for every route exactly once |
| UserRules.RulesConserved | SDN/Network_API/flow_v013.py:1770-1814 | a user gets as many rules on a switch as there are routes of its paths there |
| UserRules.RulesAreMetered | SDN/Network_API/flow_v013.py:1789-1812 | every rule carries the user's meter |
| UserRules.WindowSuffices | SDN/Network_API/flow_v012.py:14-28 | what a user with one allowed path needs on any switch fits a window of twice that path's connections |
| UserRules.DoubledWindowSuffices | SDN/Network_API/flow_v013.py:20-35 | as configured, with path 0 allowed, the window of flow_v013 is large enough |
| Ledger.AddRecords | SDN/Network_API/flow_v013.py:1432-1464 | the non-empty records go, in order, into the first free rows; used rows stay |
| Ledger.FilledFirst | SDN/Network_API/flow_v013.py:1432-1464 | one flow's record goes into the first row that is empty or has flow number 0 |
| Ledger.FilledCount | SDN/Network_API/flow_v013.py:1432-1464 | no record is lost or made up, up to the number of free rows |
| Ledger.FilledNoHole | SDN/Network_API/flow_v013.py:1432-1464 | filling a table without holes leaves none |
| Ledger.ClearedHoles | SDN/Network_API/flow_v013.py:1466-1501 | clearing a meter leaves no hole if and only if its rows are the last ones filled |
| Ledger.ClearedOneMeter | SDN/Network_API/flow_v013.py:1466-1501 | a table of a single meter comes out empty |
| Ledger.ListingComplete | SDN/Network_API/flow_v013.py:1523-1551 | the listing that stops at the first empty row is complete if and only if there is no hole |
| Ledger.PageListing | SDN/Network_API/flow_v013.py:1523-1551 | after an installation the listing is the rules in order, as far as there are rows |
| Ledger.Book.Add | SDN/Network_API/flow_v013.py:1800 | one table is filled, no other changes |
| Ledger.Book.Modify | SDN/Network_API/flow_v013.py:1466-1501 | the meter's rows go on every switch of one user and topology, nowhere else |
| Ledger.Book.Output | SDN/Network_API/flow_v013.py:1523-1551 | the rows up to the first empty one |
| Slices.Controller.Lookup | SDN/Network_API/multiple_switch_test_v006.py:72-92 | the first user of station 1 whose address contains the one given, else the one of station 2 that equals it, else none |
| Slices.OwnAddress | SDN/Network_API/multiple_switch_test_v006.py:74-79 | a user of station 1 is found by its own address if and only if no earlier address contains it |
| Slices.ShadowedAddress | SDN/Network_API/multiple_switch_test_v006.py:72-79 | 155.0.0.3 stands for the user 155.0.0.34 listed before it |
| Slices.OwnAddress2 | SDN/Network_API/multiple_switch_test_v006.py:81-87 | a user of station 2 is found if and only if no address of station 1 contains its own |
| Slices.RulesFit | SDN/Network_API/flow_v013.py:1768-1831 | a user's rules fit its window, and a user of station 2 has none |
| Slices.InstalledServes | SDN/Network_API/flow_v013.py:1770-1814 | after installation the meter holds exactly the user's rules, in order |
| Slices.LedgerTruthful | SDN/Network_API/flow_v013.py:1523-1551 | what is listed is on the switch; all of the switch's flows are listed if and only if the table has rows enough |
| Slices.Controller.FlipUser | SDN/Network_API/multiple_switch_test_v006.py:95-120 | the topology flips, both meters lose their flows on every switch, the new one has the rate, its ledger tables are empty |
| Slices.FreedNext | SDN/Network_API/multiple_switch_test_v006.py:68-148 | one order more keeps the exact account of what the orders so far have done, also for a user listed twice |
| Slices.Controller.InstallUser | SDN/Network_API/flow_v013.py:1775-1814 | exactly the rules of the allowed paths, on each switch and in the ledger |
| Slices.Controller.CreateTopology | SDN/Network_API/flow_v013.py:1770-1864 | every user not masked by 'none' is served; nothing else changes |
| Slices.Controller.Update | SDN/Network_API/multiple_switch_test_v006.py:65-180 | listed users have exactly the rules of their newly active meter at the last rate, in switch and ledger; all else is as before; what the script prints, in order |
| Slices.Controller.AddArp | SDN/Network_API/flow_v013.py:1718-1749 | the ARP entry of one verdict, to group or port, next in the table and in the ledger |
| Slices.Controller.FirstTopology | SDN/Network_API/flow_v013.py:1575-1864 | groups, exactly one ARP entry for each leader, and the rules of every user |
| Slices.AddMeters | SDN/Network_API/init_network_v4.py:123-127 | on cleared switches user u's meter for topology t is 2u + t + 1 everywhere |
| Slices.NumberedMeters | SDN/Network_API/init_network_v4.py:123-127 | no two users or topologies share a meter |
| Slices.SetUp | SDN/Network_API/init_network_v4.py:123-151 | the invariant of all updates holds after bringing up the network, with groups and ARP entries in place and every user on topology 0 |
| Packets.UserPackets | SDN/Network_API/flow_v013.py:1770-1814 | a user's packets go to a port if and only if one of the user's paths comes through their switch and input port that way, and some route leads from there to the port |
| Packets.ArpPackets | SDN/Network_API/flow_v013.py:1718-1749 | ARP packets go to exactly the ports of the routes through their switch and input port |
| Packets.OnRouteComes | SDN/Network_API/flow_v013.py:1641-1654 | a user's route comes through a port if and only if it is the first port of a connection of an allowed path, or the second for packets to the user |
| Packets.ConfiguredArp | SDN/Network_API/flow_v013.py:1641-1749 | ARP packets go along the configured connections of their switch, either way |
| Sessions.SlicePackets | SDN/Network_API/multiple_switch_test_v006.py:65-180 | on a right slice the user's packets are forwarded as configured on the active meter and not at all on the other |
| Sessions.AppliesToOwn | SDN/Network_API/flow_v013.py:1770-1814 | with distinct addresses, any entry of a switch's table that matches a user's packets is of that user's active meter |
| Sessions.TablePackets | SDN/Network_API/multiple_switch_test_v006.py:65-180 | after any requests that settle, with distinct addresses, a switch's whole table forwards a user's packets to a port if and only if one of the user's paths comes through their input port that way and some route leads from there to the port |
| Sessions.ConfiguredPackets | SDN/Network_API/flow_v013.py:1641-1814 | the same from the configured paths: only users of base station 1 have packets forwarded, where the first path says they come in, along the connections of the switch |
| Sessions.ShippedPackets | SDN/Network_API/flow_v013.py:14-17 | as shipped: what the first user sends from port 1 goes out at port 4 only, what comes back for it by port 4 at port 1 only |
| Sessions.RateInForce | SDN/Network_API/multiple_switch_test_v006.py:68-114 | a listed user gets the rate of its last order, all others keep theirs |
| Sessions.SlicesKept | SDN/Network_API/multiple_switch_test_v006.py:65-180 | an update keeps every user's slice right, listed or not |
| Sessions.FoundExactly | SDN/Network_API/multiple_switch_test_v006.py:68-148 | the users of an update are those of its orders up to the first unknown address |
| Sessions.WaitsExactly | SDN/Network_API/init_network_v4.py:318-333 | the executing thread waits for the whole update if and only if all addresses are known, or the first is not |
| Sessions.FailsExactly | SDN/Network_API/init_network_v4.py:318-351 | the executing thread takes the script for failed if and only if some address of the request is unknown |
| Sessions.KnownThenUnknown | SDN/Network_API/init_network_v4.py:326-333 | a known address before an unknown one: the error is printed before the rebuild |
| Sessions.OverlappingRebuild | SDN/Network_API/multiple_switch_test_v006.py:149-162 | what can come of it: the meter has twice its flows, nothing is overwritten, and the windows survive if and only if they have room for both |
| Sessions.NoRoomForTwo | SDN/Network_API/flow_v013.py:14-35 | as shipped, with one path through one switch, they have not |
| Sessions.BringUp | SDN/Network_API/init_network_v4.py:123-151 | the network as brought up is up to date with no requests |
| Sessions.Session | SDN/Network_API/init_network_v4.py:123-365 | over a whole run of requests that settle: topologies flipped once for each order, rules on the active meter and in the ledger at the rate last asked for, none on the other meter, ARP entries and groups as installed |
| Sessions.ConfiguredSession | SDN/Network_API/flow_v013.py:20-35 | the same with the window size that flow_v013 computes |
| Service.ExecutedSettles | SDN/Network_API/init_network_v4.py:309-319 | what is executed was heard and wanted, and settles if all such requests do |
| Service.OrdersInTurn | SDN/Network_API/multiple_switch_test_v006.py:68-70 | addresses and rates listed in turn are read as pairs again; an odd item at the end is left out |
| Service.AnswersRight | SDN/Network_API/init_network_v4.py:334-351 | each answer reports failure if and only if some address of its own request was unknown |
| Service.Serve | SDN/Network_API/init_network_v4.py:218-365 | over every interleaving of the two threads, topologies, rates, rules, ledger, ARP entries and groups are what the requests executed so far make them; these are, in order, exactly those asking for a user among the first so many heard; answers report failure exactly for an unknown address |
| RequestQueue.RunKeeps | SDN/Network_API/init_network_v4.py:218-365 | lock, list objects, head of the queue and conservation of requests, over every interleaving |
| RequestQueue.ExecutedInOrder | SDN/Network_API/init_network_v4.py:297-365 | executed are, in order and once each, exactly the requests that ask for a user among the first so many heard, each answer has its own request's outcome and parameters |
| RequestQueue.NoneLost | SDN/Network_API/init_network_v4.py:218-365 | with the queue empty, exactly the requests with "155.0.0" or "172.16.0" in some item have been executed and answered, once each and in order |
| RequestQueue.Progress | SDN/Network_API/init_network_v4.py:302-362 | no deadlock: some turn always brings the end nearer |
| RequestQueue.QuietTurn | SDN/Network_API/init_network_v4.py:302-362 | without new requests a turn does nothing or brings the end nearer |
| RequestQueue.EverythingAnswered | SDN/Network_API/init_network_v4.py:302-362 | from every reachable state the threads can go on to answer everything heard |
| RequestQueue.FairDrains | SDN/Network_API/init_network_v4.py:302-362 | under every schedule that gives both threads turns again and again, exactly the requests with "155.0.0" or "172.16.0" in some item get executed and answered once no more requests come in |
| RequestQueue.LostWithoutLock | SDN/Network_API/init_network_v4.py:255-257 | without the lock any request can be lost between the slice and its assignment |
| RequestQueue.WantedIsHeard | SDN/Network_API/init_network_v4.py:230-309 | what the executing thread accepts, the receiving thread queues |
| RequestQueue.HearsExactly | SDN/Network_API/init_network_v4.py:224-232 | a message is taken if and only if the receiver listens and some item has "155.0." or "172.16." |
| RequestQueue.FieldsJoined | SDN/Network_API/init_network_v4.py:335-342 | the parameters of an answer, taken apart at the commas, are the items of its request |
| RequestQueue.HeardNotWanted | SDN/Network_API/init_network_v4.py:230-309 | a request that is queued but neither executed nor answered |
| Loader.JoinRound | darknet/examples/detector.c:453-457 | the round's loads are joined before their buffers are read, and give the pictures of their paths |
| Loader.LoadRound | darknet/examples/detector.c:458-463 | loads are started only in idle slots, for the next images |
| Loader.ValidateDetector | darknet/examples/detector.c:444-486 | every image is consumed once, in order, from a finished load, and every load is joined; the path list is overrun if and only if there are fewer images than threads |
| Batcher.Emit | darknet/examples/rnn.c:134-149 | one step of one stream sets its two cells and moves its offset on cyclically |
| Batcher.CharAtExact | darknet/examples/rnn.c:134-135 | a stream reads the text from its start to its end, and then over again |
| Batcher.RowsMean | darknet/examples/rnn.c:137-138 | a finished matrix cell by cell: 1 in the cell of the stream's character, 0 in the others |
| Batcher.WideByte | darknet/examples/rnn.c:137-141 | a byte at or above the row width is written into a following row, or past the end of the array if and only if there are not rows enough after it |
| Batcher.GetRnnData | darknet/examples/rnn.c:127-155 | as long as the bytes read fit the width of a row: every row is one-hot at its stream's character, y one ahead of x; a zero character, and only that, is an error |
| Batcher.BadExactly | darknet/examples/rnn.c:142-147 | a call ends with an error if and only if some stream meets a zero character in its steps, or right after them |
| Batcher.StreamContinues | darknet/examples/rnn.c:134-140 | the next call continues each stream where this one stopped |
| Batcher.Batches | darknet/examples/rnn.c:191-204 | successive calls: batch k replays the text from k * steps characters after each start, up to the first batch with a zero character, if the bytes read fit the width of a row |
| Batcher.TargetIsNextInput | darknet/examples/rnn.c:137-138 | y at a step is x at the next |
| Batcher.LastTargetIsNextBatch | darknet/examples/rnn.c:137-140 | y at the last step of a batch is x at the first step of the next |

## Left out

- Network inference, training, image functions, rotation averaging, and rounding of floats: numeric, or code that is not shown.
- Wall-clock limits, `ponder`, `engine_go`, `print_board`, gnugo scoring and the buffer of recorded boards: interface and I/O.
- SelfPlay.PickMove: any visited edge may be sampled; the distribution, the temperature and the strength of play are not modelled.
- Search.NetworkPredictRotations: only the range of the answer is stated, with a pass prior above 0, not the averaging over
  rotations; `RetryEnds` says exactly when the retry of `select_mcts` ends without it.
- SelfPlay.SelfGo: is about a given number of turns of the endless loop; `srand`, the two networks and the score are not modelled.
- HTTP calls, their failures and retries, XML payloads, CSV and pickle files, subprocesses, sockets and timing: the store, the
  ledger and the queue are kept. `num_of_static_flows` is its constant 0. Flow priorities are not part of an entry.
- Forwarding.OutputsExact: the grouping pass may append the same out-port twice to a group, so outputs are compared as sets.
- Grouping.ClaimOne: the long sleep on a doubled connection is dropped; the route is struck off as the code does after it.
- Continuity while a slice is updated: `Thread(target=f(...))` calls `f` at once, so old flows go before the new ones come; only the
  end state is stated.
- Slices.Controller.Update: rates are numbers already; a rate that does not parse stops the script half-way.
- Sessions.Session: requests that do not settle are excluded, because overlapping scripts can break its conclusion; how two
  overlapping scripts interleave in general is not modelled. An empty request, for which the script prints nothing and its caller
  reads for ever, is among them.
- Batcher.GetRnnData: what becomes of the rows when a byte at or above the row width is read is not modelled further than `WideByte`;
  the source does not check for it.
- Random resets of the training streams between batches: `Batches` is about the calls between two resets.
- Turning a message into a list of addresses and rates; requests are lists of printed items.
- `get_rnn_token_data` and `get_seq2seq_data`: the same loops over other inputs.
- Index arithmetic is on unbounded integers; `int` overflow of `batch * steps * characters` is not modelled.
- Older variants of the flow scripts, `BW_Limiter`, the SDN-DApp scripts and the YOLO socket scripts.

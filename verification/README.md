# Verified model of the YATM node networks

YATM is a technology mod pack for a voxel game. Its machines are nodes at grid positions, and most
of its logic keeps *networks* of such nodes: which machines are connected, which of them may talk
to each other, and what flows between them. This project models that logic and proves what it is
for:

* **Clusters** (`Grid`, `Clusterings`, `Sweeps`, `Worlds`, `BranchScan`, `Buckets`, `ClusterNodes`,
  `ClusterRegistry`, `ClusterViews`, `ClusterMeaning`, `HandlerEffects`, `SimpleCluster`,
  `ClusterRuns`, `LostNodes`, `LateQueues`, `FailingRuns`). Event handlers keep the clusters of a
  group equal to the connected components of a graph of neighbours with compatible colours: two
  nodes are in one cluster exactly when a route of neighbours joins them whose colours are the same
  or the default. A registry keeps redundant indexes of nodes, groups, blocks and
  clusters. Placing a node always keeps the components. Loading one that is registered keeps them
  exactly when it has a compatible neighbour, and updating one keeps them for every order of a table
  exactly when its colour stays, or only its own cluster can be picked and the new colour changes no
  component. Removals, also several that are handled only after
  all of them have happened, keep them exactly when they are *harmless*, a condition on the world
  alone; for every order in which the six directions can be visited there is a removal that is
  not, and that leaves a node in no cluster. Runs go over a world, a registry and a queue that is
  worked off later than it is filled. `FailingRuns` has, for each way in which the handlers go
  wrong, a run from an empty registry that shows it.
* **The data network** (`DataWorld`, `DataMeaning`, `Flood`, `DataNetworkLemmas`, `DataNetwork`,
  `DataRuns`, `SubNetworks`, `Network`, `Ports`, `Dispatch`, `Travel`). Networks are rebuilt from the world
  around queued positions. Over whole runs of placements, destructions, block unloads and updates,
  the networks are after every update exactly the components of the connected parts. Inside a
  network the sub-networks are exactly the components of cables and buses that have a bus, and a
  value that is dispatched travels between devices whose buses are connected by cables. Every active
  receiver gets the value of every sender on its port.
* **Multi-precision bytes** (`ByteNumbers`, `DataMath`, `Varuint`). Little-endian addition,
  borrowing subtraction and schoolbook multiplication against the integers, with the exact
  conditions under which they are right.
* **The 6502 emulator** (`Opcodes`, `Arithmetic6502`, `Instructions6502`, `Chip6502`). The table of
  opcodes, each instruction by registers, bits and flags, the addressing modes, the stack, calls and
  the reset sequence, with the exact conditions under which addresses, sums, decimal digits, shifts,
  flags and the program counter come out as on the 6502.
* **Reactors** (`Boxes`, `ReactorExplore`, `Reactor`). A structure is accepted if and only if it is
  the surface of a box of at most sixteen nodes on every side, with its controller looking out of it.
* **Energy and fluids** (`Energy`, `Fluids`). Conservation over an energy tick, the calls of devices
  that make it up, and the exact condition under which adding to a fluid inventory conserves.

`Basics` holds what all parts share.

Objects that the program updates in place are classes here, their methods have loops and invariants,
and each method is tied to a value (the contents of a registry, a sequence of bytes, a graph) about
which the lemmas then speak. The world of the game is a finite map from positions to nodes; Lua
tables that are iterated with `pairs` are visited in any order; a position hash is the position.

Where the code differs from what it evidently intends, the model does what the code does:

* the search for branches moves its origin on by each direction in turn instead of restarting
  beside the removed node, so at most three of the six neighbours are ever searched from;
* loading a registered node without a compatible neighbour puts it into a second cluster;
* updating a node tries one cluster of the group only, whichever comes first, so the node's own
  cluster is missed unless it is the only one that can be picked;
* the handler of a removal searches the world and not the registry, so a node whose addition is
  still queued may be registered by it, and then again by its own event;
* a block that expires leaves its nodes listed, and a removal that finds such a listing takes a
  cluster that does not have the node;
* multiplication wraps its indices and never writes the last digit, so it is exact if and only if
  the product needs fewer digits than there are;
* a borrow that finds no digit reads past the vector, so subtraction fails exactly when the result
  would be negative;
* the dispatch loop makes up to seventeen rounds, although the comment at the top of its file speaks
  of sixteen;
* the emulator extends low bytes with their sign; one opcode (0x91) uses the addressing mode of its
  neighbour, TAY writes X, ASL A leaves the accumulator as it is, BIT tests the byte after the
  instruction instead of the one at its operand, and JSR jumps to the word after the instruction
  instead of its operand, from where RTS never leads back to the instruction after the call;
* decimal addition forgets the carry of the low digits when they add up to 10 to 15, and has no carry
  at a sum of 100; the sign flag of sums and comparisons is that of the unbounded result.

## Model

| member | source | states |
|---|---|---|
| Graphs.ComponentIsReachSet | yatm_clusters/node_tracing.lua:9-48 | a component, described by cuts, is exactly the set of nodes that can be walked to from one of its nodes |
| Worlds.CompatibleIsSymmetricOnly | yatm_clusters/simple_cluster.lua:257-263 | colour compatibility is symmetric, and not transitive: red and blue both fit the default but not each other |
| Worlds.CompatibleColors | yatm_clusters/simple_cluster.lua:257-263 | every colour fits itself and the default, two different colours of which neither is the default never fit, and nothing else |
| Worlds.ColorGraphUndirected | yatm_clusters/simple_cluster.lua:257-301 | the graph of compatible neighbours is undirected |
| Grid.StepsAreNeighbours | yatm_clusters/simple_cluster.lua:265-301 | the six steps lead exactly to the positions that differ by one in one coordinate |
| ClusterMeaning.PaintedMeans | yatm_clusters/simple_cluster.lua:238-301 | the graph by the definitions of the nodes: who is a member, its colour as it is written, and a link exactly between neighbours whose colours are the same or the default |
| ClusterMeaning.TogetherIsJoined | yatm_clusters/simple_cluster.lua:238-301 | when the clusters follow the world two nodes are in one cluster if and only if a route of neighbours joins them whose colours are the same or the default |
| ClusterMeaning.EntryIsWritten | yatm_clusters/simple_cluster.lua:531-545 | what is registered of a node is the node that stands there, under the groups that its definition has for clusters |
| Clusterings.ClustersAreComponents | yatm_clusters/simple_cluster.lua:308-351 | non-empty clusters that partition a graph into components are exactly its components |
| Clusterings.AddingKeepsComponents | yatm_clusters/simple_cluster.lua:308-351 | a new node put together with every cluster it has a link to, and no other, leaves exactly the components of the larger graph |
| Clusterings.SameComponents | yatm_clusters/simple_cluster.lua:353-377 | clusters that are right for a graph are right for another one of the same nodes if and only if both have the same components |
| Clusterings.RejoiningKeepsComponents | yatm_clusters/simple_cluster.lua:303-351 | a node of a cluster that gets other links and is put together with every cluster it has a link to leaves exactly the components if and only if its old cluster is one of them and still hangs together |
| Sweeps.Sweep.SweepGoesOn | yatm_clusters/simple_cluster.lua:488-546 | while removals that have all happened are handled one by one, every cluster is an old component in which nothing was explored yet, or an explored new one, and all of these are there |
| Sweeps.Sweep.SweepEnds | yatm_clusters/simple_cluster.lua:488-546 | after the last of them the clusters are the components if and only if of every component that lost a node the rest is connected or every piece of it meets an explored origin |
| Sweeps.Sweep.KeptExactly | yatm_clusters/simple_cluster.lua:488-546 | a node that is left is in some cluster at the end if and only if its piece was explored, or nothing of its component was |
| BranchScans.BranchScan.MergeInto | yatm_clusters/simple_cluster.lua:449-467 | the current branch and an older one become one branch under the older id, and the node index follows |
| BranchScans.BranchScan.MarkAccessibleDirs | yatm_clusters/simple_cluster.lua:379-411 | only the directions of loaded compatible neighbours of the group stay accessible |
| BranchScans.BranchScan.Reduce | yatm_clusters/simple_cluster.lua:436-482 | one visit: skip, insert into the current branch, or merge with the branch that has the node |
| BranchScans.BranchScan.Visit | yatm_clusters/node_tracing.lua:20-45 | one visit keeps the search invariant, with the direction come from left out |
| BranchScans.BranchScan.Explore | yatm_clusters/node_tracing.lua:9-48 | the search ends on any finite world and leaves the component of its origin in one branch |
| BranchScans.BranchScan.ScanForBranches | yatm_clusters/simple_cluster.lua:413-486 | the non-empty branches are pairwise disjoint and exactly the components that contain an explored origin, for every order of the directions |
| LostNodes.OriginParity | yatm_clusters/simple_cluster.lua:428-430 | the coordinates of an origin change parity with every direction |
| LostNodes.FewNeighboursExplored | yatm_clusters/simple_cluster.lua:428-430 | whatever the order, at most three of the six neighbours are searched from |
| LostNodes.EveryOrderLosesANode | yatm_clusters/simple_cluster.lua:428-546 | for every order there are three nodes of which removing the middle one is not harmless, and another is in no cluster afterwards |
| FailingRuns.LoseANode | yatm_clusters/simple_cluster.lua:215-546 | the run that shows it, from an empty registry: three nodes are placed, one is removed, and one of the others is in no cluster of the group |
| FailingRuns.LoadALoner | yatm_clusters/simple_cluster.lua:303-351 | a node is placed alone and loaded once more: it is in two clusters |
| FailingRuns.MissAnUpdate | yatm_clusters/simple_cluster.lua:353-377 | of two lone nodes one is exchanged for another colour: the update may leave the old colour registered |
| FailingRuns.PlaceBehindRemoval | yatm_clusters/clusters.lua:1026-1060 | for every order: the only node is removed and another placed where the search starts, before the next tick; it is in two clusters |
| FailingRuns.PlaceAgain | yatm_clusters/clusters.lua:1026-1060 | likewise when a node is placed again at the same position and the order comes back to it |
| FailingRuns.FollowAStaleListing | yatm_clusters/simple_cluster.lua:506-525 | after a block has expired a branch with a node of it is taken to be in a cluster that does not have the node |
| LateQueues.FoundEarly | yatm_clusters/simple_cluster.lua:488-546 | a removal whose search starts at a lone node that is not registered yet registers it, and leaves the clusters right for the world with it if and only if the removal is harmless |
| LateQueues.AddBehindRemoval | yatm_clusters/clusters.lua:1026-1060 | a removal and an addition are queued and both have happened; the added node stands alone where the search of the removal starts, possibly at the removed node's own position: although the removal is harmless the added node ends in two clusters |
| LateQueues.LateRemovalEnds | yatm_clusters/simple_cluster.lua:488-546 | when the added node is linked to old nodes of one component only, and its component is explored, the removal leaves exactly the components of the world with it if and only if nothing is lost, with the node counted to that component |
| LateQueues.AddLinkedBehindRemoval | yatm_clusters/clusters.lua:1026-1060 | in that case the queue is worked off right, whatever the order of any table |
| LateQueues.UnexploredIsSeen | yatm_clusters/simple_cluster.lua:413-486 | when the component of the added node is not explored, the search sees what it would see without the node |
| ClusterNodes.OverwriteMirrors | yatm_clusters/clusters.lua:152-186 | overwriting an entry keeps the group index exact if and only if the old groups are among the new ones |
| ClusterNodes.MergeMirrors | yatm_clusters/clusters.lua:74-112 | merging group indexes is exact if and only if common nodes lose no group |
| ClusterNodes.BlockHolds | yatm_clusters/clusters.lua:152-186 | a block is exactly a cube of sixteen positions each way |
| ClusterNodes.Cluster.Merge | yatm_clusters/clusters.lua:74-112 | the union of groups and nodes, the other cluster's winning; indexes coherent if and only if common nodes lose no group |
| ClusterNodes.Cluster.AddNode | yatm_clusters/clusters.lua:152-186 | refuses a node of the same name; else the entry is in, and the indexes are coherent if and only if an overwritten entry loses no group |
| ClusterNodes.Cluster.UpdateNode | yatm_clusters/clusters.lua:216-250 | replaces the entry of a registered node and both indexes stay exact |
| ClusterNodes.Cluster.RemoveNode | yatm_clusters/clusters.lua:252-289 | the entry leaves the nodes and both indexes, and no empty bucket remains |
| ClusterNodes.Cluster.OnBlockExpired | yatm_clusters/clusters.lua:306-319 | exactly the nodes of the block leave, and the indexes stay exact |
| ClusterNodes.Cluster.ReduceNodesOfGroups | yatm_clusters/clusters.lua:366-412 | visits exactly the nodes that have all the groups, each once |
| ClusterRegistry.Clusters.CreateCluster | yatm_clusters/clusters.lua:606-618 | a fresh id and an empty cluster, listed under its groups |
| ClusterRegistry.Clusters.MergeClusters | yatm_clusters/clusters.lua:626-660 | clusters without common nodes become one new cluster with all their nodes and groups, and all tables mirror the contents |
| ClusterRegistry.Clusters.CleanupCluster | yatm_clusters/clusters.lua:704-724 | a cluster that goes leaves no trace in the group and node tables |
| ClusterRegistry.Clusters.RemoveClusterById | yatm_clusters/clusters.lua:692-702 | the cluster leaves the registry and its tables, or nothing happens |
| ClusterRegistry.Clusters.DestroyCluster | yatm_clusters/clusters.lua:726-736 | as removal, and the cluster is terminated |
| ClusterRegistry.Clusters.AddNodeToCluster | yatm_clusters/clusters.lua:775-797 | the entry is in its cluster and listed; the registry stays valid if and only if an overwritten entry loses no group |
| ClusterRegistry.Clusters.UpdateNodeInCluster | yatm_clusters/clusters.lua:799-802 | only the entry changes, and all tables still mirror the contents |
| ClusterRegistry.Clusters.RemoveNodeFromCluster | yatm_clusters/clusters.lua:804-825 | the node leaves its cluster and the node table |
| ClusterRegistry.Clusters.ExpireBlock | yatm_clusters/clusters.lua:1168-1177 | the nodes of the block leave every cluster; every node left is still listed, while stale listings may stay |
| ClusterRegistry.Clusters.FindNodeCluster | yatm_clusters/clusters.lua:846-887 | a listed cluster of the group, or there is none |
| ClusterViews.FoundAreTouched | yatm_clusters/simple_cluster.lua:265-301 | the clusters found beside a node, new or registered, are exactly those it has a link to |
| ClusterViews.JoiningTracks | yatm_clusters/simple_cluster.lua:308-351 | joining the touched clusters keeps the clusters of the group the components and leaves other groups alone |
| ClusterViews.LinkedRejoins | yatm_clusters/simple_cluster.lua:303-351 | for a registered node that keeps its colour the condition for loading is that it has a compatible neighbour |
| ClusterViews.RewritingTracks | yatm_clusters/simple_cluster.lua:353-377 | writing over an entry with a node of any colour keeps the clusters the components if and only if the new colour leaves all components as they are |
| ClusterViews.SweepingGoesOn | yatm_clusters/simple_cluster.lua:488-546 | one more removal on the contents of the registry, with the entries' colours |
| ClusterViews.SweepingEnds | yatm_clusters/simple_cluster.lua:488-546 | after the last removal the contents track the world if and only if the removals were harmless |
| SimpleClusters.SimpleCluster.FindCompatibleNeighbours | yatm_clusters/simple_cluster.lua:265-301 | for every direction one of the given clusters with a compatible node there, or none has one |
| SimpleClusters.SimpleCluster.ChooseCluster | yatm_clusters/simple_cluster.lua:317-337 | a new cluster, the one found, or all found merged into one |
| HandlerEffects.LoadedIsRight | yatm_clusters/simple_cluster.lua:303-351 | the contents after a registered node was added again, with any colour, track the world if and only if it has a link into its old component and that one hangs together |
| HandlerEffects.UpdateDecides | yatm_clusters/simple_cluster.lua:353-377 | an update keeps the clusters the components whatever cluster is picked, if and only if the colour stays, or only clusters with the node can be picked and the new colour changes no component |
| SimpleClusters.SimpleCluster.HandleAddNode | yatm_clusters/simple_cluster.lua:303-351 | the clusters are the components of the graph with the node if and only if the node is new, or has a link into its old component and that one hangs together; a new node is in one cluster with every registered neighbour of the same colour or where one of the two is the default; without a link a registered node is in two clusters; the indexes stay coherent if and only if an entry that is written over loses no group |
| SimpleClusters.SimpleCluster.HandleUpdateNode | yatm_clusters/simple_cluster.lua:353-377 | one cluster that may be picked is, and the entry is replaced if it is there; all outcomes are the components if and only if the condition of UpdateDecides holds beforehand |
| SimpleClusters.SimpleCluster.FindClusterOf | yatm_clusters/simple_cluster.lua:510-523 | a cluster listed under a node of the branch; without stale listings there, one that has such a node |
| SimpleClusters.SimpleCluster.FindAffected | yatm_clusters/simple_cluster.lua:506-525 | for every branch with registered nodes one cluster that it meets, if nothing stale is listed under the nodes of the branches |
| SimpleClusters.SimpleCluster.BuildAll | yatm_clusters/simple_cluster.lua:531-545 | one new cluster with the world's nodes for every non-empty branch |
| SimpleClusters.SimpleCluster.Resplit | yatm_clusters/simple_cluster.lua:488-546 | in any world: the node is out, the branches are the components around it, one cluster that each meets is gone and each is a new cluster, and other groups are left alone |
| SimpleClusters.SimpleCluster.HandleRemoveNode | yatm_clusters/simple_cluster.lua:488-546 | one of several removals that have happened; after the last one the clusters are the components if and only if the removals together were harmless |
| ClusterRuns.UpdateDecidesRun | yatm_clusters/simple_cluster.lua:353-377 | after an update the registry is in step with the world whatever is picked, if and only if only clusters with the node can be picked and the new colour changes no component, or colour and groups stay |
| ClusterRuns.Settle | yatm_clusters/simple_cluster.lua:215-377 | placing keeps the registry in step with the world, loading does exactly if the node has a neighbour, updating does for every pick exactly if it is safe beforehand |
| ClusterRuns.RemoveAll | yatm_clusters/simple_cluster.lua:413-546 | removals queued one after the other and handled later: the registry is in step afterwards if and only if they are harmless together |
| ClusterRuns.Handle | yatm_clusters/simple_cluster.lua:215-236 | a single event handled at once, with the exact condition for placing, loading, updating and removing |
| ClusterRuns.DrainStretch | yatm_clusters/clusters.lua:1026-1060 | events and then removals, worked off when the world may be further on: in step afterwards if and only if the removals are harmless, as long as the world around removed nodes looks as it did |
| ClusterRuns.Drain | yatm_clusters/clusters.lua:1026-1060 | a whole queue of such stretches is worked off in the world that its events have led to |
| ClusterRuns.RunAll | yatm_clusters/clusters.lua:553-576 | over any run, with any smooth queue between two ticks, the clusters are the components and the indexes exact after every tick; in terms of the nodes that stand there, two are in one cluster if and only if a route of neighbours of fitting colours joins them |
| ClusterRuns.WorldIsReached | yatm_clusters/simple_cluster.lua:215-236 | any nodes of the group come about in some calm run of placements |
| ClusterRuns.FollowsMeans | yatm_clusters/clusters.lua:553-576 | a registry that follows the world has two nodes in one cluster if and only if a route in the world joins them |
| DataWorlds.ConnectIsSymmetric | yatm_data_network/data_network.lua:935-1008 | a connection is the same seen from either end, with the direction inverted |
| DataWorlds.ConnectsByKind | yatm_data_network/data_network.lua:935-1008 | by kind and colour: cables and buses connect exactly when the colours are the same or one is multi, devices with buses of any colour and nothing else, and mounted parts only through open faces that look at each other |
| DataWorlds.ConnectIsNotTransitive | yatm_data_network/data_network.lua:935-1008 | a device between buses of two colours connects to both, which do not connect |
| DataWorlds.PartGraphUndirected | yatm_data_network/data_network.lua:974-1008 | the graph of connected parts is undirected |
| DataMeaning.NetworkIsJoined | yatm_data_network/data_network.lua:1010-1163 | the network of a refreshed part has exactly the parts that a route of parts connecting by kind and colour joins to it |
| DataMeaning.NetworksAreJoined | yatm_data_network/data_network.lua:124-147 | likewise of any two parts when the networks are the components |
| DataMeaning.MultiJoins | yatm_data_network/data_network.lua:935-1008 | a multi cable or bus is joined to every cable and bus beside it, whatever its colour, with open faces where one is mounted |
| Floods.FloodVisits | yatm_data_network/data_network.lua:1037-1083 | visiting a position keeps the invariant of the search by lists |
| DataNetworks.DataNetwork.Explore | yatm_data_network/data_network.lua:1010-1083 | the found positions are the component of the base position, or nothing if it is no part |
| DataNetworks.DataNetwork.QueueRefresh | yatm_data_network/data_network.lua:638-657 | the position and its six neighbours are queued, none of them cancelled |
| DataNetworks.DataNetwork.AddNode | yatm_data_network/data_network.lua:368-409 | refuses registered positions and nodes that are no part; else registers the member without a network and queues |
| DataNetworks.DataNetwork.RemoveNode | yatm_data_network/data_network.lua:480-484 | the member leaves its network, which goes when it is empty, and the records still agree both ways |
| DataNetworks.DataNetwork.UnloadBlock | yatm_data_network/data_network.lua:744-759 | exactly the members of the block leave, and they and their neighbours are queued |
| DataNetworks.DataNetwork.RefreshFromPos | yatm_data_network/data_network.lua:1010-1163 | all that a position is connected to leaves its networks and becomes one new network, unless the position was reached in this update |
| DataNetworks.DataNetwork.Update | yatm_data_network/data_network.lua:124-141 | every queued position with a part ends in a network of exactly what it is connected to, in any order: it has the network id of exactly the parts that a route joins to it, and so that of every part beside it that it connects to by kind and colour; if the networks were accounted for they are exactly the components |
| DataNetworkLemmas.RebuildAgrees | yatm_data_network/data_network.lua:1085-1163 | a rebuild keeps networks and records in agreement both ways, with no empty network |
| DataNetworkLemmas.FoundIsUnresolved | yatm_data_network/data_network.lua:1010-1019 | what is connected to a position that was not reached in this update was not reached either, so skipping is sound |
| DataNetworkLemmas.RefreshSettles | yatm_data_network/data_network.lua:1010-1163 | a refresh puts its component in place and disturbs none put in place before |
| DataNetworkLemmas.RefreshAccounts | yatm_data_network/data_network.lua:1010-1163 | after a refresh its position needs no other |
| DataNetworkLemmas.AccountedIsExact | yatm_data_network/data_network.lua:124-147 | with nothing waiting the networks are exactly the components |
| DataNetworkLemmas.ChangeIsAccounted | yatm_data_network/data_network.lua:638-657 | queuing changed positions and their neighbours is enough for any change of the world |
| DataRuns.Handle | yatm_data_network/data_network.lua:368-759 | every event keeps the network accounted for, and a tick makes it exact |
| DataRuns.RunAll | yatm_data_network/data_network.lua:124-147 | over any run, after an update the networks are exactly the components of the parts connected now: two parts have the same network id if and only if a route joins them |
| DataRuns.WorldIsReached | yatm_data_network/data_network.lua:368-759 | any loaded nodes come about in some run, so what holds after runs holds in every world |
| NetworkRecords.Network.ExploreNodesFromPosition | yatm_data_network/data_network.lua:1234-1290 | the cables and buses connected to a bus without passing a device |
| NetworkRecords.Network.AttachDevices | yatm_data_network/data_network.lua:1304-1339 | a bus takes exactly the devices it looks at, a mounted bus through the faces it lists |
| NetworkRecords.Network.PopulateSubNetwork | yatm_data_network/data_network.lua:1292-1341 | the cables get the id, and the sides of devices on the buses get the sub-network and the colour of their bus |
| NetworkRecords.Network.BuildSubNetwork | yatm_data_network/data_network.lua:1343-1361 | one more component with its bus, and all attachments stay exact |
| NetworkRecords.Network.ColorDevice | yatm_data_network/data_network.lua:1175-1196 | a device with buses beside it gets the colour of one of them on that side; no other side changes, and without a bus nothing does |
| NetworkRecords.Network.Build | yatm_data_network/data_network.lua:1219-1361 | the sub-networks are components that cover every bus, and attachments match them exactly |
| SubNetworks.BranchesPartition | yatm_data_network/data_network.lua:1219-1232 | every bus is in exactly one sub-network, sub-networks share no cable, and they are exactly the components that have a bus |
| SubNetworks.NewBranchAttaches | yatm_data_network/data_network.lua:1292-1341 | a further sub-network takes no side away from another |
| Ports.RangesDisjoint | yatm_data_network/data_network.lua:38-58 | two local ports of colours other than multi are the same network port exactly when colour and port are the same |
| Ports.MultiIsAll | yatm_data_network/data_network.lua:38-58 | the ports of multi are exactly those of all other colours |
| Dispatching.Dispatcher.SlotOf | yatm_data_network/data_network.lua:162-172 | the slot of a local port gives that port back |
| Dispatching.Dispatcher.SendValue | yatm_data_network/data_network.lua:489-533 | a value is stored under its sub-network and network port, or dropped if the side has none or the port is out of range; every stored slot stays that of an attached side |
| Dispatching.Dispatcher.MarkReadyToReceive | yatm_data_network/data_network.lua:594-636 | a receiver is stored likewise |
| Dispatching.Dispatcher.SendTo | yatm_data_network/data_network.lua:826-876 | one entry reaches every loaded receiver left on its port once; receivers that are not active are used up |
| Dispatching.Dispatcher.DispatchRound | yatm_data_network/data_network.lua:788-880 | an active receiver that is loaded gets the value of every entry sent in its sub-network on its network port, whatever the members and sides, and another receiver exactly one if there is any; nothing else is delivered; with no delivery only active receivers remain |
| Dispatching.Dispatcher.HandleNetworkDispatch | yatm_data_network/data_network.lua:770-882 | at most seventeen rounds whatever the handlers do, fewer only if nothing is to be sent or nobody is ready; the first starts from what was sent before; every round delivers all that it should and nothing else; in every round all slots, of senders and receivers, are those of attached sides |
| Dispatching.ServedMore | yatm_data_network/data_network.lua:826-876 | sending one more entry to the receivers left keeps the counts of all receivers right |
| Dispatching.ServedDelivers | yatm_data_network/data_network.lua:826-876 | what a round delivers, in terms of sub-network and network port alone: all that should be delivered, and nothing else |
| Dispatching.SameSideReaches | yatm_data_network/data_network.lua:826-876 | a value sent on a side is delivered to every active, loaded receiver on a side of the same sub-network and colour with the same local port |
| Dispatching.MultiReaches | yatm_data_network/data_network.lua:826-876 | a value sent on a multi side is delivered to every active, loaded receiver of any colour in the sub-network whose port in the range of multi it is |
| Dispatching.Dispatcher.SlotsMeet | yatm_data_network/data_network.lua:489-636 | two sides of the same sub-network and colour meet on the same local port, whatever their members and directions |
| Dispatching.PortComesBack | yatm_data_network/data_network.lua:838-860 | in every round that is dispatched a receiver sees the local port it registered, and between colours other than multi both ends have the same colour and port |
| Travels.DeliveryTravels | yatm_data_network/data_network.lua:770-882 | a delivered value went between devices whose buses are connected by cables and buses only |
| Travels.NewsTravel | yatm_data_network/data_network.lua:770-882 | so did every value delivered in any round of a dispatch |
| Travels.BuildAndDispatch | yatm_data_network/data_network.lua:770-882 | from the parts in the world to the values: the last of several values sent on a side reaches every active, loaded receiver on a side of the same sub-network and colour with the same local port, and whatever is sent, and whatever the handlers do, all that is delivered has travelled along the cables of the network |
| DataMath.NewVector | yatm_data_logic/data_math.lua:31-46 | the digits of a value, padded with zeros |
| DataMath.Add | yatm_data_logic/data_math.lua:78-102 | the sum modulo 256 to the number of digits |
| DataMath.PerformBorrow | yatm_data_logic/data_math.lua:48-59 | finds a digit if and only if one from there on is positive, and keeps the integer value |
| DataMath.NoBorrowIsNegative | yatm_data_logic/data_math.lua:48-59 | if no digit can be borrowed from, the value is negative |
| DataMath.Subtract | yatm_data_logic/data_math.lua:104-122 | succeeds if and only if the left number is not smaller, and is then the exact difference |
| DataMath.MultiplyDigit | yatm_data_logic/data_math.lua:132-142 | one digit product keeps the partial product; nothing reaches the wrapped index while the product fits |
| DataMath.Multiply | yatm_data_logic/data_math.lua:124-151 | the exact product if and only if it is below 256 to the number of digits less one; the last digit is always zero |
| Varuint.LeEncodeVaruint | yatm_data_logic/common.lua:108-118 | the value modulo 256 to the length, for all integers |
| Varuint.EncodingUnique | yatm_data_logic/common.lua:108-118 | there is only one encoding of a length |
| Varuint.AddingEncodings | yatm_data_logic/data_math.lua:78-102 | adding encodings encodes the sum, modulo 256 to the length |
| Varuint.AddEncoded | yatm_data_logic/data_math.lua:78-102 | the sum of two encodings is, byte for byte, the encoding of the sum |
| Varuint.AddThenSubtract | yatm_data_logic/data_math.lua:78-122 | subtracting what was added gives the encoding back |
| Reactors.ReactorIsGiven | yatm_reactors/reactor_cluster.lua:254-293 | of a reactor the explored extents are its box, for every facing |
| Reactors.GivenIsReactor | yatm_reactors/reactor_cluster.lua:254-293 | a surface of the measured size is a reactor |
| ReactorExploring.LateralExplore | yatm_reactors/reactor_cluster.lua:129-192 | the ends and the length of the run of cluster nodes through the controller, or a run that is too long |
| ReactorExploring.LinearExplore | yatm_reactors/reactor_cluster.lua:83-127 | the end and the length of the run in one direction, or a run that is too long |
| Reactors.CheckFrontAndBack | yatm_reactors/reactor_cluster.lua:300-323 | both faces are in the cluster and seen, or one of their positions is missing |
| Reactors.CheckShell | yatm_reactors/reactor_cluster.lua:294-416 | three face loops and the count accept exactly the six faces of the box |
| Reactors.VerifyReactorStructure | yatm_reactors/reactor_cluster.lua:207-419 | accepts if and only if the cluster is the surface of a box of at most sixteen on every side and the controller looks out of it |
| Reactors.HandleStartReactor | yatm_reactors/reactor_cluster.lua:421-459 | on if and only if there is one controller and its structure is a reactor |
| Energies.ReceivedWithinOffer | yatm_cluster_energy/energy.lua:35-39 | a store takes between nothing and the offer if and only if it is not overfull |
| Energies.ReceivedIsSmallest | yatm_cluster_energy/energy.lua:35-39 | a store takes exactly the smallest of the offer, its bandwidth if it has one, and its room |
| Energies.ConsumedIsUsable | yatm_cluster_energy/energy.lua:47-51 | a store yields exactly the smaller of request and usable energy |
| EnergySystems.EnergySystem.CalcEnergyStored | yatm_cluster_energy/energy_system.lua:71-113 | the sum of the usable energy of the storages |
| EnergySystems.EnergySystem.CalcEnergyProduced | yatm_cluster_energy/energy_system.lua:25-69 | the sum of what the producers return, each of which is called exactly once |
| EnergySystems.EnergySystem.ReceiveEnergy | yatm_energy_storage/nodes/energy_cells.lua:78-96 | a cell takes exactly the smallest of the offer, its bandwidth and its room, and its level rises by it |
| EnergySystems.EnergySystem.RunConsumeEnergy | yatm_cluster_energy/energy_system.lua:121-166 | consumed and available add up to what there was; the consumers share it, each offered what those before it left, and every consumer is called unless nothing is left |
| EnergySystems.EnergySystem.RunUseStoredEnergy | yatm_cluster_energy/energy_system.lua:174-215 | storages of any kind together give exactly the request, or all that is usable if that is less, in any order, each asked for what is still wanted until nothing is, and cells lose exactly their part |
| EnergySystems.EnergySystem.RunReceiveEnergy | yatm_cluster_energy/energy_system.lua:223-264 | what is no longer left was received, each receiver offered what those before it left until nothing is; cells gain exactly their part; and if anything is left every cell among them is full or has taken its bandwidth |
| EnergySystems.EnergySystem.Update | yatm_cluster_energy/energy_system.lua:310-371 | for any devices: produced and drawn equal consumed, received and spilled; drawn is what consumption exceeds production by; no tick both draws and charges; the calls of devices are exactly those of the four rounds with what each was offered and returned; the energy in the cells changes by just their part of it; and nothing is spilled unless every cell among the receivers is full or has taken its bandwidth |
| Fluids.FluidInventory.SetSize | yatm_fluids/fluid_inventory.lua:29-57 | kept slots keep their fluid, new ones are empty, and a list that does not shrink loses nothing |
| Fluids.FluidInventory.SetFluidStack | yatm_fluids/fluid_inventory.lua:131-148 | the slot holds the stack up to the limit, with the error codes of a missing list or slot |
| Fluids.FluidInventory.AddFluidStack | yatm_fluids/fluid_inventory.lua:178-217 | what is added and what is left make up the stack if and only if the list has a limit, or there is nothing to add, or no slot takes it; slots of another fluid stay as they are, the first slot that is empty or has the fluid takes what the limit lets it, and something is left only when every such slot is full |
| Chips.Chip.PushPc | yatm_oku/ext/oku_6502.c:161-167 | high byte and low byte on the stack page, and nothing else changes |
| Chips.Chip.PushPopPc | yatm_oku/ext/oku_6502.c:161-175 | the program counter comes back if and only if its low byte is below 0x80 or its high byte is 0xFF |
| Chips.Chip.CallAndReturn | yatm_oku/ext/oku_6502.c:636-803 | JSR and RTS give the stack pointer and the registers back, but never lead to the instruction after the call; to the byte after that if and only if that address comes back from the stack |
| Chips.Chip.InterruptAndReturn | yatm_oku/ext/oku_6502.c:496-796 | BRK and RTI give all registers and the status back, and the program counter if and only if it comes back from the stack |
| Chips.InterruptIsRight | yatm_oku/ext/oku_6502.c:496-504 | BRK jumps to the word of its vector if and only if the high byte is the sign of the low byte |
| Chips.Chip.RunStack | yatm_oku/ext/oku_6502.c:144-159 | any pushes and pops of a depth up to 256 are those of a stack, wherever the pointer starts |
| Chips.PushView | yatm_oku/ext/oku_6502.c:144-148 | a push puts a value before those pushed before, across the end of the page too |
| Chips.PopView | yatm_oku/ext/oku_6502.c:155-159 | a pop yields the last value and leaves the others |
| Chips.Chip.LoadOperand | yatm_oku/ext/oku_6502.c:178-325 | the address is that of the 6502's addressing mode if and only if no byte that is wrongly extended has a sign, or, at a pointer with a sign, the bytes that are not read happen to be those that come out |
| Arithmetic.ModifyIsRight | yatm_oku/ext/oku_6502.c:399-778 | shifts, rotations, increments and decrements put back the 6502's byte if and only if it is not a shift to the right of a byte with a sign |
| Arithmetic.AddBinaryIsRight | yatm_oku/ext/oku_6502.c:353-366 | binary addition gives the right accumulator always, and the right carry if and only if both signs are the same |
| Arithmetic.SubtractBinaryIsRight | yatm_oku/ext/oku_6502.c:805-819 | binary subtraction gives the right accumulator always, and the right carry if and only if both signs are the same |
| Arithmetic.CompareIsRight | yatm_oku/ext/oku_6502.c:542-567 | a comparison gives the right carry if and only if both signs are the same |
| Arithmetic.TransferIsRight | yatm_oku/ext/oku_6502.c:880-886 | TAY does what it should if and only if X and Y both hold the accumulator already |
| Arithmetic.ShiftAccumulatorIsRight | yatm_oku/ext/oku_6502.c:414-422 | ASL A leaves the right accumulator only for 0, the right carry only without a sign, the right negative flag only if bit 6 is clear, and the right zero flag always |
| Arithmetic.BitTestIsRight | yatm_oku/ext/oku_6502.c:461-468 | BIT sets the right flags if and only if the byte it reads and the one at its operand agree in bits 7 and 6 and in having a bit in common with the accumulator |
| Arithmetic.SubroutineIsRight | yatm_oku/ext/oku_6502.c:636-647 | JSR lands at its operand if and only if the word after the instruction is the operand, with a high byte one more if the low byte has a sign |
| Instructions.LogicIsRight | yatm_oku/ext/oku_6502.c:391-397 | bit by bit: AND, ORA and EOR leave the conjunction, disjunction and exclusive or of the accumulator and the byte, no other register changes, and the sign and zero flags are those of the result |
| Instructions.LoadsAreRight | yatm_oku/ext/oku_6502.c:649-677 | LDA, LDX and LDY load one register, leave the others, and set the sign and zero flags by the byte; no other bit of the status changes |
| Instructions.ComparesAreRight | yatm_oku/ext/oku_6502.c:542-567 | CMP, CPX and CPY compare the accumulator, X and Y; no register changes, and carry, sign and zero flags are those of the difference of the signed bytes |
| Instructions.AddFlags | yatm_oku/ext/oku_6502.c:353-366 | binary addition sets the overflow flag if and only if the sum of the signed bytes is out of range; every bit of the status register is stated |
| Instructions.SubtractFlags | yatm_oku/ext/oku_6502.c:805-819 | binary subtraction likewise |
| Instructions.SignFlagsAreRight | yatm_oku/ext/oku_6502.c:353-366 | after binary sums, differences and comparisons the sign flag is that of the byte if and only if there is no overflow, and the zero flag if and only if the result is not -0x100 |
| Instructions.ModeDecides | yatm_oku/ext/oku_6502.c:353-389 | the decimal flag decides between binary and decimal arithmetic |
| Instructions.DecimalAddIsRight | yatm_oku/ext/oku_6502.c:367-389 | decimal addition has the right digits if and only if the low digits and the carry do not add up to 10 to 15, and then the right carry if and only if the sum is not 100 |
| Instructions.DecimalSubtractIsRight | yatm_oku/ext/oku_6502.c:820-840 | decimal subtraction has the right digits always, and the right carry if and only if both bytes have the same sign |
| Instructions.ModifyFlags | yatm_oku/ext/oku_6502.c:399-778 | the bit that falls out of a shift or rotation of memory is the carry, and sign and zero flags are those of the byte that is put back |
| Instructions.CountsAreRight | yatm_oku/ext/oku_6502.c:580-629 | INX, INY, DEX and DEY count one register modulo 256 and set the sign and zero flags by it |
| Instructions.TransfersAreRight | yatm_oku/ext/oku_6502.c:872-914 | TAX, TXA and TYA move one register to another, and the flags follow it |
| Instructions.StackPointerMoves | yatm_oku/ext/oku_6502.c:888-907 | TSX fetches the stack pointer into X, with its flags |
| Instructions.FlagsAreSet | yatm_oku/ext/oku_6502.c:522-540 | the seven instructions for single flags set or clear that one and no other bit |
| Instructions.AccumulatorTurns | yatm_oku/ext/oku_6502.c:694-790 | ROL A is right always, LSR A if and only if there is no sign, and ROR A if and only if there is no sign or the carry is set |
| Instructions.TurnFlags | yatm_oku/ext/oku_6502.c:694-790 | the bit that falls out is the carry, and the flags are those of the accumulator |
| Instructions.BranchesTest | yatm_oku/ext/oku_6502.c:437-520 | each branch is taken if and only if its flag has its value |
| Instructions.AccumulatorBlock | yatm_oku/ext/oku_6502.c:944-1940 | the 64 opcodes of the form aaabbb01: eight instructions in eight modes, but for 0x89, which is none, and 0x91, which has the mode of its neighbour |
| Instructions.MemoryBlock | yatm_oku/ext/oku_6502.c:944-1940 | the memory columns of the form aaabbb10: the shifts, rotations, counts, STX and LDX, indexed by Y for X; no 0x9E |
| Instructions.RegisterColumns | yatm_oku/ext/oku_6502.c:944-1940 | the columns of branches, flags, transfers and stack instructions |
| Instructions.OtherEntries | yatm_oku/ext/oku_6502.c:944-1940 | the remaining opcodes: the index registers, BIT, jumps, calls and returns |
| Chips.LoadUndoesStore | yatm_oku/ext/oku_6502.c:857-870 | what STA, STX and STY store the load of the same register fetches back |
| Chips.Chip.ExecModify | yatm_oku/ext/oku_6502.c:399-778 | the byte at the operand and the registers are changed as the instruction says, and no other byte |
| Chips.Chip.ExecBrk | yatm_oku/ext/oku_6502.c:496-504 | the program counter and the status register are pushed, and the counter is read from the interrupt vector |
| Chips.Chip.ExecCall | yatm_oku/ext/oku_6502.c:636-647 | JSR, BRK, RTI and RTS: the bytes that are pushed, the counter that is pulled or read, and no other byte |
| Chips.Chip.Exec | yatm_oku/ext/oku_6502.c:944-1940 | for every opcode registers, stack pointer, program counter and the bytes that calls push end as specified, memory changes only at the operand of a store or where bytes are pushed, and every access is in range |
| Chips.Chip.StartupStage | yatm_oku/ext/oku_6502.c:1974-2074 | stages advance by one, the ninth ends in running, the vector is read, and the first seven set the accumulator to 0xAA and the status to 0x02 |
| Chips.Chip.Step | yatm_oku/ext/oku_6502.c:2079-2095 | memory changes only as the instruction at the program counter may, and the reset and run states move as they should |
| Chips.Chip.Run | yatm_oku/ext/oku_6502.c:2079-2095 | in every run from initialisation the chip resets in nine steps, runs from then on, never hangs, and changes at most three bytes with a step |
| Chips.Chip.Boot | yatm_oku/ext/oku_6502.c:1974-2074 | execution starts at the word of the reset vector at 0xFFFC if and only if its low byte is below 0x80 or its high byte is 0xFF; the accumulator is 0xAA, the status 0x02, and all else is as it was |
| Chips.PcReturns | yatm_oku/ext/oku_6502.c:161-175 | putting the pushed bytes together again gives the counter if and only if its low byte is below 0x80 or its high byte is 0xFF |
| Chips.EntryIsVector | yatm_oku/ext/oku_6502.c:2058-2068 | the two stages give the vector's word if and only if its low byte is below 0x80 or its high byte is 0xFF |
| Chips.FewCells | yatm_oku/ext/oku_6502.c:144-175 | an instruction may change at most three cells, and more than one only on the stack page |

## Left out

- ClusterRegistry.Clusters.MergeClusters: the clusters must have no common node and the list no repetition, which is how the add handler calls it.
- SimpleClusters.SimpleCluster.ChooseCluster: the clusters found have no node in common, as when they are components.
- SimpleClusters.SimpleCluster.HandleUpdateNode: with no cluster of the group at all the code fails, and nothing happens in the model.
- SimpleClusters.SimpleCluster.FindAffected: no stale listing under the nodes of the branches; FollowAStaleListing shows what one does.
- SimpleClusters.SimpleCluster.Resplit: the removed node is in one cluster of the group at most, and nothing stale is listed under it or under the nodes that are found; other listings may be stale.
- SimpleClusters.SimpleCluster.HandleRemoveNode: likewise; and what the search sees around the node is as it was right after the removals that are handled together.
- ClusterRuns.Handle: a transition_node event calls the node's own definition and leaves the registry alone.
- ClusterRuns.SettleAll: over runs updates keep colour and groups, a condition on the world alone; whether only one cluster can be picked depends on the registry, where empty clusters may be left.
- ClusterRuns.Drain: exact for each stretch of a queue, sufficient for several. When the search of a removal meets a node that a later event of the queue is about, only a removal followed by one addition is covered: added nodes without neighbours (AddBehindRemoval), and added nodes whose neighbours are in one old component (AddLinkedBehindRemoval). With neighbours in several old components, or at the removed node's own position with neighbours, nothing is stated.
- ClusterRuns.RunAll: every queue is smooth (as for Drain), and blocks do not expire, which takes nodes out of clusters but does not split what it leaves; the registry's indexes stay coherent under it (ExpireBlock), its clusters need not stay connected.
- DataNetworks.DataNetwork.AddNode: the groups of a member, and the members by group, are not kept.
- DataNetworks.DataNetwork.RemoveNode: the code also takes the member out of the sub-networks of its old network and out of the member groups.
- DataNetworks.DataNetwork.Update: the dispatch of each network, the last part of an update, is a model of its own (Dispatching).
- DataRuns.Handle: update_member and upsert_member are left out.
- DataRuns.RunAll: a world that changes without an event, as when a mounted part is turned, is not told to the network and is not covered.
- Dispatching.Dispatcher.ReceivePdu: handlers may leave the tables in any state that the network's own methods can produce, but do not attach or detach sides or load and unload members during a dispatch.
- Dispatching.Dispatcher.SendTo: the tables are keyed by sub-network, port, member and direction at once; only the outermost level, which decides when the loop ends, may hold empty tables.
- Dispatching.Dispatcher.SendValue: a colour without a port range counts as no colour; the code would fail there.
- EnergySystems.EnergySystem.Update: amounts are whole; cells keep an account of what they store, and any other device keeps its contract (a receiver takes between nothing and the offer, a storage yields the smaller of the request and what it has usable) and leaves the cells alone.
- Chips.Chip.Exec: the overflow, sign and zero flags of decimal mode and the addresses that calls push are as the code computes them; how they compare with the 6502 is not stated. That the remaining opcodes are no instructions is stated for 0x89 and 0x9E only.
- Chips.Chip.PushPopPc: for memories that hold the stack page, of at least 0x200 bytes.
- Chips.Chip.RunStack: likewise.
- Chips.Chip.LoadOperand: the operand is stated for memories of at least 256 bytes and up to 64 KiB that hold all its bytes; the page boundary quirk of an indirect jump on the 6502 is not part of the reference.
- Reactors.VerifyReactorStructure: the checks of the controller's neighbours and of the hollow inside are not modelled; as written they reject nothing, since a missing rating counts as 0, which is true in Lua, and the bounds of the inner loop are empty.
- Symbols, of which one is kept with every cluster, are numbered from 1.
- Worlds: node ratings are taken to be positive, and the placeholder of unloaded positions to be in no node group and no part.
- Direction and facing tables of the library that the mods share are not part of this model: facings are parameters, and a reactor's facing is any rotation of the six directions.
- Hashes of positions are taken to be injective, and random network ids to be new, as their loops ensure.
- Networks and sub-networks are built on the parts as they are in the world at that moment; update_member, member groups, the updatable group and taking a removed member out of the sub-networks of its old network are not modelled.
- Unmarking receivers is only covered as something that handlers may do.
- Reducers that stop early, the clean-up of empty clusters, cluster assigns, systems, observers, logging, traces and infotexts.
- Clusters#move_nodes_from_cluster and update_cluster_groups.
- data_math.divide, modulo and the bytewise functions; the other encoders of yatm_data_logic.
- Fluids are compared by canonical name: groups, aliases and wildcards are left out, and so is the aliasing of stacks that get_fluid_stack returns.
- The transport networks, spacetime and wireless networks, the other processors, security, and everything that talks to the game engine.

# A verified model of the nRF70 Wi-Fi host driver's data paths

The driver sits between the network stack and the RPU, the radio processor. Both sides share a small
data RAM and a few rings in device memory, and most of the driver's state is redundant: bitmaps,
packed nibbles, counters, lists and two tables of mapped buffers that must tell the same story. This
project models that state and proves what keeps it consistent.

**The transmit engine** (`tx.c`, `fmac_ap.c`, the transmit half of `hal_api.c`, the token arithmetic of
`main.c`) is modelled twice. `TxModel` is a state machine on values: a run is any sequence of frames
arriving, completions, power-save requests and reads by the RPU. `TxEngine`, over the classes
`TxQueues`, `TokenPool`, `TxMapper`, `HalTx` and `SoftHpq`, is the driver's code in place; every entry
point is proved to do exactly what the step of the same name does and to stay in a reachable state. So
what is proved of every step and run (in `TxTheorems`, `TxCommands`, `TxStranded`, `TxDrain`,
`TxMoreData`, `TxFairness`, `TxChoice` and `TxDelivery`) holds of the code.

**The other cores** are modelled in place in the same way: the control-command path (`CtrlPath`), the
receive path (`RxLayout`, `RxPath`), the linked list behind every queue (`LinkedList`), the firmware
loader for hexadecimal images (`HexLoader`, `HexImage`), the conversion of received frames to Ethernet
(`Deencap`) and the radio-test configuration (`RadioTest`, `ConfText`).

The build modelled is SOC_WEZEN with SOFT_HPQM (hence CMD_RX_BUFF), receiving through data RAM, and
for `RadioTest` the radio-test build of it.

What turned out not to hold as the design suggests, each with its exact condition:

- A spare token lent to the multicast queue sets its mark in the next spare's nibble (`tx.c:64`). The
  token is then booked to the wrong queue, a counter wraps, and frames can wait with no token that will
  ever pull them. The comment at `tx.c:252` limits spares to the other queues; the code does not. No run
  strands a frame exactly when there are no spares, or no aggregation, or queues of one frame
  (`TxStranded.NeverStrandsIff`); the shipped 12 tokens leave two spares. In the other configurations
  frames stay behind even when the RPU has nothing left to do (`TxDrain.AlwaysDrainsIff`). The exact
  condition for the token records to stay in agreement is close to it (`TxStranded.AlwaysAccountedIff`).
- Nothing checks the length of a transmit command against its slot (`hal_api.c:1438-1453`). The command
  for sixteen frames has 149 bytes, the slot 148, and outside OFFLINE_MODE sixteen is the default
  aggregation limit (`main.c:80`); the last byte falls on the command of the next token, which the RPU
  may not have read. Commands stay whole exactly when no possible batch has a longer command
  (`TxCommands.CommandsIntactIff`, `TxCommands.SixteenFrames`); with a limit of 13 the longest has 131
  bytes.
- The receive pools need room for frames and headers, the space reserved for them counts frames only
  (`RxLayout.SlotsInsideIff`); with the shipped sizes the last slot reaches 252 bytes past data RAM.
- `tx_init` allocates `8 * (n / 32) + 1` bytes for the bitmap of `n` tokens and clears
  `8 * (n / 32 + 1)`, seven more (`tx.c:1332-1347`); the model has the bitmap in whole words.
- A received packet of an unknown type loses its buffer, and its descriptor stays unmapped
  (`RxPath.AllMappedAgainIff`); a later packet for that descriptor ends its event early, as a success.
- The length field that replaces an EtherType below 0x0600 is stored in host order
  (`Deencap.LengthFieldIff`), and four-address frames get the receiver as their destination
  (`Deencap.AddressesStandardIff`).
- A fragment of a control command whose wait for a command buffer times out is dropped and the following
  ones are sent, so the command arrives whole exactly when each wait finds the ring not full or the RPU
  reading (`CtrlPath.DeliveredWholeIff`): with an RPU that reads nothing, exactly when there are as many
  free slots as fragments (`CtrlPath.NoReadsWholeIff`).
- A firmware image without a data byte is reported as a failure, and one that stops inside an item is
  read past its end (`HexLoader.Rpu.HexLoad`).
- In the radio-test configuration the channel number is checked in eight bits and stored in 32
  (`RadioTest.StoredChannelValidIff`), and MCS for HE SU are checked by the rule for HT
  (`RadioTest.HeSuMcsIff`). That does no harm, because packets are always sent in one stream: the text
  `tx_pkt_nss=` contains `nss=`, which the handler looks for first (`ConfText.TxNssTakenForNss`).

## Model

| member | source | states |
|---|---|---|
| `TxStranded.NeverStrandsIff` | nrfxlib/nrf_wifi/fw_if/umac_if/src/tx.c:865-1255 | no reachable state leaves a sendable frame without a token whose completion will look for it, if and only if there are no spare tokens, or no aggregation, or queues of at most one frame; and the same over those runs only in which nrf_wifi_fmac_start_xmit could have delivered every arrival |
| `TxStranded.ReachableLive` | nrfxlib/nrf_wifi/fw_if/umac_if/src/tx.c:865-1255 | the half of it that holds: under that condition every state of every run is free of stranded frames |
| `TxStranded.StrandedRun` | nrfxlib/nrf_wifi/fw_if/umac_if/src/tx.c:252-281 | the other half: for every other configuration a run of an access point with one client, each arrival queued where start_xmit would queue it, that strands a frame through a spare lent to the multicast queue |
| `TxStranded.AlwaysAccountedIff` | nrfxlib/nrf_wifi/fw_if/umac_if/src/tx.c:183-289 | bitmap, counters and nibble map agree in every reachable state if and only if there are no spare tokens, or queues hold nothing, or queues hold one frame and frames are aggregated; over start_xmit arrivals as well |
| `TxDrain.AlwaysDrainsIff` | nrfxlib/nrf_wifi/fw_if/umac_if/src/tx.c:949-1134 | when nothing more arrives and the RPU has read and completed all there is, nothing is pending for any peer that is awake, if and only if the configuration is one that never strands a frame |
| `TxDrain.DrainBound` | nrfxlib/nrf_wifi/fw_if/umac_if/src/tx.c:949-1134 | however it orders its reads and completions, the RPU comes to that end within two steps for each pending frame, one for each unread command and one for each token in use |
| `TxDrain.EndSent` | nrfxlib/nrf_wifi/fw_if/umac_if/src/tx.c:1093-1134 | at that end all frames accepted for a peer that is awake have been sent, in order, every token is free, and every frame that is not pending for a sleeping peer has been freed |
| `TxDrain.DrainExists` | nrfxlib/nrf_wifi/fw_if/umac_if/src/tx.c:949-1134 | from every reachable state there is such a run |
| `TxLive.CompletionPulls` | nrfxlib/nrf_wifi/fw_if/umac_if/src/tx.c:949-1134 | the completion of a token that serves a wanted access category sends a command at once: of that category for a reserved token, of that or a higher one for a spare |
| `TxLive.StepLive` | nrfxlib/nrf_wifi/fw_if/umac_if/src/tx.c:821-1255 | every step of the engine keeps the absence of stranded frames, as long as the token records can be trusted |
| `TxLive.NothingToTake` | nrfxlib/nrf_wifi/fw_if/umac_if/src/tx.c:381-472 | a token comes away empty-handed only when no peer that may be served has a frame of that access category |
| `TxTheorems.BounceMemorySafe` | nrfxlib/nrf_wifi/hw_if/hal/src/hal_api.c:435-521 | in every reachable state every frame held by a token lies word aligned in the region of its token, below the receive pools, and overlaps no other |
| `TxTheorems.DeliveredInOrder` | nrfxlib/nrf_wifi/hw_if/hal/src/hal_api.c:1462-1509 | the RPU reads commands in posting order; the next one is unchanged if and only if the bytes of no later command fall on it, and damaged otherwise; at the addresses in it data RAM holds its frames byte for byte |
| `TxCommands.CommandsIntactIff` | nrfxlib/nrf_wifi/hw_if/hal/src/hal_api.c:1438-1453 | in every reachable state the command that the RPU reads next is whole, if and only if every batch that queue limit, aggregation limit and token size allow has a command of at most RPU_DATA_CMD_SIZE_MAX_TX bytes; over start_xmit arrivals as well |
| `TxCommands.DamagingRun` | nrfxlib/nrf_wifi/fw_if/umac_if/src/tx.c:741-784 | the failing half: for every batch size with a longer command a run of an access point with one client that leaves the oldest unread command damaged |
| `TxCommands.CommandLength` | nrfxlib/nrf_wifi/fw_if/umac_if/src/tx.c:750-757 | every command ever posted has 53 bytes and six more for each frame, and as many frames as the limits allow |
| `TxCommands.SixteenFrames` | nrfxlib/nrf_wifi/hw_if/hal/inc/fw/rpu_if.h:293 | with slots of 148 bytes that condition is that no batch can have sixteen frames |
| `TxTheorems.FramesConserved` | nrfxlib/nrf_wifi/fw_if/umac_if/src/tx.c:1093-1111 | every accepted frame is in exactly one pending queue, or held by one token, or freed, with multiplicity; the two statistics differ by the frames that tokens hold |
| `TxTheorems.FreedOnce` | nrfxlib/nrf_wifi/fw_if/umac_if/src/tx.c:1093-1109 | a frame that was accepted once is freed at most once, and once freed it is neither pending nor held |
| `TxTheorems.FifoPerFlow` | nrfxlib/nrf_wifi/fw_if/umac_if/src/tx.c:821-862 | for each peer and access category the frames sent, followed by those pending, are those accepted, in order, emergency frames apart |
| `TxTheorems.TokensAccounted` | nrfxlib/nrf_wifi/fw_if/umac_if/src/tx.c:183-289 | unless a spare went to multicast, each counter is the number of tokens in use for its queue, each spare in use has one mark, and the queue worked out at completion is that of the frames |
| `TxTheorems.NoSparesNoMcSpare` | nrfxlib/nrf_wifi/fw_if/umac_if/src/tx.c:252-281 | without spares that exception cannot occur |
| `TxTheorems.CommandsWellFormed` | nrfxlib/nrf_wifi/fw_if/umac_if/src/tx.c:618-738 | every command ever posted carries bytes 0 to 5 and 6 to 11 of its first frame as destination and source, all its frames agree in those twelve bytes, it lists their places and lengths and whether the first is an emergency frame, and they fit in a token |
| `TxMoreData.MoreDataExact` | nrfxlib/nrf_wifi/fw_if/umac_if/src/tx.c:717-722 | the command posted with a batch announces more data if and only if the interface of the peer is an access point (or AP VLAN or mesh point) and some unicast queue of that peer holds a frame in the state after the batch has left |
| `TxMoreData.StepExact` | nrfxlib/nrf_wifi/fw_if/umac_if/src/tx.c:821-1255 | every command that any step posts announces more data if and only if the interface does so and a unicast frame for that peer is still pending after the step or left with a later command of the same step |
| `TxMoreData.RunExact` | nrfxlib/nrf_wifi/fw_if/umac_if/src/tx.c:717-722 | so for every command posted at any point of any run |
| `TxTheorems.BitmapExact` | nrfxlib/nrf_wifi/fw_if/umac_if/src/tx.c:135-180 | in every reachable state the bitmap of an access point's client has a bit set exactly for the queues that hold frames |
| `TxFairness.ServedWithinOneRound` | nrfxlib/nrf_wifi/fw_if/umac_if/src/tx.c:405-431 | over any stretch of any run, a peer that stays awake with frames waiting is served before its access category has handed out MAX_PEERS round-robin turns |
| `TxFairness.TurnBringsNearer` | nrfxlib/nrf_wifi/fw_if/umac_if/src/tx.c:407-425 | a round-robin turn given to another peer brings a waiting one strictly nearer |
| `TxFairness.PowerSaveDelivery` | nrfxlib/nrf_wifi/fw_if/umac_if/src/fmac_ap.c:57-74 | a sleeping client is served once per turn it spends of its request, the end of the service period is announced exactly with the last, and then it is out of the wakeup queue |
| `TxDelivery.RequestAnswered` | nrfxlib/nrf_wifi/fw_if/umac_if/src/fmac_ap.c:57-74 | a request is answered at once in every category for which frames of the client wait, a token is left and the number asked for suffices; the command is for this client and begins with its first frame, unless another client in the wakeup queue has turns left there |
| `TxDelivery.WakingAnswered` | nrfxlib/nrf_wifi/fw_if/umac_if/src/fmac_ap.c:126-146 | so is a client that wakes |
| `TxDelivery.WakingServedFirst` | nrfxlib/nrf_wifi/fw_if/umac_if/src/fmac_ap.c:129-146 | and one that wakes with turns left of an earlier request comes before the round |
| `TxDelivery.TokenLeftForVoice` | nrfxlib/nrf_wifi/fw_if/umac_if/src/tx.c:216-289 | for the highest category a token is left exactly when one is free |
| `TxDelivery.StatusMeans` | nrfxlib/nrf_wifi/fw_if/umac_if/src/tx.c:1201-1255 | refused exactly when the queue is full, without effect; queued exactly when it waits for its peer, for frames like it or for a token, and nothing is posted; otherwise one command of its category is posted |
| `TxChoice.ChooseIs` | nrfxlib/nrf_wifi/fw_if/umac_if/src/tx.c:339-432 | the peer chosen is the multicast peer for multicast; else the first client of the wakeup queue with turns left and frames pending; failing that the first peer counted round from the mark that is awake and has frames; and nobody only when there is neither |
| `TxChoice.EarlierFirst` | nrfxlib/nrf_wifi/fw_if/umac_if/src/fmac_ap.c:57-65 | a request, or a client that wakes, does not overtake those that have asked before |
| `TxChoice.ChargeIs` | nrfxlib/nrf_wifi/fw_if/umac_if/src/tx.c:357-421 | a client of the wakeup queue is charged one turn, a peer of the round moves the mark behind it |
| `TxChoice.NextBatchBegins` | nrfxlib/nrf_wifi/fw_if/umac_if/src/tx.c:840-853 | the next batch of a queue begins with an emergency frame that has just arrived, otherwise with the frame that waited longest |
| `TxChoice.LeftQueuedIff` | nrfxlib/nrf_wifi/fw_if/umac_if/src/tx.c:900-940 | a frame waits exactly when its peer sleeps, or the reserved number of tokens is out, it agrees with the head of the queue in the twelve address bytes, and the queue is shorter than a batch may be |
| `TxChoice.WithoutIs` | nrfxlib/nrf_wifi/utils/src/list.c:97-127 | all entries of a client leave the wakeup queue, the others stay in order |
| `TxSteps.StepInv` | nrfxlib/nrf_wifi/fw_if/umac_if/src/tx.c:821-1255 | every step keeps the invariant of the engine (tokens, memory, conservation, order, ring, bitmap, accounts) |
| `TxSteps.ReachableInv` | nrfxlib/nrf_wifi/fw_if/umac_if/src/tx.c:1258-1434 | so it holds in every state that a run from tx_init can reach |
| `TxGrowth.ReachableTidy` | nrfxlib/nrf_wifi/fw_if/umac_if/src/tx.c:821-862 | in every reachable state no queue and no batch is longer than the pending limit, and a command has been posted for every token in use |
| `TxDispatch.DispatchInv` | nrfxlib/nrf_wifi/fw_if/umac_if/src/tx.c:434-818 | moving a batch from a queue to a token and posting its command keeps all of it |
| `TxInvariant.EnqueueInv` | nrfxlib/nrf_wifi/fw_if/umac_if/src/tx.c:821-862 | so does queueing a frame, at the back or, for an emergency frame, at the front |
| `TxInvariant.InitInv` | nrfxlib/nrf_wifi/fw_if/umac_if/src/tx.c:1258-1375 | and it holds after tx_init |
| `Aggregation.BatchLenIff` | nrfxlib/nrf_wifi/fw_if/umac_if/src/tx.c:474-526 | the batch is the longest prefix of the queue that shares both addresses, has at most max_tx_aggregation frames and stays below the budget, but at least one frame |
| `Aggregation.LeavesTogetherIff` | nrfxlib/nrf_wifi/fw_if/umac_if/src/tx.c:474-526 | a second and further frame leaves with the first exactly when the peer is no legacy peer, count and bytes stay within the limits, and the twelve address bytes are those of the first |
| `Aggregation.BatchBytesIs` | nrfxlib/nrf_wifi/fw_if/umac_if/src/tx.c:488-490 | the size of a batch is that of its frames and a headroom for each |
| `Aggregation.LegacyAlone` | nrfxlib/nrf_wifi/fw_if/umac_if/src/tx.c:303-305 | a legacy peer gets one frame a command |
| `Aggregation.BatchFits` | nrfxlib/nrf_wifi/fw_if/umac_if/src/tx.c:474-526 | a batch fits in the region of a token |
| `Bounce.PlaceInRegion` | nrfxlib/nrf_wifi/hw_if/hal/src/hal_api.c:471-500 | each frame of such a batch lands word aligned inside the region of its token: the six bytes a frame that main.c reserves pay for both roundings |
| `Bounce.PlacesDisjoint` | nrfxlib/nrf_wifi/hw_if/hal/src/hal_api.c:471-500 | frames of one batch do not overlap |
| `Bounce.PlacesAre` | nrfxlib/nrf_wifi/hw_if/hal/src/hal_api.c:465-478 | the first frame lies at the start of the region of its token, each further one behind the padded frame before it and its headroom |
| `Bounce.WriteBatchIntact` | nrfxlib/nrf_wifi/hw_if/hal/src/hal_api.c:471-500 | copying a batch leaves every frame of it intact in data RAM |
| `Bounce.OtherIntact` | nrfxlib/nrf_wifi/hw_if/hal/src/hal_api.c:471-500 | and every frame of every other token |
| `TxConfig.TokenBudget` | nrf_wifi_driver.git/linux/fullmac/src/main.c:1573-1587 | the token size is word aligned, all tokens fit beside the receive buffers, and no larger aligned size would |
| `PoolModel.FindFreeIs` | nrfxlib/nrf_wifi/fw_if/umac_if/src/tx.c:216-289 | tx_desc_get picks the lowest free reserved token of the queue, else the lowest free spare, else none because all are in use |
| `PoolModel.OwnerIsTrue` | nrfxlib/nrf_wifi/fw_if/umac_if/src/tx.c:963-985 | in an accounted pool the owner worked out from the nibble is the only queue the token is in use for |
| `PoolAccounting.AssignAccountedIff` | nrfxlib/nrf_wifi/fw_if/umac_if/src/tx.c:216-289 | handing out a token keeps the records in agreement exactly when it is not a spare for multicast |
| `PoolAccounting.SpareOwnerIff` | nrfxlib/nrf_wifi/fw_if/umac_if/src/tx.c:44-66 | the owner worked out for a newly lent spare is the borrower exactly when that is not multicast |
| `PoolAccounting.ReleaseAccounted` | nrfxlib/nrf_wifi/fw_if/umac_if/src/tx.c:183-213 | freeing a token on behalf of its owner keeps the records in agreement |
| `PoolAccounting.ReownAccounted` | nrfxlib/nrf_wifi/fw_if/umac_if/src/tx.c:992-1005 | so does a spare changing hands |
| `TokenPool.TokenPool.DescGet` | nrfxlib/nrf_wifi/fw_if/umac_if/src/tx.c:216-289 | the loops over the bitmap find that token and set its bit, its counter and its nibble |
| `TokenPool.TokenPool.DescFree` | nrfxlib/nrf_wifi/fw_if/umac_if/src/tx.c:183-213 | the token's bit, counter and nibble are cleared; a free token is left alone |
| `TokenPool.TokenPool.TxDoneQueue` | nrfxlib/nrf_wifi/fw_if/umac_if/src/tx.c:963-985 | the owner of a token, read from its number or its nibble |
| `TokenPool.TokenPool.ChangeQueue` | nrfxlib/nrf_wifi/fw_if/umac_if/src/tx.c:992-1005 | both counters and both nibble bits are adjusted |
| `TokenPool.TokenPool.GetSpareDescQMap` | nrfxlib/nrf_wifi/fw_if/umac_if/src/tx.c:98-113 | the nibble of a spare has the bits that were set for it |
| `Bits.WordSize` | nrfxlib/nrf_wifi/fw_if/umac_if/src/tx.c:44-95 | setting or clearing a bit of a word does not leave the word's width |
| `Bits.NibbleBit` | nrfxlib/nrf_wifi/fw_if/umac_if/src/tx.c:98-113 | bit j of nibble n is bit 4n+j of the word |
| `CmdRing.PostInStep` | nrfxlib/nrf_wifi/hw_if/hal/src/hal_api.c:1406-1509 | given room in the ring and the token's last command read, posting keeps all unread entries, and exactly those unread commands that its bytes do not fall on |
| `CmdRing.ClashIff` | nrfxlib/nrf_wifi/hw_if/hal/src/hal_api.c:1424-1453 | a command falls on that of a later token exactly when it is longer than the slots between them |
| `CmdRing.AdvanceInStep` | nrfxlib/nrf_wifi/hw_if/hal/src/hal_api.c:1462-1509 | the RPU reads the oldest unread command, or finds it damaged exactly when a later one fell on it |
| `CmdRing.SoftHpq.DataCmdSend` | nrfxlib/nrf_wifi/hw_if/hal/src/hal_api.c:1406-1509 | command memory, of which the bytes written damage what they fall on, ring slot and wrapping index after a TX command |
| `TxDispatch.UnreadBound` | nrfxlib/nrf_wifi/hw_if/hal/src/hal_api.c:1462-1509 | unread commands belong to different tokens in use, so with no more tokens than slots there is always room |
| `HalTx.HalTx.BufMapTx` | nrfxlib/nrf_wifi/hw_if/hal/src/hal_api.c:435-521 | where the copy goes, what the table and data RAM hold afterwards, and both refusals |
| `HalTx.HalTx.BufUnmapTx` | nrfxlib/nrf_wifi/hw_if/hal/src/hal_api.c:524-560 | unmapping returns what was mapped and clears the entry, or fails and changes nothing |
| `TxMapper.TxMapper.DescIdInjective` | nrfxlib/nrf_wifi/fw_if/umac_if/src/tx.c:567-568 | buffer numbers of different tokens never coincide |
| `TxMapper.TxMapper.PrepCallback` | nrfxlib/nrf_wifi/fw_if/umac_if/src/tx.c:539-615 | one more frame is copied to its place and entered in both tables; it is never found mapped already |
| `TxMapper.TxMapper.MapBatch` | nrfxlib/nrf_wifi/fw_if/umac_if/src/tx.c:657-712 | after the traversal both tables and data RAM hold exactly the batch, the coalesce count is its length, and the command lists its places |
| `TxMapper.TxMapper.UnmapBatch` | nrfxlib/nrf_wifi/fw_if/umac_if/src/tx.c:1059-1091 | the buffers of a token in flight are all unmapped; a second completion fails at the first buffer and changes nothing; a token that never held a frame has nothing to unmap |
| `TxQueues.TxQueues.PeerFromWakeupQ` | nrfxlib/nrf_wifi/fw_if/umac_if/src/tx.c:339-378 | the first client in the wakeup queue with turns and frames, charged one turn |
| `TxQueues.TxQueues.CurrPeerOppGet` | nrfxlib/nrf_wifi/fw_if/umac_if/src/tx.c:381-432 | the peer whose turn it is, and the moved round-robin mark |
| `TxQueues.TxQueues.Aggregate` | nrfxlib/nrf_wifi/fw_if/umac_if/src/tx.c:474-526 | the loop moves exactly the batch from the queue to the token list |
| `TxQueues.TxQueues.PendingProcess` | nrfxlib/nrf_wifi/fw_if/umac_if/src/tx.c:434-536 | peer, batch, token and bitmap as the abstract step says, or nothing changed |
| `TxQueues.TxQueues.EnqueueFrame` | nrfxlib/nrf_wifi/fw_if/umac_if/src/tx.c:821-862 | refused exactly when the queue is full; otherwise at the back or the front |
| `TxQueues.TxQueues.PendingFramesCount` | nrfxlib/nrf_wifi/fw_if/umac_if/src/tx.c:116-132 | frames pending for a peer, multicast not counted |
| `TxQueues.TxQueues.DelFromWakeupQ` | nrfxlib/nrf_wifi/fw_if/umac_if/src/tx.c:724-728 | every entry of the client leaves the wakeup queue |
| `TxQueues.TxQueues.UpdatePendQBmp` | nrfxlib/nrf_wifi/fw_if/umac_if/src/tx.c:135-180 | the bitmap bit follows the queue |
| `TxEngine.TxEngine.constructor` | nrfxlib/nrf_wifi/fw_if/umac_if/src/tx.c:1258-1434 | the state after tx_init |
| `TxEngine.TxEngine.CmdInit` | nrfxlib/nrf_wifi/fw_if/umac_if/src/tx.c:741-784 | maps the batch, fills in and posts the command, maintains statistics and wakeup queue |
| `TxEngine.TxEngine.Process` | nrfxlib/nrf_wifi/fw_if/umac_if/src/tx.c:865-946 | queued, refused, or ready for a token: the decision in terms of counter, addresses and queue length |
| `TxEngine.TxEngine.Tx` | nrfxlib/nrf_wifi/fw_if/umac_if/src/tx.c:1201-1255 | the whole new state and the status of nrf_wifi_fmac_tx; stays reachable |
| `TxEngine.TxEngine.LoadFirst` | nrfxlib/nrf_wifi/fw_if/umac_if/src/tx.c:990-1008 | the search finds the first access category with work, downwards |
| `TxEngine.TxEngine.BuffReqFree` | nrfxlib/nrf_wifi/fw_if/umac_if/src/tx.c:949-1020 | the token is loaded and handed over, or freed |
| `TxEngine.TxEngine.DoneProcess` | nrfxlib/nrf_wifi/fw_if/umac_if/src/tx.c:1023-1134 | the whole new state of tx_done_process; refused exactly for a token not in use |
| `TxEngine.TxEngine.SapClientPsGetFrames` | nrfxlib/nrf_wifi/fw_if/umac_if/src/fmac_ap.c:57-74 | the whole new state of a get-frames request, for a client that has been looked up |
| `TxEngine.TxEngine.SapClientUpdatePmmode` | nrfxlib/nrf_wifi/fw_if/umac_if/src/fmac_ap.c:126-146 | the whole new state of a power-save change, for a client that has been looked up |
| `TxEngine.TxEngine.RpuReads` | nrfxlib/nrf_wifi/hw_if/hal/src/hal_api.c:1462-1509 | what the RPU reads is the oldest unread command, or a damaged one exactly when a later one fell on it (environment step) |
| `TxEngine.TxEngine.MapFlagsAgree` | nrfxlib/nrf_wifi/fw_if/umac_if/src/tx.c:576-604 | a buffer is mapped, in both tables, exactly when its token is in use and its index below the coalesce count |
| `PeerTable.PeerGetId` | nrfxlib/nrf_wifi/fw_if/umac_if/src/fmac_peer.c:17-42 | the first known peer with that address; multicast addresses give the multicast peer |
| `PeerTable.MapAcFromTid` | nrfxlib/nrf_wifi/fw_if/umac_if/src/tx.c:1493-1507 | two user priorities for each access category |
| `PeerTable.RouteIs` | nrfxlib/nrf_wifi/fw_if/umac_if/src/tx.c:1547-1565 | a frame has one queue only, and that is a multicast queue, of the multicast peer, exactly for a multicast receiver |
| `PeerTable.Classify` | nrfxlib/nrf_wifi/fw_if/umac_if/src/tx.c:1547-1565 | a known receiver gets the queue for multicast, or of the first peer with its address: best effort for a peer without QoS, else by user priority; an unknown one gets none |
| `TxEntry.StartXmit` | nrfxlib/nrf_wifi/fw_if/umac_if/src/tx.c:1521-1587 | the frame is accepted once, in the queue for its receiver and priority, exactly when it is long enough, its receiver known and that queue not full; otherwise nothing changes |
| `TxEntry.SapClientPsGetFrames` | nrfxlib/nrf_wifi/fw_if/umac_if/src/fmac_ap.c:18-82 | a get-frames request from the address of the client: refused without effect exactly when the address is unknown |
| `TxEntry.SapClientUpdatePmmode` | nrfxlib/nrf_wifi/fw_if/umac_if/src/fmac_ap.c:85-154 | a power-save change from the address of the client, likewise |
| `CtrlPath.FragmentsAre` | nrfxlib/nrf_wifi/hw_if/hal/src/hal_api.c:1283-1373 | fragments are short enough, full but for the last, and concatenate to the command |
| `CtrlPath.DeliveredWholeIff` | nrfxlib/nrf_wifi/hw_if/hal/src/hal_api.c:1238-1280 | from the messages in flight, the slots and the reads during each wait: what is posted is the whole command exactly when at every wait the ring is not full or the RPU reads a message |
| `CtrlPath.NoReadsWholeIff` | nrfxlib/nrf_wifi/hw_if/hal/src/hal_api.c:1238-1280 | while the RPU reads nothing, exactly when there are at least as many free slots as fragments |
| `CtrlPath.ReadyAt` | nrfxlib/nrf_wifi/hw_if/hal/src/hal_api.c:874-896 | which waits time out: those with the ring full and nothing read |
| `CtrlPath.CtrlPath.MsgWrite` | nrfxlib/nrf_wifi/hw_if/hal/src/hal_api.c:1184-1235 | a message of at most the maximal size is posted exactly when a slot is free, and damages nothing unread, given that the buffers of the RPU are that far apart |
| `CtrlPath.CtrlPath.RpuReads` | nrfxlib/nrf_wifi/hw_if/hal/src/hal_api.c:924-1088 | the RPU receives messages in posting order (environment step) |
| `CtrlPath.CtrlPath.ReadyWait` | nrfxlib/nrf_wifi/hw_if/hal/src/hal_api.c:874-896 | how many messages are left after the reads; ready exactly when fewer than slots are |
| `CtrlPath.CtrlPath.CmdQueue` | nrfxlib/nrf_wifi/hw_if/hal/src/hal_api.c:1283-1373 | the fragments are queued in order |
| `CtrlPath.CtrlPath.CmdProcessQueue` | nrfxlib/nrf_wifi/hw_if/hal/src/hal_api.c:1238-1280 | the queue is drained; which waits succeed and how much is in flight afterwards follow from what was in flight, slots and reads; the messages whose wait succeeded are posted in order, and the status is that of the last |
| `CtrlPath.CtrlPath.CtrlCmdSend` | nrfxlib/nrf_wifi/hw_if/hal/src/hal_api.c:1376-1403 | the same for the fragments of a command |
| `RxLayout.DescBijection` | nrfxlib/nrf_wifi/fw_if/umac_if/src/rx.c:36-44 | descriptors and (pool, buffer) pairs are in bijection |
| `RxLayout.SlotsDisjoint` | nrfxlib/nrf_wifi/hw_if/hal/src/hal_api.c:298-299 | device slots do not overlap |
| `RxLayout.SlotsInsideIff` | nrfxlib/nrf_wifi/hw_if/hal/src/hal_api.c:216-238 | all slots lie in data RAM exactly when the pools fit with their headers |
| `RxLayout.ShippedPoolsOverrun` | nrf_wifi_driver.git/linux/fullmac/src/main.c:71-77 | with 63 buffers of 1600 bytes they do not, by 252 bytes |
| `RxPath.AllMappedAgainIff` | nrfxlib/nrf_wifi/fw_if/umac_if/src/rx.c:312-458 | after an event every descriptor is mapped again exactly when all were before and no packet of unknown type precedes an invalid descriptor |
| `RxPath.ReceivedIff` | nrfxlib/nrf_wifi/fw_if/umac_if/src/rx.c:336-428 | a packet for a mapped descriptor is received exactly when it is a beacon or probe response, or data of type 0, 1 or 2 |
| `RxPath.NotReceived` | nrfxlib/nrf_wifi/fw_if/umac_if/src/rx.c:318-345 | the other outcomes: no such descriptor, or one that is not mapped |
| `RxPath.AllGoodReceived` | nrfxlib/nrf_wifi/fw_if/umac_if/src/rx.c:312-458 | an event of such packets is received to the end and leaves every descriptor mapped |
| `RxPath.HeaderBytes` | nrfxlib/nrf_wifi/fw_if/umac_if/src/rx.c:147 | the header in front of a slot is the number of its descriptor, lowest byte first |
| `RxPath.RefillIs` | nrfxlib/nrf_wifi/fw_if/umac_if/src/rx.c:443-446 | a refill names its descriptor and the place from which its next payload is read |
| `RxPath.UniformSlot` | nrfxlib/nrf_wifi/hw_if/hal/src/hal_api.c:298-299 | with one buffer size slot d begins d slots of that size and four bytes behind the first |
| `RxPath.UnknownTypeUnmaps` | nrfxlib/nrf_wifi/fw_if/umac_if/src/rx.c:401-411 | a single packet of type 3 for any descriptor leaves that descriptor unmapped |
| `RxPath.RxPath.MapDescToPool` | nrfxlib/nrf_wifi/fw_if/umac_if/src/rx.c:22-47 | the search finds the pool and buffer of every descriptor and of nothing else |
| `RxPath.RxPath.BufMapRx` | nrfxlib/nrf_wifi/hw_if/hal/src/hal_api.c:266-355 | slot address, table entry and header written, and both refusals |
| `RxPath.RxPath.BufUnmapRx` | nrfxlib/nrf_wifi/hw_if/hal/src/hal_api.c:358-432 | what was mapped, the bytes of the slot, and the cleared entry, or failure |
| `RxPath.RxPath.RxCmdInit` | nrfxlib/nrf_wifi/fw_if/umac_if/src/rx.c:90-195 | a fresh buffer is mapped in both tables exactly when the descriptor exists and is unmapped |
| `RxPath.RxPath.ReceiveMapped` | nrfxlib/nrf_wifi/fw_if/umac_if/src/rx.c:336-443 | the buffer is handed up or freed, with the bytes that were in its slot, and replaced |
| `RxPath.RxPath.EventProcess` | nrfxlib/nrf_wifi/fw_if/umac_if/src/rx.c:268-483 | how many packets are received, each with the bytes in its slot when the event began; the refill command; the status; which descriptors remain mapped; an event of known types on mapped descriptors succeeds in full |
| `RxPath.RxPath.GoneOnce` | nrfxlib/nrf_wifi/fw_if/umac_if/src/rx.c:336-428 | no buffer is handed up twice, freed twice, both, or still mapped |
| `RxPath.RxPath.InitRx` | nrfxlib/nrf_wifi/fw_if/umac_if/src/default/fmac_api.c:97-135 | every descriptor is mapped after start-up |
| `LinkedList.Llist.AddNodeTail` | nrf_wifi_driver.git/linux/fullmac/src/lnx_shim.c:382-393 | the node joins the ring at the end, every link right and the length too |
| `LinkedList.Llist.DelNode` | nrf_wifi_driver.git/linux/fullmac/src/lnx_shim.c:427-440 | the node leaves the ring |
| `LinkedList.Llist.GetNodeHead` | nrf_wifi_driver.git/linux/fullmac/src/lnx_shim.c:395-409 | the first node or null |
| `LinkedList.Llist.GetNodeNxt` | nrf_wifi_driver.git/linux/fullmac/src/lnx_shim.c:411-425 | the next node or null at the end |
| `LinkedList.Llist.AddTail` | nrfxlib/nrf_wifi/utils/src/list.c:45-69 | appends to the sequence |
| `LinkedList.Llist.AddHead` | nrfxlib/nrf_wifi/utils/src/list.c:71-95 | prepends to the sequence |
| `LinkedList.Llist.DelData` | nrfxlib/nrf_wifi/utils/src/list.c:97-127 | removes every element equal to the given one, while walking |
| `LinkedList.Llist.DelHead` | nrfxlib/nrf_wifi/utils/src/list.c:129-153 | returns and removes the first element; an empty list is left alone |
| `LinkedList.Llist.Peek` | nrfxlib/nrf_wifi/utils/src/list.c:156-174 | the first element, if any |
| `LinkedList.Llist.Len` | nrfxlib/nrf_wifi/utils/src/list.c:177-182 | the length field is the number of elements |
| `LinkedList.Llist.Traverse` | nrfxlib/nrf_wifi/utils/src/list.c:185-216 | visits in order up to the first failure; the status of an empty list is failure |
| `LinkedList.VisitAppend` | nrfxlib/nrf_wifi/utils/src/list.c:196-213 | a traversal that failed does not go on, one that did not goes on from where it was |
| `HexLoader.Rpu.HexLoad` | nrfxlib/nrf_wifi/hw_if/hal/src/hal_fw_hex_loader.c:70-192 | for every text: the status, and memory equal to that of a byte-by-byte loader that pads sections with zeros to whole words, less the incomplete word when a byte is bad or cut off |
| `HexLoader.Rpu.DataByte` | nrfxlib/nrf_wifi/hw_if/hal/src/hal_fw_hex_loader.c:139-176 | a byte joins the word; the fourth writes it and advances the address, which wraps |
| `HexLoader.Rpu.AddressItem` | nrfxlib/nrf_wifi/hw_if/hal/src/hal_fw_hex_loader.c:107-133 | an address flushes what is left of the section before |
| `HexLoader.DigitIff` | nrfxlib/nrf_wifi/hw_if/hal/src/hal_fw_hex_loader.c:34 | a character is a digit exactly when it is in one of the two lists of sixteen, and its value is its place there |
| `HexLoader.HexValLast` | nrfxlib/nrf_wifi/hw_if/hal/src/hal_fw_hex_loader.c:34 | a digit weighs sixteen times as much one place further left |
| `HexLoader.PrefixedAddress` | nrfxlib/nrf_wifi/hw_if/hal/src/hal_fw_hex_loader.c:59 | after 0x or 0X there are six digits for an address |
| `HexLoader.UnpackPack` | nrfxlib/nrf_wifi/hw_if/hal/src/hal_fw_hex_loader.c:153-162 | writing a word stores its bytes in order, and zeros for those it lacks |
| `HexLoader.OrAppends` | nrfxlib/nrf_wifi/hw_if/hal/src/hal_fw_hex_loader.c:155-156 | or-ing a shifted byte into the word appends it |
| `HexImage.SameTokens` | nrfxlib/nrf_wifi/hw_if/hal/src/hal_fw_hex_loader.c:21-68 | capitalising any of its digits does not change what is read from an image |
| `HexImage.PrintReadRoundTrip` | nrfxlib/nrf_wifi/hw_if/hal/src/hal_fw_hex_loader.c:21-68 | reading a printed list of sections, with each digit in either case, gives the sections back |
| `HexImage.LoadedMemory` | nrfxlib/nrf_wifi/hw_if/hal/src/hal_fw_hex_loader.c:70-192 | loading leaves at every address what the last section that covers it says, and other addresses alone |
| `HexImage.PrintLoadRoundTrip` | nrfxlib/nrf_wifi/hw_if/hal/src/hal_fw_hex_loader.c:70-192 | a printed image, with each digit in either case, loads with success and its bytes are in memory, unless a later section overwrites them |
| `HexImage.NoDataFails` | nrfxlib/nrf_wifi/hw_if/hal/src/hal_fw_hex_loader.c:70-192 | an image of sections without data is a failure |
| `HexImage.OnlyWholeWords` | nrfxlib/nrf_wifi/hw_if/hal/src/hal_fw_hex_loader.c:139-176 | of a section that breaks off at a bad byte the whole words are stored |
| `Deencap.SamePacketSameFrame` | nrfxlib/nrf_wifi/fw_if/umac_if/src/fmac_util.c:62-205 | the same packet gives the same Ethernet frame as an MPDU given by its fields, as a subframe behind a MAC header, and as a subframe alone |
| `Deencap.MpduFields` | nrfxlib/nrf_wifi/fw_if/umac_if/src/fmac_util.c:83-150 | an MPDU given by its fields, with an RFC 1042 header, becomes the addresses that the DS bits select among them, EtherType in network order and body |
| `Deencap.RemainsIff` | nrfxlib/nrf_wifi/fw_if/umac_if/src/fmac_util.c:62-81 | eight bytes behind the MAC header go when a type of 0x0600 or more is in them, otherwise two |
| `Deencap.AmsduToEthernet` | nrfxlib/nrf_wifi/fw_if/umac_if/src/fmac_util.c:153-205 | so does an A-MSDU subframe |
| `Deencap.AddressesStandardIff` | nrfxlib/nrf_wifi/fw_if/umac_if/src/fmac_util.c:100-142 | the addresses are those of section 9.3.2.1 of IEEE Std 802.11-2016 exactly when not both DS bits are set, or receiver and destination coincide |
| `Deencap.LengthFieldIff` | nrfxlib/nrf_wifi/fw_if/umac_if/src/fmac_util.c:145-149 | the type or length field is in network order exactly when it is a type, or the two bytes of the length are equal |
| `Deencap.SkBuf.ConvertToEth` | nrfxlib/nrf_wifi/fw_if/umac_if/src/fmac_util.c:83-150 | the header written in front of the frame, in place |
| `Deencap.SkBuf.RxConvertAmsduToEth` | nrfxlib/nrf_wifi/fw_if/umac_if/src/fmac_util.c:153-205 | the converted subframe, in place |
| `Deencap.SkBuf.Convert` | nrfxlib/nrf_wifi/fw_if/umac_if/src/rx.c:363-406 | the three cases of the receive loop; the push always has the room it needs |
| `RadioTest.ConfigurationSafe` | nrf_wifi_driver.git/linux/fullmac/src/dbgfs_wlan_fmac_conf.c:1094-2840 | after every sequence of settings: tx and rx exclude each other, so do rate and MCS, FCM mode does not receive, and while tx is on the stored channel passes the check for the stored mode |
| `RadioTest.RadioConf.Write` | nrf_wifi_driver.git/linux/fullmac/src/dbgfs_wlan_fmac_conf.c:1094-2840 | which settings each branch accepts and the whole configuration afterwards |
| `RadioTest.RadioConf.TxOn` | nrf_wifi_driver.git/linux/fullmac/src/dbgfs_wlan_fmac_conf.c:2654-2748 | switching transmission on; the checks before the channel check are subsumed by it |
| `RadioTest.FortyMHzIff` | nrf_wifi_driver.git/linux/fullmac/src/dbgfs_wlan_fmac_conf.c:312-376 | a 40 MHz setting in the 5 GHz bands passes exactly for a real channel pair, or a primary channel that is in no pair |
| `RadioTest.FortyMHz2GIff` | nrf_wifi_driver.git/linux/fullmac/src/dbgfs_wlan_fmac_conf.c:312-376 | in the 2.4 GHz band exactly when the second channel is one of 1 to 11, and not for VHT |
| `RadioTest.TwentyMHzIff` | nrf_wifi_driver.git/linux/fullmac/src/dbgfs_wlan_fmac_conf.c:239-387 | a 20 MHz setting passes exactly without a second channel, for VHT in the 5 GHz bands only |
| `RadioTest.ValidChannelIff` | nrf_wifi_driver.git/linux/fullmac/src/dbgfs_wlan_fmac_conf.c:193-236 | the channels are 1 to 14, the two of every pair and their centre, and 165 |
| `RadioTest.RatesIff` | nrf_wifi_driver.git/linux/fullmac/src/dbgfs_wlan_fmac_conf.c:119-190 | the rates of each mode and stream count |
| `RadioTest.BusyRefuses` | nrf_wifi_driver.git/linux/fullmac/src/dbgfs_wlan_fmac_conf.c:1094-2840 | while transmitting or receiving no other setting is accepted |
| `RadioTest.QuietAccepts` | nrf_wifi_driver.git/linux/fullmac/src/dbgfs_wlan_fmac_conf.c:1094-2840 | otherwise exactly the values in range are |
| `RadioTest.StoredChannelValidIff` | nrf_wifi_driver.git/linux/fullmac/src/dbgfs_wlan_fmac_conf.c:2384-2415 | an accepted channel number is stored as an existing channel exactly when it fits in eight bits |
| `RadioTest.HeSuMcsIff` | nrf_wifi_driver.git/linux/fullmac/src/dbgfs_wlan_fmac_conf.c:130-157 | HE SU is checked by the rule for HT, which is the documented one exactly for one stream |
| `ConfText.PacketStreamsNeverSet` | nrf_wifi_driver.git/linux/fullmac/src/dbgfs_wlan_fmac_conf.c:1094-2840 | whatever texts are written, each running the branch that it selects, packets are sent in one stream |
| `ConfText.AcceptedMcsIff` | nrf_wifi_driver.git/linux/fullmac/src/dbgfs_wlan_fmac_conf.c:130-157 | so after any texts HT and HE SU accept exactly the MCS 0 to 7 |
| `ConfText.SelectedIff` | nrf_wifi_driver.git/linux/fullmac/src/dbgfs_wlan_fmac_conf.c:43-65 | the text of a modelled setting selects its own branch of the handler, except that `tx_pkt_nss=` selects that of `nss=` |
| `ConfText.TxNssTakenForNss` | nrf_wifi_driver.git/linux/fullmac/src/dbgfs_wlan_fmac_conf.c:1405-1901 | no text at all selects the branch of `tx_pkt_nss=` |
| `RadioTest.StoredRateIsSet` | nrf_wifi_driver.git/linux/fullmac/src/dbgfs_wlan_fmac_conf.c:2160-2222 | a rate that passes is stored as not set only when it is |
| `RadioTest.Sec40NeverAllowed` | nrf_wifi_driver.git/linux/fullmac/src/dbgfs_wlan_fmac_conf.c:2492-2534 | the second 40 MHz offset can never be set |

## Left out

- TxEngine.TxEngine.constructor: the seven bytes that the allocation of the token bitmap lacks; the bitmap is an array of whole words.
- What the RPU does with a damaged command: it counts as read, and its token may be completed like any other.
- TWT sleep: `twt_sleep_status` is only ever assigned "awake" in the repository (`tx.c:1374`), so every frame may be sent and the model has no sleeping state.
- Failing allocation, DMA mapping and device writes; in particular the error path of `nrf_wifi_fmac_start_xmit` after a failed send (`tx.c:1581`). DMA mapping is the identity on addresses other than 0.
- Adding and removing peers during a run: the peer table is fixed. Fewer than five transmit tokens: marking a spare then divides by zero (`tx.c:61`), and with none `nrf_wifi_fmac_tx` refuses every frame. More tokens than HOST_RPU_TX_DESC; more than 255 tokens or aggregated frames.
- The surroundings of the transmit engine are assumptions of `TxModel.Enabled`: the RPU completes only commands that it has read, damaged ones included (a repeated completion is modelled and refused; a completion numbered exactly `num_tx_tokens` passes the bound check at `tx.c:1050` and is outside the model); frames are no longer than the interface allows; power-save states are "active" and "asleep", for unicast peers.
- Frames longer than CONFIG_NRF700X_TX_MAX_DATA_SIZE, for which `HalTx` models the refusal of the mapper but the engine is not followed further.
- The wrap-around of the host statistics, which are 32 bits wide.
- `nrf_wifi_util_get_tid`: the user priority of a frame is a parameter, also of the arrivals in `TxFlood.Arrives`. Its VLAN and MPLS branches do not compute what their names say.
- TxQueues.TxQueues.PendingProcess: the pending queues and token lists are sequences here; that the linked list behind them is one is the subject of `LinkedList`.
- LinkedList.Llist.AddHead: the Linux shim provides no operation to add at the head (`lnx_shim.c:1121` has only the tail), so this follows the contract in `osal_ops.h:77`; freeing a node is left to the garbage collector.
- `queue.c` forwards every operation to the list operation of the same meaning.
- HexLoader.Rpu.HexLoad: reading past the end of the image is reported, not followed. `kstrtol`, which is not part of the repository, also accepts a sign in front of a field and a line break at its end; here such a field is an error. The `0x` that it skips in front of an address is modelled.
- The contents of a command other than its buffers, addresses, emergency flag, more-data and end-of-service bits; the doorbell register.
- RxPath.RxPath.EventProcess: assumes that a packet is no longer than its slot, which the code does not check; the DEINIT half of `nrf_wifi_fmac_rx_cmd_send` and the RSSI callback are left out.
- Deencap.SkBuf.Convert: assumes that a frame holds the headers that its type announces, which the code does not check; that the headers before the EtherType are those of RFC 1042 is a hypothesis of the lemmas. Frames with a length below 0x0600 lose two bytes of their LLC header (`fmac_util.c:70`), which the model follows.
- RadioTest.RadioConf.Write: the settings that neither guard nor are guarded by the modelled ones, whose names are not endings of the modelled names either; the numbers in a command text are typed values, and which number a text holds is left open (`ConfText.Handles`); programming the RPU succeeds.
- TxEntry.SapClientPsGetFrames: a request that names a multicast address, for which the driver would put the multicast peer in the wakeup queue.
- TxEntry.SapClientUpdatePmmode: likewise.
- The RPU's power-save handshake, interrupts and event delivery, firmware patching, VIF bookkeeping, commands to the firmware, cfg80211 and netlink glue, statistics and debugfs display.

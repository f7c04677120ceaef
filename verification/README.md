# twincat-ads driver: a verified model

The driver connects EPICS records to variables in a TwinCAT PLC over ADS. It
keeps a table of parameters, reads most of them in bulk requests of up to 500
sub-requests, learns about symbols in batches, and offers an ASCII command
channel beside its records. This project models that machinery and proves what
it promises over all inputs and all runs.

| module | models |
|---|---|
| `Bytes`, `Decimal` | little-endian words, concatenated blocks, decimal integers |
| `DrvInfo` | the record link text and the two places that cut the symbol name out of it |
| `BulkModel`, `BulkInvariants`, `BulkProofs` | the parameter table and the bulk-read index as values, one function per operation, and what every step keeps |
| `BulkTheorems`, `BulkAccounts` | packing, indices, reply-size accounting and freshness in every reachable state |
| `BulkSteps` | what single steps do to each field, and that they leave the others alone |
| `BulkDriver` | the driver object; each method is proved to compute its function in `BulkModel` |
| `SumRead` | the sum read: server, wire format, decoder, and its refinement of single reads |
| `SingleRead` | reads of one parameter beside bulk reads, and both against the variable in the PLC |
| `SumRequest`, `SymbolServer` | the batched read-write request, and the test server's parser and answers |
| `SymbolModel`, `SymbolResolver`, `SymbolSession` | the batched symbol resolver and its dictionary: specification, in-place code, and driver and server together |
| `OctetBuffer`, `OctetCommand`, `OctetCodec` | the ASCII channel: output buffer, command splitting and framing, integer arrays as text |
| `Supervision` | what a supervision round does when no port is up |
| `ClientPorts` | reference-counted ADS client ports of nested guards on many threads |
| `EthercatRouting` | discovery of the EtherCAT master and routing of requests |
| `TimeStamp` | FILETIME to EPICS time in 32- and 64-bit arithmetic |

Where the source updates objects in place the model is a class or a method over
arrays, and its `ensures` tie the new state to a specification function; the
lemmas are about those functions. Threads are atomic steps at the granularity
of the asyn lock. What the PLC or the ADS library answers is a parameter of the
step that asks.

Where the code does not keep what it appears to promise, the code is modelled as
it is and the exact condition is proved:

- A slot keeps the size it was last written with; its parameter takes over every
  size it is described with. Whenever a description with another size is not
  followed by the slot being written again the two part: the PLC describes the
  symbol as larger than 1 MiB, so that it is subscribed to, or the subscription
  fails; it describes it and then gives no handle, or there is no buffer; or the
  symbol came from the dictionary and is read, written or subscribed to by itself,
  which fetches its description again. The parameter may be flagged or not. The
  decoder is then misaligned for the slots behind it, and one sum read is one read
  per slot exactly when this happened to none of the chunk's parameters since
  their slots were written (`SumRead.SizesAgreeIff`, `SumRead.ChunkAlignedIff`,
  `SumRead.DecoderKeepsPlaceIff`, `SumRead.SumReadRefinesIff`;
  `SumRead.OutgrownSlotIsStale`, `SumRead.HandlelessSlotIsStaleIff`,
  `SumRead.RefetchedSlotIsStaleIff`).
- When the address lookup fails after the asyn parameter was made, indices and
  table positions stay apart for good: a parameter's index is its position plus
  the number of such failures before its creation, so its slot names it exactly
  when there was none (`BulkTheorems.IndexShift`,
  `BulkTheorems.SlotNamesOwnerIff`). Its bytes are then passed over, or handed to
  another parameter (`BulkTheorems.LostParameterPassedOver`,
  `BulkTheorems.LostParameterMisdelivers`). The driver makes its port with one
  address and not as a multi-device port
  (adsApp/src/adsAsynPortDriver.cpp:1003-1014); asyn, which is not part of this
  model, is expected to report address 0 on such a port and not to fail, so this
  needs asyn to do otherwise. In every run without such a failure no slot is ever
  passed over (`BulkTheorems.NothingPassedOver`).
- A slot that failed and was registered again counts twice in the read size
  until the next invalidation; a slot not written since then does not count at
  all. The read size falls short exactly when the second outweighs the first
  (`BulkAccounts.ReadSizeShortIff`). The driver gets there: bulk reads are
  switched on after every refresh, also one that did nothing because the driver
  counted as disconnected (`BulkAccounts.RefreshedChunkCoversIff`,
  `BulkAccounts.ReachableShortRead`). What follows depends on the ADS library,
  which is not part of this model: if it refuses a reply longer than the read
  size the call fails and nothing is decoded; if it copies what fits and reports
  success, old bytes are decoded (`SumRead.ShortReadGivesOldBytes`).
- The resolver advances by the announced length, the test server fills a failed
  slot with bytes it does not announce, so the walk is aligned up to the first
  unknown symbol only (`SymbolModel.ServerWalkAlignedIff`).
- The slow path refuses names of 767 characters and more, the dictionary does
  not (`SymbolModel.CacheAgreesWithSlowPath`); descriptions shorter than 36
  bytes never reach the dictionary (`SymbolSession.SessionFillsDictionary`).
- A UINT32 is printed in the format of a signed integer, so as what it is exactly
  below 2^31 (`OctetCodec.UnsignedWordShownIff`); parsing still gives its bytes back.
- A bulk read fills a variable that is shorter than its parameter up with zeros;
  a single read of it is refused (`SingleRead.BulkReadIsSingleRead`).
- The printer of the ASCII codec wants room for one element more than the array
  has, and an empty array comes back as one element
  (`OctetCodec.PrintSucceedsIff`, `OctetCodec.CountReturnsIff`).
- A guard whose port could not be opened, dying over an entry left by a failed
  close, takes the count below zero; the port of a later outer guard is then
  closed under it (`ClientPorts.CountSurvivesIff`,
  `ClientPorts.BothFailingClosesEarly`).
- The lookup of a thread's port has its test the wrong way round compared with
  the comments beside it (`ClientPorts.LookupAsPromisedIff`).
- The supervision ends the process before its reconnect branch can be reached;
  after one round with all ports down the driver counts as disconnected until a
  connect is made elsewhere (`Supervision.ExitsIffTwoDown`,
  `Supervision.ConnectedIff`).

## Model

| member | source | states |
|---|---|---|
| `DrvInfo.ValidEndsInMark` | adsApp/src/adsAsynPortDriver.cpp:2163-2197 | the two searches for a last mark accept exactly the non-empty texts that end in '?' or '=' |
| `DrvInfo.ExtractorsAgreeIff` | adsApp/src/adsAsynPortDriver.cpp:2784-2808 | for valid links the name gathered for batching equals the parameter's address exactly when there is no option part or the last token has no white space and at most 127 characters |
| `DrvInfo.ExtractorsMean` | adsApp/src/adsAsynPortDriver.cpp:2784-2808 | what each of the two cuts out: the part behind the last slash without its mark; the whole link without its mark, or the first word of that part, at most 127 characters, without its last |
| `BulkDriver.Driver.constructor` | adsApp/src/adsAsynPortDriver.h:219-300 | a new driver has one default parameter and no chunk in use, and satisfies the invariant |
| `BulkDriver.Driver.FindBulkTimeStamp` | adsApp/src/adsAsynPortDriver.cpp:2658-2700 | one entry per port; handles asked for when stale, kept stale unless both were given |
| `BulkDriver.Driver.FindRoom` | adsApp/src/adsAsynPortDriver.cpp:2595-2606 | the scan finds the first chunk that is unused or of this port and not full |
| `BulkDriver.Driver.OpenBulk` | adsApp/src/adsAsynPortDriver.cpp:2607-2631 | a chunk taken into use reads the PLC time, or dummy memory while the handles are stale, in its first two slots |
| `BulkDriver.Driver.AddToBulkRead` | adsApp/src/adsAsynPortDriver.cpp:2590-2655 | refused exactly when there is no room, else placed once, its request written and its reply bytes added; nothing else changes |
| `BulkDriver.Driver.UpdateParamInfoWithPLCInfo` | adsApp/src/adsAsynPortDriver.cpp:2407-2544 | whole new state and result of bringing one parameter up to date, for every way the PLC may answer |
| `BulkSteps.UpdatedIff` | adsApp/src/adsAsynPortDriver.cpp:2407-2544 | an update succeeds, and takes the flag down, exactly when description, buffer, handle and subscription or room in a bulk read are all given as far as they are asked for |
| `BulkDriver.Driver.AddDataCallback` | adsApp/src/adsAsynPortDriver.cpp:5408-5515 | a subscription fetches the description first where there is none, as after a dictionary hit |
| `BulkDriver.Driver.AccessParam` | adsApp/src/adsAsynPortDriver.cpp:6250-6345 | whole new state of a read or write of one parameter, with description and handle fetched late, and the request it sends, if any; the invariant is kept |
| `BulkDriver.Driver.InvalidateParams` | adsApp/src/adsAsynPortDriver.cpp:2064-2094 | flags the parameters and time stamps of the port, or of all, restarts their chunks' accounting, touches nothing else |
| `BulkDriver.Driver.RefreshParams` | adsApp/src/adsAsynPortDriver.cpp:2010-2050 | brings exactly the flagged parameters of the port up to date in table order and keeps the invariant |
| `BulkDriver.Driver.SuperviseOnePort` | adsApp/src/adsAsynPortDriver.cpp:1441-1482 | one port's turn of the supervision: refresh when it is back, invalidate when it is lost |
| `BulkSteps.SuperviseQuiet` | adsApp/src/adsAsynPortDriver.cpp:1441-1482 | a visit refreshes exactly where the port is back and marked, and apart from a loss changes nothing else |
| `BulkDriver.Driver.SymbolsChangedCallback` | adsApp/src/adsAsynPortDriver.cpp:311-320 | a symbol-version change invalidates and refreshes the port and keeps the invariant |
| `BulkDriver.Driver.DecodeReply` | adsApp/src/adsAsynPortDriver.cpp:1673-1725 | the pointer walk over status words and data hands out the reply slot by slot |
| `BulkDriver.Driver.PollChunk` | adsApp/src/adsAsynPortDriver.cpp:1654-1725 | one chunk's turn: a failed call changes no parameter, a successful one hands out the buffer |
| `BulkDriver.Driver.DrvUserCreate` | adsApp/src/adsAsynPortDriver.cpp:2209-2400 | whole new state of creating a parameter, whichever step fails; a known link changes nothing |
| `BulkSteps.EnteredIff` | adsApp/src/adsAsynPortDriver.cpp:2209-2371 | a parameter is registered exactly when its link is valid, new and understood, the table has room, its record is found, and asyn has no such name and an address for it |
| `BulkSteps.EntryMeans` | adsApp/src/adsAsynPortDriver.cpp:2243-2371 | the new entry has what the link says, group, offset and size of an address command included, the next index, a flag and no slot; name and port are on record, nothing else has changed |
| `BulkSteps.CreateUpdates` | adsApp/src/adsAsynPortDriver.cpp:2372-2400 | the new parameter is brought up to date at once exactly if it reads from the PLC and the driver counts as connected; otherwise nothing is asked for |
| `BulkSteps.TimeStampAsked` | adsApp/src/adsAsynPortDriver.cpp:2658-2700 | the time-stamp handles of the port as they were given, each in its own field, stale unless both were; no other entry changes |
| `BulkSteps.ChunkOpened` | adsApp/src/adsAsynPortDriver.cpp:2607-2631 | a chunk opened for a parameter asks for the high and then the low word of the PLC time by those handles, or twice for memory while they are stale |
| `BulkSteps.InvalidateMeans` | adsApp/src/adsAsynPortDriver.cpp:2064-2094 | exactly the registered parameters, time stamps and chunks in use of the port, or of all, are flagged or start again at 16 bytes |
| `BulkSteps.RefreshSkips` | adsApp/src/adsAsynPortDriver.cpp:2016-2030 | a refresh leaves a parameter that is not flagged, or not of the port, as it is |
| `BulkSteps.RefreshUpdates` | adsApp/src/adsAsynPortDriver.cpp:2016-2030 | it updates each other one once, with what the PLC answers for it |
| `BulkSteps.RefreshRenews` | adsApp/src/adsAsynPortDriver.cpp:2031-2046 | it takes the mark of its own port down exactly when connected and the callback could be renewed |
| `BulkProofs.RunKeepsInv` | adsApp/src/adsAsynPortDriver.cpp:2010-2094 | every run of creation, invalidation, refresh, supervision, symbol change and polling keeps the invariant |
| `BulkTheorems.ChunksAreCeiling` | adsApp/src/adsAsynPortDriver.cpp:2593-2635 | each port uses exactly its number of parameters over 498, rounded up, chunks |
| `BulkTheorems.NoPackingUsesFewer` | adsApp/src/adsAsynPortDriver.cpp:2593-2635 | no other packing of as many parameters of a port needs fewer chunks |
| `BulkTheorems.FullIff` | adsApp/src/adsAsynPortDriver.cpp:2593-2635 | a port's chunks are all full exactly when its parameters fill whole chunks |
| `BulkTheorems.RefusedIff` | adsApp/src/adsAsynPortDriver.cpp:2595-2606 | adding fails exactly when every chunk is in use and the port's are all full |
| `BulkTheorems.SlotNamesItsOwner` | adsApp/src/adsAsynPortDriver.cpp:1699-1709 | with no parameter lost each slot's id is the table position of its one owner, so the decoder always finds it |
| `BulkTheorems.StepGap` | adsApp/src/adsAsynPortDriver.cpp:2330-2370 | exactly the creations whose address lookup fails move names and count apart, and no step brings them together again |
| `BulkTheorems.NoneLostIff` | adsApp/src/adsAsynPortDriver.cpp:2330-2370 | over a run from the start every asyn parameter is registered exactly when no step lost one |
| `BulkTheorems.IndexShift` | adsApp/src/adsAsynPortDriver.cpp:2330-2370 | a parameter's asyn index is its table position plus the number of losing steps before its creation, for good |
| `BulkTheorems.SlotNamesOwnerIff` | adsApp/src/adsAsynPortDriver.cpp:2632-2634 | a slot names its owner exactly when no step lost a parameter before the owner was created |
| `BulkTheorems.NothingPassedOver` | adsApp/src/adsAsynPortDriver.cpp:1699-1709 | in every run in which no step loses a parameter every slot names a registered parameter, its owner, so the decoder passes none over |
| `BulkTheorems.LostParameterPassedOver` | adsApp/src/adsAsynPortDriver.cpp:1699-1709 | behind a lost parameter, the decoder gives the next one nothing, whatever the reply |
| `BulkTheorems.LostParameterMisdelivers` | adsApp/src/adsAsynPortDriver.cpp:1699-1725 | with one more creation it gives that one's bytes to another parameter |
| `BulkTheorems.AssignmentsNeverMove` | adsApp/src/adsAsynPortDriver.cpp:2593-2635 | over every run a slot once given stays, as do asyn indices, ports, and the address and size of address commands |
| `BulkAccounts.ReadSizeCoversService` | adsApp/src/adsAsynPortDriver.cpp:2636-2652 | the read size covers all parameters in service, and is exact if and only if each was registered once since the last invalidation and no other slot was |
| `BulkAccounts.ReadSizeCoversReply` | adsApp/src/adsAsynPortDriver.cpp:2636-2652 | once all of a chunk's parameters are in service the read size covers the whole reply |
| `BulkAccounts.ReadSizeBalance` | adsApp/src/adsAsynPortDriver.cpp:2636-2652 | in every reachable state the read size is the reply's length, less the slots not written since the invalidation, more what was counted again |
| `BulkAccounts.ReadSizeShortIff` | adsApp/src/adsAsynPortDriver.cpp:2086-2092 | it falls short exactly when the first outweigh the second, never when all slots were written |
| `BulkAccounts.QuietRunIsExact` | adsApp/src/adsAsynPortDriver.cpp:2064-2094 | in a run in which no slot fails and no size changes every read size is exact throughout, from the last invalidation of its port on |
| `BulkAccounts.RefreshedChunkCoversIff` | adsApp/src/adsAsynPortDriver.cpp:2010-2046 | an invalidation and refresh switches bulk reads on, and a chunk's read size then covers its reply exactly when the driver counted as connected and every parameter with a slot in it is described within the limit and given a buffer and a handle |
| `BulkAccounts.LostAndFoundReadsShort` | adsApp/src/adsAsynPortDriver.cpp:1464-1476 | a port lost, and found while disconnected, has its chunks read with the time slots' share alone |
| `BulkAccounts.ReachableShortRead` | adsApp/src/adsAsynPortDriver.cpp:1464-1476 | a run of the driver leads there |
| `BulkAccounts.SizedMeans` | adsApp/src/adsAsynPortDriver.cpp:5726-5731 | what is recorded since a slot was written agrees with the history: the parameter was described with that size, and neither again nor the slot written after that |
| `BulkAccounts.WrittenMeans` | adsApp/src/adsAsynPortDriver.cpp:2649-2652 | likewise the size a slot was last written with |
| `BulkAccounts.FreshMeansCompleted` | adsApp/src/adsAsynPortDriver.cpp:2542 | the recursive reading of the history agrees with: completed at some point and not invalidated since |
| `BulkAccounts.UnflaggedIsFresh` | adsApp/src/adsAsynPortDriver.cpp:2407-2543 | in every reachable state a parameter that is not flagged completed an update since its port was last invalidated |
| `BulkAccounts.LostPortIsFlagged` | adsApp/src/adsAsynPortDriver.cpp:1468-1476 | losing a port flags all its parameters, marks the port and stops bulk reads |
| `SumRead.HandleSumupRead` | tests/server/ads_test_server.py:593-620 | the server's loop gives the status words of all single reads, then their data |
| `SumRead.ReadOneMeans` | tests/server/ads_test_server.py:604-618 | byte by byte, what a request reads: the value behind its handle for group 0xF005, else at its address, and zeros where there is none |
| `SumRead.RequestsRoundTrip` | tests/server/ads_test_server.py:599-603 | the server reads back the request list the driver sends |
| `SumRead.RequestWords` | tests/server/ads_test_server.py:599-603 | group, offset and size lie in this order in the twelve bytes of each request, low byte first |
| `SumRead.PollDelivers` | adsApp/src/adsAsynPortDriver.cpp:1673-1725 | whatever the reply, each named parameter gets the bytes at its cursor and is flagged if it was or if its status word is not zero; no other is touched |
| `SumRead.PollGives` | adsApp/src/adsAsynPortDriver.cpp:1710-1724 | the same of one slot: flag exactly where it was up or the word is not zero, value from behind the status words and the shares before it, nothing else |
| `SumRead.AlignedReplyIsRead` | adsApp/src/adsAsynPortDriver.cpp:1654-1725 | where sizes agree and the reply is in the buffer, decoding is one read per slot, whatever mix of slots fails |
| `SumRead.SumReadRefinesIff` | adsApp/src/adsAsynPortDriver.cpp:1673-1725 | of a whole reply, whatever fails and whatever is flagged, each parameter is given exactly what its slot's request reads by itself, and flagged exactly if it was or the server does not know that request, exactly when none of the chunk's parameters was resized |
| `SumRead.BulkReadRefinesSingleReads` | adsApp/src/adsAsynPortDriver.cpp:1654-1725 | a bulk read of a decodable chunk is one read per slot, whatever is flagged, and the slot of an up-to-date parameter asks for its address, or by group 0xF005 for its handle, with its size |
| `SumRead.PollKeepsDecodable` | adsApp/src/adsAsynPortDriver.cpp:1654-1725 | no poll of any chunk, whatever slots fail, makes a chunk undecodable |
| `SumRead.WrittenChunkDecodable` | adsApp/src/adsAsynPortDriver.cpp:2636-2652 | a chunk is decodable when none of its parameters was resized and every slot was written since the last invalidation |
| `SumRead.ServedChunkDecodable` | adsApp/src/adsAsynPortDriver.cpp:2636-2652 | so is one whose parameters are all up to date and in step with their slots |
| `SumRead.CursorsAgreeIff` | adsApp/src/adsAsynPortDriver.cpp:1690-1722 | decoder and reply agree on all positions exactly when all sizes but the last agree |
| `SumRead.SizesAgreeIff` | adsApp/src/adsAsynPortDriver.cpp:2432-2543 | in every reachable state a parameter with a slot, flagged or not and of any size, has the slot's size exactly when it was not described with another since the slot was written |
| `SumRead.ChunkAlignedIff` | adsApp/src/adsAsynPortDriver.cpp:1690-1724 | a chunk's parameters all have the sizes its slots ask for exactly when none was resized |
| `SumRead.DecoderKeepsPlaceIff` | adsApp/src/adsAsynPortDriver.cpp:1690-1724 | the decoder stands at every slot's own data exactly when none of the parameters but possibly the last was resized |
| `SumRead.OutgrownSlotIsStale` | adsApp/src/adsAsynPortDriver.cpp:2520-2543 | a size past the limit, as the PLC describes it, leaves a stale slot and no flag |
| `SumRead.HandlelessSlotIsStaleIff` | adsApp/src/adsAsynPortDriver.cpp:2451-2518 | a description without a handle leaves the parameter flagged and its slot behind, unless the size is the one it had |
| `SumRead.RefetchedSlotIsStaleIff` | adsApp/src/adsAsynPortDriver.cpp:6266-6281 | a late fetch raises no flag, keeps the slot, and leaves it behind exactly when the size is another one |
| `SumRead.ShortReadGivesOldBytes` | adsApp/src/adsAsynPortDriver.cpp:1655-1725 | where the time slots' share alone is read, every parameter is given what was in the buffer before |
| `SingleRead.SlotIsReadRequest` | adsApp/src/adsAsynPortDriver.cpp:6252-6313 | the slot of a parameter in service asks exactly for what a read of it by itself asks for; only the size of one from the dictionary is fetched again first |
| `SingleRead.UpdatedSlot` | adsApp/src/adsAsynPortDriver.cpp:2636-2652 | brought up to date with handle h from the dictionary or the PLC, a bulk parameter asks for (0xF005, h), or for its own address |
| `SingleRead.SingleReadTakes` | adsApp/src/adsAsynPortDriver.cpp:6302-6342 | a read with as many bytes as asked for takes them over, any other leaves the value; flag and other parameters stay |
| `SingleRead.UpdatedThenPolled` | adsApp/src/adsAsynPortDriver.cpp:1654-1725 | end to end: brought up to date and polled, a parameter holds the first bytes of the variable behind the handle it was given, or at its address |
| `SingleRead.AddressThenPolled` | adsApp/src/adsAsynPortDriver.cpp:1654-1725 | end to end over every run from its creation: an address command in service that is polled holds the bytes at the group and offset its link names |
| `SingleRead.BulkReadIsSingleRead` | adsApp/src/adsAsynPortDriver.cpp:6312-6342 | a single read and a bulk read against one server leave the same behind where the variable is not shorter than the parameter; where it is, the single read is refused and the bulk read fills up with zeros, and where it is missing only the bulk read raises the flag |
| `SumRequest.BuildWriteBuf` | adsApp/src/adsAsynPortDriver.cpp:784-822 | the buffer filled from two positions is all headers then all names, of exactly the size allocated |
| `SumRequest.ParseSumRequest` | tests/server/ads_test_server.py:545-562 | the server's header walk and name slices compute the parse of the data |
| `SumRequest.ParseInvertsEncode` | tests/server/ads_test_server.py:545-562 | the server recovers exactly the list the driver encoded, in order, and no byte is over |
| `SumRequest.HeaderAt` | adsApp/src/adsAsynPortDriver.cpp:796-818 | group, offset, answer size and name length lie in this order in the sixteen bytes of each header |
| `SumRequest.ChunksConcatenate` | adsApp/src/adsAsynPortDriver.cpp:762-789 | the chunks concatenate to the full list; the last is not empty, every other holds 500 |
| `SymbolServer.HandleSub` | tests/server/ads_test_server.py:564-588 | one sub-request's status pair and payload, by its group |
| `SymbolServer.AnswerMeans` | tests/server/ads_test_server.py:564-588 | by group: the packed description, the handle of the name without its trailing NULs, or the value; else error 0x710 and zeros that are not announced |
| `SymbolServer.PackedLayout` | tests/server/ads_test_server.py:666-693 | where each field of a description lies, byte by byte |
| `SymbolServer.SameKeyIff` | adsApp/src/adsAsynPortDriver.cpp:751-756 | names share a key exactly when they are equal but for the case of ASCII letters |
| `SymbolServer.HandleSumupReadwrite` | tests/server/ads_test_server.py:542-591 | the server's loop gives all status pairs, then all payloads |
| `SymbolServer.StatusPairAt` | adsApp/src/adsAsynPortDriver.cpp:868-876 | the driver finds each slot's status and length where it looks |
| `SymbolServer.PayloadAt` | adsApp/src/adsAsynPortDriver.cpp:868-870 | each payload is found at the sum of the payloads before it |
| `SymbolModel.Dedup` | adsApp/src/adsAsynPortDriver.cpp:744-760 | no name is lost: each has a spelling of it left, and nothing else is |
| `SymbolModel.DedupIsDistinct` | adsApp/src/adsAsynPortDriver.cpp:744-760 | no two names that are left are equal but for the case of ASCII letters, and each name given has such a spelling left |
| `SymbolModel.DedupKeepsFirst` | adsApp/src/adsAsynPortDriver.cpp:744-760 | exactly the first spellings are left, in the order in which they came |
| `SymbolModel.GatheredEntry` | adsApp/src/adsAsynPortDriver.cpp:909-945 | each symbol whose slot succeeded has the entry of its own slot |
| `SymbolModel.GatheredOnly` | adsApp/src/adsAsynPortDriver.cpp:872-945 | there is no other entry |
| `SymbolModel.GatheredSize` | adsApp/src/adsAsynPortDriver.cpp:872-945 | there are as many entries as slots that succeeded |
| `SymbolModel.WalkAt` | adsApp/src/adsAsynPortDriver.cpp:868-945 | over compact payloads the walk stands at each slot's own payload |
| `SymbolModel.WalkAlignedIff` | adsApp/src/adsAsynPortDriver.cpp:868-945 | the walk stands at a slot's payload exactly when every earlier one was as long as announced |
| `SymbolModel.ServerWalkAlignedIff` | tests/server/ads_test_server.py:586-588 | against the test server: exactly when every earlier symbol was known |
| `SymbolModel.SlotDescribesSymbol` | adsApp/src/adsAsynPortDriver.cpp:872-945 | a slot is taken exactly when it succeeded with 36 bytes or more, and then gives its own symbol's size and type |
| `SymbolModel.WithHandlesExactly` | adsApp/src/adsAsynPortDriver.cpp:610-640 | each visited entry gets its own slot's handle, every other entry is unchanged |
| `SymbolModel.ServerHandleFound` | adsApp/src/adsAsynPortDriver.cpp:610-640 | handle slots have one width, so each is read back even behind failed ones |
| `SymbolModel.CacheAgreesWithSlowPath` | adsApp/src/adsAsynPortDriver.cpp:2432-2456 | for a fixed table a hit has the size, type and a handle of the PLC's symbol of that name, every spelling of the name hits the same entry, and the slow path gives the same exactly for names below 767 characters |
| `SymbolModel.SpellingsFindSame` | adsApp/src/adsAsynPortDriver.cpp:2435-2441 | every spelling of a name finds the same entry, or none |
| `SymbolResolver.Deduplicate` | adsApp/src/adsAsynPortDriver.cpp:744-760 | the loop leaves one spelling of each name, the first, and no two of the same name |
| `SymbolResolver.SymbolDict.TakeSlot` | adsApp/src/adsAsynPortDriver.cpp:872-945 | one slot counts as success or failure, enters the dictionary or not, and moves the walk |
| `SymbolResolver.SymbolDict.ResolveSymbolInfo` | adsApp/src/adsAsynPortDriver.cpp:688-965 | successes and failures add up to the symbols, failed chunks included, the dictionary has as many entries as successes, and the pass gives up exactly when a reply claims more than was asked for |
| `SymbolResolver.SymbolDict.ResolveHandleChunk` | adsApp/src/adsAsynPortDriver.cpp:519-640 | one chunk of the second pass fills in that chunk's handles |
| `SymbolResolver.SymbolDict.ResolveSymbolHandles` | adsApp/src/adsAsynPortDriver.cpp:496-677 | the second pass fills in all handles in visiting order and changes nothing else |
| `SymbolResolver.SymbolDict.LookUp` | adsApp/src/adsAsynPortDriver.cpp:2432-2449 | finds an entry exactly when it is resolved and has a size and a type, and the same one for every spelling of the name |
| `SymbolSession.ServerServes` | tests/server/ads_test_server.py:542-591 | for known symbols the server's replies stay within what the driver allocates |
| `SymbolSession.DescribedExactly` | adsApp/src/adsAsynPortDriver.cpp:688-965 | against the server, the first pass gives exactly the symbols with long enough descriptions, with their data |
| `SymbolSession.SessionFillsDictionary` | adsApp/src/adsAsynPortDriver.cpp:496-965 | request, server, reply and both passes together: a name hits exactly when some spelling of it was asked for and the PLC has its size, type and handle, and the hit is that data |
| `OctetBuffer.OutputBuffer.AddToBuffer` | adsApp/src/adsAsynPortDriverUtils.cpp:583-600 | all of the text or nothing, by room; a terminator and a spare byte remain |
| `OctetBuffer.OutputBuffer.Printf` | adsApp/src/adsAsynPortDriverUtils.cpp:609-642 | a print that does not fit is dropped silently |
| `OctetBuffer.OutputBuffer.RemoveFromBuffer` | adsApp/src/adsAsynPortDriverUtils.cpp:651-668 | takes bytes off the front or fails and changes nothing |
| `OctetBuffer.OutputBuffer.ReadIt` | adsApp/src/adsAsynPortDriver.cpp:3280-3311 | what is handed out and what is left make up what was there; a print that fails clears the buffer |
| `OctetBuffer.AppendAllWholeIff` | adsApp/src/adsAsynPortDriverUtils.cpp:583-621 | of a series of prints nothing is dropped exactly when all of it fits |
| `OctetBuffer.ChannelIsFifo` | adsApp/src/adsAsynPortDriverUtils.cpp:583-668 | over any interleaving of prints and reads, bytes read followed by contents are the bytes accepted, and two bytes stay free |
| `OctetBuffer.PlainTextFlows` | adsApp/src/adsAsynPortDriver.cpp:3297-3308 | without NULs a read hands out as much as was asked for and is there |
| `OctetBuffer.ReadsDrain` | adsApp/src/adsAsynPortDriver.cpp:3280-3311 | reading on in pieces of any size hands out everything that was accepted |
| `OctetBuffer.Perform` | adsApp/src/adsAsynPortDriver.cpp:3280-3311 | the buffer object goes through the steps those theorems are about |
| `OctetCommand.SplitKeepsLine` | adsApp/src/adsAsynPortDriverUtils.cpp:701-827 | the line is cut behind every ';', or if it has none behind every ' ', or not at all: how many pieces there are, what is behind each, that they make up the line, and that no other cut does so |
| `OctetCommand.CutLine` | adsApp/src/adsAsynPortDriverUtils.cpp:762-803 | the pointer loop gives the recursive cut |
| `OctetCommand.CreateArgvSepv` | adsApp/src/adsAsynPortDriverUtils.cpp:701-827 | entry 0 is the line, then come its pieces and separators: behind every ';', else behind every ' ', else one piece; an empty line has none |
| `OctetCommand.LatchedIsFirst` | adsApp/src/adsAsynPortDriver.cpp:3466-3475 | the code kept is zero exactly when all commands succeeded, else that of the first that failed |
| `OctetCommand.HandleInputLine` | adsApp/src/adsAsynPortDriver.cpp:3450-3487 | every command is run in the state and with the buffer the ones before it left, also behind a failed one, and printed with its separator |
| `OctetCommand.OneMoreCommand` | adsApp/src/adsAsynPortDriver.cpp:3466-3475 | each command meets the state and the buffer contents the ones before it left |
| `OctetCommand.WriteIt` | adsApp/src/adsAsynPortDriver.cpp:3404-3448 | line ends are stripped and printed back; an empty text is refused and changes nothing |
| `OctetCommand.ReplyFraming` | adsApp/src/adsAsynPortDriver.cpp:3404-3487 | for any handler, which may look at the room left, and any NUL-free input the reply is the input with each command replaced by its answer, exactly when that fits |
| `OctetCommand.EchoGivesBackInputIff` | adsApp/src/adsAsynPortDriver.cpp:3404-3487 | an echoing handler gives back the input byte for byte exactly when it holds no NUL |
| `Decimal.ScanInvertsRender` | adsApp/src/adsAsynPortDriverUtils.cpp:1146-1168 | scanning what was printed gives the value back, whatever follows that is not a digit |
| `Decimal.RenderPlain` | adsApp/src/adsAsynPortDriverUtils.cpp:872-936 | digits only, a minus sign exactly before negative values, no leading zero |
| `Decimal.ScanDecimal` | adsApp/src/adsAsynPortDriverUtils.cpp:1146-1168 | one more digit makes ten times the number and the digit, with a sign or without |
| `Decimal.StoreInverts` | adsApp/src/adsAsynPortDriverUtils.cpp:1144-1190 | storing a value read as signed or unsigned gives its bytes back |
| `Decimal.StoreReduces` | adsApp/src/adsAsynPortDriverUtils.cpp:1144-1190 | storing reduces a value modulo the width |
| `OctetCodec.Binary2Ascii` | adsApp/src/adsAsynPortDriverUtils.cpp:838-1116 | the printer loop computes the specified text and error from any fill of the buffer; without error it has appended one number per element, with commas between, each showing its bytes: unsigned for UINT8 and UINT16, two's complement for the others, 1 or 0 for BIT |
| `OctetCodec.ElementShows` | adsApp/src/adsAsynPortDriverUtils.cpp:872-957 | what is printed of one element reads back as the number its bytes stand for in its type |
| `OctetCodec.UnsignedWordShownIff` | adsApp/src/adsAsynPortDriverUtils.cpp:910-917 | a UINT32 is printed as the number it is exactly below 2^31 |
| `OctetCodec.PrintSucceedsIff` | adsApp/src/adsAsynPortDriverUtils.cpp:849-1115 | success means the complete rendering was appended, and comes exactly when there is room for it and 20 bytes more and the binary buffer has an element to spare |
| `OctetCodec.PrintErrors` | adsApp/src/adsAsynPortDriverUtils.cpp:1100-1113 | which error is reported, and what each says about the buffers |
| `OctetCodec.Ascii2Binary` | adsApp/src/adsAsynPortDriverUtils.cpp:1128-1251 | the parser loop, in place, computes the specified bytes, count and error |
| `OctetCodec.ParseList` | adsApp/src/adsAsynPortDriverUtils.cpp:1128-1251 | of every list of numbers the parser stores each at its element, reduced to the width, and changes no other byte |
| `OctetCodec.ParseErrors` | adsApp/src/adsAsynPortDriverUtils.cpp:1192-1251 | which error the parser reports: an unknown type, or no room for one more element behind the last |
| `OctetCodec.ParseStops` | adsApp/src/adsAsynPortDriverUtils.cpp:1216-1251 | it stops at the first field that is not a number, which is counted and stores nothing |
| `OctetCodec.RoundTrip` | adsApp/src/adsAsynPortDriverUtils.cpp:838-1251 | whatever the printer accepted the parser turns back without error, other bytes untouched, into the same bytes, for bits exactly when they are all 0 or 1 |
| `OctetCodec.CountReturnsIff` | adsApp/src/adsAsynPortDriverUtils.cpp:1128-1251 | the byte count comes back exactly for non-empty arrays of whole elements |
| `Supervision.Supervisor.DoRound` | adsApp/src/adsAsynPortDriver.cpp:1530-1578 | the counter, the exit, the connection flag and the reconnect of one round, by whether any port is running |
| `Supervision.ExitsIffTwoDown` | adsApp/src/adsAsynPortDriver.cpp:1530-1578 | over every run the process ends exactly when two rounds in a row find every port down, and the reconnect branch is never reached |
| `Supervision.ConnectedIff` | adsApp/src/adsAsynPortDriver.cpp:1556-1575 | the driver counts as connected exactly when a connect made elsewhere has worked since the last all-down round |
| `Supervision.ManualStaysConnected` | adsApp/src/adsAsynPortDriver.cpp:1563-1575 | without automatic connection no round disconnects |
| `ClientPorts.ClientPortMap.AddAdsClientPortNumberForThreadId` | adsApp/src/adsAsynPortDriver.cpp:7807-7830 | the map and port after a guard comes to life, opening failed or not |
| `ClientPorts.ClientPortMap.DelAdsClientPortNumberForThreadId` | adsApp/src/adsAsynPortDriver.cpp:7832-7860 | the map after a guard dies, and which port is closed |
| `ClientPorts.ClientPortMap.GetAdsClientPortNumberForThreadId` | adsApp/src/adsAsynPortDriver.cpp:7795-7805 | the lookup as coded, with nothing where it throws |
| `ClientPorts.GuardedPortIsOpen` | adsApp/src/adsAsynPortDriver.cpp:7807-7872 | over all interleavings of nested guards, a guard's port is its thread's and open until the guard dies |
| `ClientPorts.CountIsLiveGuards` | adsApp/src/adsAsynPortDriver.cpp:7807-7872 | the count is the number of live guards that were given the port |
| `ClientPorts.PortsDistinctAndKept` | adsApp/src/adsAsynPortDriver.cpp:7807-7872 | threads never share a port, and exactly the ports in the map are open |
| `ClientPorts.EntryIffLiveGuard` | adsApp/src/adsAsynPortDriver.cpp:7807-7872 | where closing never fails a thread has an entry exactly while one of its guards holds a port |
| `ClientPorts.DefaultStays` | adsApp/src/adsAsynPortDriver.cpp:1169 | the driver's own entry and its port are there for good |
| `ClientPorts.CountSurvivesIff` | adsApp/src/adsAsynPortDriver.cpp:7837-7857 | the death of a guard keeps the count right exactly when the port closes, or the guard held one, or there is no entry |
| `ClientPorts.BothFailingClosesEarly` | adsApp/src/adsAsynPortDriver.cpp:7837-7857 | the run in which a port is closed under a live guard |
| `ClientPorts.LookupAsPromisedIff` | adsApp/src/adsAsynPortDriver.cpp:7799-7804 | the lookup does what its comments say exactly for the default id, or where there is no port at all |
| `EthercatRouting.DiscoverMeans` | adsApp/src/adsAsynPortDriver.cpp:6050-6170 | unavailable exactly when the router says there are no devices; with one device the Net ID behind the number in the second half of the ID table, its address the remote's if it has none; else the remote's address and 2.1 |
| `EthercatRouting.Router.ResolveEthercatMasterAmsNetId` | adsApp/src/adsAsynPortDriver.cpp:6050-6170 | the branches of the discovery compute that outcome once |
| `EthercatRouting.Router.CheckEthercatMasterForParam` | adsApp/src/adsAsynPortDriver.cpp:6183-6204 | only slave-state parameters resolve, and only they are refused |
| `EthercatRouting.Router.AccessParam` | adsApp/src/adsAsynPortDriver.cpp:6242-6247 | the path of a read or write up to its request, and when none is sent |
| `EthercatRouting.AccessSends` | adsApp/src/adsAsynPortDriver.cpp:6206-6247 | when a request is sent, to whom, and for which group and offset |
| `EthercatRouting.ResolutionIsFinal` | adsApp/src/adsAsynPortDriver.cpp:6052-6054 | over every run the outcome is written once |
| `EthercatRouting.ConfiguredStays` | adsApp/src/adsAsynPortDriver.cpp:6052-6054 | a configured Net ID holds over every run |
| `EthercatRouting.FirstAnswerDecides` | adsApp/src/adsAsynPortDriver.cpp:6050-6170 | what the first resolving step finds holds for good, a failed read included |
| `EthercatRouting.OneMasterPerRun` | adsApp/src/adsAsynPortDriver.cpp:6206-6214 | in every run all slave-state requests go to one Net ID and all others to the remote |
| `EthercatRouting.NoDevicesNoRequests` | adsApp/src/adsAsynPortDriver.cpp:6094-6106 | where discovery said zero devices no slave-state request is ever sent |
| `TimeStamp.EpochIs1990` | adsApp/src/adsAsynPortDriverUtils.cpp:549-573 | the epoch subtracted is the first of January 1990, by the leap-year rule from 1601, and that of no other year |
| `TimeStamp.NsecIsExact` | adsApp/src/adsAsynPortDriverUtils.cpp:549-573 | nanoseconds are exact and below a second for every tick count, despite the 32-bit product |
| `TimeStamp.TicksAreKept` | adsApp/src/adsAsynPortDriverUtils.cpp:549-573 | nothing but whole periods of 2^32 seconds is lost |
| `TimeStamp.SameStampIff` | adsApp/src/adsAsynPortDriverUtils.cpp:549-573 | two tick counts share a time stamp exactly when they are whole periods apart |
| `TimeStamp.TimeComesBackIff` | adsApp/src/adsAsynPortDriverUtils.cpp:549-573 | the way back is exact for precisely the 2^32 seconds after the EPICS epoch |
| `TimeStamp.OrderIsKept` | adsApp/src/adsAsynPortDriverUtils.cpp:549-573 | there, time stamps are ordered as ticks are |

## Left out

- BulkDriver.Driver.AddToBulkRead: the read size is an unbounded integer, because the wrap of the C int lies beyond any buffer the driver allocates.
- BulkDriver.Driver.FindBulkTimeStamp: the table of time stamps has no upper bound; the driver does not check its own.
- BulkDriver.Driver.PollChunk: requires that the receive buffer holds the read size and everything the decoder walks over, and that the chunk is in use; the driver checks neither, and its scan for the next chunk relies on an unused one.
- BulkDriver.Driver.UpdateParamInfoWithPLCInfo: data types, array buffers and notification handles are not part of the parameter; that an array buffer cannot be had is one of the answers.
- BulkDriver.Driver.AccessParam: that an access is refused out of hand, at teardown or for want of an EtherCAT master, is one input; where the request goes is in EthercatRouting.
- BulkDriver.Driver.DrvUserCreate: fields that a failed parse has already set are not kept apart, as the entry is filled again by the next creation; the one-off resolution of all symbols before the first creation is modelled by itself, in SymbolResolver.
- BulkDriver.Driver.SymbolsChangedCallback: the deletion and renewal of the callback itself is one answer, worked or not.
- SumRead.BulkReadRefinesSingleReads: assumes of the ADS library that a reply no longer than the read size is copied to the front of the buffer.
- SumRead.ShortReadGivesOldBytes: assumes of the ADS library that it copies what fits of a longer reply and reports success; if it refuses such a reply nothing is decoded.
- SymbolModel.CacheAgreesWithSlowPath: for parameters on the default AMS port only, since the dictionary is built for that port and looked up without one; for a symbol table that does not change, since the dictionary is never rebuilt.
- SymbolResolver.SymbolDict.TakeSlot: requires that the walk stays inside the reply, which the driver does not check; the type's name string is not kept.
- SymbolSession.SessionFillsDictionary: for symbols the server knows, whose descriptions fit an entry and whose names do not end in a NUL; from the first unknown symbol on the walk is misaligned, as ServerWalkAlignedIff states.
- SymbolServer.HandleSumupReadwrite: names are bytes; the server's decoding of text that is not UTF-8 is not modelled.
- SymbolServer.HandleSub: that the server finds a symbol whatever the letter case of its name is assumed; the lookup is in a library that is not part of this model.
- OctetBuffer.OutputBuffer.constructor: starts with a terminator in the first byte, which the driver leaves as it finds it until the first print.
- OctetBuffer.OutputBuffer.Printf: takes the formatted text, at most 4094 bytes; a longer one is not handled by the driver.
- OctetCommand.HandleInputLine: what a single command does is any function from state, text and buffer contents to state, texts and code; its own parsing is not modelled.
- OctetCodec.Binary2Ascii: 64-bit, floating-point, string and structure types and the printing of variable names are left out; the byte count is unbounded, as the binary buffer is far below 2^32 bytes. For structure types other than the axis status the loop of the driver makes no progress.
- OctetCodec.Ascii2Binary: from a byte count of zero, as its caller passes; values beyond 64 bits are reduced modulo the width, where the C library saturates first.
- ClientPorts.GuardedPortIsOpen: assumes that the library does not open a port that is open, and that closing does not fail where a guard without a port dies.
- EthercatRouting.Router.AccessParam: whether a symbolic parameter has its description and handle is one input; AMS routes are not modelled.
- Locks and data races: threads are atomic steps; lock order and the unsynchronised callback queue are not modelled.
- Values: what a parameter's bytes become as asyn values, and the write paths for arrays, are not modelled.
- EtherCAT parameters in bulk requests and notifications go to the remote's Net ID; only single reads and writes are routed.
- Supervision.Supervisor.DoRound: what disconnecting and connecting again would do is not modelled, as no run gets there.
- The ADS library, sockets, EPICS and asyn internals, tracing, reports, the database walk, option parsing other than the address, the symbol generator script and the tests.

# Verified models of the Newton core

This project models seven self-contained parts of the Newton OS re-implementation and proves what they
are for. Objects whose methods update their fields are classes; each method is proved against a
function of the old state, and the properties are lemmas about those functions. `dafny verify
dfyconfig.toml` checks everything.

| part | modules |
|---|---|
| Package conversion: a part of big-endian 32-bit objects, possibly shared and cyclic, becomes one block of 64-bit objects in three passes. The copy is a graph isomorphism onto disjoint regions that fill exactly the measured size, and says to the host what the original says. | Memory, Refs, ObjectGraph, Payload, GraphCopy, CopyMeaning, ThirdPass, NewtonPackage, PatchedParts |
| Option array: records packed in one block of bytes, edited in place, with a ring of live iterators that are re-aimed after every edit. | Memory, Options, OptionArray |
| Comm tool: seven request channels, a connection, an abort lock and a kill bitmap; invariants of every step and of every run, and what each event leads to. | ToolSteps, ToolInvariant, ToolTheorems, ToolReplies, ToolRuns, ToolPhases, CommTool |
| DES: table permutations, the table-free initial permutation, the cipher function, the key schedule and coding in place, against FIPS PUB 46-3. | Bits, FIPS46, DESPermutations, DES, DESBlocks, DESOrder |
| Phrases and classes: the phrase generator against a greedy definition, nearest common classes along isa chains, and splitting and gluing of words. | Words, Phrases, PhraseGenerator, Classes |
| Lexicon: the walk over the byte-encoded automaton, its resumption, and the forced next character; for every tree of words and its bytes, what the tree says. | Automaton, Tries, TrieCode, Dictionaries |
| Calendar: minutes since 1904 to date fields and back, and moves by months. | Dates |

## How things are modelled

- Words of DES are sequences of 32 bits, most significant first; a block is the high word followed by
  the low one. An uninitialised local of DESPermute is a parameter, `junk`; one of CopyRef, `sym`, has an
  arbitrary value.
- Memory of the converted part is a map from addresses to objects; the address that malloc returns is a
  parameter. References to the 32-bit part are `Ref32` values, and byte order is explicit.
- The option block uses the 64-bit layout (header of 16 bytes, length in 8 bytes, little-endian).
  memmove and realloc are functions on the block; pointers into it are offsets. Whether realloc can
  enlarge the block is a parameter.
- What the comm tool cannot decide by itself is part of the event: the results of reading parameters and
  of cleaning up options, whether the tool's own data routines answer at once, and when options and data
  are done. getNextTermProc and forwardOptions are those of the base class.
- Whether a phrase is recognised is an arbitrary predicate; so every subset of the phrases is covered.

## Where the code differs from what one would expect

Each of these has its exact condition, and an input or a run for which it happens.

- getCommEvent and postCommEvent complete the control channel's request, not the event channel's
  (Communications/CommTool.cc:986-1005). The model follows the code: `EventAnswersControl` says exactly when,
  `ConnectAnsweredByEvent` is a run, and `EventsAreKilled` says that, unless a
  tool answers them of its own accord, event requests are answered by kills alone.
- A kill request can report no error although a kill failed: `KillErrorLost` says exactly when, for every mask,
  and `KillErrorHidden` is a run.
- Options that are done late can make a tool listen that sets nothing up: `OptionsCompleteKeeps` says exactly
  when, and `ListeningUnasked` is a run.
- connectCheck resets the abort lock but not the wish to abort. So holds do not outlast a connection, and an
  abort that waits when the next one begins waits for holds that are forgotten: `ConnectKeeps` says exactly when
  that spoils the connection, and `RunToLeftOver` with `AbortForgotten` is a run. `AbortsTerminate` speaks of the runs in
  which it does not happen, and `RunSound` says that these are all runs that stay sound.
- terminateComplete run without a reason while a request to connect or accept waits connects the tool
  again: `TerminateKeeps` says exactly when, and `Reconnected` is a run. No caller in the base class aborts without
  a reason (`TerminationsClear`); a tool of its own kind could.
- DESDecode walks the keys forwards, like DESEncode; the caller has to reverse them. `SameOrder` says exactly when
  the reversal does not matter whatever the cipher function, and `NotUndone` is a case of the standard in which it does.
- An iterator with a low bound above 0 starts with its pointer on the first option of all: `Reset` says exactly
  when index and pointer agree, and `PointsElsewhere` is a case; `FindOption` says what is searched then.
- Inserting in front of all options, or removing the first, takes an iterator off the full range:
  `FullRangeKept` says exactly when, and `RangeLost` is a case.
- Removing an option while an iterator has run out makes a walk leave the block: `RemoveOptionAt` says exactly
  when, and `RemovedUnderfoot` is a case.
- Of more than 15 words not all phrases are entered in the table: `AllEntered`.
- daysInYear uses Gregorian leap years and totalDays every fourth year: `DaysInYearAgrees` says exactly
  when they agree, and `CountsDiffer` is a date on which they do not.
- initWithMinutes takes minutes from 2^31 on for negative: `InitWithMinutes` says exactly when, `TooLate` is a case.
- A forced next character of 0xFF or above 0x7F is not told as itself, because char is signed:
  `ToldIsForced` says exactly when, and `ForcedNotTold` is a table.
- The condition on the class of a binary object ends in a comma expression (NewtonPackage.cc:497), whose left part is
  thrown away. For a class that is neither kSymbolClass nor a pointer CopyRef reads through `sym`, which nothing has
  set: `UnsetRead` says that these are exactly the classes for which the bytes depend on it, and `ClassUnread` is a part
  with such an object. The theorems about conversion speak of parts without one.
- partRef's third pass takes a new pointer for an old reference when its low 32 bits look like one. `PartRef` says exactly
  when it ends and redirects nothing. Then memory and result are right; and where no reference comes back once it
  is redirected, only then (`UpdateHarmless`), while `RedirectedBack` is a part in which one comes back. `Redirected`
  and `WrongObject` are a part for which the caller gets another object, `Endless` and `NeverDone` one for which the pass never
  ends; all of them in a block that is aligned to 16 bytes.

## Model

| member | source | states |
|---|---|---|
| Refs.SwapLongInvolutive | NewtonWidgets.h:134-136 | swapping the bytes of a word twice gives it back |
| Refs.SwapLongBytes | NewtonWidgets.h:134-136 | the bytes of the swapped word are those of the word, last first |
| Memory.LongAlignRounds | NewtonWidgets.h:40-42 | LONGALIGN gives the least multiple of 4 that is not smaller |
| Memory.LongAlignShift | NewtonWidgets.h:40-42 | alignment commutes with adding multiples of 4, so sizes add up in either pass |
| ObjectGraph.VisitMeetsExactlyReachable | NewtonPackage.cc:383-413 | the depth-first walk over a finite graph, cyclic or shared, meets exactly the objects reachable from the root, each once |
| ObjectGraph.VisitFresh | NewtonPackage.cc:443-452 | the walk lists no object twice and none that was met before |
| ObjectGraph.VisitSound | NewtonPackage.cc:383-413 | whatever the walk meets is reached by a path |
| ObjectGraph.VisitClosed | NewtonPackage.cc:383-413 | whatever a met object refers to is met too |
| Payload.IsSymClass | NewtonPackage.cc:427-440 | the comparing loop answers whether the symbol is the class name or a dotted subclass of it, ignoring case |
| Payload.SwapUnitsInvolutive | NewtonPackage.cc:498-502 | swapping all 16-bit units twice restores the text |
| Payload.SwapString | NewtonPackage.cc:498-502 | the loop swaps every whole 16-bit unit and leaves an odd last byte |
| Payload.SwapEncodingMap | NewtonPackage.cc:511-533 | the loop swaps exactly the header and the units that the map's own counts announce |
| Payload.SwapHash | NewtonPackage.cc:492-495 | a symbol's hash is byte-reversed and its name is kept |
| Payload.SwapReal | NewtonPackage.cc:504-510 | a real is reversed over its eight bytes |
| Payload.UnsetRead | NewtonPackage.cc:490-497 | the bytes of an object do not depend on where the unset `sym` points if and only if its class is kSymbolClass or a pointer |
| Payload.BySymbolPermutes | NewtonPackage.cc:497-533 | whatever `sym` points to, what becomes of the bytes is a permutation of them, of the same length |
| Payload.NewPayloadPermutes | NewtonPackage.cc:488-535 | where `sym` is set before it is read, the payload of a copy is a permutation of the original's bytes, of the same length, whatever the class |
| CopyMeaning.TranslateMeans | NewtonPackage.cc:443-448 | a new reference is the forwarding pointer, or the immediate as a signed number, digit by digit |
| CopyMeaning.PayloadMeans | NewtonPackage.cc:488-535 | a hash, a real, every unit of a string and every unit that an encoding map announces has for the host the value that the bytes have in big-endian order; all other bytes are the same |
| CopyMeaning.SubclassCalled | NewtonPackage.cc:427-440 | the name test in terms of characters: the class name, or that and a dot and more, upper and lower case alike |
| CopyMeaning.CopiedMeans | NewtonPackage.cc:452-540 | a copy is read-only and of the kind of its original, its size is that of a header of 20 bytes and of its slots or bytes as far as 24 bits tell, and its references and values are the original's |
| CopyMeaning.CopyTold | NewtonPackage.cc:452-540 | and there is but one object of which that is true |
| CopyMeaning.GraphCopyMeans | NewtonPackage.cc:443-540 | so it is with every copy |
| NewtonPackage.Converter.ScanRef | NewtonPackage.cc:383-413 | the size is the sum of the aligned 64-bit sizes of the objects first met below the reference, and exactly those are marked |
| NewtonPackage.Converter.ScanObject | NewtonPackage.cc:386-409 | the object is marked before it is followed, and the sum is aligned in the end |
| NewtonPackage.Converter.ScanBelow | NewtonPackage.cc:394-409 | the object's own size, then what its class and its slots take, in order |
| NewtonPackage.Converter.CopyRef | NewtonPackage.cc:443-478 | the new reference is the translation of the old; every object met below is finished except the gray ones, and the bump pointer advances by the extent of what was met |
| NewtonPackage.Converter.CopyObject | NewtonPackage.cc:452-540 | the object is forwarded before its class and slots are followed, and is its image afterwards |
| NewtonPackage.Converter.FollowTargets | NewtonPackage.cc:478-486 | class and slots are copied in order, each translated |
| NewtonPackage.Converter.ConvertPart | NewtonPackage.cc:324-346 | the size that the first pass measures is what the second uses; the copy is a graph isomorphism and fills the block without overlap, the root first; every copy is of the kind, the size, the references and the values of its original |
| NewtonPackage.Converter.UpdateRef | NewtonPackage.cc:554-574 | the recursive patching of a field and of what it is found to refer to is the function of the memory that the lemmas speak of, and no object changes its shape |
| NewtonPackage.Converter.ConvertPayload | NewtonPackage.cc:488-535 | the bytes are rearranged as the class says, whatever `sym` pointed to before, for a class that is kSymbolClass or a pointer |
| NewtonPackage.Converter.PartRef | NewtonPackage.cc:324-355 | the third pass ends without redirecting a reference if and only if it leaves alone what slot 0 refers to, a condition on the part and the address of the block; then the graph is as it was copied and the result is the translation of slot 0. Where no reference comes back once it is redirected, the graph is as it was copied if and only if that holds, and, with room for any recursion at all, the result is right if and only if the new reference in slot 0 is not redirected itself |
| ThirdPass.FieldLeftAlone | NewtonPackage.cc:554-574 | updating a field ends and redirects nothing if and only if every reference met is no key of the map, or the key of its own object, down to the depth there is room for; and then the memory is as it was |
| ThirdPass.BlockApart | NewtonPackage.cc:554-574 | if no address in the block looks like a reference of the package, the pass changes nothing |
| ThirdPass.UpdateMoves | NewtonPackage.cc:554-574 | every reference ends somewhere along the chain of what the pass takes it for, and if any is redirected, some reference that the pass takes for another ends at least one step along |
| ThirdPass.UpdateHarmless | NewtonPackage.cc:554-574 | where no reference comes back once it is redirected, the pass ends with the memory as it was if and only if it leaves alone what the field refers to |
| ThirdPass.FieldHarmless | NewtonPackage.cc:554-574 | there the field itself is in the end what it was if and only if its own reference is not redirected |
| PatchedParts.Redirected | NewtonPackage.cc:346-355 | a part and an aligned address for which the pass, after copying, does not leave slot 0 alone and puts the root in it |
| PatchedParts.WrongObject | NewtonPackage.cc:324-355 | so partRef gives the root instead of the array in its slot 0 |
| PatchedParts.Endless | NewtonPackage.cc:554-574 | a part and an aligned address for which the pass, after copying, does not end at any depth |
| PatchedParts.NeverDone | NewtonPackage.cc:324-355 | so partRef does not end, however much room there is |
| PatchedParts.RedirectedBack | NewtonPackage.cc:554-574 | a part in which a reference comes back: the memory is in the end as it was copied although the pass redirects |
| PatchedParts.ClassUnread | NewtonPackage.cc:490-497 | a part with a binary object whose bytes depend on the unset `sym` |
| GraphCopy.LayoutSeparates | NewtonPackage.cc:454-478 | regions are inside the block and pairwise disjoint |
| GraphCopy.AllocateValid | NewtonPackage.cc:454-478 | allocating a gray object keeps the layout and every finished copy |
| GraphCopy.FinishValid | NewtonPackage.cc:478-540 | finishing an object disturbs no other copy |
| GraphCopy.PlacesDiffer | NewtonPackage.cc:443-478 | forwarding is injective |
| GraphCopy.GraphCopied | NewtonPackage.cc:443-540 | when the walk has ended, forwarding is an isomorphism from what the root reaches onto the copies |
| GraphCopy.BlockFilled | NewtonPackage.cc:334-346 | every copy is an aligned pointer into the block of the measured size |
| GraphCopy.ForwardedToPlaces | NewtonPackage.cc:443-478 | where each copy goes depends on the part and on the start of the block alone |
| Options.HeaderIs | Communications/OptionArray.cc:212-251 | label and length are the 32-bit and the 64-bit number in the first four and the last eight bytes of the header |
| Options.RecordIsPadded | Communications/OptionArray.cc:212-251 | a record is a header of 16 bytes and the data that it announces, and no more than what brings them to a multiple of four bytes |
| Options.PackedLaid | Communications/OptionArray.cc:208-215 | every record is in the block where the walk finds it, at a multiple of four bytes |
| Options.InsertedIsPadded | Communications/OptionArray.cc:251-270 | what is inserted is the option that the header announces, padded |
| Options.DecodingUnique | Communications/OptionArray.cc:208-215 | a block encodes at most one list of options |
| Options.SizeAt | Communications/OptionArray.cc:208-215 | walking by aligned sizes leads from each record to the next |
| Options.PackedInserted | Communications/OptionArray.cc:241-275 | opening a gap and filling it in the block is inserting in the list |
| Options.PackedRemoved | Communications/OptionArray.cc:325-352 | closing a gap in the block is removing from the list |
| OptionArray.COptionArray.OptionAt | Communications/OptionArray.cc:208-215 | the walk finds the offset of the indexed option, a multiple of four, and the option is there, padded to four bytes |
| OptionArray.COptionArray.InsertOptionAt | Communications/OptionArray.cc:241-275 | an index past the end appends; the list and every iterator on the ring move as a sequence insertion says, and every iterator still denotes the option it denoted; what is inserted is the option with its padding; nothing changes when memory is refused |
| OptionArray.COptionArray.RemoveOptionAt | Communications/OptionArray.cc:325-352 | every walk stays inside the block if and only if the index is an option's and no iterator has run out; then the option leaves the list, and every iterator on another one still denotes it and is aimed at it; every option left is where the walk finds it |
| OptionArray.COptionArray.Destroy | Communications/OptionArray.cc:142-147 | every iterator on the ring is told, once each |
| OptionArray.OptionKept | Communications/OptionArray.cc:635-652 | after an insertion an index names the option it named before |
| OptionArray.OptionLeft | Communications/OptionArray.cc:616-633 | after the removal of another option an index names the option it named before |
| OptionArray.WalksOn | Communications/OptionArray.cc:616-633 | after a removal a walk to the index stays inside the block if and only if there was an option at it |
| OptionArray.RemovedUnderfoot | Communications/OptionArray.cc:616-633 | an iterator on the first option runs out when that is removed, and the next removal sends it out of the block |
| OptionArray.FullRangeKept | Communications/OptionArray.cc:616-652 | exactly when an iterator over all options still is one after an edit |
| OptionArray.RangeRegained | Communications/OptionArray.cc:526-543 | with its bounds reset and started again an iterator is over all options, aimed at the first |
| OptionArray.RangeLost | Communications/OptionArray.cc:616-652 | an iterator over all options no longer is one after an insertion in front of them or the removal of the first |
| OptionArray.InsertThenRemove | Communications/OptionArray.cc:241-352 | removing what was inserted restores the block and the iterators |
| OptionArray.COptionIterator.Over | Communications/OptionArray.cc:475-478 | a new iterator joins the ring at its head, with bounds held within the array, and is aimed at its option exactly when its low bound is 0 or none |
| OptionArray.COptionIterator.On | Communications/OptionArray.cc:470-473 | an iterator over all options stands on the first, and is aimed |
| OptionArray.COptionIterator.Init | Communications/OptionArray.cc:486-494 | joins the ring and takes its bounds; aimed exactly when the low bound is 0 or none |
| OptionArray.COptionIterator.Destroy | Communications/OptionArray.cc:479-484 | leaves the ring a circle of the others |
| OptionArray.COptionIterator.InitBounds | Communications/OptionArray.cc:496-524 | the bounds are put in order and held within the array |
| OptionArray.Churn | Communications/OptionArray.cc:462-494 | over any sequence of constructions and destructions the links are a circle of exactly the live iterators, with the array's iterator on it |
| OptionArray.COptionIterator.Reset | Communications/OptionArray.cc:526-531 | the index is the low bound but the pointer goes to the first option of all, so they agree if and only if the low bound is 0 or none |
| OptionArray.PointsElsewhere | Communications/OptionArray.cc:526-531 | an iterator over the second option alone starts on the first |
| OptionArray.COptionIterator.Advance | Communications/OptionArray.cc:601-614 | the next index of the range and its offset, or none |
| OptionArray.COptionIterator.FindOption | Communications/OptionArray.cc:585-593 | whatever the bounds, as many options are looked at as they are apart, from the first of all on: the first of these that has the label, or none |
| OptionArray.COptionIterator.AppendToList | Communications/OptionArray.cc:663-674 | a circle with one more iterator |
| OptionArray.COptionIterator.RemoveFromList | Communications/OptionArray.cc:676-684 | a circle with one fewer |
| OptionArray.COptionIterator.InsertOptionAt | Communications/OptionArray.cc:635-652 | the recursive notification goes once round the ring |
| OptionArray.COptionIterator.RemoveOptionAt | Communications/OptionArray.cc:616-633 | likewise for removal, or the iterator whose walk leaves the block |
| OptionArray.COptionIterator.DeleteArray | Communications/OptionArray.cc:654-661 | likewise for the end of the array |
| ToolInvariant.CompleteKeeps | Communications/CommTool.cc:594-626 | a reply leaves the channel open and the books right, and is one reply on that channel alone |
| ToolInvariant.KillCompleteKeeps | Communications/CommTool.cc:869-880 | a kill request is pending exactly while something is left to kill |
| ToolInvariant.TerminateKeeps | Communications/CommTool.cc:1543-1590 | terminateComplete answers the control request and clears the bits 0xC7, unless and only unless it runs without a reason while a request to connect or accept waits |
| ToolInvariant.AllowAbortKeeps | Communications/CommTool.cc:1480-1490 | only the last hold lets a waiting abort terminate; letting go is sound if and only if there is a hold |
| ToolInvariant.StartAbortKeeps | Communications/CommTool.cc:1492-1504 | an abort keeps the connection sound, whether it waits or terminates |
| ToolInvariant.ConnectKeeps | Communications/CommTool.cc:1133-1164 | beginning a connection is sound if and only if no abort is left over that waits, for its holds are forgotten |
| ToolInvariant.ListenKeeps | Communications/CommTool.cc:1235-1247 | likewise for listening |
| ToolInvariant.DoControlKeeps | Communications/CommTool.cc:910-954 | every control request keeps the books, and the connection sound under that condition alone |
| ToolInvariant.OptionsCompleteKeeps | Communications/CommTool.cc:1735-1808 | the completion of its options, early or late, keeps the connection sound if and only if it does not make a tool listen that sets nothing up, or connect one that listens |
| ToolInvariant.DataRequestKeeps | Communications/CommTool.cc:652-782 | a get or put request keeps all invariants even when its option completion runs twice |
| ToolInvariant.KillRequestKeeps | Communications/CommTool.cc:803-866 | a kill request of any mask is left pending exactly when something is left to kill, and answers the event request that it names |
| ToolInvariant.StepBooks | Communications/CommTool.cc:364-444 | every step that receives what the filter lets through keeps: filter bit set exactly when nothing is pending, one reply per request; the kill request pending exactly when its bitmap is not empty, unless the tool answers that of its own accord; event requests answered by kill requests alone |
| ToolInvariant.StepSound | Communications/CommTool.cc:364-444 | a step leaves the connection sound (never both connecting and connected, listening only while connecting, every abort terminates once or waits for a hold) if and only if its event fits |
| ToolInvariant.RunBooks | Communications/CommTool.cc:364-444 | so does every run that receives what the filter lets through, with no other condition |
| ToolInvariant.RunSound | Communications/CommTool.cc:364-444 | the connection is sound all through a run if and only if every event of it fits |
| ToolTheorems.OneRequestAtATime | Communications/CommTool.cc:364-444 | over every run that receives what the filter lets through a channel has at most one request outstanding and replies to each at most once |
| ToolTheorems.DataAnsweredOnce | Communications/CommTool.cc:1636-1665 | a data request is answered once at most, however often its option completion runs |
| ToolTheorems.AbortWaitsForHolds | Communications/CommTool.cc:1474-1504 | an abort under k holds, let go one after the other, terminates the connection once, with the k-th, and not before |
| ToolTheorems.AbortsTerminate | Communications/CommTool.cc:1474-1590 | over every run whose events fit there were as many terminations as aborts, or one less while an abort waits under a hold |
| ToolTheorems.CloseWaitsForHolds | Communications/CommTool.cc:1067-1094 | a request to close under k holds, let go one after the other, closes the tool with the k-th, and not before; without a connection at once |
| ToolTheorems.StepWaits | Communications/CommTool.cc:1474-1504 | in a step that fits, an abort that waits or is begun goes on waiting exactly while there is a hold, and terminates the connection exactly when there is none |
| ToolTheorems.RunWaits | Communications/CommTool.cc:364-444 | so at every step of every run whose events fit, whatever comes between |
| ToolRuns.StepCloses | Communications/CommTool.cc:1067-1094 | over any step the tool closes exactly when it is asked to without a connection, or is to close and its connection is terminated |
| ToolRuns.RunCloses | Communications/CommTool.cc:364-444 | over every run whose events fit it closes exactly at the step that asks it to without a connection, or after which the abort of its connection has no hold left to wait for |
| ToolTheorems.TerminationsClear | Communications/CommTool.cc:1474-1590 | over every run whose aborts have a reason, whenever a connection is terminated none of the bits 0xC7 is left |
| ToolTheorems.Reconnected | Communications/CommTool.cc:1543-1590 | a run in which an abort without a reason connects the tool |
| ToolTheorems.ListeningUnasked | Communications/CommTool.cc:1235-1261 | a run in which late options make a tool listen that sets nothing up |
| ToolReplies.TerminateDesk | Communications/CommTool.cc:1543-1590 | a termination answers the control request and the kill request that waits for it, and nothing else |
| ToolReplies.KillReply | Communications/CommTool.cc:803-866 | a kill request of any mask is answered at once if and only if all it names end at once, and with what |
| ToolReplies.KillErrorLost | Communications/CommTool.cc:803-866 | the reply hides an error if and only if all requests named end at once, one of them with an error, and the kind killed last has none pending |
| ToolReplies.KillErrorHidden | Communications/CommTool.cc:803-866 | a run in which it does |
| ToolRuns.StepKills | Communications/CommTool.cc:869-880 | over any step in which the tool does not answer it of its own accord, a kill request waits for what is left to kill; a termination ends the control request without an error; the last answers the kill request with the first error |
| ToolRuns.KilledLater | Communications/CommTool.cc:869-880 | over any run, whatever comes between: the kill request waits until the last that it names has ended, by the tool or by a termination, and is answered then, with the first error |
| ToolRuns.KillAnsweredLater | Communications/CommTool.cc:803-880 | so a kill request of any mask that is not answered at once is answered when the last that it names has ended, with the first error of them all |
| ToolReplies.EventAnswersControl | Communications/CommTool.cc:986-1005 | an event request answers the control request that waits if and only if there is an event, and is itself not answered |
| ToolReplies.ConnectAnsweredByEvent | Communications/CommTool.cc:986-1005 | a run in which a connect request is answered while the tool is still connecting |
| ToolReplies.EventsAreKilled | Communications/CommTool.cc:976-1005 | over every run in which the tool does not answer them of its own accord, event requests are answered by kill requests alone |
| ToolReplies.Connects | Communications/CommTool.cc:1152-1213 | a request to connect is pending until its options are done, then it is answered and the tool is connected |
| ToolReplies.Disconnects | Communications/CommTool.cc:1328-1348 | a request to disconnect ends a connection that nothing holds, once, and is answered without error; a second one reports that there is none |
| ToolReplies.RunToLeftOver | Communications/CommTool.cc:1133-1149 | a run that leaves an abort over: its connection failed while a hold kept it |
| ToolReplies.AbortForgotten | Communications/CommTool.cc:1133-1149 | the next connection forgets the hold and keeps the abort: it is connected, and disconnecting it is never answered |
| ToolPhases.StepTurns | Communications/CommTool.cc:364-444 | what any event makes of the connection, of the cause of its end, of the binding, of the event to announce and of the reason of an abort |
| ToolPhases.StepPhase | Communications/CommTool.cc:1152-1325 | in a step that fits a connection is begun, listens, is connected or is given up exactly as the event and the last control request say, or is terminated |
| ToolPhases.RunPhase | Communications/CommTool.cc:364-444 | so at every step of every run whose events fit and whose aborts have a reason, in terms of the events alone and of the holds |
| ToolPhases.LastAskedIs | Communications/CommTool.cc:910-954 | options are done for the control request received last |
| ToolPhases.ListenTold | Communications/CommTool.cc:1235-1275 | a request to listen is answered when its options are done, and the tool listens unless there was an error |
| ToolPhases.AcceptTold | Communications/CommTool.cc:1285-1325 | a request to accept is answered when its options are done, and the tool is connected unless there was an error |
| ToolPhases.ListensAndAccepts | Communications/CommTool.cc:1235-1325 | listening and then accepting connects, with two replies |
| ToolPhases.AcceptRefused | Communications/CommTool.cc:1285-1297 | refused unless the tool listens |
| ToolPhases.Binds | Communications/CommTool.cc:1387-1470 | a request to bind is answered when its options are done and binds if they were cleaned up without error; unbinding undoes it |
| ToolPhases.DataTold | Communications/CommTool.cc:652-782 | what a data request is told: that there is no connection, that it is being released, or what the tool says |
| ToolPhases.ControlTold | Communications/CommTool.cc:910-954 | what each control request is told at once, unless it aborts a connection |
| ToolPhases.AbortingTold | Communications/CommTool.cc:1067-1370 | one that aborts is answered without error if the connection ends at once, and else waits |
| ToolPhases.OptionsTold | Communications/CommTool.cc:1735-1808 | what the waiting control request is told when its options are done |
| ToolPhases.OpenTold | Communications/CommTool.cc:1014-1058 | a request to open is told of the first error |
| ToolPhases.KilledTold | Communications/CommTool.cc:803-866 | a data or event request that is killed at once is told that it was canceled |
| ToolPhases.Releases | Communications/CommTool.cc:1352-1383 | a request to release ends an unheld connection at once, or waits while data is put, and then data requests are refused |
| ToolPhases.TerminationForgets | Communications/CommTool.cc:1543-1590 | a termination answers a request to disconnect or release that waits, and only then is it forgotten |
| CommTool.CCommTool.CompleteRequest | Communications/CommTool.cc:594-626 | a pending request is answered and its channel opened; otherwise nothing |
| CommTool.CCommTool.KillRequestComplete | Communications/CommTool.cc:869-880 | the first error is kept and the kill request answered when nothing is left |
| CommTool.CCommTool.PrepKillRequest | Communications/CommTool.cc:803-866 | the kinds of requests in turn, then a reply if nothing is left, as KillReply and KillErrorLost say |
| CommTool.CCommTool.Connect | Communications/CommTool.cc:1152-1164 | refused with AlreadyConnected when there is a connection; else connecting, with no hold, and nothing is answered yet |
| CommTool.CCommTool.Listen | Communications/CommTool.cc:1235-1247 | likewise |
| CommTool.CCommTool.Accept | Communications/CommTool.cc:1285-1297 | refused with NotConnected unless listening |
| CommTool.CCommTool.Disconnect | Communications/CommTool.cc:1328-1340 | aborts the connection, or reports that there is none |
| CommTool.CCommTool.Bind | Communications/CommTool.cc:1387-1411 | refused when connected or bound, each with its error; else nothing is answered yet |
| CommTool.CCommTool.AllowAbort | Communications/CommTool.cc:1480-1490 | lets a hold go; the last one terminates, as AllowAbortKeeps says |
| CommTool.CCommTool.StartAbort | Communications/CommTool.cc:1492-1504 | begins an abort unless one waits or nothing is connected, as AbortWaitsForHolds says |
| CommTool.CCommTool.TerminateComplete | Communications/CommTool.cc:1543-1590 | ends the connection, as TerminateKeeps and TerminateDesk say |
| CommTool.CCommTool.Handle | Communications/CommTool.cc:364-444 | a turn of the event loop keeps the books, and the connection sound if and only if the event fits; connection, cause, binding and announcement turn as the event says |
| CommTool.CCommTool.TaskMain | Communications/CommTool.cc:364-444 | the loop is a run until the tool is closed; it keeps the books, and the connection sound when every event fits |
| Bits.PlusDisjoint | Communications/DES.c:329-337 | adding words that share no bit is or-ing them |
| Bits.Joined | Communications/DES.c:323-338 | two opposite shifts brought together rotate, or carry bits from word to word |
| FIPS46.PermutationInverts | Communications/DES.c:49-61 | IP and its inverse undo each other on every block |
| FIPS46.IterationsUndone | Communications/DES.c:367-371 | for any cipher function and any keys, the iterations undo themselves with halves exchanged and keys reversed |
| FIPS46.Deciphers | Communications/DES.c:424-446 | enciphering with the reversed keys deciphers every block |
| FIPS46.PC1Is | Communications/DES.c:22-33 | permuted choice 1 goes up the columns of the key and leaves out the last |
| FIPS46.PMovesAll | Communications/DES.c:63-73 | P moves every bit |
| DESPermutations.DESPermute | Communications/DES.c:147-177 | the bits that the last two parts of the table name, each at the low end of a word |
| DESPermutations.DESip | Communications/DES.c:274-315 | the double loop of shifts and rotations is the initial permutation of FIPS PUB 46-3 |
| DESPermutations.PassIs | Communications/DES.c:287-311 | a pass of eight turns replaces every other bit of both words |
| DES.DESfrk | Communications/DES.c:323-345 | the cipher function f(R, K) of FIPS PUB 46-3, on the low 48 bits of the key |
| DES.BoxesAreWoven | Communications/DES.c:75-108 | the code's tables hold the eight S boxes of the standard, backwards and woven for six-bit indices |
| DES.DESKeySched | Communications/DES.c:184-207 | sixteen keys, the n-th KS(n, KEY) of the key without its top bits; the rest of the buffer is untouched |
| DES.TurnIs | Communications/DES.c:184-207 | each half has turned by the cumulative shifts, and after sixteen once round |
| DES.TopBitsIgnored | Communications/DES.c:189 | the schedule does not depend on the top bit of any byte of the key |
| DESBlocks.CipherBlock | Communications/DES.c:360-373 | a block is enciphered as the standard says |
| DESBlocks.DESEncode | Communications/DES.c:351-376 | every whole block is enciphered on its own, the rest is untouched and the pointer advances by the whole blocks |
| DESBlocks.DESDecode | Communications/DES.c:424-446 | the same, for the keys in the order given |
| DESBlocks.CodingUndone | Communications/DES.c:351-446 | for any keys, buffer and length, the reversed keys restore the buffer |
| DESBlocks.EncodeThenDecode | Communications/DES.c:351-446 | encoding and then decoding with the reversed schedule restores the memory |
| DESOrder.SameOrder | Communications/DES.c:424-446 | without the reversal every block comes back, for every cipher function, if and only if the keys read the same both ways |
| DESOrder.CodedTwice | Communications/DES.c:351-446 | with such keys coding a buffer twice in the same order restores it |
| DESOrder.OrderMatters | Communications/DES.c:424-446 | for any other keys a cipher function and a block that do not come back |
| DESOrder.NotUndone | Communications/DES.c:323-446 | sixteen keys for which the standard itself does not give a block of zeros back |
| DESOrder.WeakKeysUndo | Communications/DES.c:184-207 | the schedule of a key with constant halves reads the same both ways, so that coding twice gives every block back |
| DESOrder.WeakKeys | Communications/DES.c:184-207 | a key with constant halves has sixteen equal scheduled keys |
| Words.FSplitString | IA.cc:1334-1440 | the maximal runs of other characters than spaces, cut to 127 |
| Words.FGlueStrings | IA.cc:1446-1462 | the words joined by single spaces |
| Words.PartialGlueString | IA.cc:1465-1482 | some consecutive words joined by single spaces |
| Words.StringLeftTrim | IA.cc:1520-1532 | the index of the first character that is no space |
| Words.StringRightTrim | IA.cc:1542-1557 | the index behind the last |
| Words.SplitOfGlued | IA.cc:1334-1462 | splitting glued words gives them back |
| Words.GluedOfSplit | IA.cc:1334-1462 | gluing split words gives the string back if and only if it is neatly spaced and no word was cut |
| Phrases.IntersectionIsOverlap | IA.cc:447-456 | the interval test means having a word in common |
| Phrases.FromIs | IA.cc:342-345 | the phrases from a cursor on: all that remain, longest first, then leftmost |
| Phrases.OffersAre | IA.cc:349-394 | a phrase is offered exactly when no hit before it has a word of it |
| Phrases.WholeRun | IA.cc:326-470 | whichever phrases are recognised: each comes once at most, longest first then leftmost; one comes exactly when no earlier hit overlaps it; hits are pairwise disjoint |
| PhraseGenerator.DSPhrase.IPhraseGenerator | IA.cc:326-346 | the words of the string; the phrases of the first 15 words are entered and all other cells keep what they held; with no more words, a cursor in front of all phrases |
| PhraseGenerator.DSPhrase.AllEntered | IA.cc:333-341 | these are all phrases if and only if there are no more than 15 words |
| PhraseGenerator.DSPhrase.PeekValidPhrase | IA.cc:349-374 | all phrases passed over are blocked; the cell found may lie past its row |
| PhraseGenerator.DSPhrase.NextPhrase | IA.cc:377-394 | the first phrase from the cursor on that no hit blocks, or none |
| PhraseGenerator.DSPhrase.PhraseHit | IA.cc:430-444 | every free cell of an overlapping phrase from the hit's predecessor on is blocked, and the hit marked |
| PhraseGenerator.DSPhrase.PhraseHitExt | IA.cc:423-427 | the phrase offered last becomes a hit, and the table tells of it |
| PhraseGenerator.DSPhrase.UnmatchedWords | IA.cc:459-470 | exactly the words that no hit covers, in order |
| PhraseGenerator.DSPhrase.FIAatWork | IA.cc:2021-2042 | a whole run offers and hits what the greedy definition says |
| Classes.SymbolStandsFor | IA.cc:1602-1609 | a symbol stands for the global variable of its name unless that is nil, and else for the assist frame |
| Classes.PathToRoot | IA.cc:2229-2248 | the chain of frames along isa; terminates when isa has no cycle; throws where an isa is no frame |
| Classes.CheezyIntersect | IA.cc:2150-2193 | the elements of the longer array that are in the other, as often as they are |
| Classes.ChainsMeet | IA.cc:2251-2258 | two chains share exactly what follows from where they meet, whichever is the outer |
| Classes.CommonAncestors | IA.cc:2251-2258 | the common chain from the nearest common class on, or nil |
| Classes.CompositeClass | IA.cc:2261-2280 | for two or more tags the class of all of them that is below all other such classes, or nil if and only if there is none; one tag is returned as it is; where a chain is broken, nil or an exception |
| Automaton.WalkSpells | Dictionaries.cc:1405-1434 | where the walk leads, a path through the automaton spells the string |
| Automaton.SpelledIsWalked | Dictionaries.cc:1405-1434 | in a table that is deterministic at its nodes the walk finds the path |
| Automaton.VerdictIs | Dictionaries.cc:1384-1442 | so the verdict is 3, 2 or the accept bit as the paths say |
| Automaton.OneWordFound | Dictionaries.cc:1384-1470 | such a table: the one word is found, any other is not, and the first character is forced |
| Automaton.ForcedNext | Dictionaries.cc:1444-1469 | when all successors have one character, every other extension is unknown and that one is not |
| Automaton.ToldIsForced | Dictionaries.cc:1444-1469 | a next character is told if and only if the successors have one alone, other than 0xFF, and it is forced |
| Automaton.ForcedNotTold | Dictionaries.cc:1444-1469 | a table whose forced character is told as a negative number, or, for 0xFF, not told |
| Automaton.OnlyForcedNext | Dictionaries.cc:1444-1469 | the converse, where no node has a terminal twice |
| Tries.VerdictRead | Dictionaries.cc:1384-1442 | in the bytes of any tree of nodes the verdict on any string is the tree's: it leads nowhere, to a node without successors, to one that accepts, or to one that does not |
| Tries.PlaceRead | Dictionaries.cc:1356-1390 | the attribute, of one, two or four bytes, and the name are those of the node that the string leads to |
| Tries.ToldRead | Dictionaries.cc:1444-1469 | the character told is the one that all successors have alone, if there is one |
| Tries.LookupRead | Dictionaries.cc:1384-1470 | so everything that a lookup finds is what the tree says |
| Tries.EncodedFormed | Dictionaries.cc:1384-1470 | the bytes of a tree are a well-formed table |
| TrieCode.TableEncodes | Dictionaries.cc:1334-1390 | every tree whose places fit two bytes has such bytes |
| Dictionaries.LookUp | Dictionaries.cc:939-951 | a dictionary made from any such tree says of any string what the tree says |
| Dictionaries.CDictionary.FindSuccessor | Dictionaries.cc:1415-1429 | the first sibling that has the character; terminates on a well-formed table |
| Dictionaries.CDictionary.WalkOn | Dictionaries.cc:1405-1434 | the longest beginning that leads somewhere, with the attribute and name of the node it leads to |
| Dictionaries.CDictionary.ForcedNext | Dictionaries.cc:1444-1469 | the one character that all successors have alone, sign-extended, or -1 |
| Dictionaries.CDictionary.ALVerify | Dictionaries.cc:1384-1470 | the verdict on the whole string, from wherever the walk had come to: 3 if and only if no path of the automaton spells it, else 2 or the accept bit of where the path ends; and of the bytes of a tree all that the tree says |
| Dictionaries.CDictionary.VerifyString | Dictionaries.cc:939-951 | the same for a string looked up from the start, in an empty dictionary too |
| Dictionaries.CDictionary.VerifyMore | Dictionaries.cc:1387-1400 | continuing a string and resuming gives the verdict on the longer string |
| Dates.MonthFormula | Dates.cc:1505-1528 | the formula with 3917/128 is the sum of the months' lengths |
| Dates.MonthOfDay | Dates.cc:716 | the formula with 3919/128 finds month and day |
| Dates.YearOfDay | Dates.cc:702 | the division by 1461 finds the year and the day in it |
| Dates.TotalDaysExact | Dates.cc:1505-1528 | totalDays is the sum of the days of the years and months before, for every year for which nothing overflows |
| Dates.TotalMinutesExact | Dates.cc:1537-1541 | totalMinutes is exact if and only if the minutes fit 32 bits |
| Dates.MinutesOrder | Dates.cc:1537-1541 | minutes are ordered as the fields are, both ways |
| Dates.DateOfMinutesCorrect | Dates.cc:698-726 | the conversion gives the one calendar date with these minutes |
| Dates.DaysInYearAgrees | Dates.cc:1454-1502 | exactly when daysInYear agrees with totalDays |
| Dates.CountsDiffer | Dates.cc:1454-1528 | they do not on 1 March 2100 |
| Dates.DaysInMonthIs | Dates.cc:1419-1451 | daysInMonth is the length of the month in the Gregorian calendar, except for February from 2920 on in years that are no leap years; and what makes a date valid |
| Dates.DaysInYearIs | Dates.cc:1454-1502 | daysInYear counts the days of the months before |
| Dates.OnCalendarValid | Dates.cc:795-799 | a date of the calendar of every fourth year is valid unless it is 29 February of a century that has none |
| Dates.MovesExactly | Dates.cc:1398-1416 | exactly when a move by months moves the month by the offset, whatever the month was |
| Dates.MovesWithin | Dates.cc:1398-1416 | where any move leads: refused, or to a month of the year, the same day or the last of the month if that is too short, the same time, and a valid date |
| Dates.MovesCompose | Dates.cc:1398-1416 | moves add up |
| Dates.MoveInverts | Dates.cc:1398-1416 | a move back undoes a move |
| Dates.CDate.InitWithMinutes | Dates.cc:698-726 | the fields are the calendar date of the minutes exactly below 2^31, total minutes give them back, and they are valid up to 2099 and after that unless a century has no 29 February |
| Dates.TooLate | Dates.cc:698-726 | the first minute for which they do not |
| Dates.CDate.IncrementMonth | Dates.cc:1398-1416 | the fields move as MonthsAway says, for offsets of either sign and any month |

## Left out

- Package files and directories, relocation and the 32-bit FixUpRef, which uses an undeclared variable.
- Package parts with sizes below a header, references to nothing, or a magic pointer as the class of binary data: the code reads them unchecked. Binary objects whose class is neither kSymbolClass nor a pointer: the code reads a pointer that is not set (Payload.UnsetRead).
- NewtonPackage.Converter.UpdateRef: takes the depth of recursion that there is room for as a parameter, because the recursion need not end; and counts the slots of an object, not its 24-bit size, which differ from 16 MB on.
- Failure of malloc for the converted part, and garbage collector fields.
- Option arrays in shared memory, copyOptionAt, insertVarOptionAt, insertSubArrayAt and merge; a realloc that shrinks is taken to succeed.
- OptionArray.COptionArray.RemoveOptionAt: once a walk has left the block nothing is said of the iterators.
- DES in cipher block chaining, DESCharToKey and its parity table; the order of bytes within a word; keys that overlap the coded memory; byte counts so small that subtracting 8 overflows.
- Comm tool: heap, ports, name server, timers, option values and forwarding to another tool; queued requests that flushChannel answers; termination procedures and completions that tools of their own add.
- CommTool.CCommTool.TaskMain: requests without a reply id are counted as replied to.
- PhraseGenerator.DSPhrase.FIAatWork: requires no more than 15 words, because with more the scan reads cells of the table that nothing has set, and with many more cells outside it.
- Recognition of phrases itself, RemoveTrailingPunct and progress reports.
- CheezySubsumption, FIsA, FavorAction, FavorObject and the rest of the assistant, which depend on frames not in the repository.
- Dictionaries of types other than the one that AL_verify walks, adding and deleting words, and chains of dictionaries.
- Dates.CDate.IncrementMonth: requires that the month with the offset is above -2^31, where the code's subtraction overflows.
- Dates: formatting, parsing, clocks, initWithSeconds, totalHours and totalSeconds; totalDays for years beyond 1471776, where four times the days overflow a signed int.

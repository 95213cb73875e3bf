# Verified model of the receiver CLI

A Dafny model of the protocols and algorithms under a command-line tool for Yamaha
receivers, with proofs of what they promise. Every nondeterministic choice of the
outside world (a receiver that answers, drops a line or closes; a timer, a packet, a
file system call that fails) is a choice of the model, so the theorems hold for every
run. Where a call promises to work, a flag (`fair`, `lucky`) says that nothing got in its
way, and its contract that it then did.

| module | what it models |
|---|---|
| Framing | the CRLF splitter and the scanner that drives it over a growing buffer |
| YncaClient | the YNCA line client: Send, SendMulti with its fence, closing on errors, one resend |
| EditDistance, Suggestions, Sorting | the edit distance over two rolling rows and the suggestions ranked by it |
| Subscriber, WatchSupervisor, Backoff | the event subscriber, the YNCA watch loop and their capped backoff |
| Discovery, Sweep, SearchExchange | LAN discovery: concurrent fetches, the subnet probe, the timed M-SEARCH |
| LinkGroup | MusicCast Link groups: a creation over several receivers with rollback, and dissolving |
| AtomicSave, FeaturesCache | the features cache: atomic saves by many processes, and memo, file and device in agreement |
| Flatten | dot-paths of a JSON object |
| Reports, Transcript, Text, Options | YNCA reports, dumps of replies and their difference; searching and trimming text; optional values |
| SteppedCodec, Volume, Rounding, Arithmetic | stepped numbers, decibels and percentages |

Two statements of the program's comments or catalog do not hold of its code. The model
keeps the code and proves when they do hold:

- The dump catalog sends `@SYS:VERSION=?` through SendMulti, whose fence it looks like.
  Every later reply on that connection goes to the call after its own
  (`YncaClient.VersionQueryDelaysTheRun`); a run is aligned if and only if no fan-out
  holds a fence echo (`YncaClient.RunIsAligned`).
- formatStepped says it never prints a negative zero, and documents step 0 as no
  rounding. With step 0 it does print one (`SteppedCodec.NegativeZeroWithoutAStep`);
  `SteppedCodec.NegativeZeroExactlyWhen` says for which inputs. This is
  a fact about the documented parameter: every caller passes a positive step (0.5 for
  volume and tone in pkg/ynca/codec.go:63 and pkg/ynca/zone_control.go:55, 0.2 for FM and
  10 for AM in pkg/ynca/tuner.go:79 and 97), and on these grids it never does
  (`SteppedCodec.NoNegativeZeroOnAGrid`).

A failed group creation promises to reset the confirmed followers and to stop the
leader, and it does; it does not promise to withdraw setServerInfo. The exact limits of
that rollback are proved: who is left pointing at the leader
(`LinkGroup.PointFailureLeaves`, `LinkGroup.StartFailureLeaves`), and when the leader is
left serving the group (`LinkGroup.ServersAreRestoredExactlyWhen`, with
`LinkGroup.AServerIsLeftBehind` as an instance).

Two conditions are wider than one might expect: flattening is lossless for keys without
dots even if inner keys are empty (`Flatten.LosslessExactlyWhenClean`), and percentages
read back as set, or one less, on every range of more than 50 steps
(`Volume.ReadBackIsCloseExactlyAbove50`).

## Model

| member | source | states |
|---|---|---|
| `Framing.SplitCrlf` | pkg/ynca/client.go:568-582 | The index loop of splitCRLF answers as the reference split does: the first CRLF ends a line, a final unterminated line loses at most one CR, otherwise more bytes are needed. |
| `Framing.ScanStream` | pkg/ynca/client.go:568-582 | However a stream that ends in EOF is cut into reads, driving the split over the growing buffer yields the lines of the whole stream. |
| `Framing.SplitIsStable` | pkg/ynca/client.go:568-582 | A line the split finds before EOF is the same whatever bytes follow. |
| `Framing.FrameInvertsRender` | pkg/ynca/client.go:568-582 | Splitting lines that were joined with CRLF gives the same lines back exactly when none of them contains a CRLF. |
| `Framing.LastLineNeedsNoCrlf` | pkg/ynca/client.go:568-582 | A last line cut off before its CRLF, or in the middle of it, is a line like the others. |
| `YncaClient.Client.Send` | pkg/ynca/client.go:267-290 | A call makes one attempt, or two, and two exactly when the first ended in a peer that closed, a reset, or a reset while dialling; its result is that of the last attempt, classified. If nothing got in the way of the last attempt, the line was heard, and its reply, if any, is returned. On an error other than a classified refusal the connection is closed; on a receiver with good manners the reply is the answer to this very line, and nothing stays unread. |
| `YncaClient.Client.SendOnceLocked` | pkg/ynca/client.go:293-385 | One write and one read on an open or fresh connection: any error closes it, success leaves it open with nothing unread, and an undisturbed attempt that is answered succeeds. |
| `YncaClient.Client.SendMulti` | pkg/ynca/client.go:402-420 | The same rule of one attempt or two, command and fence in each. If nothing got in the way of the last attempt and the fence was answered, up to 1024 reports are returned. An error closes the connection; on a receiver with good manners the result is exactly the reports of this command, and the fence is consumed. |
| `YncaClient.Client.SendMultiOnceLocked` | pkg/ynca/client.go:426-505 | One write of command and fence and one drain: any error closes the connection, success leaves nothing unread, and an undisturbed attempt whose fence is answered succeeds with up to 1024 reports. |
| `YncaClient.Client.DrainLocked` | pkg/ynca/client.go:480-505 | The read loop returns the lines before the first fence echo and leaves the rest unread, or closes the connection. |
| `YncaClient.Client.DialLocked` | pkg/ynca/client.go:188-262 | A dialled connection starts with nothing unread, the wake reply drained or dropped. |
| `YncaClient.Client.Close` | pkg/ynca/client.go:171-186 | Closing drops the connection and with it everything unread. |
| `YncaClient.Drive` | pkg/ynca/client.go:267-505 | Over every sequence of Send, SendMulti and Close calls, with failures anywhere: an open connection has nothing unread between calls, and every successful call got the answers to its own lines. |
| `YncaClient.FenceIsExact` | pkg/ynca/client.go:480-489 | Draining returns the reports before the fence exactly when none of them looks like the fence echo and there are at most 1024. |
| `YncaClient.DrainOfGoodManners` | pkg/ynca/client.go:480-489 | With good manners a drain that ends at a fence has taken all answers to the command and the one echo. |
| `YncaClient.RunIsAligned` | pkg/ynca/client.go:375-505 | A run of SendMulti calls on one connection returns every fan-out to its own call if and only if no fan-out holds a fence echo or more than 1024 lines. |
| `YncaClient.VersionQueryDelaysTheRun` | internal/cli/ynca_dump.go:102-200 | Sending the version query itself through SendMulti, as the dump catalog does, shifts every later reply of the connection by one call. |
| `YncaClient.CommandKeepsTheLine` | pkg/ynca/client.go:271-275 | The line sent is the caller's, with an @ in front only where there is none, and without exactly its trailing CR and LF characters. |
| `YncaClient.CommandIsOneLine` | pkg/ynca/client.go:267-274 | A normalised command is one line on the wire exactly when it holds no CRLF inside. |
| `YncaClient.ClassifyingKeepsTheReply` | pkg/ynca/client.go:525-543 | A reply comes back as it was read, or as the refusal it announces, which carries the request and the reply. |
| `EditDistance.Levenshtein` | pkg/yxc/validate.go:9-41 | The two swapped rolling rows, after the length swap, return the cost of a cheapest edit script. |
| `EditDistance.NoScriptIsCheaper` | pkg/yxc/validate.go:9-41 | No script of insertions, deletions and substitutions is cheaper than the table entry. |
| `EditDistance.Cheapest` | pkg/yxc/validate.go:9-41 | Some script from a to b has exactly that cost. |
| `EditDistance.DistIsMinimal` | pkg/yxc/validate.go:9-41 | The distance is the cost of a script and a lower bound of all. |
| `EditDistance.Symmetric` | pkg/yxc/validate.go:13-15 | Swapping the inputs does not change the distance. |
| `EditDistance.ZeroOnlyOnEqual` | pkg/yxc/validate.go:9-41 | The distance is zero on equal inputs only. |
| `EditDistance.Triangle` | pkg/yxc/validate.go:9-41 | The distance obeys the triangle inequality. |
| `Suggestions.DidYouMean` | pkg/yxc/validate.go:57-83 | The scored, sorted and cut list is the reference: the first n candidates by distance and name; empty for n <= 0. |
| `Suggestions.SuggestKeepsTheClosest` | pkg/yxc/validate.go:57-83 | The result has min(n, count) candidates, each as often as the input at most, closest first and ties in alphabetical order, and every candidate left out is farther than any kept, or as far and not before it in the alphabet. |
| `Suggestions.SuggestIgnoresOrder` | pkg/yxc/validate.go:57-83 | Permuting the candidates does not change the result. |
| `Sorting.StringLeMeans` | pkg/yxc/validate.go:68-76 | The order of names is decided by the first character in which two of them differ, and a prefix comes first. |
| `Subscriber.Pump.Work` | pkg/yxc/events.go:203-370 | The pump, with its recover loop, does what the step function says under every schedule of subscribe results, packets, ticks, silence and cancellation. |
| `Subscriber.Pump.Recover` | pkg/yxc/events.go:375-400 | The recovery loop ends live after a subscription that works, or ended after a cancellation, with the backoff the steps say. |
| `Subscriber.OneMoreTurn` | pkg/yxc/events.go:203-400 | After every schedule, what one more turn emits, how often it waits and where it leaves the pump: a refused renewal or silence starts an outage, a cancellation or a reader error ends the pump, and each attempt of an outage is reported. |
| `Subscriber.EventsTellThePhase` | pkg/yxc/events.go:203-400 | In every run the events tell the phase: ended exactly after a shutdown, live exactly after a sign of life, and recovering exactly after a reconnect that some subscribe precedes. |
| `Subscriber.FinishedRunIsALifecycle` | pkg/yxc/events.go:203-400 | The events of a finished pump form a word of the lifecycle language: reconnect+ shutdown, or reconnect* subscribe, then any of data, renew and reconnect+ subscribe, then reconnect* shutdown. |
| `Subscriber.EveryLifecycleHappens` | pkg/yxc/events.go:203-400 | Every word of that language is the run of some schedule, so the language is exact. |
| `Subscriber.OneShutdownLast` | pkg/yxc/events.go:280-400 | In every such word there is one shutdown, and it comes last. |
| `Subscriber.SourcesAndWaits` | pkg/yxc/events.go:269-398 | Under every schedule data comes from the allow-set only, if it is not empty, and the k-th wait of every outage is min * 2^k capped at max. |
| `Subscriber.WithDefaults` | pkg/yxc/events.go:111-129 | Positive fields are kept, others default to one second and one minute, and the maximum is raised to the minimum, so that 0 < backoffMin <= backoffMax. |
| `Backoff.NextBackoffDoubles` | pkg/yxc/events.go:449-458 | With 64-bit wrap-around, the next backoff is the doubled one capped at the maximum. |
| `WatchSupervisor.Supervisor.Supervise` | internal/cli/ynca_watch.go:99-143 | The supervise loop does what the step function says, over every stretch of turns, until it is cancelled. |
| `WatchSupervisor.EndedExactlyWhen` | internal/cli/ynca_watch.go:99-143 | The loop has ended if and only if some turn was cancelled during its session, during its wait, or during a re-settle, which is due on the K-th, 2K-th, ... dial failure in a row. |
| `WatchSupervisor.OneMoreTurn` | internal/cli/ynca_watch.go:99-143 | Every turn the loop survives runs one session, re-settles exactly when that is due, and waits once. |
| `WatchSupervisor.SettlesPerBlock` | internal/cli/ynca_watch.go:119-131 | A block of L consecutive dial failures holds exactly L / K re-settles. |
| `WatchSupervisor.WaitsDoubleAndStayInRange` | internal/cli/ynca_watch.go:124-142 | Waits double from the minimum since the last re-settle that worked and never leave [min, max]. |
| `WatchSupervisor.WaitsStayInRangeExactlyWhen` | internal/cli/ynca_watch.go:124-142 | For every minimum and maximum: the waits of all runs stay in [min, max] if and only if twice the maximum fits in 64 bits. |
| `WatchSupervisor.ProductionIsValid` | internal/cli/ynca_watch.go:28-34 | The built-in backoff and re-settle threshold satisfy what the theorems ask of them. |
| `WatchSupervisor.DoublingStaysInRange` | internal/cli/ynca_watch.go:140-142 | The doubling without an overflow check stays in range exactly when twice the cap fits in 64 bits. |
| `Discovery.PoolInvariant` | pkg/discover/discover.go:322-344 | In every interleaving at most 16 fetches are in flight and each stored result belongs to its own location. |
| `Discovery.SlotsFillUp` | pkg/discover/discover.go:322-344 | And as many as 16, when there are so many locations, do run at once. |
| `Discovery.OutcomesMean` | pkg/discover/discover.go:370-377 | A location's fetch comes to a device if and only if its first attempt got it, or stalled and the second attempt got it. |
| `Discovery.FinishedPoolListsWhatLocationsYield` | pkg/discover/discover.go:317-377 | Every finished interleaving lists, in location order, for each UDN that some location yields in one of these two ways the device of the first such location, and nothing else. |
| `Discovery.SomeWorkerCanMove` | pkg/discover/discover.go:322-344 | No deadlock: until all workers are done one of them can move, and each move is progress. |
| `Discovery.EveryScheduleCanFinish` | pkg/discover/discover.go:322-344 | From wherever a schedule has led, the pool can be run to its end, in exactly the 3n stages of n workers minus those already passed. |
| `Discovery.ConcurrentFetchRefinesSequential` | pkg/discover/discover.go:317-363 | Every finished interleaving gives the first device per UDN in location order, as the sequential loop would. |
| `Discovery.EveryFetchEndsSequentially` | pkg/discover/discover.go:317-363 | So every schedule, with every fetch retried after a stall, can be completed, and then gives what the sequential loop gives. |
| `Discovery.FilterResults` | pkg/discover/discover.go:349-362 | The loop over a set of seen UDNs computes the first device per UDN. |
| `Discovery.FirstPerUdnMeans` | pkg/discover/discover.go:349-362 | The result lists, in location order, exactly the found devices whose UDN no earlier location has. |
| `Discovery.SearchLocations` | pkg/discover/discover.go:166-227 | The collecting loop returns every location found, once each, sorted; it fails only when a search failed and nothing was found. |
| `Discovery.CompletionOrderDoesNotMatter` | pkg/discover/discover.go:199-226 | Searches that complete in another order give the same answer. |
| `Discovery.MergeSwept` | pkg/discover/discover.go:140-144 | The result is the SSDP devices followed by those swept devices whose UDN SSDP did not find, in order; UDNs are pairwise distinct. |
| `Discovery.UnknownMeans` | pkg/discover/discover.go:140-144 | Those appended are all swept devices whose UDN SSDP did not find, in their order. |
| `Discovery.Search` | pkg/discover/discover.go:126-150 | The devices of SSDP, then those only the probe found if the caller wants it; an SSDP error shows only when nothing was found. |
| `Discovery.LookupByUdn` | pkg/discover/discover.go:92-111 | A device is returned exactly when SSDP or the permitted probe found its UDN, and it is one SSDP found if SSDP found any. |
| `Sweep.SweepTargets` | pkg/discover/sweep.go:125-195 | The targets are, without duplicates, exactly the addresses, other than this computer's own, whose two neighbours both lie in the subnet of a private interface address with a mask of at most 30 bits and share with that address, or with the one to look near, a block of 256. The prefix of the default route leads; the others ascend. |
| `Sweep.CollectPrefixes` | pkg/discover/sweep.go:130-164 | The interface loops collect exactly the usable addresses of this computer and the prefixes chosen for them. |
| `Sweep.AddHosts` | pkg/discover/sweep.go:183-193 | Stepping with Next until the address after leaves the prefix visits exactly the addresses strictly between its first and last. |
| `Sweep.TargetsAreTheHosts` | pkg/discover/sweep.go:181-193 | The enumeration has no duplicates and holds exactly the hosts of some prefix minus self. |
| `Sweep.ChosenHolds` | pkg/discover/sweep.go:145-162 | On account of a usable address its block of 256 is chosen as far as it lies in the subnet; with an address to look near, that one's block, and nothing exactly if it lies outside. |
| `Sweep.ChosenLiesInASubnet` | pkg/discover/sweep.go:156-162 | A chosen prefix has at least 24 bits and lies inside the subnet of a usable interface address. |
| `Sweep.MaskedIsInterval` | pkg/discover/sweep.go:156-162 | A masked prefix is the interval of its size that starts at a multiple of that size. |
| `Sweep.RouteLeads` | pkg/discover/sweep.go:174-179 | When some prefix holds the default-route address, the least such prefix leads. |
| `Sweep.RouteFirstReorders` | pkg/discover/sweep.go:174-179 | Moving the prefix to the front keeps all prefixes and the order of the rest. |
| `Sweep.CapTargets` | pkg/discover/sweep.go:199-205 | The cap keeps the first n targets, and of the prefixes, in order, those that hold a kept one. |
| `Sweep.CapSparesTheLeader` | pkg/discover/sweep.go:199-205 | A cap of 1024 never drops a host of the leading prefix. |
| `SearchExchange.Exchange.MSearchExchange` | pkg/discover/search.go:129-184 | The loop body runs at most six times more often than datagrams arrive; at most three requests go out, the k-th no earlier than k intervals after the start, and every one that was due at the last turn did go out; an elapsed wait did elapse. When the socket does not fail, only the wait, a reply or the context ends the exchange. |
| `SearchExchange.ResendsLeaveMxSeconds` | pkg/discover/search.go:55-61 | The last request leaves its responders the MX seconds of section 1.3.2 of UPnP Device Architecture 1.1, and no longer interval would. |
| `LinkGroup.Fabric.Create` | internal/cli/link.go:93-172 | With a failure at any call, the calls made are those of the saga for that result: checks first, then the three steps, then a rollback of exactly the confirmed followers. |
| `LinkGroup.Fabric.CheckMembership` | internal/cli/link.go:93-104 | No receiver changes while followers are checked; a follower in any group stops the creation. |
| `LinkGroup.Fabric.PointFollowers` | internal/cli/link.go:157-163 | The followers are pointed in order up to the first failure, and the confirmed ones are those acknowledged. |
| `LinkGroup.Fabric.RollBack` | internal/cli/link.go:121-142 | The leader is stopped and each confirmed follower reset once, whatever fails. |
| `LinkGroup.StepsAreInOrder` | internal/cli/link.go:93-172 | Call by call, the steps of a creation: each follower is asked, the leader is told of all followers, each follower is pointed at it in its own zone, the stream is started; all but the last were acknowledged, and the last exactly if the group was created. |
| `LinkGroup.RollbackIsInOrder` | internal/cli/link.go:118-142 | Call by call, the rollback: the leader is stopped, then each confirmed follower reset in its own zone, in order. |
| `LinkGroup.Fabric.Dissolve` | internal/cli/link.go:185-233 | Exactly the calls of each outcome are made, with the group the receiver reports: one that serves no group is only asked, and nothing is undone when the second step fails. |
| `LinkGroup.CreatedConnectsAll` | internal/cli/link.go:144-172 | After a creation that works every follower points at the leader, and the leader serves and streams to them. |
| `LinkGroup.ChecksFirst` | internal/cli/link.go:93-109 | A creation that stops before its first mutation changes no receiver. |
| `LinkGroup.AddFailureIsUndone` | internal/cli/link.go:147-152 | A failed setServerInfo leaves no follower pointing anywhere new. |
| `LinkGroup.PointFailureLeaves` | internal/cli/link.go:121-163 | Whichever calls of the rollback fail: after a follower could not be pointed, those left pointing at the leader are exactly the ones reached minus the ones whose reset took effect. |
| `LinkGroup.StartFailureLeaves` | internal/cli/link.go:121-169 | The same after the stream did not start, where every follower had been reached. |
| `LinkGroup.PointFailureIsUndone` | internal/cli/link.go:157-163 | When the resets work, at most the failing follower is left pointing at the leader, and it exactly if its call took effect and its host is not among those reset. |
| `LinkGroup.StartFailureIsUndone` | internal/cli/link.go:167-169 | When the stream does not start and the resets work, no follower is left pointing at the leader. |
| `LinkGroup.RollbackKeepsTheServer` | internal/cli/link.go:121-169 | After any failure past the checks, whatever the rollback does: the leader serves the group exactly if setServerInfo took effect, as it always did when a later step failed; no other receiver serves anything new. |
| `LinkGroup.ServersAreRestoredExactlyWhen` | internal/cli/link.go:118-152 | Such a failure leaves every receiver serving what it served before if and only if setServerInfo did not take effect, or the leader already served this very group. |
| `LinkGroup.AServerIsLeftBehind` | internal/cli/link.go:118-163 | A failing creation whose rollback works throughout, after which the leader serves a group that no follower has joined. |
| `LinkGroup.StrangersAreLeftAlone` | internal/cli/link.go:93-172 | Whatever fails, no receiver outside the follower list is pointed anywhere. |
| `AtomicSave.SaveIsAtomic` | pkg/yxc/cache.go:144-181 | In every interleaving of any number of savers that fail or crash anywhere, the cache path reads as an atomic register: absent, or the last complete payload renamed over it. |
| `AtomicSave.EventsAreWholePayloads` | pkg/yxc/cache.go:144-181 | What was renamed over a cache path is always the complete payload of one saver. |
| `AtomicSave.ReplacesExactlyOnSuccess` | pkg/yxc/cache.go:144-181 | In every interleaving a saver has renamed its payload over its path exactly once when it reports success, and not at all when it reports failure or is still at work. |
| `AtomicSave.RenameFollowsSync` | pkg/yxc/cache.go:159-179 | In every interleaving a file is renamed over a cache path only after it was synced, with nothing written to it in between. |
| `AtomicSave.StepKeepsInv` | pkg/yxc/cache.go:152-181 | Every step keeps each temporary file its saver's own, with exactly what was written so far. |
| `AtomicSave.NoLitter` | pkg/yxc/cache.go:158-180 | Without crashes and failed removals, every new temporary name belongs to a saver still at work. |
| `AtomicSave.Disk.Save` | pkg/yxc/cache.go:144-181 | One saver, operation by operation, with others running in between: success means that its own complete payload was renamed over the path during the call, once; failure that it renamed nothing. A save whose calls do not fail succeeds when nothing takes its temporary name. |
| `AtomicSave.TempNamesAreNotCachePaths` | pkg/yxc/cache.go:70-152 | No name CreateTemp makes up is the cache path of a device. |
| `AtomicSave.PathsAreDistinct` | pkg/yxc/cache.go:63-79 | A device has a cache file exactly if its ID is not empty and has no separator; two IDs never share one, and no cache file name has a separator. |
| `FeaturesCache.Loader.LoadOrFetch` | pkg/yxc/cache.go:90-115 | A fresh, readable file answers without asking the device, an unreadable one is an error; otherwise the device is asked once, and its answer stored before it is returned; a failed save changes nothing. |
| `FeaturesCache.Loader.TryLoad` | pkg/yxc/cache.go:120-141 | A stale, missing or corrupt file is a miss; a failed stat, or a failed read of a fresh file, and nothing else, is an error. |
| `FeaturesCache.Loader.LoadFeatures` | internal/cli/features.go:80-114 | For every turn of the calls, what is loaded: the memo unless a refresh is asked for, else the features of a fresh file unless a refresh is asked for, else the device's answer once it is saved. The memo stays what the cache file holds. |
| `FeaturesCache.Loader.ResolveDeviceId` | internal/cli/features.go:126-160 | The memo's device, else the configured one, else the one that answers. |
| `FeaturesCache.Loader.ValidateAgainstFeatures` | internal/cli/features.go:30-53 | For every turn of the calls, the verdict: accepted from the first list loaded if that has the name, without asking the device when it came from the memo or a fresh file; otherwise it rests on a list the device gives during this call, and there is none exactly if the device does not answer or saving fails. At most two fetches; a rejection names the three closest. |
| `FeaturesCache.MemoAgreesWithDisk` | internal/cli/features.go:61-114 | In every run the memo and the file agree, and a successful load returns what both hold. |
| `FeaturesCache.EveryResultHasASource` | internal/cli/features.go:80-114 | Every result was read from a file fresh at the time, or came from the device, in this call or an earlier one; a refresh always asks. |
| `Flatten.Flattener.FlattenInto` | internal/cli/watch.go:294-312 | Whatever the order of the keys, every leaf is stored under its name and nothing else changes. |
| `Flatten.FlattenForWatch` | internal/cli/watch.go:288-292 | The flat map holds exactly the names of the leaves. |
| `Flatten.LosslessExactlyWhenClean` | internal/cli/watch.go:288-312 | Splitting the names at the dots gives all leaves back exactly when no key has a dot and no top-level key is empty. |
| `Flatten.NameSplitsBack` | internal/cli/watch.go:294-312 | The name of one leaf splits back into its path exactly under that condition. |
| `Flatten.RebuildInvertsLeaves` | internal/cli/watch.go:288-312 | The tree can be read off its leaves, up to objects that hold none. |
| `Flatten.FlatFormDeterminesTheTree` | internal/cli/watch.go:288-312 | Two clean objects have the same flat form if and only if they are the same up to objects that hold no leaf. |
| `Flatten.RebuiltFromFlatForm` | internal/cli/watch.go:288-312 | Rebuilding from the names, to any depth that holds the object, gives a clean object back. |
| `Flatten.SomeDepth` | internal/cli/watch.go:288-312 | Every object has such a depth. |
| `Flatten.DottedKeysCollide` | internal/cli/watch.go:297-301 | {"a.b": 1} and {"a": {"b": 1}} flatten to the same map. |
| `Reports.ParseLineInvertsRender` | pkg/ynca/client.go:547-564 | The report parser accepts exactly the lines @SUBUNIT:FUNCTION=value with separable, non-empty parts, and reads the parts back. |
| `Reports.AcceptedLinesAreRendered` | pkg/ynca/client.go:547-564 | An accepted line is the rendering of its parts. |
| `Reports.KeyOfLine` | internal/cli/ynca_diff.go:93-111 | The scanner's treatment of a line, step by step, gives its key or none. |
| `Reports.ScannerAgreesWithParser` | internal/cli/ynca_diff.go:93-111 | The scanner counts a line as the parser reads it once leading white space is gone; they differ exactly when a line starts with white space and the rest is a report. |
| `Transcript.WriteDumpReplies` | internal/cli/ynca_dump.go:131-150 | Replies are appended as they are, or as a comment when they hold an LF or refuse the request. |
| `Transcript.RecordMeans` | internal/cli/ynca_dump.go:131-150 | A reply stands in the dump as it is if and only if it has no LF and is no refusal; otherwise one comment line names its request. |
| `Transcript.UnquoteInvertsQuote` | internal/cli/ynca_dump.go:131-150 | Quoting a reply for a comment loses nothing of it. |
| `Transcript.ScanTranscript` | internal/cli/ynca_diff.go:88-117 | The scan of a text gives exactly the keys of its lines. |
| `Transcript.DumpThenScan` | internal/cli/ynca_dump.go:131-150 | Scanning a dump finds exactly the keys of the recorded replies; rejected replies and those with an LF add none. |
| `Transcript.DumpReportsWhatTheParserAccepts` | internal/cli/ynca_dump.go:131-150 | When no reply starts with white space those are the functions the report parser accepts. |
| `Transcript.SplitInvertsKey` | internal/cli/ynca_diff.go:119-124 | Splitting a key at its first colon gives its subunit and function back. |
| `Transcript.Diff` | internal/cli/ynca_diff.go:42-56 | Whatever the order of the keys, the result lists the set difference in order, and per subunit its functions in order. |
| `Transcript.GroupsAreTheReports` | internal/cli/ynca_diff.go:42-56 | The groups of the difference hold, in order, exactly the function names of the reports that gave its keys, under their subunits. |
| `Transcript.DiffDumps` | internal/cli/ynca_diff.go:33-65 | The difference of two dumps lists a function under a subunit exactly if a recorded reply of the second receiver reports it and none of the first does. |
| `SteppedCodec.ParseInvertsFormatStepped` | pkg/ynca/codec.go:35-57 | On every grid whose step is a whole number of last decimals, parsing the text gives the nearest grid point, within half a step, ties away from zero. |
| `SteppedCodec.YncaGrids` | pkg/ynca/codec.go:11-33 | The volume, FM and AM grids are such grids. |
| `SteppedCodec.VolumeIsSentCloseBy` | pkg/ynca/codec.go:59-64 | A volume is sent as a multiple of half a decibel, within a quarter of a decibel. |
| `SteppedCodec.ParseInvertsFormat` | pkg/ynca/codec.go:44-57 | Parsing a printed number gives it back to its last printed decimal. |
| `SteppedCodec.ParseNumberIsTolerant` | pkg/ynca/codec.go:44-57 | White space around a number does not matter, nor does a plus sign before it. |
| `SteppedCodec.FormattingIsIdempotent` | pkg/ynca/codec.go:35-44 | Formatting what was parsed gives the same text. |
| `SteppedCodec.FormattingIsMonotone` | pkg/ynca/codec.go:35-44 | A larger value is never formatted as a smaller number. |
| `SteppedCodec.NegativeZeroExactlyWhen` | pkg/ynca/codec.go:35-44 | The text is a negative zero exactly when the rounded value is negative and within half a last decimal of zero. |
| `SteppedCodec.NoNegativeZeroOnAGrid` | pkg/ynca/codec.go:40-42 | On a grid it never is. |
| `SteppedCodec.NegativeZeroWithoutAStep` | pkg/ynca/codec.go:20-24 | With rounding disabled, as the comment allows and no caller asks for, -0.04 prints as -0.0. |
| `Rounding.RoundIsNearest` | pkg/ynca/codec.go:37-39 | Rounding picks a nearest integer, and of two the one farther from zero. |
| `Volume.DbScale` | pkg/yxc/scale.go:27-32 | The scale has a positive step; it is the device's own exactly when the device reports one with a positive step. |
| `Volume.LevelsOfTheScale` | pkg/yxc/scale.go:27-51 | Wire volume 0 is the lowest level the device reports, and each unit one of its steps; without a range they are -80.5 dB and half a decibel, so that 161 is 0 dB. |
| `Volume.DbToIntInvertsIntToDb` | pkg/yxc/scale.go:36-51 | Decibels to wire integer inverts wire integer to decibels, on all 64-bit integers. |
| `Volume.IntToDbIsClose` | pkg/yxc/scale.go:36-51 | The other round trip errs by at most half a step while the level fits in 64 bits, and saturates beyond. |
| `Volume.VolumeFromDb` | internal/cli/volume.go:111-123 | A level clamped in decibels before rounding is the rounded level clamped to [min, max]. |
| `Volume.ClampingCommutesExactlyWhen` | internal/cli/volume.go:116-123 | The two orders of clamping differ exactly when the range is upside down and the level below its minimum. |
| `Volume.VolumeFromPercent` | internal/cli/volume.go:124-145 | A percentage in [0, 100] is its rounded share of the range, any other is refused. |
| `Volume.VolumePercent` | internal/cli/status.go:79-98 | The percentage shown is always in [0, 100]: 0 below the range, 100 above it and the truncated share inside, of the reported range if it is proper and of 0..161 otherwise; 0 when the span does not fit in 64 bits. |
| `Volume.SetAndReadBack` | internal/cli/volume.go:124-145 | Setting a whole percentage and showing it composes the two conversions. |
| `Volume.PercentReadsBack` | internal/cli/status.go:79-98 | On a range of more than 50 steps p percent reads back as p, or as p - 1 exactly when the level was rounded down. |
| `Volume.ReadBackIsCloseExactlyAbove50` | internal/cli/status.go:79-98 | On every range of at most 50 steps some percentage reads back higher than it was set. |

## Left out

- Sockets, HTTP, UDP, DNS, UPnP XML and the JSON and YAML codecs: their results are nondeterministic choices or values.
- A wake reply that arrives after the wake deadline, and unsolicited reports during a Send: the receiver's good manners exclude them.
- Read failures in the middle of a line, and the 64 KiB and 256 KiB line limits of the scanners.
- An embedded CRLF in a command, which the client sends as two lines: `YncaClient.CommandIsOneLine` says when it does not happen.
- IEEE-754 rounding, NaN and infinities: decibels, percentages and stepped numbers are exact rationals.
- Number syntax beyond sign, digits and a decimal point (exponents, hexadecimal): `SteppedCodec.ParseNumber` rejects it.
- Bytes that are not valid UTF-8: a `char` is a rune, and strings are ordered by code point.
- Cancellation inside discovery, and which of several interface errors is reported, which depends on completion order.
- The dropping of an event when the consumer is gone: `Subscriber` logs what is handed to emit.
- The classification of fetch errors: a stall is one of three outcomes of an attempt, and it is the one that is retried.
- The bounded dial loop of the subnet probe; its pool is that of `Discovery`.
- A cache file replaced by another process between the stat and the read of one load.
- Resolution of aliases to receivers, the random group identifier and the checks setServerInfo and setClientInfo make before sending: they are refusals of a call.
- The configuration file's save, which uses one fixed temporary name and so supports one writer only.
- Enumerations, typed setters, the function catalog, configuration resolution and all user interface: each is settled by reading one branch or a short list.
- WatchSupervisor.WaitsDoubleAndStayInRange: doubling assumes a cap whose double fits in 64 bits, as the built-in cap does; `WatchSupervisor.WaitsStayInRangeExactlyWhen` proves that waits leave the range without it.
- Transcript.WriteDumpReplies: a dump comment quotes LF, double quote and backslash only; %q escapes other unprintable characters as well.
- Volume.VolumePercent: says no more than [0, 100] where the span fits in 64 bits and the product by 100 wraps, which takes a volume some 9 * 10^16 steps away.
- FeaturesCache.MemoAgreesWithDisk: one device and no other writer of its cache file during the run; a memo may outlive the file's time to live within one process.

# Verified model of the chaos agent

The agent connects a host or a Kubernetes cluster to a chaos engineering platform. This project models the
parts of it whose correctness spans several functions or many steps, and proves what they are meant to keep:

- `ReportModel`, `ReportProtocol`, `ReportCids`, `ReportLinks`, `Collector`: the incremental report of Kubernetes resources.
  `Collector` holds the collector as it changes its cache in place; each of its methods is proved against the
  functions of `ReportModel`, and `Serve` shows that any sequence of rounds is a run of the protocol.
- `MultiWatch`, `ResourceVersions`: the watch that multiplexes several watchers, as interleaved steps, and the
  resource version that is joined for the list and split for the watch.
- `Heartbeat`, `Monitor`: the bounded list of heartbeat results and the monitor that rescans it, against an
  automaton over the whole history.
- `Reference`, `ChartCache`: chart references, their parser and printer, and the cache index keyed by them.
- `Experiments`: the map of running experiments, with the status polls that may remove entries.
- `Signing`, `AppInfo`, `PodState`, `ByteCount`: the signing interceptors, the application record file, the state
  reported for a pod, and the unit of a byte count.
- `Strings`, `Wrappers`: splitting, joining and numerals; result types.

`dafny verify dfyconfig.toml` checks the whole project.

## What is assumed

- Digests, URL parsing, JSON encoding, hashing and reading a chart from its blobs are function parameters; every
  statement holds for every such function. `Signing` needs a digest that is never empty.
- The server is not part of the repository. It is modelled as a map that a full message sets and a tombstone
  removes, message by message; a stub changes nothing but the link, if it carries one. A report that fails may leave it in any state.
- Rounds of a collector do not overlap, although the ticker starts each in its own goroutine
  (conn/metric/metric.go:61-64); likewise commands and status callbacks, and calls of `Stop`, are serialised.
- Encoding and hashing a resource do not fail, so the branch of `handlePodIncrement` that skips the cache is not
  taken; a Cid in an answer is a string.
- Services live in named namespaces, where a statement about links needs it (`Named`).
- The receiver of a request decodes exactly the headers and parameters that were sent.

## Where the code does not do what one might expect

- After a lost answer or a failed report the whole cache is forgotten, so a resource that vanishes then is never
  reported as gone: `LostAnswerLeavesOrphan` shows it, `OrphanStays` says for how long, and `ExactByHistory` says
  exactly when a round leaves the server with the listing.
- A service link is computed after the digest, so a change of services alone does not refresh it:
  `LinkMayBeStale`, `LinkFreshIff`, `HeldIsLastFull`.
- The heartbeat window of 26 bears at most 15 results between two checks: `FifteenSuffice`, `SixteenBreaks`.
- The three-component branch of the reference parser never yields a reference: `ThreeComponentsFail`.
- An application name that contains a newline does not survive its file, nor does one that ends in white space if
  it happens to be written last: `RoundTripIff`.
- A signature covers the parameters only if the request carries no `sd` header; that header is taken for the signed
  data and is not signed itself: `ChangedParams`, `DataHeaderHidesParams`.

## Model

| member | source | states |
|---|---|---|
| Collector.PodCollector.constructor | collector/kubernetes/kubernetes.go:64-77 | a new collector has an empty cache |
| Collector.PodCollector.NoSharedEntries | collector/kubernetes/pod.go:152-160 | no two keys share an entry object |
| Collector.PodCollector.OneEntryChanged | collector/kubernetes/pod.go:137-151 | since every key is the uid of its entry, changing an entry in place changes the cache at one key only |
| Collector.PodCollector.HandleKnown | collector/kubernetes/pod.go:137-151 | the in-place update of a cached entry and the choice between stub and full message refine the increment on values |
| Collector.PodCollector.HandleNew | collector/kubernetes/pod.go:152-160 | an unknown uid gets a fresh entry without a Cid and is sent in full |
| Collector.PodCollector.HandleIncrement | collector/kubernetes/pod.go:132-163 | both cases together; entries that appear are fresh objects |
| Collector.PodCollector.AddLinks | collector/kubernetes/pod.go:123-126 | applying the selectors one after the other |
| Collector.PodCollector.GetPodInfo | collector/kubernetes/pod.go:91-129 | the whole collection loop: cache and batch, in listing order |
| Collector.PodCollector.ResetIdentifierCache | collector/kubernetes/kubernetes.go:177-184 | the cache is forgotten |
| Collector.PodCollector.RecordCid | collector/kubernetes/kubernetes.go:164-169 | one Cid of the answer is stored if its uid is cached |
| Collector.PodCollector.ReportExisting | collector/kubernetes/kubernetes.go:94-175 | nothing happens for an empty batch, any failure empties the cache, a map answer records its Cids |
| Collector.PodCollector.SweepOne | collector/kubernetes/pod.go:173-187 | a marked entry is unmarked, another is dropped and reported if it has a Cid |
| Collector.PodCollector.Sweep | collector/kubernetes/pod.go:165-190 | the walk over the map in any order keeps exactly the marked entries, unmarked, and gives exactly the tombstones of the others, each once |
| Collector.PodCollector.ReportNotExist | collector/kubernetes/pod.go:165-192 | sweep, then the report of the tombstones, which empties the cache if it fails |
| Collector.PodCollector.Report | collector/kubernetes/pod.go:61-82 | one call is one round of the protocol, whatever the server holds |
| Collector.PodCollector.Serve | collector/kubernetes/pod.go:61-192 | every sequence of calls is a run of the protocol, so the statements about runs hold of the collector |
| ReportProtocol.IncrementAgrees | collector/kubernetes/pod.go:132-163 | one message keeps the server's digests equal to the cached ones; a stub goes out only for the digest the server holds |
| ReportProtocol.CollectAgrees | collector/kubernetes/pod.go:91-129 | so does every prefix of the batch, also when uids repeat in the listing |
| ReportProtocol.CollectStubSound | collector/kubernetes/pod.go:137-146 | each message is for the resource at its position, and a stub stands for the digest the server holds after the messages before it |
| ReportProtocol.CollectReports | collector/kubernetes/pod.go:91-129 | the batch moves the server to the full report of the listing and touches no other uid |
| ReportProtocol.CollectMarks | collector/kubernetes/pod.go:151-158 | listed uids are cached and marked, others untouched |
| ReportProtocol.SweepRemoves | collector/kubernetes/pod.go:172-188 | the tombstones remove from the server exactly the unmarked cached uids with a Cid |
| ReportProtocol.RoundKeepsInv | collector/kubernetes/pod.go:61-192 | every round keeps agreement, keys equal to uids and no marks left, whatever fails; the cache is then the listing, or empty after a failure |
| ReportProtocol.RunKeepsInv | collector/kubernetes/pod.go:61-192 | the same for every state of every run |
| ReportProtocol.StubSound | collector/kubernetes/pod.go:132-163 | on every run, with any behaviour of the server during failed reports, a stub is sent only when the server holds the current digest |
| ReportProtocol.Resynchronises | collector/kubernetes/kubernetes.go:111-184 | whatever failed before, a report that gets through brings every listed resource up to date |
| ReportProtocol.RoundServer | collector/kubernetes/pod.go:61-192 | after a round without failure the server holds the listing and the orphans, unchanged, and nothing else |
| ReportProtocol.RoundExactIff | collector/kubernetes/pod.go:165-192 | that is what full reporting would leave if and only if every further uid of the server is cached with a Cid |
| ReportProtocol.TombstonesOfRound | collector/kubernetes/pod.go:172-188 | a tombstone is sent exactly for cached, unlisted uids with a Cid |
| ReportProtocol.TombstonesExact | collector/kubernetes/pod.go:132-192 | on every run: exactly in the first round that misses a uid the previous, successful round listed, never twice in a round |
| ReportProtocol.TombstonesOnce | collector/kubernetes/pod.go:132-192 | between two tombstones for a uid the uid was listed again |
| ReportProtocol.DeltaRefinesFull | collector/kubernetes/pod.go:61-192 | on runs that succeed and are acknowledged the server holds after each round the uids and digests of the listing, as with full reporting |
| ReportCids.CachedCid | collector/kubernetes/kubernetes.go:164-169 | on every run a cached uid carries the Cid of the last answer that named it since it was last unlisted or the cache was lost |
| ReportCids.StubCids | collector/kubernetes/pod.go:140-146 | every stub carries that Cid |
| ReportCids.StubsByHistory | collector/kubernetes/pod.go:132-163 | on every run a resource is sent as a stub if and only if an answer gave it a Cid, with no failure or absence since, and the server holds its present digest when the message arrives |
| ReportCids.TombstoneCids | collector/kubernetes/pod.go:176-184 | every tombstone carries it too, or the one its own round's answer gave |
| ReportCids.TombstonesByHistory | collector/kubernetes/pod.go:132-192 | on every run a tombstone is sent exactly for a uid the previous, successful round listed, this one does not, and the answers gave a Cid |
| ReportCids.ExactByHistory | collector/kubernetes/pod.go:61-192 | on every run a round without failure leaves what full reporting would if and only if every further uid of the server was listed in the previous, successful round and given a Cid |
| ReportLinks.LinkOfFull | collector/kubernetes/common.go:95-102 | the overwriting selectors leave the last match |
| ReportLinks.SelectsIff | collector/kubernetes/common.go:95-102 | a service is linked to a pod exactly if it has a selector, the namespaces are equal and every pair of the selector is a label of the pod; a stub counts as a pod without namespace and labels |
| ReportLinks.ServiceForIsLast | collector/kubernetes/service.go:136-142 | the link is the uid of the last service in listing order that does, and empty if none does |
| ReportLinks.StubHasNoLink | collector/kubernetes/common.go:97-100 | with services in named namespaces a stub is never linked |
| ReportLinks.HeldIsLastFull | collector/kubernetes/pod.go:119-126 | on every run the server holds, for a cached uid, the digest and link of its last full message, from the services of that round; later stubs, which could carry a link, do not |
| ReportLinks.LinkFreshIff | collector/kubernetes/pod.go:119-126 | when a report leaves the current link: unless the pod goes out as a stub and the held link is another |
| ReportLinks.LinkMayBeStale | collector/kubernetes/pod.go:119-126 | a run that leaves a stale link |
| ReportLinks.OrphanStays | collector/kubernetes/pod.go:165-192 | a uid the server holds and the cache does not stays there, unchanged, through all rounds that succeed and do not list it |
| ReportLinks.LostAnswerLeavesOrphan | collector/kubernetes/kubernetes.go:112-116 | a run where a lost answer leaves a vanished pod on the server |
| ResourceVersions.List | collector/kubernetes/kubernetes.go:217-242 | items and versions combined in lister order; the first failing lister decides the error |
| ResourceVersions.ConcatAt | collector/kubernetes/kubernetes.go:233-236 | the items of a lister stand together, in their order, after those of the listers before it, and nothing else is in the list |
| ResourceVersions.DistributeIff | collector/kubernetes/kubernetes.go:247-258 | for any version a caller passes: an empty one reaches every lister empty, another is cut at its slashes, and refused if and only if the parts do not match the listers in number |
| ResourceVersions.DistributeInverts | collector/kubernetes/kubernetes.go:247-258 | for any number of listers each gets its own version back if and only if no version contains the separator; otherwise Watch refuses and nothing is misassigned |
| MultiWatch.StartInv | collector/kubernetes/kubernetes.go:271-287 | a watch over any number of watchers can be constructed and satisfies the invariant |
| MultiWatch.InitInv | collector/kubernetes/kubernetes.go:271-287 | the constructed watch satisfies the invariant |
| MultiWatch.StepKeepsInv | collector/kubernetes/kubernetes.go:289-341 | every step of a source, a sender, the closer or Stop keeps it |
| MultiWatch.Conservation | collector/kubernetes/kubernetes.go:271-341 | in every interleaving no send on a closed channel, no second close, no negative wait group; each watcher's events arrive in order, at most one is given up, only after Stop; a stopped watch has stopped each watcher once |
| MultiWatch.ClosedMeansDelivered | collector/kubernetes/kubernetes.go:289-313 | without Stop a closed result channel has delivered everything |
| MultiWatch.StopCall | collector/kubernetes/kubernetes.go:330-341 | with any steps of senders, sources, the closer and other callers in between, the first Stop takes one step for each watcher, in order, and one more, the next always possible; the watch is stopped exactly after the last, every watcher once |
| MultiWatch.StopAlone | collector/kubernetes/kubernetes.go:330-341 | alone it can run to its end, and then only the stops and the closed stop channel have changed |
| MultiWatch.StopAgain | collector/kubernetes/kubernetes.go:331-333 | on a stopped watch every further Stop does nothing, and it stays stopped |
| MultiWatch.AgentStepShrinks | collector/kubernetes/kubernetes.go:289-313 | each step of a sender or the closer lowers the measure |
| MultiWatch.Progress | collector/kubernetes/kubernetes.go:298-313 | with closed sources some step remains until the channel is closed, after Stop one that needs no consumer |
| MultiWatch.AgentStepsBounded | collector/kubernetes/kubernetes.go:289-341 | on every run, sources open or closed and Stop called at any time and repeatedly, senders and closer take at most two steps for each event produced besides those left at the start |
| MultiWatch.ShutsDown | collector/kubernetes/kubernetes.go:308-341 | so from closed sources, Stop calls included, they finish within a bound and the result channel gets closed |
| Heartbeat.OnlineFollowsLatest | monitor/checker.go:34-37 | the automaton is in the state of the latest run that reached its threshold |
| Heartbeat.VerdictIsLatest | monitor/checker.go:61-105 | the newest-first scan finds the latest such run of its window, or there is none |
| Heartbeat.SampleAgrees | monitor/checker.go:61-105 | one check is right again if at most k results arrived and the window is at least k + max threshold - 1 |
| Heartbeat.WindowTooSmall | monitor/checker.go:61-105 | for every smaller window there are results after which the check is wrong |
| Heartbeat.WindowIff | monitor/checker.go:34-105 | every check is right after at most k results if and only if the window is at least k + stop threshold - 1 |
| Monitor.RunFollows | monitor/checker.go:39-105 | the same over every order of heartbeats and checks |
| Monitor.FifteenSuffice | conn/heartbeat/heartbeat.go:38 | with window 26 and thresholds 12 and 3 the flag equals the automaton after every check if at most 15 results come in between |
| Monitor.SixteenBreaks | conn/heartbeat/heartbeat.go:38 | with those numbers and 16 results or more in between there is a run where it does not |
| Monitor.LimitedList.constructor | pkg/tools/limitedlist.go:38-41 | the list starts empty |
| Monitor.NewLimitedSortList | pkg/tools/limitedlist.go:34-42 | a list is made exactly for a positive capacity |
| Monitor.LimitedList.Put | pkg/tools/limitedlist.go:44-52 | the list keeps the last cap values |
| Monitor.LimitedList.Reversed | pkg/tools/limitedlist.go:73-79 | the copy that is walked is the list newest first |
| Monitor.DefaultChecker.CheckHeartBeat | monitor/checker.go:61-105 | the loop with its early exits sets flag, action and reason by the verdict of the scan with thresholds 12 and 3 |
| Monitor.DefaultChecker.Check | monitor/checker.go:39-59 | the flag moves as the verdict says, and stop or start is asked for exactly when it moves |
| Monitor.MovesAlternate | monitor/checker.go:39-59 | stops and starts alternate, the first being a stop |
| Monitor.Supervise | monitor/monitor.go:87-112 | list and checker under any events do what the run function says with a window of 26 and thresholds 12 and 3, and a stop or start notice is asked for exactly at each move of the flag |
| Strings.AtoiIff | pkg/helm3/registry/reference.go:155-156 | the integer test accepts exactly an optional sign and one or more characters 0 to 9 whose number lies between -2^63 and 2^63 - 1 |
| Reference.HeadIsInteger | pkg/helm3/registry/reference.go:155-156 | what stands before the first slash passes it exactly if the text is such an integer, or one followed by a slash and anything |
| Reference.PortIsNumeral | pkg/helm3/registry/reference.go:144-146 | the port expression accepts exactly the canonical numerals up to 65535 |
| Reference.PortIsDecimal | pkg/helm3/registry/reference.go:45 | that is, exactly the decimal printings of 0 to 65535 |
| Reference.PortIsAtoi | pkg/helm3/registry/reference.go:150-161 | every valid port passes the integer test |
| Reference.ThreeComponentsFail | pkg/helm3/registry/reference.go:82-92 | three components never give a reference |
| Reference.ParseIsSound | pkg/helm3/registry/reference.go:64-93 | an accepted string writes a well-formed reference |
| Reference.ParseIsComplete | pkg/helm3/registry/reference.go:64-93 | every writing of a well-formed reference is accepted as that reference |
| Reference.ParseIff | pkg/helm3/registry/reference.go:64-161 | acceptance law over all strings: s gives r if and only if s is the full name of r, or that and a colon when it has no tag, and r is well formed: a repo that parses as a URL, with a port from 0 to 65535, or without a colon and then a tag that does not start with an integer |
| Reference.ParseTagged | pkg/helm3/registry/reference.go:64-93 | repo:tag means that tag of that repo if and only if the repo is not empty and parses, and the tag is not an integer nor one followed by a slash |
| Reference.EmptyRepoIff | pkg/helm3/registry/reference.go:65-67 | the parser complains of an empty repo exactly about the empty string and about a colon and a tag that does not start with an integer |
| Reference.RoundTrip | pkg/helm3/registry/reference.go:95-101 | a parsed reference is parsed again from its full name |
| Reference.FullNameInjective | pkg/helm3/registry/reference.go:95-101 | different references have different full names |
| ChartCache.ListableIff | pkg/helm3/registry/cache.go:241-249 | a name leads back to itself through the parser exactly when it is the full name of a parsed reference |
| ChartCache.NewCache | pkg/helm3/registry/cache.go:91-103 | a cache is made exactly if a root directory is given, with an empty index |
| ChartCache.Cache.AddManifest | pkg/helm3/registry/cache.go:254-262 | the manifest is stored under the full name; a parsed reference keeps the index listable |
| ChartCache.Cache.FetchReference | pkg/helm3/registry/cache.go:106-172 | the loop over the index finds a reference exactly if its name is there and fails exactly if its chart cannot be read |
| ChartCache.Cache.DeleteReference | pkg/helm3/registry/cache.go:214-225 | removes exactly that name, and only if it can be read |
| ChartCache.Cache.ListReferences | pkg/helm3/registry/cache.go:228-252 | on a listable index it fails only for an unreadable chart and else summarises each name once, as existing |
| Experiments.TimingCheckStatus | web/handler/chaosblade.go:264-308 | the polling loop returns the first final record, or at the deadline the last inconclusive status; it settles on Error exactly if the first final record says so |
| Experiments.ChaosbladeHandler.constructor | web/handler/chaosblade.go:45-51 | nothing is running at first |
| Experiments.ChaosbladeHandler.HandleCacheAndSafePoint | web/handler/chaosblade.go:161-220 | the effect of a command on every uid, and the polls it starts |
| Experiments.ChaosbladeHandler.CheckAndReportJavaAgentStatus | web/handler/chaosblade.go:222-237 | a poll removes its uid exactly if it settles on Error |
| Experiments.EventWords | web/handler/chaosblade.go:386-413 | the words that create, remove and start a poll, and the status that removes, letter by letter in either case |
| Experiments.FinalWords | web/handler/chaosblade.go:294-296 | a poll goes on exactly past failed queries and records that say Created, in either case |
| Experiments.RunningExact | web/handler/chaosblade.go:161-325 | on every run the entries are exactly the uids created or prepared and neither destroyed, revoked nor given up since, under their last command |
| Experiments.PollsBalance | web/handler/chaosblade.go:186-189 | status polls that settled were started by Java prepares of the same uid, one for one |
| Signing.DoInvoker | transport/interceptor.go:106-149 | the stamp, the signature and the refusal without keys |
| Signing.Invoke | transport/transport.go:115-127 | the outgoing chain passes exactly with both keys, and what it sends is accepted |
| Signing.SealedIsAccepted | transport/interceptor.go:52-149 | a request passed by the outgoing chain is accepted under the same keys, also with its request id |
| Signing.SealedCarries | transport/interceptor.go:106-149 | what is sent, key by key: the time under ts, the access key under ak, under sn the hash of the data with the secret appended, the request id, and everything else as it was |
| Signing.OtherSecret | pkg/tools/auth.go:64-68 | a receiver with another secret accepts a sent request if and only if both secrets give its data the same digest |
| Signing.OtherAccessKey | transport/interceptor.go:88-91 | a receiver with another access key accepts it if and only if the one sent is empty |
| Signing.RefusalCodes | transport/interceptor.go:82-142 | 401 exactly for a timestamp that does not read, and 403 for everything else that is refused |
| Strings.FormatIntReads | transport/interceptor.go:147 | a number is written as a minus sign if it is negative and its digits, without superfluous zeros, and reads back as the number |
| Signing.ChangedRequest | transport/interceptor.go:82-142 | a request that arrives with the signature of a sent one, with any other headers and parameters: accepted if and only if its timestamp reads, its access key fits and the data taken as signed has the digest of what was signed |
| Signing.ChangedParams | transport/interceptor.go:92-102 | so with other parameters: accepted if and only if their timestamp reads and either the sender used the data header or the digests agree |
| Signing.DataHeaderHidesParams | transport/interceptor.go:92-102 | with the signed data moved into the data header any parameters with a readable timestamp are accepted, unless that data is empty and the digests differ |
| AppInfo.RecordMapToFile | pkg/tools/auth.go:122-150 | the map is written line by line in some order, over the old content |
| AppInfo.ReadAppInfo | pkg/tools/auth.go:153-176 | an unreadable file is an error; the reading loop lets later lines win |
| AppInfo.OverwriteIs | pkg/tools/auth.go:128-132 | what the file holds after a write, character by character: without truncation the rest of a longer file stays |
| AppInfo.TrimSpaceIs | pkg/tools/auth.go:158 | trimming takes white space off both ends, all of it and nothing else |
| AppInfo.KeyValueNone | pkg/tools/auth.go:164-167 | a line is skipped exactly if it has no equals sign |
| AppInfo.LastLineWins | pkg/tools/auth.go:163-174 | each of the two values is that of the last line with its key, and empty without one |
| AppInfo.RoundTripIff | pkg/tools/auth.go:114-176 | over any truncated file and for the order the map was walked in: the record is read back if and only if neither value has a newline and the last one written has no trailing white space |
| AppInfo.SurvivesEveryOrderIff | pkg/tools/auth.go:114-120 | it is read back from every order if and only if neither value has a newline or trailing white space |
| PodState.GetPodState | collector/kubernetes/pod.go:210-273 | the first init container not exited with 0 decides, else the first container with a reason, although the loop runs backwards |
| PodState.FirstReasonIs | collector/kubernetes/pod.go:245-261 | that is the lowest-index container that waits with a reason or has terminated |
| PodState.FirstPendingIs | collector/kubernetes/pod.go:217-242 | and the lowest-index init container not exited with 0 |
| PodState.DeletedState | collector/kubernetes/pod.go:267-271 | a deleted pod is Unknown if its node is lost, else Terminating |
| PodState.InitState | collector/kubernetes/pod.go:217-242 | the state while init containers hold the pod up, from the fields of the first one that has not exited with 0 |
| PodState.ContainerState | collector/kubernetes/pod.go:243-266 | the state after that, from the fields of the first container that waits or has terminated, or of the pod; Completed turns into Running if a ready container runs |
| ByteCount.ByteCountBinary | pkg/helm3/registry/util.go:47-58 | the divisor is 1024^(exp+1), at most b and more than b/1024, exp is at most 5, and no step leaves 64 bits |
| ByteCount.UnitIsUnique | pkg/helm3/registry/util.go:52-57 | there is only one such unit |

## Left out

- The collectors for deployments, daemon sets, replica sets, namespaces and ingresses: the same algorithm as for pods.
- Node and virtual node collectors: their addresses are never registered, so they are never built.
- `ServiceCollector.Report`: services are only listed for their selectors and never reported.
- `setAgentExternalIp` and owner references: part of the payload, which the report treats as opaque.
- `newMultiWatch` when an underlying watch cannot be opened, and concurrent calls of `Stop`: the code promises nothing there.
- Collector.PodCollector.Report: returning at once because no Kubernetes client is configured is not modelled.
- Collector.PodCollector.ReportExisting: the virtual node branch of the answer is not modelled.
- AppInfo.RecordMapToFile: errors in opening and writing the file are not modelled.
- ByteCount.ByteCountBinary: the division and its printing with one decimal are not modelled.
- ChartCache.Cache.FetchReference: manifests and layers are one opaque test, so its several read errors are one.
- Experiments.ChaosbladeHandler.HandleCacheAndSafePoint: the status reports of asynchronous creates and of revokes do not touch the map and are not modelled; a command has at least two words.
- Experiments.ChaosbladeHandler.CheckAndReportJavaAgentStatus: the report of the status to the server after the callback is not modelled.
- Monitor.Supervise: sending the notices is not modelled.
- Shell execution, the HTTP client and server, Helm, Litmus, logging, flags, file paths and signals: input and output, or foreign code.
- `parseVersionFromOutput`, `splitToChunk`, `Set`, `NamespaceList`: only easy members.

# Verified models of NeCon and Stella

A Dafny project that models five state machines of this repository and proves what each promises over
whole runs. `dafny verify dfyconfig.toml` checks everything.

- **Pod workers** (`PodWorkers.dfy`, `PodRequestLedger.dfy`, `PodKills.dfy`). The kubelet gives each pod a
  goroutine, a channel with room for one request, a flag and a slot for the last undelivered request. A run is any
  interleaving of lock sections, receives and ends of syncs. Forgetting a worker closes its channel but
  leaves the flag set, so two goroutines can exist for one pod; a token argument shows that they never
  both hold a request. The ledger follows every request to its end.
- **Proxy change trackers** (`ChangeTracking.dfy`, `ObjectRuns.dfy`, `EndpointChanges.dfy`,
  `ServiceChanges.dfy`, `EndpointSlices.dfy`, `EndpointSliceCache.dfy`, `EndpointSliceRuns.dfy`).
  Incremental caches against recomputation, over every event sequence and every order in which Go may
  range over a map.
- **Allocators** (`Resources.dfy`, `Drf.dfy`, `DrfSimulation.dfy`, `DrfCrash.dfy`, `DepCon.dfy`). The two
  schedulers of the scheduling experiment as loops over node and framework tables: conservation, fairness, balance, and
  exactly when the DRF loop crashes. Python floats are reals.
- **Stella's kernel side** (`QuotaControl.dfy`, `VifAllocator.dfy`, `Bridge.dfy`, `BridgeDevice.dfy`). The
  CPU quota controller with C's conversions and wraps, the weight ledger, and the bridge's port table with
  its reference counts and derived values.
- **Controller expectations and pod orders** (`Expectations.dfy`, `ExpectationsInterleaved.dfy`,
  `PodOrder.dfy`, `Sorting.dfy`). Counters and UID sets, as whole calls and as interleaved atomic steps,
  and the Less methods that sorting relies on.

Code that changes state is a class whose methods are proved equal to a step function on the state's value;
the theorems about runs are lemmas about that function. `old'` and `new'` in value code are plain names.

Where the code and its comments differ, the model follows the code:

- A kill request is said to be always delivered (pod_workers.go:66-67). It is refused while another kill
  waits, and dropped by a forget of its pod while it waits; it is safe exactly if the pod is idle at the
  call: `KillIsCarriedOutIff`, `KillIsSafeIff`.
- UDPStaleClusterIP is said to hold IPs no longer assigned to a service (service.go:276). It holds the IPs
  of UDP ports gone; `StaleIPsAreUnassignedIff` says, service by service, when the two agree, and two
  witnesses show each way in which they do not.
- If no rule of ActivePodsWithRanks applies the second pod is said to come first
  (controller_utils.go:807); the code returns false, a tie.
- The DRF loop takes one container a round for all containers although the frameworks receive equal parts,
  so it crashes when the division leaves a rest and there was room for the parts: `LoopCrashesIff`.
- The endpoint kept for an IP depends on the order of the slices when slices disagree on it, for instance
  on its port number: `OrderDoesNotMatterIff`, `OrderMayMatter`.
- The quota controller's products wrap for large errors. At goals from 2 to 2^31 - 1 a tick still never
  moves away from the goal (`DirectionLostIff`), but may move by 1 instead of 10000 (`SpeedMayBeLost`); at
  goal 1, from a throughput of 429498 on, and at goals of 2^31 and more it can move the wrong way
  (`DirectionLostAtLargeGoalIff`).

## Model

| member | source | states |
|---|---|---|
| `PodWorkers.EveryRunKeepsInv` | implementation/NeCon_k8s/pkg/kubelet/pod_workers.go:200-288 | In every interleaving each pod has exactly one request in its channels' and goroutines' hands (open or closed channels alike) if it is marked as working and none otherwise; the map names exactly the open channels; a full slot belongs to a known, working pod. |
| `PodWorkers.AtMostOneSyncPerPod` | implementation/NeCon_k8s/pkg/kubelet/pod_workers.go:158-195 | Of two goroutines for one pod, as exist after a worker was forgotten and replaced during its sync, at most one holds a request, in every run. |
| `PodWorkers.SendsNeverBlock` | implementation/NeCon_k8s/pkg/kubelet/pod_workers.go:209-228 | In every run both channel sends made under the lock find a known, open, empty channel: they never block and never panic. |
| `PodWorkers.WorkerStepMakesProgress` | implementation/NeCon_k8s/pkg/kubelet/pod_workers.go:279-288 | Every goroutine step lowers a bound computed from the channels and slots. |
| `PodWorkers.DrainIsBounded` | implementation/NeCon_k8s/pkg/kubelet/pod_workers.go:158-195 | Left alone, the goroutines take a bounded number of steps, in any order. |
| `PodWorkers.QuiescentMeansDrained` | implementation/NeCon_k8s/pkg/kubelet/pod_workers.go:279-288 | When no goroutine can take a step no slot is full, no pod is marked as working, no channel holds a request, and the ended goroutines are those of the closed channels. |
| `PodWorkers.ForgetTwice` | implementation/NeCon_k8s/pkg/kubelet/pod_workers.go:253-261 | Forgetting one set of workers and then another is forgetting their union, so the order of the range over the map does not matter; what forgetting does is said by the next two rows. |
| `PodWorkers.ForgetWorkerEffect` | implementation/NeCon_k8s/pkg/kubelet/pod_workers.go:237-246 | In every run ForgetWorker takes the pod out of podUpdates and out of the slots and closes the pod's channel, which keeps its buffer and its worker; isWorking, and every other channel and pod, stay as they were. |
| `PodWorkers.ForgetUndesiredEffect` | implementation/NeCon_k8s/pkg/kubelet/pod_workers.go:253-261 | In every run ForgetNonExistingPodWorkers keeps exactly the desired workers and slots, each as it was, and closes exactly the channels of the other pods. |
| `PodWorkers.TwoWorkersForOnePod` | implementation/NeCon_k8s/pkg/kubelet/pod_workers.go:200-246 | A pod forgotten during its sync and updated again: two goroutines for it, of which one holds the request. |
| `PodWorkers.PodWorkerPool.UpdatePod` | implementation/NeCon_k8s/pkg/kubelet/pod_workers.go:200-235 | One call is the UpdatePod step on the whole state and keeps the invariant. |
| `PodWorkers.PodWorkerPool.RemoveWorker` | implementation/NeCon_k8s/pkg/kubelet/pod_workers.go:237-251 | Takes the pod out of podUpdates and out of the slots, closes its channel and no other, leaves isWorking alone, and keeps the invariant. |
| `PodWorkers.PodWorkerPool.ForgetNonExistingPodWorkers` | implementation/NeCon_k8s/pkg/kubelet/pod_workers.go:253-261 | The loop keeps exactly the desired workers and slots and closes exactly the channels of the others; keeps the invariant. |
| `PodWorkers.PodWorkerPool.ReceiveFrom` | implementation/NeCon_k8s/pkg/kubelet/pod_workers.go:158-162 | A turn of the goroutine's loop takes the buffered request, even from a closed channel, or ends on a closed, empty one. |
| `PodWorkers.PodWorkerPool.CheckForUpdates` | implementation/NeCon_k8s/pkg/kubelet/pod_workers.go:279-288 | Delivers the slot's request to the pod's channel, or marks the pod as not working; never blocks and keeps the invariant. |
| `PodRequestLedger.EveryRequestIsAccountedFor` | implementation/NeCon_k8s/pkg/kubelet/pod_workers.go:200-288 | In every run each submitted request has exactly one fate, and the pending fates agree with the channels, goroutines and slots in both directions: buffered, running, undelivered, processed, superseded, refused because of a kill, or dropped by a forget. |
| `PodRequestLedger.FatesMoveForward` | implementation/NeCon_k8s/pkg/kubelet/pod_workers.go:225-246 | A fate only changes along the protocol: a settled request stays settled, and a request leaves the slot only by delivery, by a later request if it is no kill, or by a forget. |
| `PodRequestLedger.ProcessedInOrder` | implementation/NeCon_k8s/pkg/kubelet/pod_workers.go:225-235 | Once a request is delivered, every earlier request for the same pod is settled. |
| `PodRequestLedger.PendingKillGoesNext` | implementation/NeCon_k8s/pkg/kubelet/pod_workers.go:228-233 | A kill in the slot is what the slot holds, and every request made later for that pod has been refused. |
| `PodKills.IdlePodIsServed` | implementation/NeCon_k8s/pkg/kubelet/pod_workers.go:225-227 | Whatever is asked of a pod that is idle at the call has been processed in every continuation that comes to rest, forgets included. |
| `PodKills.DroppedIff` | implementation/NeCon_k8s/pkg/kubelet/pod_workers.go:237-246 | Over any continuation a request is dropped exactly if some forget of its pod came while it waited in the slot. |
| `PodKills.KillIsCarriedOutIff` | implementation/NeCon_k8s/pkg/kubelet/pod_workers.go:64-68 | In every continuation that comes to rest, forgets included, a kill request has been processed if and only if no other kill was pending at the call and no forget of the pod came while it waited in the slot. |
| `PodKills.KillIsSafeIff` | implementation/NeCon_k8s/pkg/kubelet/pod_workers.go:64-68 | The comment promises that a kill request is always delivered. It is processed in every continuation that comes to rest if and only if the pod is idle at the call. |
| `PodKills.ForgetDropsRequest` | implementation/NeCon_k8s/pkg/kubelet/pod_workers.go:237-246 | On any working pod with no kill pending, a forget right after the call drops the request. |
| `PodKills.ComesToRest` | implementation/NeCon_k8s/pkg/kubelet/pod_workers.go:158-195 | From every state the goroutines can be let run until they rest. |
| `PodRequestLedger.QuiescentMeansSettled` | implementation/NeCon_k8s/pkg/kubelet/pod_workers.go:279-288 | When the goroutines have come to rest every request ever made is settled, and no kill was superseded. |
| `PodKills.KillMayBeDropped` | implementation/NeCon_k8s/pkg/kubelet/pod_workers.go:237-246 | A run in which a forget drops a waiting kill request. |
| `ChangeTracking.ApplyInAnyOrder` | implementation/NeCon_k8s/pkg/proxy/endpoints.go:387-401 | Half way through a sync, in any order of visits, the table is the union of the new contributions of the objects visited and the old ones of the others. |
| `ChangeTracking.SyncAppliesLatest` | implementation/NeCon_k8s/pkg/proxy/endpoints.go:387-401 | After visiting all pending items in any order the table is the union of the latest contributions. |
| `ChangeTracking.EveryRunInSync` | implementation/NeCon_k8s/pkg/proxy/service.go:241-269 | In every run an object is pending exactly when its contribution differs from the applied one, with that pair as its change, and the table is the union of the applied contributions; changes that cancel out leave no item. |
| `ChangeTracking.IncrementalEqualsRecomputed` | implementation/NeCon_k8s/pkg/proxy/endpoints.go:387-414 | After any run that ends with a sync, or has nothing pending, the incremental table equals the one computed from scratch from the latest objects. |
| `ObjectRuns.InformedRunIsAllowed` | implementation/NeCon_k8s/pkg/proxy/endpoints.go:142-183 | Events that report each object's last known state as previous are legal tracker events, and what the tracker has last seen of each name is the last known object's contribution. |
| `ObjectRuns.TableFollowsObjects` | implementation/NeCon_k8s/pkg/proxy/endpoints.go:387-414 | After a sync the table holds under each key what the last known object of that name contributes. |
| `EndpointChanges.ViewIsExact` | implementation/NeCon_k8s/pkg/proxy/endpoints.go:332-380 | Translating an Endpoints object lists an endpoint under a key exactly if some subset, nonzero port and usable address give it; all keys carry the object's name and no list is empty. |
| `EndpointChanges.TimesSinceCancelled` | implementation/NeCon_k8s/pkg/proxy/endpoints.go:142-183 | The trigger times kept for an object are, in order, those of its updates since its change last cancelled out, or since the last sync; with none it is not listed. |
| `EndpointChanges.DetectStaleConnections` | implementation/NeCon_k8s/pkg/proxy/endpoints.go:435-466 | Reports a UDP pair as often as endpoints of the old list with its address have no equal in the new one, so at all exactly if the pair is lost, and each UDP service that goes from no endpoints to some exactly once. |
| `EndpointChanges.EndpointChangeTracker.EndpointsToEndpointsMap` | implementation/NeCon_k8s/pkg/proxy/endpoints.go:332-380 | The nested loops compute the translation. |
| `EndpointChanges.EndpointChangeTracker.Update` | implementation/NeCon_k8s/pkg/proxy/endpoints.go:142-183 | Folds the event into one pending pair, drops the pair when its halves are equal, keeps trigger times for pending objects only, and says whether anything is pending. |
| `EndpointChanges.EndpointChangeTracker.CheckoutChanges` | implementation/NeCon_k8s/pkg/proxy/endpoints.go:226-242 | Returns every pending change once, in some order, and leaves none. |
| `EndpointChanges.EndpointsTable.Merge` | implementation/NeCon_k8s/pkg/proxy/endpoints.go:403-408 | The other map's entries override the table's. |
| `EndpointChanges.EndpointsTable.Unmerge` | implementation/NeCon_k8s/pkg/proxy/endpoints.go:410-414 | The other map's keys leave the table. |
| `EndpointChanges.EndpointsTable.Apply` | implementation/NeCon_k8s/pkg/proxy/endpoints.go:387-401 | Applies all pending changes in some order and reports the stale pairs and services of all of them; hands over the trigger times. |
| `EndpointChanges.StaleIsWhatTheTableLoses` | implementation/NeCon_k8s/pkg/proxy/endpoints.go:435-466 | What the changes of one sync report together is exactly what the whole table loses and gains. |
| `EndpointChanges.ReportedButStillServed` | implementation/NeCon_k8s/pkg/proxy/endpoints.go:435-466 | A sync reports an address that it goes on serving if and only if the service's last known object used it on one side, this node or another, and the new object uses it on the other side only. |
| `EndpointChanges.ProxierFollowsEndpoints` | implementation/NeCon_k8s/pkg/proxy/endpoints.go:387-414 | For every run of object events and syncs, after a sync each key's list is the translation of the last known object of its name. |
| `ServiceChanges.PortEntriesExact` | implementation/NeCon_k8s/pkg/proxy/service.go:304-334 | A key is present exactly if some port of the service has it, with the entry of the last such port. |
| `ServiceChanges.ViewIsExact` | implementation/NeCon_k8s/pkg/proxy/service.go:304-334 | A service gives nothing if and only if its cluster IP is empty or "None", it is an external name, or a family is set and its IP is of the other; otherwise its keys are its ports' names and protocols, each with the service's IP and the port, protocol and node port of the last port so named. |
| `ServiceChanges.ServiceChangeTracker.ServiceToServiceMap` | implementation/NeCon_k8s/pkg/proxy/service.go:304-334 | The loop computes the translation; it gives nothing exactly for services that are address-less, headless, external names or of the other IP family. |
| `ServiceChanges.ServiceChangeTracker.Update` | implementation/NeCon_k8s/pkg/proxy/service.go:241-269 | Folds the event into one pending pair and drops the pair when its halves are equal. |
| `ServiceChanges.Filter` | implementation/NeCon_k8s/pkg/proxy/service.go:389-396 | Leaves the entries whose keys the other map lacks. |
| `ServiceChanges.ServiceTable.Merge` | implementation/NeCon_k8s/pkg/proxy/service.go:371-385 | The other map's entries override the table's; returns the other map's keys. |
| `ServiceChanges.ServiceTable.Unmerge` | implementation/NeCon_k8s/pkg/proxy/service.go:400-413 | Removes the given keys and collects the cluster IPs of those that the table holds as UDP. |
| `ServiceChanges.ServiceTable.ApplyOne` | implementation/NeCon_k8s/pkg/proxy/service.go:338-352 | Merge, filter and unmerge together are: remove the previous entries, then add the current ones. |
| `ServiceChanges.ServiceTable.Apply` | implementation/NeCon_k8s/pkg/proxy/service.go:338-352 | Applies every pending change in some order, each to the table the others left, and collects the cluster IPs that each vacates. |
| `ServiceChanges.VacatedSoFar` | implementation/NeCon_k8s/pkg/proxy/service.go:338-352 | After any part of the visits the cluster IPs collected are those of the UDP keys that the table has lost since the sync began. |
| `ServiceChanges.SyncReportsGoneUdpIPs` | implementation/NeCon_k8s/pkg/proxy/service.go:282-286 | A sync reports exactly the cluster IPs of the UDP keys that the whole table loses, in any order of visits. |
| `ServiceChanges.ReportedIff` | implementation/NeCon_k8s/pkg/proxy/service.go:400-413 | While every cluster IP has one owner, a service's IP is reported exactly if one of its UDP ports has gone. |
| `ServiceChanges.StaleIPsAreUnassignedIff` | implementation/NeCon_k8s/pkg/proxy/service.go:276-278 | The comment says that the reported IPs are those that had UDP ports and are no longer assigned. While every cluster IP has one owner that is so if and only if no service drops a UDP port and keeps its IP for other ports, and none keeps all its UDP ports and moves to another IP. |
| `ServiceChanges.SyncReportIsUnassignedIff` | implementation/NeCon_k8s/pkg/proxy/service.go:338-352 | A sync's report is what the comment says under the same condition on the services known at the two syncs, in any order of visits. |
| `ServiceChanges.ReportedIPMayStillBeAssigned` | implementation/NeCon_k8s/pkg/proxy/service.go:276-278 | A service that drops its UDP port and keeps a TCP port: its IP is reported although still assigned. |
| `ServiceChanges.VacatedIPMayGoUnreported` | implementation/NeCon_k8s/pkg/proxy/service.go:276-278 | A service that keeps its UDP port and moves to another IP: the IP it leaves is unassigned and not reported. |
| `ServiceChanges.ProxierFollowsServices` | implementation/NeCon_k8s/pkg/proxy/service.go:338-413 | For every run of object events and syncs, after a sync each key's entry is the translation of the last known service of its name. |
| `EndpointSlices.NewEndpointSliceInfo` | implementation/NeCon_k8s/pkg/proxy/endpointslicecache.go:109-135 | Ports sorted by number; the ready endpoints, none for a removal, sorted by address; nothing added or lost. |
| `EndpointSlices.InfoEndpoints` | implementation/NeCon_k8s/pkg/proxy/endpointslicecache.go:109-135 | A slice that is not removed keeps an endpoint, with its addresses and topology, exactly if its ready condition is unset or true. |
| `EndpointSlices.SliceContributes` | implementation/NeCon_k8s/pkg/proxy/endpointslicecache.go:208-263 | What a slice contributes is exactly what its ports with a name and a number and its endpoints of the right family give, local exactly if the hostname label is there and names this node. |
| `EndpointSlices.UpdateIsReplay` | implementation/NeCon_k8s/pkg/proxy/endpointslicecache.go:142-165 | Overlaying pending on applied follows the plain meaning of every slice event; an event judged unchanged changes nothing, and one judged changed does, removals aside. |
| `EndpointSlices.PickConcat` | implementation/NeCon_k8s/pkg/proxy/endpointslicecache.go:237-270 | Going through two groups of endpoints one after the other keeps the second group's choice if the first had none or the second's is local, else the first's. |
| `EndpointSlices.PickExact` | implementation/NeCon_k8s/pkg/proxy/endpointslicecache.go:237-270 | An IP is kept exactly if something contributes it, as one of its contributors, and is local exactly if some contributor is. |
| `EndpointSlices.PickIsLastLocalOrFirst` | implementation/NeCon_k8s/pkg/proxy/endpointslicecache.go:237-270 | The endpoint kept for an IP is the last local one that was contributed, or the first one if none is local. |
| `EndpointSlices.PickIsSomeWinner` | implementation/NeCon_k8s/pkg/proxy/endpointslicecache.go:208-234 | In every order of the slices the endpoint kept is one slice's own choice, and local exactly if some slice's is. |
| `EndpointSlices.ContenderIsPicked` | implementation/NeCon_k8s/pkg/proxy/endpointslicecache.go:208-234 | Every slice whose choice is local, or every slice if none is, prevails in some order. |
| `EndpointSlices.OrderDoesNotMatterIff` | implementation/NeCon_k8s/pkg/proxy/endpointslicecache.go:208-270 | The endpoint kept for a service port and IP, port number included, is the same in every order of the slices if and only if the slices that could prevail agree on it. |
| `EndpointSlices.OrderMayMatter` | implementation/NeCon_k8s/pkg/proxy/endpointslicecache.go:208-270 | Two slices that give one IP under one port name different numbers: their two orders keep different endpoints. |
| `EndpointSliceCache.SortedIsAscending` | implementation/NeCon_k8s/pkg/proxy/endpointslicecache.go:308-327 | Sorting the values of one IP map gives strictly ascending addresses. |
| `EndpointSliceCache.AscendingIsUnique` | implementation/NeCon_k8s/pkg/proxy/endpointslicecache.go:308-327 | A strictly ascending list is determined by its elements. |
| `EndpointSliceCache.SortedValues` | implementation/NeCon_k8s/pkg/proxy/endpointslicecache.go:313-322 | Every value of the IP map once, in strictly ascending order of address. |
| `EndpointSliceCache.EndpointsMapFromEndpointInfo` | implementation/NeCon_k8s/pkg/proxy/endpointslicecache.go:308-327 | A key is present exactly if some IP is kept for it, with the ascending list of the endpoints kept. |
| `EndpointSliceCache.EndpointSliceCache.UpdatePending` | implementation/NeCon_k8s/pkg/proxy/endpointslicecache.go:142-165 | Ignores a slice without service label, namespace or name; otherwise records the simplified slice as pending if it differs, and says whether it did. |
| `EndpointSliceCache.EndpointSliceCache.AddEndpointsByIP` | implementation/NeCon_k8s/pkg/proxy/endpointslicecache.go:237-270 | The loop extends the choice for each IP by this port's endpoints. |
| `EndpointSliceCache.EndpointSliceCache.GetEndpointsMap` | implementation/NeCon_k8s/pkg/proxy/endpointslicecache.go:202-234 | Computes the lists of a service's slices in some order of ranging over them. |
| `EndpointSliceCache.EndpointSliceCache.Commit` | implementation/NeCon_k8s/pkg/proxy/endpointslicecache.go:181-193 | Moving the pending slices over in any order gives applied overlaid with pending. |
| `EndpointSliceCache.EndpointSliceCache.CheckoutChanges` | implementation/NeCon_k8s/pkg/proxy/endpointslicecache.go:169-199 | One change for each service with pending slices, from the lists before to the lists after, and every pending slice applied. |
| `EndpointSliceRuns.EveryRunKeepsInv` | implementation/NeCon_k8s/pkg/proxy/endpointslicecache.go:142-199 | In every run applied overlaid with pending is the replay of all events, and each service's part of the table is computed from its applied slices. |
| `EndpointSliceRuns.ReplayIsLastEvent` | implementation/NeCon_k8s/pkg/proxy/endpointslicecache.go:142-199 | The replay knows a slice exactly if its last event was no removal, and as that event gave it. |
| `EndpointSliceRuns.SlicesFollowReplay` | implementation/NeCon_k8s/pkg/proxy/endpointslicecache.go:142-199 | In every run the overlay is the replay, and right after a sync every service's part of the table is computed from the replay. |
| `EndpointSliceRuns.ListedIPs` | implementation/NeCon_k8s/pkg/proxy/endpointslicecache.go:208-270 | In a computed table a key lists an IP exactly if some slice contributes it, lists it once, and marks it local exactly if some contributor is local, whatever the order. |
| `EndpointSliceRuns.ListIsDetermined` | implementation/NeCon_k8s/pkg/proxy/endpointslicecache.go:308-327 | Where the slices that could prevail agree, the whole list under a key is the same for every order. |
| `EndpointSliceRuns.ApplyRenders` | implementation/NeCon_k8s/pkg/proxy/endpoints.go:387-414 | Applying one service's change replaces its part of the table by what its new slices compute and touches no other service. |
| `EndpointSliceRuns.SliceSyncReports` | implementation/NeCon_k8s/pkg/proxy/endpoints.go:387-401 | In slice mode, where the slices of a key's service agree before and after, a sync reports under the key exactly the UDP pairs that the whole table loses, and the key exactly if it goes from no endpoints to some, although each change is recomputed. |
| `Sorting.Sort` | implementation/NeCon_k8s/pkg/proxy/endpointslicecache.go:119-133 | What the sort package promises for a strict weak order: the same elements, none less than an earlier one. |
| `Sorting.StringLessIff` | implementation/NeCon_k8s/pkg/proxy/endpointslicecache.go:353-385 | One string is less than another exactly if it begins it or has the smaller character at the first difference. |
| `Drf.ScanFindsMinimum` | experiment/scheduling_overhead/4_experiment/simulation/drf.py:23-31 | If no share exceeds the sentinel 1 the scan selects a waiting framework with the least dominant share, the last of them on ties. |
| `Drf.FirstFitExact` | experiment/scheduling_overhead/4_experiment/simulation/drf.py:69-79 | The node taken is the first with room, and there is none exactly if no node has room. |
| `Drf.ShareAtMostOne` | experiment/scheduling_overhead/4_experiment/simulation/drf.py:24-48 | No share exceeds 1, so the sentinel hides no framework. |
| `Drf.ChoiceIsMinimal` | experiment/scheduling_overhead/4_experiment/simulation/drf.py:23-31 | A round charges a waiting framework whose dominant share is least among all that wait. |
| `Drf.ChargeConserves` | experiment/scheduling_overhead/4_experiment/simulation/drf.py:35-48 | Charging a container raises the granted amount of each resource by exactly its request. |
| `Drf.RoundKeepsInv` | experiment/scheduling_overhead/4_experiment/simulation/simulation.py:73-96 | A successful round conserves grants plus remainders; a failed one leaves the nodes alone, has charged the container, and no node fits it. |
| `Drf.RoundEffect` | experiment/scheduling_overhead/4_experiment/simulation/drf.py:23-66 | A round charges one framework with the head of its list, and if the container is placed takes it from one node; all other frameworks and nodes stay as they were. |
| `Drf.CrashIff` | experiment/scheduling_overhead/4_experiment/simulation/drf.py:43-64 | A round indexes an empty list exactly when no framework waits. |
| `Drf.RoundKeepsFairness` | experiment/scheduling_overhead/4_experiment/simulation/drf.py:23-66 | A round keeps every framework within one container's fraction of every waiting one. |
| `DrfSimulation.EveryLoopHead` | experiment/scheduling_overhead/4_experiment/simulation/simulation.py:58-96 | At every loop head, for each resource grants plus remainders equal the capacity, no remainder is negative, no framework is ahead of a waiting one by more than the largest container, and one container has gone per round. |
| `DrfSimulation.SplitEvenlyEffect` | experiment/scheduling_overhead/4_experiment/simulation/simulation.py:67-70 | Framework i starts with nothing granted and with the i-th of equal parts of the containers, in order. |
| `DrfSimulation.LoopHeadChoice` | experiment/scheduling_overhead/4_experiment/simulation/drf.py:23-31 | At every loop head every share lies between 0 and 1 and the scan selects a true minimum among the waiting frameworks. |
| `DrfSimulation.OutOfRoomIsReal` | experiment/scheduling_overhead/4_experiment/simulation/simulation.py:89-93 | When the loop stops for want of room no node fits the container, which has been charged nevertheless. |
| `DrfCrash.RejectedIffTooLarge` | experiment/scheduling_overhead/4_experiment/simulation/drf.py:69-79 | On nodes that first fit has filled with containers of one or two CPUs, a container finds no room exactly if it asks for more CPU than is left on all nodes together. |
| `DrfCrash.LoopCrashesIff` | experiment/scheduling_overhead/4_experiment/simulation/simulation.py:67-96 | For equal nodes with an even number of CPUs and requests of one or two, the loop crashes if and only if the number of frameworks does not divide the number of containers and the containers handed out ask for no more CPU than the cluster has. |
| `DrfCrash.SimulationCrashesIff` | experiment/scheduling_overhead/4_experiment/simulation/simulation.py:29-96 | The same for the simulation's nodes and ranges: the bound is 10 CPUs a node. |
| `DrfCrash.ThreeForTwoCrash` | experiment/scheduling_overhead/4_experiment/simulation/simulation.py:67-96 | Three small containers for two frameworks on one node crash the loop. |
| `DrfCrash.NoFrameworksCrash` | experiment/scheduling_overhead/4_experiment/simulation/drf.py:24-43 | Without frameworks the loop crashes in its first round. |
| `DrfSimulation.DrfScheduler.CalculateShare` | experiment/scheduling_overhead/4_experiment/simulation/drf.py:23-66 | The loops select, charge and take as specified; an empty demand list is the crash. |
| `DrfSimulation.DrfScheduler.SelectNode` | experiment/scheduling_overhead/4_experiment/simulation/drf.py:69-79 | Exactly the nodes with room, in order. |
| `DrfSimulation.DrfScheduler.OneRound` | experiment/scheduling_overhead/4_experiment/simulation/simulation.py:73-96 | One turn of the loop is the specified round. |
| `DrfSimulation.DrfScheduler.Run` | experiment/scheduling_overhead/4_experiment/simulation/simulation.py:73-96 | The whole loop is that many rounds, ended early by want of room or a crash. |
| `DepCon.ChooseIsBest` | experiment/scheduling_overhead/4_experiment/simulation/depcon.py:18-39 | The node chosen is the first with the most CPU left among those with room, and there is none exactly if no node has room. |
| `DepCon.BandwidthNeverRejects` | experiment/scheduling_overhead/4_experiment/simulation/depcon.py:22-23 | Under the coupling of bandwidth to CPU used, a node has room exactly if it has the CPU. |
| `DepCon.PlaceKeepsInv` | experiment/scheduling_overhead/4_experiment/simulation/simulation.py:42-51 | One placement keeps the spread of remaining CPU within the largest request and conserves both resources. |
| `DepCon.EveryPlacement` | experiment/scheduling_overhead/4_experiment/simulation/simulation.py:22-51 | In every state the loop reaches the spread of remaining CPU is within one largest container, exactly the placed requests are gone, and an early end means no node has the CPU. |
| `DepCon.NothingNegative` | experiment/scheduling_overhead/4_experiment/simulation/simulation.py:49-51 | No node's CPU or bandwidth ever becomes negative. |
| `DepCon.EarlyEndMeansFull` | experiment/scheduling_overhead/4_experiment/simulation/simulation.py:46-48 | A loop that ends early has placed all CPU of the cluster but less than one largest request a node. |
| `DepCon.SimulationIsBalanced` | experiment/scheduling_overhead/4_experiment/simulation/simulation.py:28-35 | For the simulation's nodes and ranges the spread is at most 2, bandwidth stays at 9000 or more, and an early end leaves at most 1 CPU on every node. |
| `DepCon.DepConScheduler.Filtering` | experiment/scheduling_overhead/4_experiment/simulation/depcon.py:18-26 | Exactly the nodes with room, in order. |
| `DepCon.DepConScheduler.Scoring` | experiment/scheduling_overhead/4_experiment/simulation/depcon.py:28-39 | The first of the available nodes with the most CPU. |
| `DepCon.DepConScheduler.Select` | experiment/scheduling_overhead/4_experiment/simulation/depcon.py:4-15 | Filtering and scoring together choose the best node, or none. |
| `DepCon.DepConScheduler.Run` | experiment/scheduling_overhead/4_experiment/simulation/simulation.py:42-51 | The whole loop is the specified placement. |
| `Bridge.FirstFreeIsLeast` | implementation/Stella_con/br_if.c:404-424 | The least free number from the start on, below the limit if there is one. |
| `Bridge.AtMost1023` | implementation/Stella_con/br_if.c:404-424 | Distinct numbers from 1 to 1023 allow at most 1023 ports, and the search fails exactly when there are that many. |
| `Bridge.RedirectKeepsRefs` | implementation/Stella_con/br_if.c:180-212 | Moving one port's backup link keeps every port's counter equal to the number of links to it, without wrap of the 16-bit counter. |
| `Bridge.ClearKeepsRefs` | implementation/Stella_con/br_if.c:214-230 | After clearing, the port has no link and no references, so the warning never fires; other ports lose exactly their links to it. |
| `Bridge.RecountIsCounted` | implementation/Stella_con/br_if.c:232-245 | Although promiscuity is looked at only when the count changes, after a recount count and promiscuity are right for all ports. |
| `Bridge.MaxHeadroomIsMax` | implementation/Stella_con/br_if.c:300-313 | The loop's result is the maximum over the ports, zero without ports. |
| `Bridge.AddKeepsInv` | implementation/Stella_con/br_if.c:579-671 | Adding a device keeps numbers, links, count, promiscuity and headroom consistent, also when it is refused. |
| `Bridge.AddEffect` | implementation/Stella_con/br_if.c:593-669 | An accepted device heads the list with the least free number, its own headroom and filter, learning and flooding on and no backup; the auto count grows by one, the needed headroom to the maximum, and of every other port at most promiscuity and headroom change. A refusal changes nothing, and its code says which check failed first. |
| `Bridge.DeleteKeepsInv` | implementation/Stella_con/br_if.c:334-383 | So does deleting one; links to it vanish, other links stay, and the warning does not fire. |
| `Bridge.DeleteEffect` | implementation/Stella_con/br_if.c:334-383 | A deletion succeeds exactly for a listed port and removes it and no other; the others keep number, device and flags, and lose their backup exactly if it was the deleted port. |
| `Bridge.ChangeFlagsKeepsInv` | implementation/Stella_con/br_if.c:761-766 | So does changing the learning and flooding flags. |
| `Bridge.ChangeFlagsEffect` | implementation/Stella_con/br_if.c:761-766 | A listed port's flags take the values given, and besides that at most promiscuity and the auto count change; for another port nothing happens. |
| `Bridge.ChangeBackupKeepsInv` | implementation/Stella_con/br_if.c:180-212 | So does changing a backup; it fails exactly for a device that is no port, is on another bridge or is the port's own, and then changes nothing. |
| `Bridge.ChangeBackupEffect` | implementation/Stella_con/br_if.c:180-212 | A change of backup touches links and counters only; the error is -2 exactly for a device that is no bridge port and -22 exactly for a port that is on another bridge or the port's own. |
| `Bridge.PromiscExact` | implementation/Stella_con/br_if.c:146-178 | After any operation a port that stays is promiscuous exactly if set_all is on, two auto ports are there, another port is the only auto port, or it was promiscuous before and its device cannot filter unicast. |
| `Bridge.StepKeepsInv` | implementation/Stella_con/br_if.c:334-766 | Every operation keeps the whole invariant. |
| `Bridge.EveryRunCountsLinks` | implementation/Stella_con/br_if.c:180-230 | In every run each counter is the number of ports that name its port as backup, below 1023; links lead to listed ports and never to the port itself. |
| `Bridge.EveryRunIsDerived` | implementation/Stella_con/br_if.c:146-323 | In every run the auto count, the needed headroom and all ports' headroom are what recomputation gives, and a port is promiscuous where the rule, spelt out, asks for it and not where it does not and the device can filter. |
| `Bridge.AddSucceedsIff` | implementation/Stella_con/br_if.c:593-619 | In every run an addition, with the effect stated by AddEffect, passes the checks and gets a number if and only if the device is Ethernet, no bridge, without another master and willing, is no port yet, and fewer than 1023 ports are there; the port-number error means exactly that 1023 are; a refusal changes nothing. |
| `Bridge.TwoPortsRun` | implementation/Stella_con/br_if.c:593-669 | A run that holds two ports, numbered 1 and 2 in the order in which they were added. |
| `Bridge.BackedPortRun` | implementation/Stella_con/br_if.c:180-212 | The same run with the first port backed by the second: the link is there and the counter is 1. |
| `BridgeDevice.NetBridge.FindPortNo` | implementation/Stella_con/br_if.c:404-424 | The bitmap search finds the least number in use by no port, or fails. |
| `BridgeDevice.NetBridge.ManagePromisc` | implementation/Stella_con/br_if.c:146-178 | The loop sets every port by the rule. |
| `BridgeDevice.NetBridge.UpdatePortCount` | implementation/Stella_con/br_if.c:232-245 | The loop counts the auto ports and reruns the rule only on a change. |
| `BridgeDevice.NetBridge.GetMaxHeadroom` | implementation/Stella_con/br_if.c:300-313 | The maximum over the ports. |
| `BridgeDevice.NetBridge.UpdateHeadroom` | implementation/Stella_con/br_if.c:315-323 | All listed ports get the new headroom. |
| `BridgeDevice.NetBridge.ChangeBackup` | implementation/Stella_con/br_if.c:180-212 | New links and error code as specified. |
| `BridgeDevice.NetBridge.BackupClear` | implementation/Stella_con/br_if.c:214-230 | The loop drops the port's own link and then all links to it. |
| `BridgeDevice.NetBridge.AddIf` | implementation/Stella_con/br_if.c:593-669 | The checks in the code's order; an accepted device becomes the first port of the list and the auto count grows by one, a refused one changes nothing; the whole new state and the error code as specified; keeps the invariant. |
| `BridgeDevice.NetBridge.DelNbp` | implementation/Stella_con/br_if.c:334-383 | The whole new state of a deletion; keeps the invariant. |
| `BridgeDevice.NetBridge.ChangeFlags` | implementation/Stella_con/br_if.c:761-766 | The whole new state of a change of flags; keeps the invariant. |
| `QuotaControl.MachineIsPlain` | implementation/Stella_con/vif.c:20-77 | For every goal below 2 to the 29 and every error whose rounded-up product fits 32 unsigned bits (31 at goal 1), the C conversions and wraps change nothing: the tick is the clamp of the quota plus or minus the rounded-up, capped correction. |
| `QuotaControl.OutcomeIff` | implementation/Stella_con/vif.c:37-48 | The quota is left alone exactly on target, without traffic or without a goal; the division by zero happens exactly at a goal that is a multiple of 2 to the 29 and a throughput between its half and its wrapped double. |
| `QuotaControl.DirectionLostIff` | implementation/Stella_con/vif.c:41-69 | For all goals and throughputs below 2 to the 31, whatever wraps, a tick leaves a legal quota, and moves it away from the goal if and only if the goal is 1, the throughput exceeds 2, the wrapped product is negative, subtracting it does not overflow, and the quota is below its maximum. |
| `QuotaControl.DirectionLostAtLargeGoalIff` | implementation/Stella_con/vif.c:41-69 | At goals of 2 to the 31 and more a tick leaves a legal quota too, and moves it away from the goal if and only if the error is at least 2 to the 31, its wrapped product is neither zero nor above 2 to the 32 less the goal, and the quota is above its minimum. |
| `QuotaControl.LargeGoalMayLower` | implementation/Stella_con/vif.c:41-62 | Such a goal and error: the quota is lowered although the throughput is below the goal. |
| `QuotaControl.PerfBoundIsTight` | implementation/Stella_con/vif.c:51-62 | At goal 1 a throughput of 429498, one above the range, turns a needed decrease into the greatest quota. |
| `QuotaControl.SpeedMayBeLost` | implementation/Stella_con/vif.c:57-62 | At goal 400000 a throughput of 1258994 moves the quota by 1, where 10000 is due. |
| `QuotaControl.FirstTick` | implementation/Stella_con/vif.c:43-67 | From an unlimited quota, read as -1, the first tick below the goal sets between 1000 and 9999, above the goal 1000. |
| `QuotaControl.StrideInProportion` | implementation/Stella_con/vif.c:45-60 | Short of the cap of 10000 the stride is the gain times the error divided by the goal, rounded up, and at the cap that quotient exceeds 9999; the gain is 5000 at the extremes and otherwise the integer part of 500000000 by eight times the goal. |
| `QuotaControl.StrideBounds` | implementation/Stella_con/vif.c:45-60 | An error moves the quota by at most 10000, and at all exactly if the goal is at most 62500000 or the throughput is extreme; by at least 2501 below half the goal and 5001 above twice the goal. |
| `QuotaControl.TickMovesTowardsGoal` | implementation/Stella_con/vif.c:41-69 | While nothing wraps a tick lands in the legal range whatever the quota was, and from there moves it towards the goal, by at most 10000; it stands still exactly at the limit or without a gain. |
| `QuotaControl.TicksClosedForm` | implementation/Stella_con/vif.c:98-131 | With goal and throughput constant the quota after n ticks is the clamp of the start plus n equal strides. |
| `QuotaControl.ReachesTheLimit` | implementation/Stella_con/vif.c:98-131 | Below half the goal the quota is 100000 after 40 ticks, above twice the goal 1000 after 20. |
| `QuotaControl.TickBoundsAreTight` | implementation/Stella_con/vif.c:98-131 | 39 and 19 ticks are not enough in general. |
| `VifAllocator.LedgerIsExact` | implementation/Stella_con/vif.c:280-342 | In every run of additions, removals and weight writes total_weight is the sum of the live weights modulo 2 to the 32 and num_vif their number. |
| `VifAllocator.NewVifEffect` | implementation/Stella_con/vif.c:280-308 | In every run a new vif has weight 1 and comes first; the others keep their weights. |
| `VifAllocator.DelVifEffect` | implementation/Stella_con/vif.c:324-342 | In every run a removal takes away exactly the i-th weight. |
| `VifAllocator.WriteWeightEffect` | implementation/Stella_con/vif.c:180-185 | In every run a write sets the i-th weight to the value written, modulo 2 to the 32, and no other. |
| `VifAllocator.SharesCoverThePeriod` | implementation/Stella_con/vif.c:78-96 | Without wrap the rounded-up quotas of all vifs sum to at least the period times the CPUs and to less than that plus one a vif. |
| `VifAllocator.LedgerSharesCover` | implementation/Stella_con/vif.c:78-96 | In every run of additions, removals and weight writes, the shares computed with the counter as kept cover the period and exceed it by less than one a vif. |
| `VifAllocator.Vif.PayCredit` | implementation/Stella_con/vif.c:274-278 | Packet and byte counters grow modulo 2 to the 32. |
| `VifAllocator.Vif.IoControl` | implementation/Stella_con/vif.c:20-77 | Records the throughput and sets the quota that the conversion-by-conversion specification gives. |
| `VifAllocator.CreditAllocator.NewVif` | implementation/Stella_con/vif.c:280-322 | A fresh vif of weight 1 joins the head of the list; the ledger follows. |
| `VifAllocator.CreditAllocator.DelVif` | implementation/Stella_con/vif.c:324-356 | The vif leaves the list; the ledger follows. |
| `VifAllocator.CreditAllocator.WriteWeight` | implementation/Stella_con/vif.c:180-185 | The vif's weight becomes the value written, modulo 2 to the 32, and no other vif's changes; the ledger follows by the difference. |
| `VifAllocator.CreditAllocator.QuotaControl` | implementation/Stella_con/vif.c:98-131 | One pass adjusts every vif with a task by its own figures and clears the counters of all. |
| `Expectations.BoundedIff` | implementation/NeCon_k8s/pkg/controller/controller_utils.go:218-258 | Each call keeps the deletions waited for within the number of stored UIDs, for every key, if and only if the amount it sets, raises or lowers to stays within that number. |
| `Expectations.EveryRunIsBounded` | implementation/NeCon_k8s/pkg/controller/controller_utils.go:340-383 | So does every run whose calls satisfy that. |
| `Expectations.SeenAllIsEnough` | implementation/NeCon_k8s/pkg/controller/controller_utils.go:340-383 | In every run without raises and direct settings, once no UID is left no deletion is waited for, and with no creation outstanding the controller is satisfied. |
| `Expectations.RaisingMayOvercount` | implementation/NeCon_k8s/pkg/controller/controller_utils.go:242-249 | A raise outside the UID table leaves a controller waiting after it has seen every deletion. |
| `Expectations.CountsDistinctUids` | implementation/NeCon_k8s/pkg/controller/controller_utils.go:340-370 | From any state, after ExpectDeletions and any repeated, unknown or interleaved observations, the deletions waited for are the expected UIDs less the distinct ones seen, and equal the UIDs left. |
| `Expectations.WokenIffAllSeen` | implementation/NeCon_k8s/pkg/controller/controller_utils.go:183-208 | After ExpectDeletions and any observations the controller is satisfied if and only if every expected UID has been observed or the expectations have expired. |
| `Expectations.LoweringUndoesRaising` | implementation/NeCon_k8s/pkg/controller/controller_utils.go:233-249 | Lowering by what was just raised restores the tables, also for a key without an entry. |
| `Expectations.ControlleeExpectations.Add` | implementation/NeCon_k8s/pkg/controller/controller_utils.go:276-279 | Adds to both counters. |
| `Expectations.ControllerExpectations.SetExpectations` | implementation/NeCon_k8s/pkg/controller/controller_utils.go:218-222 | A fresh entry replaces what was expected. |
| `Expectations.ControllerExpectations.RaiseExpectations` | implementation/NeCon_k8s/pkg/controller/controller_utils.go:242-249 | Adds to the key's counters if it has an entry. |
| `Expectations.ControllerExpectations.LowerExpectations` | implementation/NeCon_k8s/pkg/controller/controller_utils.go:233-239 | Subtracts from the key's counters if it has an entry. |
| `Expectations.ControllerExpectations.DeleteExpectations` | implementation/NeCon_k8s/pkg/controller/controller_utils.go:172-178 | Removes the key's entry. |
| `Expectations.ControllerExpectations.SatisfiedExpectations` | implementation/NeCon_k8s/pkg/controller/controller_utils.go:183-208 | True without an entry, with both counters down, or when expired. |
| `Expectations.UIDTrackingControllerExpectations.ExpectDeletions` | implementation/NeCon_k8s/pkg/controller/controller_utils.go:340-356 | Stores the set of UIDs and expects as many deletions. |
| `Expectations.UIDTrackingControllerExpectations.DeletionObserved` | implementation/NeCon_k8s/pkg/controller/controller_utils.go:359-369 | Counts and removes a UID exactly if it is expected. |
| `Expectations.UIDTrackingControllerExpectations.DeleteExpectations` | implementation/NeCon_k8s/pkg/controller/controller_utils.go:373-383 | Removes counters and UIDs. |
| `ExpectationsInterleaved.EveryRunKeepsInv` | implementation/NeCon_k8s/pkg/controller/controller_utils.go:218-383 | In every interleaving of the atomic steps of concurrent calls that only lower: objects of distinct keys are distinct, the lock holder's view of the UIDs holds, and the deletions waited for obey the bound for the holder's position. |
| `ExpectationsInterleaved.NoInterleavingOvercounts` | implementation/NeCon_k8s/pkg/controller/controller_utils.go:340-383 | In every such interleaving, when nobody holds the UID lock, no more deletions are waited for than UIDs are stored, although creations, lowerings and replacements of the counters go on without the lock. |
| `ExpectationsInterleaved.FulfilledAtSecondLoad` | implementation/NeCon_k8s/pkg/controller/controller_utils.go:282-285 | In every such interleaving Fulfilled's second load gives true if and only if both counters are down at that moment. |
| `ExpectationsInterleaved.FulfilledForever` | implementation/NeCon_k8s/pkg/controller/controller_utils.go:282-285 | Counters that are down stay down, whatever follows. |
| `ExpectationsInterleaved.RaisingFoolsFulfilled` | implementation/NeCon_k8s/pkg/controller/controller_utils.go:242-285 | With a raise between the two loads Fulfilled returns true although both counters were never down together. |
| `ExpectationsInterleaved.AloneIsAtomic` | implementation/NeCon_k8s/pkg/controller/controller_utils.go:218-383 | A call that nobody interrupts has, step by step, the effect that the sequential calls state. |
| `PodOrder.PodReadyTime` | implementation/NeCon_k8s/pkg/controller/controller_utils.go:885-895 | The loop returns the time of the first true Ready condition of a ready pod, else the zero time. |
| `PodOrder.ReadyTimeIsTransition` | implementation/NeCon_k8s/pkg/controller/controller_utils.go:885-895 | A ready pod's ready time is the transition time of one of its true Ready conditions. |
| `PodOrder.MaxContainerRestarts` | implementation/NeCon_k8s/pkg/controller/controller_utils.go:897-903 | The loop computes the maximum. |
| `PodOrder.MaxOfIsGreatest` | implementation/NeCon_k8s/pkg/controller/controller_utils.go:897-903 | That maximum bounds all counts and is one of them, or zero if none is positive. |
| `PodOrder.ActiveIsLexicographic` | implementation/NeCon_k8s/pkg/controller/controller_utils.go:748-783 | ActivePods.Less is the lexicographic order on assignment, phase, readiness, ready time, restarts and age; which way each of these decides is said by the rows below. |
| `PodOrder.RankedIsLexicographic` | implementation/NeCon_k8s/pkg/controller/controller_utils.go:832-874 | ActivePodsWithRanks.Less is the same with the rank, greater first, after readiness. |
| `PodOrder.ReadyIffSince` | implementation/NeCon_k8s/pkg/controller/controller_utils.go:885-895 | A pod is ready since t exactly if its first Ready condition is true and dates from t, whatever later conditions say; a pod that is not ready has the zero time. |
| `PodOrder.OrdinalIsPhaseOrder` | implementation/NeCon_k8s/pkg/controller/controller_utils.go:100-100 | Pending and unlisted phases come before Unknown, and Unknown before Running. |
| `PodOrder.AssignmentDecides` | implementation/NeCon_k8s/pkg/controller/controller_utils.go:748-753 | An unassigned pod is deleted before an assigned one, and the assigned one's logs are preferred, whatever else the two are. |
| `PodOrder.PhaseDecides` | implementation/NeCon_k8s/pkg/controller/controller_utils.go:754-757 | Then the pod in the earlier phase is deleted first, and the other's logs are preferred. |
| `PodOrder.ReadinessDecides` | implementation/NeCon_k8s/pkg/controller/controller_utils.go:758-762 | Then the pod that is not ready is deleted first, and the ready one's logs are preferred. |
| `PodOrder.RankDecides` | implementation/NeCon_k8s/pkg/controller/controller_utils.go:847-853 | Then, with ranks, the pod of greater rank is deleted first. |
| `PodOrder.ReadyTimeDecides` | implementation/NeCon_k8s/pkg/controller/controller_utils.go:765-773 | Then, of two ready pods, the one ready for less time is deleted first, an unset time counting as newest, and the logs of the one ready longer are preferred. |
| `PodOrder.RestartsDecide` | implementation/NeCon_k8s/pkg/controller/controller_utils.go:774-777 | Then the pod with the most restarted container comes first, in all three orders. |
| `PodOrder.AgeDecidesLast` | implementation/NeCon_k8s/pkg/controller/controller_utils.go:778-783 | Last, the newer pod is deleted first, an unset creation time counting as newest, and the older one's logs are preferred. |
| `PodOrder.ActivePodsIsOrder` | implementation/NeCon_k8s/pkg/controller/controller_utils.go:748-783 | ActivePods.Less is a strict weak order on all pods. |
| `PodOrder.ActivePodsWithRanksIsOrder` | implementation/NeCon_k8s/pkg/controller/controller_utils.go:832-874 | ActivePodsWithRanks.Less is a strict weak order on all pods with ranks. |
| `PodOrder.ByLoggingIsOrderIff` | implementation/NeCon_k8s/pkg/controller/controller_utils.go:708-740 | ByLogging.Less is a strict weak order among the pods of given phases if and only if no two of these phases share an ordinal. |
| `PodOrder.SharedOrdinalBreaksTies` | implementation/NeCon_k8s/pkg/controller/controller_utils.go:714-716 | Three pods of two such phases that break the transitivity of ties. |
| `PodOrder.LivePhasesAreToldApart` | implementation/NeCon_k8s/pkg/controller/controller_utils.go:100-100 | Pending, Unknown and Running have ordinals of their own; with Succeeded and Failed they do not. |
| `PodOrder.SortingKeepsPairs` | implementation/NeCon_k8s/pkg/controller/controller_utils.go:825-828 | Whatever swaps a sort makes, every pod keeps its rank, and if no neighbours are out of order no two pods are. |
| `PodOrder.ActivePodsWithRanks.Less` | implementation/NeCon_k8s/pkg/controller/controller_utils.go:832-874 | The branches compute the order on the pods and ranks at the two positions. |
| `PodOrder.ActivePodsWithRanks.Swap` | implementation/NeCon_k8s/pkg/controller/controller_utils.go:825-828 | Exchanges the two pods and the two ranks together. |

## Left out

- Kubelet: syncPodFn, the pod cache, completion callbacks, the work queue and its jitter; a sync is a step that ends at some time with any result.
- Go's memory model: a channel and its one goroutine are a record, and lock sections are atomic.
- EndpointChanges.EndpointsTable.Apply: over a whole sync the stale lists are characterised by their members, not by how often each occurs.
- Endpoints and slices: metrics, events, logging, the last-change-trigger annotation's parsing, the address-type filter and the local-IP and health-check summaries; IP parsing and family tests are functions the proofs hold for all of.
- Services: the fields of a service port beyond cluster IP, port, protocol and node port, health-check node ports, and the proxier's own wrappers of endpoints and service ports.
- reflect.DeepEqual on nil and empty maps is kept apart for whole contributions (a nil and an empty map differ), and not inside topology maps and lists.
- EndpointSlices.NewEndpointSliceInfo: comparing ports dereferences their numbers, so slices with several ports and a missing number, on which the code panics, are excluded; several ports with one number may come in any order.
- EndpointSliceRuns.SliceSyncReports: holds where the slices agree; where they do not, the lists recomputed for a checkout may differ from the table's, and the report is exact for the recomputed ones only.
- The internals of Go's sort package: an insertion sort stands for it where a sorted result is needed.
- DRF and DepCon: rounding of Python floats, random generation, prompts and timing. A cluster without capacity, where charging divides by zero, is excluded, and requests are not negative; so is the average printed after the loops, which divides by zero without containers.
- DrfCrash.LoopCrashesIff: for nodes and requests of other shapes first fit has no closed form; `DrfSimulation.CrashesIff` then says that the loop crashes exactly if the division leaves a rest and the parts found room.
- DepCon.EveryPlacement: holds for equal nodes and for requests within bounds that a node's bandwidth covers for all its CPU, which the simulation's figures satisfy.
- Bridge: ports are records in a map whose key stands for the pointer to the struct, so aliasing of structs is not modelled; devices accept promiscuity changes; set_all (vlan filtering, the bridge's own promiscuity) does not change; frame handling, sysfs, netlink, RCU, MTU and features are not part of this model.
- Bridge.AddSucceedsIff: what comes after the port number (allocation, multicast, sysfs, netpoll, upper links, switchdev, address and vlan set-up) succeeds; the unwinding after an error there is not modelled.
- The mask of auto ports, learning or flooding, comes from a kernel header that is not part of this model.
- QuotaControl.DirectionLostIff: throughputs of 2 to the 31 and more, which a 32-bit counter divided by 1000 does not reach, are not covered.
- ServiceChanges.StaleIPsAreUnassignedIff: that a cluster IP has one owner, and does not pass to another service between two syncs, is assumed; allocating IPs is not part of this model.
- VifAllocator.Vif.IoControl: a goal whose eightfold wraps to zero divides by zero in the source; the method excludes it.
- VifAllocator.SharesCoverThePeriod: cpu_control's call is commented out in the source; the rule is proved for vifs on which nothing wraps.
- Stella: proc files, the array of proc entries, the timer, packets, tasks and the group scheduler; a container's CFS quota is a variable, and setting it succeeds.
- Expectations: clocks and expiry (a parameter), store errors, and the wrap of 64-bit counters.
- ExpectationsInterleaved.NoInterleavingOvercounts: runs without raises and direct settings; `RaisingMayOvercount` and `BoundedIff` say what these can do.
- The rest of controller_utils.go: pod control, taints, labels, filters and the orders on replica sets.

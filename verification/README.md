# Verified model of the Kubernetes MCP server's state machines

This project models the parts of the server that decide something by themselves rather than pass
calls on, and proves what they promise. Each Dafny module names the file it models.

- **Configuration** (`ConfigTree`, `ConfigMerge`): decoded files are merged in place, map by map.
  The heap model names the map objects a tree occupies, so that aliasing between the accumulator
  and earlier files is visible; the merge is proved to compute a pure function, whose algebra is
  then worked out.
- **Rate limiting** (`TokenBucket`, `RateLimiter`, `RateLimiterRace`, `RaceReaping`, `SlowRequests`,
  `RateLimitingMiddleware`): a table of token buckets per session, filled on demand, cleared when
  the settings change and reaped when idle. One machine takes lookup and allow decision as one
  step, the other lets anything happen in between and is the first when nothing does; the
  middleware's objects are proved to take the steps of the first.
- **Watchers** (`WatcherProtocol`, `ClusterWatcher`, `Debounce`): the goroutines, timers, channels
  and the two halves of Close of the three watchers as one transition system, the fields of the
  cluster watcher, and the times at which callbacks run.
- **Access control** (`Strings`, `AccessPath`, `AccessControl`): three decoders of Kubernetes API
  paths and the gate built on them.
- **Mesh health** (`HealthRequests`, `HealthEntities`, `HealthSummary`): folds over maps in any
  order, thresholds, and the totals of a mesh against those of its namespaces. Floating-point
  numbers are reals.
- **Small parsers and graphs** (`FieldPath`, `Prompts`, `Workspaces`): access paths, prompt
  templates and lists, workspace discovery and URLs.
- **Registries and caches** (`ToolRegistry`, `OidcMetadata`, `OidcProtocol`, `OidcCache`): which
  tools and prompts are registered across reloads, and the cached OpenID configuration under
  concurrent callers.

Where the code does not have a property one might expect, the project holds an input that shows it
and, where the property can be rescued, the exact condition under which it holds:

- reaping is unobservable, and the bound on a window holds, exactly when the ten minutes of the
  reaper, less the time a request may take between its lookup and its token, refill a burst;
- Close can leave a timer armed whenever it can come back at all, and a kubeconfig watcher whose
  goroutine was never started makes it wait for ever; a Watch is lost exactly when a Close waits then
  or that goroutine was given up; two callbacks can run at once exactly when one
  takes longer than the polls that cover a window;
- denying a kind misses the subresources of a namespace, whose paths are read as another resource;
- the comment of `evaluateAppHealth` says the worst status wins, while a workload scaled to zero
  overwrites what the loop has found before it; the order of the workloads shows exactly when there
  is also one short of replicas;
- merging is associative, a path round trip succeeds, a URL is taken apart again, and field
  lookups compose under the conditions stated in `MergeAssociative`, `RoundTrip`,
  `RoundTripExactly`, `URLRoundTripExactly` and `FieldComposesExactly`;
- a byte outside ASCII in a field name is read as a character of its own, so such a field is
  not found by its name (`NonAsciiFieldMissed`); `FieldFollowsPrint` says which paths are looked up
  as printed;
- arguments of a prompt are replaced one after the other, so a value that brings the placeholder of
  a later one along has it replaced too; `SubstituteTwoFillsExactly` says when two do not;
- the cache's five minutes count from the storing of a document: with any delay between its being
  received and stored, a call can be given an older one from the cache, and one as old as the delay
  when it joins the flight.

`dafny verify dfyconfig.toml` checks everything.

## Model

| member | source | states |
|---|---|---|
| ConfigMerge.DeepMerge | pkg/config/config.go:317-331 | For two trees of map objects that share none, the in-place merge leaves `dst` holding exactly the pure merge of the two, writes only objects `dst` owned, keeps `src` readable and unchanged, ends with a tree without internal sharing, and terminates on the depth of `src`. |
| ConfigMerge.MergeKey | pkg/config/config.go:318-330 | One key: merged below when both sides are tables, else overwritten; nothing beside the key changes. |
| ConfigMerge.MergeTables | pkg/config/config.go:321-325 | The recursive case: only objects below the key change, and the parent still holds the merged subtree. |
| ConfigMerge.PutEntry | pkg/config/config.go:329-329 | The overwriting case: the value of `src` is linked in, not copied, and everything beside it stays. |
| ConfigMerge.MergeFile | pkg/config/config.go:305-305 | Merging one file keeps the accumulator apart from all files still to come, although it now aliases this one. |
| ConfigMerge.MergeFiles | pkg/config/config.go:290-313 | The fold over freshly decoded files equals the pure fold of their trees; a file that cannot be read or decoded ends it with the first such error. |
| ConfigTree.LeafOfMerge | pkg/config/config.go:317-331 | A value is in the merged tree exactly when `src` has it, or `dst` has it and `src` neither defines that path nor cuts it off with a plain value. |
| ConfigTree.TableOfMerge | pkg/config/config.go:317-331 | The same for tables: which paths of the merged tree are tables. |
| ConfigTree.LastFileWins | pkg/config/config.go:288-306 | Over any list of files, the value at a path is that of the last file that touches the path. |
| ConfigTree.MergeIdentity | pkg/config/config.go:317-331 | The empty table is an identity on both sides. |
| ConfigTree.MergeIdempotent | pkg/config/config.go:317-331 | Merging a tree with a copy of itself changes nothing. |
| ConfigTree.CoversIsAbsorption | pkg/config/config.go:317-331 | Merging `d` under `s` leaves `s` as it is exactly when `s` names all that `d` names, table for table. |
| ConfigTree.MergeAssociative | pkg/config/config.go:317-331 | Merging three trees from the left or from the right agrees exactly when no plain value of the middle one hides a table of the first that the last makes a table again without covering it. |
| ConfigTree.SameKindsRegroup | pkg/config/config.go:317-331 | In particular merge is associative when no path is a table in one of two neighbouring files and a plain value in the other. |
| RateLimiter.StepKeepsInv | pkg/mcp/middleware.go:246-310 | Requests and reaps keep the invariant that every limiter in the table was made with the limit and burst in force. |
| RateLimiter.RunKeepsInv | pkg/mcp/middleware.go:246-310 | The invariant holds in every reachable state, with and without the reaper. |
| RateLimiter.ServeCredit | pkg/mcp/middleware.go:285-307 | A request spends one token of its own session exactly when a whole one is there, touches no other session, and a changed limit or burst refills everyone. |
| RateLimiter.AnswerExactly | pkg/mcp/middleware.go:271-307 | A request goes through if and only if its limit is not positive, it has no session, or it holds a whole token; in the first two cases nothing changes, and otherwise its entry carries its time. |
| RateLimiter.NothingLimited | pkg/mcp/middleware.go:274-283 | In a run whose requests have no positive limit or no session every request goes through. |
| RateLimiter.ReapCredit | pkg/mcp/middleware.go:254-262 | Deleting stale entries takes and gives no session anything when ten minutes refill a burst. |
| RateLimiter.SameAnswers | pkg/mcp/middleware.go:246-310 | Two tables of equal credit, one reaped and one never, answer every further request alike. |
| RateLimiter.ReapingInvisible | pkg/mcp/middleware.go:246-310 | Over every run, whatever configurations it goes through, each request gets the same answer with and without the reaper when every positive limit refills its burst in ten minutes. |
| RateLimiter.ReapingInvisibleExactly | pkg/mcp/middleware.go:246-310 | For one limit and burst, reaping is unobservable on all runs if and only if limit x 600 s >= burst. |
| RateLimiter.ReapingVisible | pkg/mcp/middleware.go:254-262 | When it is not, the run in which the reaper is seen, with one reap on a tick of the five-minute ticker. |
| RateLimiterRace.StepKeepsInv | pkg/mcp/middleware.go:246-307 | With lookup and `Allow` apart: table entries share no limiter, were made with the settings in force, and requests in flight belong to the session whose limiter they hold. |
| RateLimiterRace.RunKeepsInv | pkg/mcp/middleware.go:246-307 | That holds in every interleaving of requests, their delayed `Allow` and the reaper. |
| RateLimiterRace.BackToBack | pkg/mcp/middleware.go:285-307 | With its two halves back to back, a request is answered and leaves the table as in the machine that takes both as one step. |
| RateLimiterRace.ReapAlike | pkg/mcp/middleware.go:254-262 | So does a reap. |
| RateLimiterRace.PassedBound | pkg/mcp/middleware.go:285-307 | From any state of the invariant, the requests let through never exceed what the session held plus what flows in. |
| RateLimiterRace.WindowBound | pkg/mcp/middleware.go:285-307 | After any run, in any window with unchanged positive settings, at most burst + limit x length requests of a session that arrive in the window are let through, when a request asks at most `delay` after its lookup and limit x (600 s - delay) >= burst. |
| SlowRequests.WindowBoundExactly | pkg/mcp/middleware.go:285-307 | For every limit, burst and delay: that bound holds on all runs whose requests ask at most `delay` after their lookup if and only if limit x (600 s - delay) >= burst. |
| SlowRequests.SlowRequestBreaksBound | pkg/mcp/middleware.go:246-307 | When it does not hold, a run that breaks the bound, with one reap, on a tick of the five-minute ticker. |
| RaceReaping.StepStaysAlike | pkg/mcp/middleware.go:246-307 | A step of the reaped machine and of the one without a reaper keeps the limiters in use paired, one to one and of equal level, and forgotten sessions full. |
| RaceReaping.ReapingInvisible | pkg/mcp/middleware.go:246-307 | With lookup and `Allow` apart, every request of every run is answered alike with and without the reaper, through all changes of settings, when limit x (600 s - delay) >= burst for each of them. |
| SlowRequests.ReapingInvisibleExactly | pkg/mcp/middleware.go:246-307 | For one limit and burst that is so on all such runs if and only if limit x (600 s - delay) >= burst. |
| RateLimitingMiddleware.Limiter.Allow | pkg/mcp/middleware.go:304-304 | The bucket object takes the step of the token bucket and gives its answer. |
| RateLimitingMiddleware.Middleware.Adopt | pkg/mcp/middleware.go:286-291 | A changed limit or burst empties the table and is recorded; otherwise nothing changes. |
| RateLimitingMiddleware.Middleware.Touch | pkg/mcp/middleware.go:292-301 | Finds or makes the entry, with its own limiter at the settings in force, and stamps it. |
| RateLimitingMiddleware.Middleware.FindEntry | pkg/mcp/middleware.go:285-302 | The locked half of a request, as a function of the table before. |
| RateLimitingMiddleware.Middleware.Ask | pkg/mcp/middleware.go:304-306 | The unlocked half changes the bucket of this session only. |
| RateLimitingMiddleware.Middleware.Handle | pkg/mcp/middleware.go:268-308 | A whole request: its answer and the new table are those of the model the theorems above are about, and without a positive limit or a session it is passed on and nothing changes; sessions share no objects. |
| RateLimitingMiddleware.Middleware.Sweep | pkg/mcp/middleware.go:256-261 | The reaper's loop deletes exactly the entries not seen for more than ten minutes. |
| RateLimitingMiddleware.Middleware.Reap | pkg/mcp/middleware.go:254-262 | One tick of the reaper, on the table of objects. |
| WatcherProtocol.StepKeepsInv | pkg/kubernetes/watcher/cluster.go:73-170 | Every step of every goroutine, timer and Close keeps the protocol invariant. |
| WatcherProtocol.RunKeepsInv | pkg/kubernetes/watcher/cluster.go:73-170 | It holds in every interleaving, over any number of generations of Watch and Close. |
| WatcherProtocol.Safety | pkg/kubernetes/watcher/cluster.go:73-170 | In every interleaving: at most one live poll goroutine, at most one armed timer, at most one Close waiting, and no channel closed twice. |
| WatcherProtocol.ArmedByPollExactly | pkg/kubernetes/watcher/cluster.go:116-132 | After a Close has stopped the timer, a timer is armed if and only if the last poll since then that saw a difference made it and is followed neither by its firing nor by another Close. |
| WatcherProtocol.CallbackOnce | pkg/kubernetes/watcher/cluster.go:116-131 | In every run each timer fires at most once, and its callback returns at most once and after that. |
| WatcherProtocol.KnownExactly | pkg/kubernetes/watcher/cluster.go:78-130 | After every run the watcher knows what the last successful reload, or the Watch that started it if that is later, captured, and its initial state if there was neither. |
| WatcherProtocol.PollArmsExactly | pkg/kubernetes/watcher/cluster.go:100-122 | In every reachable state a poll arms a new timer if and only if it sees something other than that. |
| WatcherProtocol.ReloadRetriedExactly | pkg/kubernetes/watcher/cluster.go:121-130 | With nothing recorded since a reload ended, a poll arms a timer if and only if it sees something other than what the reload captured, if it succeeded, or than what was known before it, if it failed. |
| WatcherProtocol.CloseLeavesTimerExactly | pkg/kubernetes/watcher/cluster.go:140-170 | In every reachable state in which Close would have to wait, some run to the end of that Close leaves a timer armed if and only if Watch did not give up starting the goroutine. |
| WatcherProtocol.CloseGetsThrough | pkg/kcp/workspace_watcher.go:139-167 | From every state in which a Close waits and the goroutine was not given up, at most six steps of the goroutine and of Close complete it. |
| WatcherProtocol.AbandonedForever | pkg/kubernetes/watcher/kubeconfig.go:62-69 | A goroutine given up before it starts leaves a waiting Close waiting for ever. |
| WatcherProtocol.CloseCanFinishExactly | pkg/kubernetes/watcher/kubeconfig.go:53-141 | In every reachable state a waiting Close can complete if and only if Watch did not give up starting the goroutine. |
| WatcherProtocol.WatchWorksExactly | pkg/kubernetes/watcher/cluster.go:73-81 | In every reachable state: after a Watch, once the Closes already begun are over and no other call has come, a goroutine is at work or about to be if and only if no Close was waiting at the Watch, and neither the goroutine then started nor a new one was given up. |
| WatcherProtocol.WatchLost | pkg/kubernetes/watcher/cluster.go:140-162 | A run in which a Close returns at once beside one that waits, the Watch after it does nothing, and the watcher ends without a goroutine. |
| WatcherProtocol.TwoReloadsAtOnce | pkg/kubernetes/watcher/cluster.go:121-131 | A second callback can start while a slow one runs; `Debounce.NoOverlapExactly` says when. |
| WatcherProtocol.ArmedAfterClose | pkg/kubernetes/watcher/cluster.go:140-170 | One such run: a tick that waits for the mutex leaves a timer armed after Close has returned. |
| ClusterWatcher.Changed | pkg/kubernetes/watcher/cluster.go:104-114 | The comparison finds a change exactly when the two captured states differ. |
| ClusterWatcher.ClusterState.Watch | pkg/kubernetes/watcher/cluster.go:73-81 | The locked part of Watch takes the protocol's step, keeps its invariant and records its capture exactly when not started. |
| ClusterWatcher.ClusterState.Poll | pkg/kubernetes/watcher/cluster.go:100-133 | A tick under the mutex takes the protocol's step and arms a new timer exactly when it sees a difference. |
| ClusterWatcher.ClusterState.ReloadReturned | pkg/kubernetes/watcher/cluster.go:123-130 | The end of a reload records the new state if it succeeded and leaves the old one if it failed. |
| ClusterWatcher.ClusterState.CloseFirstHalf | pkg/kubernetes/watcher/cluster.go:140-162 | Close up to where it lets go of the mutex leaves no timer armed; it waits exactly when started and not already stopping. |
| ClusterWatcher.ClusterState.CloseSecondHalf | pkg/kubernetes/watcher/cluster.go:164-168 | Close after its wait makes fresh channels and clears `started`. |
| Debounce.ReloadTimes | pkg/kubernetes/watcher/cluster.go:96-132 | The callback runs at a moment if and only if that moment ends the window of a tick that saw a difference and no tick within the window saw one. |
| Debounce.RunsInOrder | pkg/kubernetes/watcher/cluster.go:116-132 | Callbacks run in order and none twice; a pending one lies ahead. |
| Debounce.PromptReload | pkg/kubernetes/watcher/cluster.go:116-122 | With polls further apart than the window, a difference starts the callback exactly one window after the tick that saw it. |
| Debounce.AfterReload | pkg/kubernetes/watcher/cluster.go:123-128 | What the watcher knows at the tick after that callback, by its success, when polls are further apart than a window and a reload. |
| Debounce.FailedReloadRetried | pkg/kubernetes/watcher/cluster.go:123-128 | Then the next tick schedules the callback again if and only if it failed, while the cluster stays as it is. |
| Debounce.RunsApart | pkg/kubernetes/watcher/cluster.go:116-122 | Callbacks start at least m + 1 polls apart when m whole polls fit into a window. |
| Debounce.NoOverlapExactly | pkg/kubernetes/watcher/cluster.go:121-131 | No two callbacks ever run at once, whatever the cluster does and whichever of them fail, if and only if one takes no longer than these m + 1 polls. |
| Debounce.StarvedReload | pkg/kubernetes/watcher/cluster.go:116-121 | With a longer window than the poll interval, no callback runs while every tick sees a difference, until one window after the last of them. |
| AccessPath.ParseURLToNamespaceAndName | pkg/kubernetes/accesscontrol_round_tripper.go:226-242 | The loop finds the segment after the first `namespaces` that has one, and the segment after the resource. |
| AccessPath.ParsersAgree | pkg/kubernetes/accesscontrol_round_tripper.go:174-300 | For every string: a resource is parsed if and only if its index is found and is the segment there; otherwise there is no name and no collection, and a collection has no name. |
| AccessPath.StripUndoesPrefix | pkg/kubernetes/accesscontrol_round_tripper.go:209-224 | Removing the host's path undoes putting it before any rooted path. |
| AccessPath.StripUndoesHost | pkg/kubernetes/accesscontrol_round_tripper.go:209-224 | It does so whether the host's path is written with a slash at its end or not, and turns that path itself into the root. |
| AccessPath.StripElsewhere | pkg/kubernetes/accesscontrol_round_tripper.go:209-224 | A path that is not below the host's stays as it is. |
| AccessPath.ParsedExactly | pkg/kubernetes/accesscontrol_round_tripper.go:174-207 | Which paths name a resource, by their first segment and their length, and what group and version they name. |
| Strings.JoinSplit | pkg/kubernetes/accesscontrol_round_tripper.go:175-175 | Splitting takes every string apart into parts without the separator that join to it again. |
| AccessPath.BuiltParts | pkg/kubernetes/resources.go:137-148 | A built path splits into the segments it was built from. |
| AccessPath.RoundTrip | pkg/kubernetes/accesscontrol_round_tripper.go:174-300 | Parsing a built path gives back group, version, resource, namespace and name if and only if no segment is taken for the `namespaces` keyword. |
| AccessPath.VerbsInBuilt | pkg/kubernetes/accesscontrol_round_tripper.go:270-300 | For a built path GET is `list`, and DELETE `deletecollection`, exactly without a name, if and only if it is no subresource of a namespace. |
| AccessPath.VerbTableExactly | pkg/kubernetes/accesscontrol_round_tripper.go:270-290 | For a built path the verb of every HTTP method is the one of the Kubernetes table for the target if and only if it is no subresource of a namespace. |
| AccessPath.LowerCase | pkg/kubernetes/accesscontrol_round_tripper.go:288-288 | The verb of a method outside the table is the method with its capitals made small. |
| AccessPath.ResourceParsesExactly | pkg/kubernetes/accesscontrol_round_tripper.go:174-207 | The resource parsed from a built path is the one it was built to, or the subresource where that is one of a namespace. |
| AccessControl.RoundTripper.IsAllowed | pkg/kubernetes/accesscontrol_round_tripper.go:150-172 | False exactly when an entry of the denied list matches, one without a kind matching its whole group and version. |
| AccessControl.DeniedExactly | pkg/kubernetes/accesscontrol_round_tripper.go:150-172 | A kind is denied if and only if the list holds it or its group and version without a kind. |
| AccessControl.RoundTripper.Validate | pkg/kubernetes/accesscontrol_round_tripper.go:136-143 | The first validator that objects decides. |
| AccessControl.RoundTripper.RoundTrip | pkg/kubernetes/accesscontrol_round_tripper.go:78-146 | The outcome is the verdict on the request; the delegate is called once, with the body the request came with, when the verdict is to forward, and otherwise not at all. |
| AccessControl.NoObjection | pkg/kubernetes/accesscontrol_round_tripper.go:136-143 | There is no objection exactly when every validator accepts, and otherwise it is that of the first that does not. |
| AccessControl.ValidatorsSeeTarget | pkg/kubernetes/accesscontrol_round_tripper.go:113-133 | What validators are given for a built path is the target's resource, namespace, name, verb, path and, for POST, PUT and PATCH, body, for every method and body, if and only if no segment is taken for the `namespaces` keyword. |
| AccessControl.VerdictOnTarget | pkg/kubernetes/accesscontrol_round_tripper.go:78-146 | On a path built to such a target, below any host's path, each outcome of every gate from the target alone: no mapper, no such resource, mapper failure, denied kind, unread access review, unreadable body, first objection to that request, or forwarded. |
| AccessControl.OtherPathsForwarded | pkg/kubernetes/accesscontrol_round_tripper.go:81-84 | Paths outside `api` and `apis` and those of discovery are forwarded by every gate. |
| AccessControl.ForwardedExactly | pkg/kubernetes/accesscontrol_round_tripper.go:78-146 | A request reaches the API exactly when it names no resource, or its kind is known and not denied and, unless it is a self-subject access review, its body can be read and every validator accepts. |
| AccessControl.PrefixChangesNothing | pkg/kubernetes/accesscontrol_round_tripper.go:79-80 | The verdict is the same with and without the host's path prefix. |
| AccessControl.DeniedResourceStops | pkg/kubernetes/accesscontrol_round_tripper.go:104-106 | Denying a kind stops every built path to its resource, with any namespace, object or subresource, but for subresources of a namespace with another name. |
| AccessControl.DeniedResourceStopsExactly | pkg/kubernetes/accesscontrol_round_tripper.go:78-106 | Every gate that knows and denies the kind of a target answers so if and only if the target is no such subresource. |
| AccessControl.SubresourceUnseen | pkg/kubernetes/accesscontrol_round_tripper.go:78-106 | For each such subresource, a gate that denies the kind of namespaces and forwards. |
| AccessControl.NamespaceStatusMisread | pkg/kubernetes/accesscontrol_round_tripper.go:181-190 | The path of a namespace's status is read as a list of a resource `status`. |
| HealthRequests.CalculateErrorRate | pkg/kiali/health_calculation.go:381-409 | The rate is errors over requests, summed in any order of the maps. |
| HealthRequests.EvaluateRequestHealth | pkg/kiali/health_calculation.go:443-493 | The status is the worst over all error codes and the ratio the highest, for any order of the maps. |
| HealthRequests.JudgedOnce | pkg/kiali/health_calculation.go:443-493 | These two facts determine the result, so the order of iteration cannot show. |
| HealthRequests.WorstRatioDecides | pkg/kiali/health_calculation.go:497-536 | A worst ratio of 0.2 makes the status UNHEALTHY, UNHEALTHY needs 0.1, and a ratio of zero means HEALTHY. |
| HealthRequests.ClassesExactly | pkg/kiali/health_calculation.go:412-440 | Which codes are client and server errors, and the thresholds of each class; no other code counts. |
| HealthRequests.StatusExactly | pkg/kiali/health_calculation.go:443-536 | The status is UNHEALTHY if and only if some code has 20% of its protocol's requests, or 10% as a server error, and HEALTHY if and only if no server error has any and no client error 10%. |
| HealthRequests.SamplesExactly | pkg/kiali/health_calculation.go:451-492 | These shares are those of every error code in its protocol, of both directions. |
| HealthRequests.ErrorRateBounds | pkg/kiali/health_calculation.go:381-409 | For non-negative counts the error rate is in [0,1] and zero exactly when the worst ratio is zero. |
| HealthRequests.ErrorRateIs | pkg/kiali/health_calculation.go:381-409 | The rate times the requests of both directions is the errors among them. |
| HealthRequests.ErrorRateExactly | pkg/kiali/health_calculation.go:381-409 | The rate is one if and only if nothing but errors was counted. |
| HealthEntities.MergeHealthStatus | pkg/kiali/health_calculation.go:363-376 | The result is one of the two and no better than either. |
| HealthEntities.MergeExactly | pkg/kiali/health_calculation.go:363-376 | The order is unhealthy, degraded, not ready, healthy, unknown. |
| HealthEntities.WorkloadStatusExactly | pkg/kiali/health_calculation.go:320-345 | When a workload is not ready, unhealthy and healthy by its replicas and proxies. |
| HealthEntities.HasAnyRequests | pkg/kiali/health_calculation.go:296-314 | True exactly when some count is positive. |
| HealthEntities.TrafficExactly | pkg/kiali/health_calculation.go:296-314 | For counts that are not negative that is so if and only if the requests add up to something. |
| HealthEntities.EvaluateAppHealth | pkg/kiali/health_calculation.go:231-277 | The loop over workloads merged with the requests' status. |
| HealthEntities.EvaluateServiceHealth | pkg/kiali/health_calculation.go:280-293 | UNKNOWN without traffic, else the requests' status. |
| HealthEntities.EvaluateWorkloadHealth | pkg/kiali/health_calculation.go:317-359 | UNKNOWN without traffic and status, else the worse of the two. |
| HealthEntities.AppStatusIs | pkg/kiali/health_calculation.go:268-276 | An app with workloads has the status of the loop or that of its requests, and no better than either; without any it is UNKNOWN. |
| HealthEntities.ServiceStatusIs | pkg/kiali/health_calculation.go:280-293 | A service with traffic has the status of its requests; without any it is UNKNOWN. |
| HealthEntities.WorkloadStatusIs | pkg/kiali/health_calculation.go:317-359 | A workload is UNKNOWN if and only if it has neither traffic nor status; otherwise it has its own status, if any, or that of its requests, and no better than either. |
| HealthEntities.FailingIsUnhealthy | pkg/kiali/health_calculation.go:231-359 | With a worst ratio of 0.2 an entity of any kind is UNHEALTHY if and only if it has workloads, traffic, or traffic or a status, by its kind. |
| HealthEntities.FoldWithoutZero | pkg/kiali/health_calculation.go:240-266 | What the loop computes when no workload is scaled to zero. |
| HealthEntities.FoldAfterZero | pkg/kiali/health_calculation.go:240-266 | What the loop computes from the last workload scaled to zero on, whatever came before. |
| HealthEntities.WorstWinsExactly | pkg/kiali/health_calculation.go:240-266 | The loop computes the worst workload status if and only if after every workload scaled to zero there is again one as bad as the worst; so always when none is. |
| HealthEntities.OrderMatters | pkg/kiali/health_calculation.go:243-247 | Two workloads whose order decides the status of the app. |
| HealthEntities.OrderMattersExactly | pkg/kiali/health_calculation.go:240-266 | Every order of the workloads gives the same status if and only if there is not both one scaled to zero and one short of replicas. |
| HealthSummary.Settle | pkg/kiali/health_calculation.go:620-624 | One turn of the outer loop puts the highest of the rest in place by exchanges. |
| HealthSummary.SortUnhealthyByImpact | pkg/kiali/health_calculation.go:617-626 | The array ends in descending order of error rate and is a permutation of what it was. |
| HealthSummary.RankUnhealthy | pkg/kiali/health_calculation.go:221-225 | What is kept is the first ten at most of such a permutation, so nothing dropped ranks above anything kept. |
| HealthSummary.Tally | pkg/kiali/health_calculation.go:109-140 | Over the entities of one kind in a namespace, in any order: the counts per status by cardinality, the sum of error rates, the mesh's counts grown by the same, and one list entry for each unhealthy entity and no other. |
| HealthSummary.SummariseNamespace | pkg/kiali/health_calculation.go:105-213 | One namespace: counts, error rate, status and availability are those of its entities, and the mesh totals and list grow by exactly them. |
| HealthSummary.AggregateNamespaces | pkg/kiali/health_calculation.go:91-214 | Over all namespaces in any order: each has its summary, the totals are the sum of the namespaces', and the list has one entry for each unhealthy entity of the mesh. |
| HealthSummary.ComputeTotalErrorRate | pkg/kiali/health_calculation.go:608-614 | The sum over namespaces, in any order. |
| HealthSummary.ComputeHealthSummary | pkg/kiali/health_calculation.go:77-228 | The whole summary: namespaces, totals as sums, error rate, status, availability, and the cut list with its ranked original, as long as the unhealthy count. |
| HealthSummary.CensusAdds | pkg/kiali/health_calculation.go:114-135 | In one namespace and kind, the four statuses and the unknown add up to the total. |
| HealthSummary.SummaryConserves | pkg/kiali/health_calculation.go:77-228 | The same for each namespace and for the mesh. |
| HealthSummary.KindsThenNamespaces | pkg/kiali/health_calculation.go:110-113 | Adding up kinds over namespaces equals adding up namespaces over kinds. |
| HealthSummary.AvailabilityIs | pkg/kiali/health_calculation.go:556-566 | Availability is in [0,100]; 100 exactly when all are healthy, 0 exactly when none is healthy or degraded. |
| HealthSummary.AvailabilityIsWeightedMean | pkg/kiali/health_calculation.go:595-605 | The mesh's availability is in [0,100] and, times its total, the sum of the namespaces' availability times theirs. |
| HealthSummary.StatusThresholds | pkg/kiali/health_calculation.go:539-592 | Unhealthy means a strict majority, or for a namespace an error rate above 5%; worse numbers never give a better status. |
| HealthSummary.StatusesExactly | pkg/kiali/health_calculation.go:539-592 | When a namespace and the mesh are UNKNOWN, HEALTHY and UNHEALTHY; otherwise they are DEGRADED. |
| HealthSummary.KindCounts | pkg/kiali/health_calculation.go:121-211 | The counts of a namespace are the numbers of its apps, services and workloads with each status. |
| HealthSummary.NamespaceMeans | pkg/kiali/health_calculation.go:121-216 | From the entities of a namespace alone: when it is UNKNOWN and HEALTHY, and when its availability is 100 and 0. |
| HealthSummary.MeshMeans | pkg/kiali/health_calculation.go:118-222 | From all entities alone: when the mesh is UNKNOWN and HEALTHY, and when its availability is 100 and 0. |
| HealthSummary.NamespaceRateVanishes | pkg/kiali/health_calculation.go:146-211 | A namespace has no error rate if and only if none of its apps, services and workloads has an error. |
| HealthSummary.ListedExactly | pkg/kiali/health_calculation.go:134-143 | The list before it is cut holds the unhealthy entities under their own kind, with their error rates. |
| HealthSummary.UnhealthyMeshHasUnhealthyNamespace | pkg/kiali/health_calculation.go:569-592 | Whatever the error rates, a mesh is unhealthy only when one of its namespaces is. |
| HealthSummary.UnhealthySummary | pkg/kiali/health_calculation.go:210-217 | The same on a computed summary. |
| FieldPath.ParsePath | internal/test/unstructured.go:145-194 | The character loop computes the segments the lemmas below are about. |
| FieldPath.SignedReads | internal/test/unstructured.go:174-178 | What Sscanf with %d makes of a printed integer, out-of-range ones included. |
| FieldPath.FieldsAreClean | internal/test/unstructured.go:150-187 | For every path, a parsed field is non-empty and holds no separator. |
| FieldPath.ParseConcat | internal/test/unstructured.go:145-194 | A path that does not end in a bracket, continued by a field or an index, parses to its segments followed by those of the continuation. |
| FieldPath.StrayCharacters | internal/test/unstructured.go:145-194 | Dots in a row are one, a closing bracket without an opening one is nothing, and an opening one that is not closed is lost with what follows. |
| FieldPath.MalformedIndexFindsNothing | internal/test/unstructured.go:94-183 | Brackets around something that is no number make the lookup fail in every document, wherever they stand. |
| FieldPath.ParsePrintRest | internal/test/unstructured.go:145-194 | A printed list of clean segments parses to itself with each field's bytes re-encoded as characters. |
| FieldPath.RoundTripExactly | internal/test/unstructured.go:141-194 | Parsing undoes printing if and only if every field is non-empty, free of `.`, `[` and `]`, and ASCII. |
| FieldPath.Field | internal/test/unstructured.go:94-133 | The walk finds what step-by-step navigation along the parsed segments finds; nothing in nil or at the empty path. |
| FieldPath.FieldFollowsPrint | internal/test/unstructured.go:94-194 | Looking up a printed path is navigation along its segments in every document if and only if there are segments and each field is non-empty, free of separators and ASCII, or some index is negative, where both find nothing. |
| FieldPath.NonAsciiFieldMissed | internal/test/unstructured.go:145-194 | A field with a letter outside ASCII that is there and is not found by its name. |
| FieldPath.NavigateConcat | internal/test/unstructured.go:103-130 | Navigation along two lists of segments is navigation along the second from where the first led. |
| FieldPath.FieldComposesExactly | internal/test/unstructured.go:94-133 | Looking up a path and then its continuation equals looking up both together, nulls on the way included, if and only if it is not the case that a null was found and the continuation is dots alone. |
| Prompts.SubstituteArguments | pkg/prompts/prompts.go:55-67 | The loop of replacements, one argument after the other. |
| Prompts.ReplaceHole | pkg/prompts/prompts.go:58-60 | Replacing one placeholder never starts inside or across another. |
| Prompts.ReplacePlugs | pkg/prompts/prompts.go:60-63 | Replacing in a whole template fills exactly the holes of that name. |
| Prompts.SubstituteFills | pkg/prompts/prompts.go:55-67 | For templates of brace-free text and holes and brace-free names and values, replacing one after the other fills all holes at once, unsupplied optional ones with nothing. |
| Prompts.OrderDoesNotMatter | pkg/prompts/prompts.go:57-65 | So neither the order nor repetition of arguments matters. |
| Prompts.ValuesAreSubstitutedAgain | pkg/prompts/prompts.go:57-61 | A value that holds a placeholder: the order of two arguments changes the result. |
| Prompts.ReplaceIsIdentity | pkg/prompts/prompts.go:60-60 | Replacing leaves a text as it is exactly when the placeholder is not in it or is replaced by itself. |
| Prompts.ReplaceFillsExactly | pkg/prompts/prompts.go:60-63 | Replacing a placeholder in any template, with any value, fills the holes of that name and nothing else if and only if the placeholder stands nowhere else, or is replaced by itself. |
| Prompts.SubstituteTwoFillsExactly | pkg/prompts/prompts.go:57-65 | With two arguments and any values, holes of both included, replacing one after the other fills all holes at once if and only if, with the first filled in, the placeholder of the second stands in its own holes alone, or is replaced by itself. |
| Prompts.OrderOfTwoExactly | pkg/prompts/prompts.go:57-65 | Both orders of two arguments fill all holes at once, and so agree, if and only if neither value brings a placeholder of the other argument along. |
| Prompts.HandlePrompt | pkg/prompts/prompts.go:23-51 | An error names the first required argument that is missing and there is one exactly when one is; otherwise each template gives a message with its own role and its substituted text. |
| Prompts.DeclaredHolesAreFilled | pkg/prompts/prompts.go:27-47 | When the call goes through, no declared hole is left. |
| Prompts.MergePrompts | pkg/prompts/prompts.go:71-90 | The loops compute base without the overridden names, then the overrides. |
| Prompts.OverrideWinsByName | pkg/prompts/prompts.go:69-90 | The prompts of a name are the override's, in order, when it has that name, else the base's; no name is lost or made up. |
| Prompts.MergedInOrder | pkg/prompts/prompts.go:77-89 | The overrides come last and in order, after what is left of the base in its order. |
| Prompts.MergeAssociative | pkg/prompts/prompts.go:71-90 | Merging three lists from either end agrees. |
| Workspaces.Discovery.DiscoverRecursive | pkg/kcp/workspace.go:51-106 | One call adds only workspaces reachable from its parent, and all children of the parent and of what it adds; it terminates on a finite hierarchy. |
| Workspaces.DiscoverAllWorkspaces | pkg/kcp/workspace.go:110-134 | The result is exactly the root and all that is reachable through workspaces whose listing succeeds, each once. |
| Workspaces.FoundIsReachable | pkg/kcp/workspace.go:115-122 | What a whole discovery finds is reachability from the root. |
| Workspaces.ReachableByNames | pkg/kcp/workspace.go:75-103 | What is reachable from the root has a path of non-empty names, joined by colons, each listed by the workspace before it. |
| Workspaces.EarlierMatch | pkg/kcp/workspace.go:25-25 | Another `/clusters/` can start before the one put in only inside the base, or nine characters from its end. |
| Workspaces.URLRoundTripExactly | pkg/kcp/workspace.go:24-46 | Parsing a constructed URL gives back base and workspace if and only if the base neither contains `/clusters/` nor ends in `/clusters` and the workspace does not end in a slash. |
| Workspaces.TakenApartExactly | pkg/kcp/workspace.go:24-36 | Every URL is cut at its first `/clusters/`, with one slash at its end left out, and is all base if and only if it has none. |
| ToolRegistry.ReloadItems | pkg/mcp/mcp.go:194-224 | The names listed are those of the items, and the table is the old one without the dropped names, with the items put in. |
| ToolRegistry.ByNameIs | pkg/mcp/mcp.go:217-221 | A table filled from items has exactly their names, each with an item of that name. |
| ToolRegistry.ReloadForgets | pkg/mcp/mcp.go:202-221 | When table and list agreed before, nothing of what was registered before is left. |
| ToolRegistry.Server.constructor | pkg/mcp/mcp.go:78-139 | A new server is valid: what is registered and enabled follows from its configuration and provider. |
| ToolRegistry.Server.Toolsets | pkg/mcp/mcp.go:34-41 | The cached toolsets are always those of the configuration in force. |
| ToolRegistry.Server.CollectApplicableTools | pkg/mcp/mcp.go:227-248 | The nested loops collect the mutated tools that pass the filters, in order. |
| ToolRegistry.Server.CollectApplicablePrompts | pkg/mcp/mcp.go:251-262 | The toolsets' prompts with their target argument, overridden by the configured ones. |
| ToolRegistry.Server.ReloadToolsets | pkg/mcp/mcp.go:142-189 | From any state whose lists and tables agree, a reload makes the server valid for the current configuration and provider. |
| ToolRegistry.Server.ReloadConfiguration | pkg/mcp/mcp.go:363-387 | The reload succeeds exactly for configurations that pass validation, which come into force with their tools; any other changes nothing. |
| ToolRegistry.Server.TargetsChanged | pkg/mcp/mcp.go:136-136 | A change of targets reloads under the same configuration. |
| ToolRegistry.Server.ValidIsListed | pkg/mcp/mcp.go:180-184 | In a valid server the registered names are the enabled names. |
| ToolRegistry.ApplicableExactly | pkg/mcp/mcp.go:227-248 | The tools collected are exactly those that a toolset of the configuration offers, as clients are to see them, and that nothing forbids. |
| ToolRegistry.MutateExactly | pkg/mcp/tool_mutator.go:32-51 | How clients see an offered tool, field by field: renamed if it lists targets, the target parameter added if it is cluster-aware and there are several, a configured description put in, all else kept; and what forbids it. |
| ToolRegistry.RegisteredExactly | pkg/mcp/mcp.go:50-64 | A name is registered if and only if a toolset of the configuration offers a tool that clients are to see under it and that nothing forbids; what is registered is such a tool, as clients are to see it. |
| ToolRegistry.UnforbiddenIsRegistered | pkg/mcp/mcp.go:50-64 | An offered tool that no setting forbids is registered. |
| ToolRegistry.PromptRegisteredExactly | pkg/mcp/mcp.go:251-262 | A prompt is registered under a name if and only if the configuration has one or a toolset offers one: the configuration's own if it has one, else an offered one, with the target argument if it is cluster-aware and there are several. |
| ToolRegistry.LastOfferedIsRegistered | pkg/mcp/mcp.go:216-248 | Among several such tools of one name the one registered is the last offered, in the order of the configured toolsets and of what each offers. |
| ToolRegistry.ForbiddenIsNotRegistered | pkg/mcp/mcp.go:50-64 | No registered tool may write under a read-only configuration, is destructive where that is disabled, lies outside the enabled names or among the disabled ones. |
| ToolRegistry.GenericNameIsNotRegistered | pkg/mcp/tool_mutator.go:77-84 | Renaming comes before filtering, so `targets_list` is never registered under that name unless the targets are called `targets`. |
| ToolRegistry.ListToolsExclude | pkg/mcp/tool_filter.go:23-48 | The two tools that list targets are never both registered, and neither is for a single target. |
| ToolRegistry.NarrowingOnlyRemoves | pkg/mcp/mcp.go:50-64 | Reloading with a configuration that allows no more adds no tool. |
| OidcProtocol.StepKeepsInv | pkg/http/wellknown.go:250-298 | Every step of concurrent callers, flights and caller edits keeps the invariant. |
| OidcProtocol.RunKeepsInv | pkg/http/wellknown.go:250-298 | It holds over every run. |
| OidcProtocol.AnswersAreFetched | pkg/http/wellknown.go:250-298 | Every document given for a URL is the body of a fetch of that URL, changed by the caller's own edits alone; it was stored less than five minutes before the call looked, or its flight was under way when the call joined it. |
| OidcProtocol.LastEditDecides | pkg/http/wellknown.go:354-363 | In a document a caller edited, the last edit of a key decides about it, and other keys are as fetched. |
| OidcProtocol.CacheHoldsWhatWasFetched | pkg/http/wellknown.go:283-286 | Whatever callers do to what they are given, the cached map equals the body fetched for its URL. |
| OidcProtocol.OneFlightPerURL | pkg/http/wellknown.go:266-266 | Two fetches of one URL are never under way together. |
| OidcProtocol.RunStaysOnTime | pkg/http/wellknown.go:266-289 | When flights store and close within a delay of receiving their document, what is stored, closed and handed out was no older than that, in every state of the run. |
| OidcProtocol.AnswersAreFresh | pkg/http/wellknown.go:250-298 | Over all runs whose flights store and close within `delay`: answers from the cache were fetched less than five minutes and `slack` before the look if and only if delay <= slack, and answers from flights at most `slack` before the join if and only if delay <= slack. |
| OidcProtocol.SlowStore | pkg/http/wellknown.go:253-286 | For every delay above the slack, a run in which the cache gives out a document five minutes and `slack` old. |
| OidcProtocol.SlowJoin | pkg/http/wellknown.go:266-289 | For every delay, a run in which a call joins a flight and is given a document fetched that long before it came. |
| OidcCache.CopyMap | pkg/http/wellknown.go:367-373 | A new object with the same entries. |
| OidcCache.ApplyConfigOverrides | pkg/http/wellknown.go:354-363 | The edits in place, as a function of the document. |
| OidcCache.OverridesHold | pkg/http/wellknown.go:354-363 | Overriding twice is overriding once; what is forbidden is absent, what is configured is there, and every other key is untouched. |
| OidcCache.GenerateProtectedResourceMetadata | pkg/http/wellknown.go:71-84 | The members of section 2 of RFC 9728 that are made up, with scopes only when the document has them. |
| OidcCache.ProtectedResourceExactly | pkg/http/wellknown.go:71-84 | These members are the server as its own authorization server, tokens in the header and the document's scopes, and there is no other. |
| OidcCache.WellKnown.FetchOpenIDConfiguration | pkg/http/wellknown.go:250-298 | A hit copies the cache and leaves it alone; a miss stores what was fetched; what the caller gets is its own object in both cases. |
| OidcCache.WellKnown.ServeFallback | pkg/http/wellknown.go:163-187 | The answer of the fallback for each endpoint and upstream outcome: when it is 404, 500 or a document, and which; the overrides never reach the cached map, although one generator hands its argument through. |
| OidcCache.WellKnown.ServedMembers | pkg/http/wellknown.go:163-187 | What is served has the members of the document, or of a protected resource, but for the three the configuration has a say over. |
| OidcCache.WellKnown.ServeTwice | pkg/http/wellknown.go:253-259 | A request within five minutes of one that stored a document gets the same answer, whatever the upstream server would say. |

## Left out

- RateLimiter.ReapingInvisible: takes the lookup of a limiter and its allow decision as one step; `RaceReaping` takes them apart.
- RateLimiterRace.WindowBound: counts the requests that arrive in the window, and takes the time between a request's lookup and its allow decision as bounded, because the code sets no bound; `SlowRequests.WindowBoundExactly` says which bounds do.
- TokenBucket: `rate.Limiter` is taken as a standard bucket that starts full, refills at the limit up to the burst and spends one or nothing; its own code is not part of this model.
- RateLimiter: the default burst and the choice of the session name happen before the modelled code; a missing session is the empty name. Clocks are parameters and do not go back.
- WatcherProtocol.Safety: an fsnotify channel that closes by itself, on which the kubeconfig goroutine returns without being asked, is not a step of the machine. A file event is a poll that finds a difference, and a kubeconfig callback records no state.
- WatcherProtocol.CloseGetsThrough: says that the waiting Close can always complete, not that the scheduler lets it.
- Debounce.ReloadTimes: all callbacks of a run take the same time, no tick falls on the end of a window, and a callback that ends as a tick comes counts as over; `WatcherProtocol` covers callbacks of any length.
- ClusterWatcher: the fields of the workspace and kubeconfig watchers are the same and are not repeated; capturing the state of a cluster, a list of workspaces or a kubeconfig is a value that comes from outside.
- ConfigMerge.MergeFiles: decoding, encoding and reading of files, and the order of file names; files come as decoded trees built of new maps. A value that is not a table is a string, TOML arrays included, since the merge never looks into it.
- AccessControl: the REST mapper and the validators are arbitrary functions of the request; messages, logging, contexts and closing of bodies are left out.
- AccessPath.ToLower: letters outside ASCII, which no HTTP method name holds.
- HealthSummary.Tally: stands for the three loops over apps, services and workloads, which differ in their evaluation alone. Issue texts, timestamps and rate intervals are left out, as is the choice of the health type and the decoding of the data.
- HealthRequests: rounding of floating-point numbers.
- FieldPath.ParsePath: `int` has 64 bits; the text in brackets is kept as characters, which is what Sscanf reads. The typed wrappers around `Field` are left out.
- Prompts.SubstituteFills: templates with braces in their text, for which there is no unique reading.
- Prompts: prompt and tool texts, roles and content types other than text.
- Workspaces.DiscoverAllWorkspaces: the hierarchy is finite and does not change during a discovery; creating clients and listing are one outcome.
- ToolRegistry.Server.ReloadToolsets: reloads do not overlap, since the code reads the previous list and writes the new one in separate critical sections; registering does not fail; starting a new watch after a reload is left out. Input schemas are reduced to the names of their parameters, and the annotations' titles and handlers are left out.
- ToolRegistry.Server.ReloadConfiguration: the validation is an arbitrary function of the configuration; its rules are not part of this model.
- OidcProtocol.AnswersAreFresh: the code bounds the request to the authorization server but not the time from its end to the storing, which is the `delay` of the statement.
- OidcCache.WellKnown.ServeFallback: the direct proxy of well-known endpoints, response headers, JSON encoding, and how the server's own URL is found; custom metadata generators.
- Kubernetes, Helm, Prometheus and OpenTelemetry clients, TLS, JWT and HTTP serving, the tool handlers, log redaction, and the boolean checks of configurations: foreign code or properties of single branches.

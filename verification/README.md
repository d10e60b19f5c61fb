# goacos, modelled in Dafny

goacos is a registry for services and configuration with an HTTP gateway in front. This project
models the five state machines where its code makes claims that tests can only sample, and proves
those claims for every input, run or interleaving of the model.

`dafny verify dfyconfig.toml` checks everything.

## What is modelled

**Load balancing and failover.** `LoadBalancer` is the picker: smooth weighted round robin over a
mutable counter map, least connections over an in-flight map, and the two hashing algorithms.
`SmoothRoundRobin` and `PickerRuns` follow the round-robin counters over whole runs: exact shares in
every window, the period, the bound on how far an instance can be ahead, fairness from arbitrary
counters, and conservation of the counter sum when the candidate list changes at every pick.
`InFlight` takes `Acquire` and `Release` apart into the two locks they use, lets a refresh run between
them and lets a request break off between the two. `Proxy` is the attempt loop of one request, whose
upstream may answer, fail before or after a byte, or break off in the middle of the body. Weights are
reals, so the shares are exact for weights that are multiples of a common unit.

**The single-active configuration store.** `ConfigStore` is the table, its history log and its tags,
statement by statement. `ConfigProtocol` is a step machine of any number of processes over one
database: an advisory lock tied to a session, a one-token semaphore, the two ownership checks, commits
that take effect and are reported as failed, callbacks after the commit, and a hub with waiters.
`ConfigInvariants` holds what every step keeps, `ConfigTheorems` what follows for every run.
`ConfigListener` constructs runs that show where the listener's promise and the index end. `ConfigHub`
and `ConfigAdmission` are the hub's methods and the buffered response, and `ConfigNesting` a transaction
asked for inside a transaction.

**The instance lifecycle.** `NamingStore` is the instance table; `NamingRuns` compares a run with the
same run without its sweeps. `RegistryClient` is the SDK's register/beat loop; `Heartbeats` puts the
two halves together and bounds how long the registry can go without word from a client that is alive,
and `Outages` shows the bound attained, which makes the conditions exact.

**Routing.** `Routes` has the longest-prefix scan and the sorted table's order, `RouteAgreement` says
exactly when the two choose the same route and that the table does not depend on how the database
orders text. `PortPool` narrows to one port. `RouteTable` and `GatewayTable` are the snapshot, its lookup, and the refresh that prunes
counters and connection pools; `Resolver` is the resolver endpoint's whole answer, instances included,
against what the data plane dials. `StableSort` is the in-place stable sort and the fact the table rests
on: the first match in the sorted list is the running best of the unsorted one.

**Certificates.** `Certificates` is the precedence between the database and the shared directory and
what mirroring does to it; `Wildcards` the label walk; `Issuance` the back-off and the rate it bounds.

## Where the code does not do what it says

Each of these is stated by the lemmas named: a concrete input or run where the property fails, and the
condition under which it holds, for all inputs.

- The release after an upstream call is a plain statement, not a deferred one (`internal/gateway/proxy.go:361-363`).
  If the response breaks off while its body is copied, the reverse proxy panics with `ErrAbortHandler`
  and the release is never reached: the address of that dial keeps one connection too many until its
  target is forgotten, and every other count is as found (`Proxy.Forward`, `Proxy.SameInFlightIff`). The
  counts are those of the open requests exactly where no request was abandoned
  (`InFlight.ExactIffNoneAbandoned`), and one abandoned request is enough to make least_conn pass over
  an idle instance for a busy one (`InFlight.IdleIsPassedOver`).
- A listener that is woken by a publication which changes nothing parks again without registering
  again, so the next publication does not wake it; only the one-second tick does
  (`ConfigListener.SecondWakeupCanBeLost`). A parked listener that is out of date will be told exactly
  when a token or a send is on its way or it is still registered for the key
  (`ConfigTheorems.InformedIff`), which before it is first woken is always so
  (`ConfigTheorems.NoLostWakeup`).
- The hub's index goes stale when a commit takes effect and is reported as failed: the owner is lost,
  its session may live on, and no callback runs (`ConfigListener.IndexCanBeStale`). While the session
  lives and the semaphore is free the index is exact if and only if no such commit changed an md5
  (`ConfigTheorems.CacheExactIff`).
- A nested transaction is no savepoint: if a caller ignores the error of the inner function, what that
  function wrote is committed with the rest (`ConfigNesting.IgnoredErrorKeepsItsWrites`); if no caller
  does, nesting makes no difference (`ConfigNesting.NestingIsInvisible`).
- Rows for `/a` and `/a/` are two keys for one place. The resolver takes the longer as written, the
  table the one that is not behind by priority and component name (`RouteAgreement.SiblingsDisagree`);
  they agree on all paths exactly when no slashed row is shadowed (`RouteAgreement.AgreeIffUnshadowed`).
  On a path without a leading slash, which only the resolver endpoint accepts, `/` can also outrank a
  one-character prefix (`RouteAgreement.UnrootedDisagree`, `RouteAgreement.AgreeOnPath`).
- The resolver compares domains by letter case only, the table by their normal forms. A row for
  `a.com.`, which the API stores with only its case changed, is served to `a.com` by the table and not
  found by the resolver (`RouteAgreement.DottedRowDisagrees`); the resolver never finds more than the
  table, and for every stored domain there is a host for which it finds less
  (`Domains.ResolverSeesLess`).
- Domain normalisation is not idempotent: `a..` becomes `a.`, which becomes `a`. The pruning pass
  normalises the table's keys again and does not find the instances of such a domain
  (`RouteTable.DottedDomainIsPruned`); everything served survives it exactly when every entry that is
  the first of its domain at its place has a counterpart under a name the pass asks for
  (`RouteTable.BuiltAlwaysLiveIff`, `RouteTable.AlwaysLiveIff`).
- The pruning pass cuts a pool's key at its first bar, so an instance whose ip holds one, which
  registration accepts, loses its pools at every refresh (`GatewayTable.BarredPoolsAreDropped`,
  `GatewayTable.UpstreamOfPoolKey`).
- The service cache is filled by queries that name a cluster but is keyed without it. Of two components
  of one service in two clusters, one is left with nothing to dial (`GatewayTable.StarvedGateway`);
  every component is sure of its own instances exactly when components with one key share group,
  service and cluster as stored (`GatewayTable.ServicesExactIff`).
- A beat marked persistent, which the beat endpoint accepts, makes sweeps visible under any settings
  (`NamingRuns.PersistentBeatIsSeen`); they are invisible exactly when no beat is and the settings are
  harmless (`NamingRuns.InvisibleIff`).
- With the shipped numbers a client is sure to stay listed only if none of its calls ever fails, and sure
  to keep its row only if no more than three in a row do (`Outages.ShippedNumbers`); in general exactly
  when the silence of that many failures fits the limit (`Outages.StaysListedIff`,
  `Outages.KeepsItsRowIff`).
- The comment at `internal/gateway/certdir.go:96` says that a tie goes to the database. It does exactly when the pair in the directory is not self-signed
  (`Certificates.MergeIsMaximum`).
- Mirroring an issued certificate can later flip its domain from `acme` to `file`, after which nothing
  ever renews it, if a certificate with an earlier expiry is issued and its own mirroring fails; it
  never does exactly when no certificate expires before an earlier one (`Certificates.MirrorNeverFlipsIff`,
  `Certificates.FlippedForGood`).

## Model

| member | source | states |
|---|---|---|
| `Registry.Itoa` | internal/gateway/routetable.go:565-585 | the digit loop over the fixed buffer yields the decimal form of every port-sized integer, negative ones included |
| `Registry.ParseDecimal` | internal/gateway/routetable.go:565-585 | reading a rendered number back gives the number, and only digits occur in it |
| `Registry.AddrInjective` | internal/gateway/routetable.go:86 | two instances have one address exactly when ip and port agree, whatever the ip string holds |
| `LoadBalancer.Picker.constructor` | internal/gateway/lb.go:40 | a new picker has no counters |
| `LoadBalancer.Picker.State` | internal/gateway/lb.go:42-53 | finds or creates the state of one target and changes no other |
| `LoadBalancer.Picker.Forget` | internal/gateway/lb.go:55-63 | exactly the targets that still resolve keep their counters, unchanged |
| `LoadBalancer.Picker.Pick` | internal/gateway/lb.go:71-116 | none and one candidate touch nothing; otherwise the pick is the one the algorithm's specification names and only this target's counters change |
| `LoadBalancer.Picker.LeastConn` | internal/gateway/lb.go:91-100 | the first instance to which none is preferred by fewer connections, then more weight |
| `LoadBalancer.Picker.PickRoundRobin` | internal/gateway/lb.go:122-138 | every entry gains its weight, the first maximum wins and gives the total back, also when addresses repeat |
| `LoadBalancer.Picker.Acquire` | internal/gateway/lb.go:141-149 | one more in flight on this address of this target, everything else as before |
| `LoadBalancer.Picker.Release` | internal/gateway/lb.go:151-158 | one fewer, clamped at zero |
| `SmoothRoundRobin.TimesIsProduct` | internal/gateway/lb.go:122-138 | the repeated sums in the bounds below are products |
| `PickerRuns.PickIsRound` | internal/gateway/lb.go:122-138 | with distinct addresses a pick on the counter map is one round of the vector recurrence |
| `SmoothRoundRobin.Ledger` | internal/gateway/lb.go:122-138 | counter i after n picks is its start plus n weights less one total per pick of i |
| `SmoothRoundRobin.BoundedBelow` | internal/gateway/lb.go:122-138 | counters of any run stay above a bound fixed by the start and the total weight |
| `SmoothRoundRobin.ExactShares` | internal/gateway/lb.go:122-138 | from zero, after as many picks as the weights sum to, each instance was picked exactly its weight and all counters are zero |
| `SmoothRoundRobin.Periodic` | internal/gateway/lb.go:122-138 | counters and picks repeat with that period |
| `PickerRuns.WeightedShares` | internal/gateway/lb.go:122-138 | every window of that many consecutive picks, wherever it starts, holds the exact shares |
| `PickerRuns.WeightedPeriod` | internal/gateway/lb.go:122-138 | the picker's counters and picks have that period and return to zero |
| `PickerRuns.NeverAheadOfShare` | internal/gateway/lb.go:122-138 | after n picks W times the picks of i is below n times its weight plus W, and every counter above minus W, for any weights |
| `PickerRuns.FairFromAnyState` | internal/gateway/lb.go:71-138 | from counters carried over a refresh or retry the imbalance stays under a constant that does not depend on n |
| `PickerRuns.PickConserves` | internal/gateway/lb.go:122-138 | a pick leaves the sum of the whole counter map unchanged, repeated addresses included |
| `PickerRuns.SumNeverMoves` | internal/gateway/proxy.go:275-286 | over any changing sequence of candidate lists the sum stays what it was, zero from a fresh target |
| `InFlight.StepKeeps` | internal/gateway/lb.go:42-63 | every half-step of Acquire, Release, Pick and Forget, and a request that breaks off, keeps the counting invariant, orphaned states included |
| `InFlight.CountsAreSound` | internal/gateway/lb.go:141-158 | in every interleaving a stored count is never negative, never above the requests open and abandoned together, and equal to them if the key was never forgotten |
| `InFlight.ExactIffNoneAbandoned` | internal/gateway/proxy.go:361-363 | it is the number of open requests if and only if none was abandoned on that address |
| `InFlight.AbandonedForGood` | internal/gateway/proxy.go:361-363 | an abandoned request stays abandoned in every continuation |
| `InFlight.LeastConnIsLeastLoaded` | internal/gateway/lb.go:91-100 | least_conn picks an instance with the fewest requests open or abandoned, so with the fewest open if none was abandoned |
| `InFlight.IdleIsPassedOver` | internal/gateway/lb.go:91-100 | a run in which one abandoned request makes it take an instance at work although another is idle |
| `Proxy.Forward` | internal/gateway/proxy.go:290-384 | for every algorithm and failure pattern: at most three dials, no repeated address with several instances, none after a byte was written, the right reply; counter sums as found, other targets untouched, in-flight counts as found but for one more on the address of a dial that broke off in the body |
| `Proxy.SameInFlightIff` | internal/gateway/proxy.go:361-363 | after a request the in-flight counts are as found if and only if no dial broke off |
| `Proxy.Attempt` | internal/gateway/proxy.go:316-375 | one pick and one dial leave the balance as it was, but for the acquire of a dial that broke off |
| `Proxy.OneMoreDial` | internal/gateway/proxy.go:316-375 | a dial to an untried candidate keeps the dials distinct and within budget, and a decisive outcome ends the request correctly |
| `Proxy.ServedWhenFewFail` | internal/gateway/proxy.go:290-384 | of n distinct instances, a request is served whenever fewer than min(3, n) fail |
| `ConfigStore.Transaction.UpsertConfig` | internal/storage/configstore.go:96-156 | row and history entry are written together with one md5, or the failing statement stops it |
| `ConfigStore.Transaction.DeleteConfig` | internal/storage/configstore.go:158-194 | row, history entry and tags together; deleting nothing logs nothing |
| `ConfigStore.Transaction.ReplaceConfigTags` | internal/storage/configstore.go:358-375 | exactly the trimmed non-empty names; refused exactly when one repeats |
| `ConfigStore.UpsertKeeps` | internal/storage/configstore.go:96-156 | a publish keeps every table property if and only if the md5 given is empty or the content's own |
| `ConfigStore.DeleteKeeps` | internal/storage/configstore.go:158-194 | a delete keeps them |
| `ConfigStore.TagsKeep` | internal/storage/configstore.go:358-375 | so does rewriting tags |
| `ConfigStore.GapsKeep` | internal/storage/configstore.go:255-264 | so do gaps left in the id sequences by rolled-back transactions |
| `ConfigStore.PreviousIsNewest` | internal/storage/configstore.go:347-356 | the backward scan finds the entry the query's descending order by id puts first, since ids ascend |
| `ConfigStore.PreviousIsTheRowBefore` | internal/storage/configstore.go:347-356 | the previous history entry of a key tells exactly what its row held before a given entry |
| `ConfigTheorems.StepKeeps` | internal/storage/config_owner.go:52-223 | every step of every process, session death and unreported commits included, keeps the whole invariant |
| `ConfigTheorems.OneLiveOwner` | internal/storage/config_owner.go:52-103 | in every run at most one process has a live session, and it holds the lock |
| `ConfigTheorems.OnlyTheHolderCommits` | internal/storage/config_owner.go:142-194 | tables change only by a commit of the session that holds the lock at that moment |
| `ConfigTheorems.Fenced` | internal/storage/config_owner.go:105-132 | once another process has committed, no earlier committer commits again |
| `ConfigTheorems.LostForGood` | internal/storage/config_owner.go:46-60 | a session is never replaced, a lost owner stays lost, a dead session stays dead |
| `ConfigTheorems.TablesAlwaysConsistent` | internal/storage/configstore.go:96-181 | in every reachable state the table is the replay of its history, each key's history is a prefix of (I U* D)*, md5s are the contents' |
| `ConfigTheorems.NoCommitIsOverwritten` | internal/storage/config_owner.go:142-194 | in every run and extension of it the committed history only grows: takeovers, stale snapshots and unreported commits overwrite nothing |
| `ConfigTheorems.TokenConserved` | internal/storage/config_owner.go:142-223 | the token is in the channel or with exactly one holder, so a put-back never blocks |
| `ConfigTheorems.CallbacksRunOnce` | internal/storage/config_owner.go:186-205 | the callbacks that ran are, in order and once each, those of the commits reported successful |
| `ConfigTheorems.CacheExact` | internal/core/hub.go:23-61 | while the owner lives, is not lost and the semaphore is free, the hub's index is the md5 column |
| `ConfigTheorems.CacheExactIff` | internal/storage/config_owner.go:186-205 | for an owner that may be lost but whose session lives, it is if and only if no commit of its own took effect unreported and changed an md5 |
| `ConfigTheorems.MissedOnce` | internal/storage/config_owner.go:186-189 | a commit takes effect unreported only in a process in which none did before |
| `ConfigTheorems.MissedIs` | internal/storage/config_owner.go:186-189 | over any run the recorded md5 columns are those around the process's commit that took effect unreported |
| `ConfigTheorems.InformedIff` | internal/core/hub.go:79-148 | a parked waiter that is out of date has a token, a send or a callback coming exactly when it has a token, a send, or is still registered for the key |
| `ConfigTheorems.NoLostWakeup` | internal/core/hub.go:79-148 | a parked waiter not yet woken that is out of date has a token, a send under way or a callback still to run |
| `ConfigTheorems.ToldIffRegistered` | internal/core/hub.go:48-77 | one callback sends to exactly the waiters registered for its key and takes them off it |
| `ConfigListener.SecondWakeupCanBeLost` | internal/core/hub.go:124-148 | a reachable state in which a re-parked waiter is out of date and nothing is on its way to it |
| `ConfigListener.IndexCanBeStale` | internal/storage/config_owner.go:186-189 | for any two contents a reachable state in which a living session's index has the md5 of the one and the table that of the other |
| `ConfigListener.TickFindsIt` | internal/core/hub.go:124-148 | the periodic re-check returns the change to such a waiter |
| `ConfigHub.Hub.constructor` | internal/core/hub.go:23-40 | the preload loop builds exactly the md5 column, in any row order |
| `ConfigHub.Hub.Publish` | internal/core/hub.go:48-54 | sets the md5 and takes exactly the key's watchers off the map |
| `ConfigHub.Hub.Invalidate` | internal/core/hub.go:55-61 | removes the md5 and takes the key's watchers |
| `ConfigHub.Hub.Register` | internal/core/hub.go:102-111 | the registration loop adds the waiter under each of its keys and changes nothing else |
| `ConfigHub.Hub.Unregister` | internal/core/hub.go:112-123 | the clean-up removes it everywhere and leaves no empty set |
| `ConfigAdmission.ConfigResponse.Play` | internal/api/config_admission.go:20-35 | the buffer holds the whole body and the first status, or remembers that the limit was passed |
| `ConfigAdmission.Owner.WithConfigTransaction` | internal/storage/config_owner.go:142-194 | what is done, in order, for each way it can end; the token back at the end of each; ownership lost exactly on a failure that is not the function's own, and not when the request is cancelled while waiting |
| `ConfigAdmission.ServeConfig` | internal/api/config_admission.go:36-87 | the steps of every request are orderly and end with the answer; an answer below 400, or any listener's, follows a reported commit; an error answer follows a rollback; 503 after a commit means it went unreported |
| `ConfigAdmission.AnswerComesLast` | internal/api/config_admission.go:36-87 | in orderly steps the answer stands after the commit and after the token is back, and the function between token and commit |
| `ConfigNesting.WithConfigTransaction` | internal/storage/config_owner.go:142-194 | in a context that carries a transaction the function's work joins it and nothing else happens; otherwise at most one commit follows, with the statements of all nested calls in order, and their callbacks if it is reported |
| `ConfigNesting.NestingIsInvisible` | internal/storage/config_owner.go:143-145 | if no caller ignores an error, nested calls at any depth amount to their functions written out in place |
| `ConfigNesting.IgnoredErrorKeepsItsWrites` | internal/storage/config_owner.go:143-145 | the statements of a failed nested call are committed if its error is ignored |
| `NamingStore.Store.RegisterInstance` | internal/storage/namingstore.go:222-268 | insert and update leave the same row; created exactly if the key was absent |
| `NamingStore.Store.BeatInstance` | internal/storage/namingstore.go:272-284 | refreshes the row under the key as given, or registers |
| `NamingStore.Store.DeleteInstance` | internal/storage/namingstore.go:287-299 | removes the row of the key with its defaults and says whether there was one |
| `NamingStore.Store.ListInstances` | internal/storage/namingstore.go:328-369 | returns exactly the matching rows that are healthy at the read, in order, each with its effective health |
| `NamingStore.Store.SweepEphemeral` | internal/storage/namingstore.go:373-388 | marks and deletes exactly the silent ephemeral rows and counts both |
| `NamingStore.Store.MarkStalePersistentUnhealthy` | internal/storage/namingstore.go:402-415 | marks silent persistent rows and deletes none |
| `NamingRuns.SweepsInvisible` | internal/storage/namingstore.go:82-90 | every healthy-only listing of a run equals that of the run without its sweeps, also when a sweep's two statements are apart and use an old clock reading |
| `NamingRuns.InvisibleIffHarmless` | internal/storage/namingstore.go:373-388 | that holds for all runs if and only if the health timeout is off or not above the deletion limit |
| `NamingRuns.PersistentBeatIsSeen` | internal/storage/namingstore.go:272-284 | under any settings a run in which a persistent beat makes sweeps visible |
| `NamingRuns.InvisibleIff` | internal/storage/namingstore.go:373-388 | sweeps are invisible in every run exactly when the settings are harmless and no beat is persistent |
| `NamingRuns.SweepsCollapse` | internal/core/sweeper.go:13-30 | sweeping at two times is sweeping once at the later |
| `NamingRuns.RowKept` | internal/storage/namingstore.go:373-388 | a row refreshed within the deletion limit is never deleted, within the timeout never marked, however sweeps fall |
| `NamingRuns.BeatingIsListed` | internal/storage/namingstore.go:82-90 | and is then in every healthy-only listing |
| `RegistryClient.Client.Run` | sdk/registry/client.go:1429-1506 | for every sequence of answers each call made is the one due and comes after the wait due, and the period is the one last advertised |
| `RegistryClient.Client.Adopt` | sdk/registry/client.go:784-816 | a positive advertised interval is adopted, clamped at 50 ms |
| `RegistryClient.ReregistersAfterThree` | sdk/registry/client.go:1494-1505 | the loop registers again after a beat exactly when the last three calls were failed beats |
| `RegistryClient.NextRung` | sdk/registry/client.go:1573-1579 | doubling a capped wait gives the next rung of the ladder |
| `RegistryClient.LadderIsCapped` | sdk/registry/client.go:1573-1579 | the waits are min(initial 2^k, max) if and only if the initial wait is not above the maximum |
| `Heartbeats.FailuresAreGap` | sdk/registry/client.go:1429-1506 | after an accepted call the calls that fail are three beats and then registrations |
| `Heartbeats.SilenceIsBounded` | sdk/registry/client.go:1429-1506 | between two accepted calls the registry is without word for no longer than the waits of the failures between and one request timeout per call, outages of the registry included |
| `Heartbeats.ClientKeepsItsRow` | internal/storage/namingstore.go:272-388 | a client no more than n of whose calls fail in a row keeps its row through every sweep if that silence fits the deletion limit, and healthy if it fits the timeout |
| `Outages.SilenceAttained` | sdk/registry/client.go:1429-1506 | for every n there is a run whose silence is the bound |
| `Outages.StaysListedIff` | internal/storage/namingstore.go:82-90 | every such client is in every healthy-only listing of every run if and only if the silence of n failures fits the timeout |
| `Outages.KeepsItsRowIff` | internal/storage/namingstore.go:373-388 | and never loses its row if and only if it fits the deletion limit |
| `Outages.ShippedNumbers` | internal/config/config.go:266-268 | with the shipped settings listed for sure exactly if n = 0, kept for sure exactly if n is at most 3 |
| `StableSort.Sort` | internal/gateway/routetable.go:393-404 | the in-place sort yields the stable sorted list |
| `StableSort.SortedIsOrdered` | internal/gateway/routetable.go:393-404 | nothing in it stands after something it must precede |
| `StableSort.SortedKeepsAll` | internal/gateway/routetable.go:393-404 | it is a permutation |
| `StableSort.FirstIsBest` | internal/gateway/routetable.go:242-253 | the first match in the sorted list is what a running-best scan of the unsorted one keeps, ties included |
| `Domains.NormalIff` | internal/storage/gatewaystore.go:337-345 | the fixed points of normalisation: lower case, no outer space, no port, no final dot |
| `Domains.NotIdempotent` | internal/storage/gatewaystore.go:337-345 | normalising twice is not normalising once |
| `Domains.SeenAlikeIff` | internal/storage/appstore.go:424 | which stored domains resolver and table read alike for every host in normal form |
| `Domains.HostSeenAlikeIff` | internal/api/app_v1.go:377 | on which hosts, lower-cased only, they agree about every stored domain in normal form |
| `Domains.ResolverSeesLess` | internal/storage/appstore.go:424 | what the resolver finds the table finds, and for every stored domain some host only the table finds |
| `Domains.ReachableIff` | internal/storage/gatewaystore.go:337-345 | the names normalisation can yield: no capital, no leading space |
| `Routes.MatchRoute` | internal/storage/appstore.go:413-437 | the scan keeps the longest matching prefix, then the lowest priority, then the first row |
| `Routes.SortRouteEntries` | internal/gateway/routetable.go:393-404 | sorts stably by trimmed length, priority, component name |
| `Routes.MatchIsOfTrimmed` | internal/storage/appstore.go:441-453 | a prefix matches exactly at a segment boundary of its trimmed form |
| `Routes.ScanIsLongest` | internal/storage/appstore.go:413-437 | on rooted paths the scan's pick is the one longest candidate, whatever the priorities |
| `Routes.ScanOnAnyPath` | internal/storage/appstore.go:413-437 | on any path, what the pick leaves behind is shorter once trimmed, its sibling, or of one character against `/` |
| `RouteAgreement.QueryOrder` | internal/storage/appstore.go:279-282 | the query's order lists a row before its slashed sibling when priority and component tie, in any collation, those that rank spellings alike included |
| `RouteAgreement.TableFollowsRows` | internal/gateway/routetable.go:385-404 | so the table's choice is a function of the set of rows, at every refresh and on every gateway |
| `RouteAgreement.TableInAnyCollation` | internal/gateway/routetable.go:385-404 | and for domains in normal form it is the same under any two collations, although they list the rows differently |
| `RouteAgreement.AgreeOnPath` | internal/gateway/routetable.go:242-288 | for any one path: table and resolver agree exactly unless the pick is shadowed by its sibling, outranked by a one-character prefix, or without a component while another route matches |
| `RouteAgreement.AgreeIffUnshadowed` | internal/gateway/routetable.go:393-404 | for all rooted paths at once, exactly when no slashed row is shadowed |
| `RouteAgreement.TableIsResolver` | internal/gateway/routetable.go:242-288 | with prefixes that stay distinct after trimming they always agree |
| `RouteAgreement.SiblingsDisagree` | internal/gateway/routetable.go:393-404 | a concrete pair of rows on which they disagree |
| `RouteAgreement.DottedRowDisagrees` | internal/api/app_v1.go:329 | a storable row for `a.com.` that the table serves to `a.com` and the resolver does not find |
| `RouteAgreement.UnrootedDisagree` | internal/storage/appstore.go:431-434 | a concrete path without leading slash on which they disagree |
| `PortPool.SelectPortPool` | internal/storage/portpool.go:166-209 | the order-preserving pool on the declared port, ports ascending and exact, pool and excluded add up, and no conflict exactly when all agree |
| `RouteTable.ForwardableIff` | internal/gateway/routetable.go:473-526 | what may be dialled: eligible, on the declared port, and a stand-by only when every eligible instance is one |
| `RouteTable.ForwardableEmptyIff` | internal/gateway/routetable.go:473-526 | with no port declared never empty while something is eligible; with one declared exactly when only excluded stand-bys are on it |
| `RouteTable.ForwardableOrdered` | internal/gateway/routetable.go:450-460 | candidates come heaviest first, then by address |
| `RouteTable.LookupIsResolver` | internal/gateway/routetable.go:242-288 | a lookup on a built snapshot returns the resolver's route |
| `RouteTable.LookupKeyListed` | internal/gateway/routetable.go:305-329 | every target a lookup returns has its key in TargetKeys |
| `RouteTable.LookupAddressesLive` | internal/gateway/proxy.go:534-544 | and its addresses in liveAddresses, when the table's key is a fixed point of normalisation |
| `RouteTable.SoleDomainLive` | internal/gateway/proxy.go:534-544 | with one domain, if and only if |
| `RouteTable.ServedIff` | internal/gateway/routetable.go:242-253 | some request is served from an entry exactly if its key can be the normal form of a host and nothing before it in its list stands at its place or above it |
| `RouteTable.AlwaysLiveIff` | internal/gateway/proxy.go:534-544 | with any domains: everything that can be dialled is live for every state of the services exactly when every such entry has a counterpart under a name the pass asks for |
| `RouteTable.BuiltAlwaysLiveIff` | internal/gateway/proxy.go:534-544 | for a table built from rows: exactly when the first entry of every list at every trimmed prefix has one |
| `Resolver.DialledIsResolved` | internal/storage/appstore.go:354-411 | while the cache holds the component's own listing, the resolver answers with the route a lookup returns, and the data plane dials exactly those of its instances that are enabled, in the cluster, and no stand-by that is not needed |
| `Resolver.NarrowedIff` | internal/storage/appstore.go:383-390 | which instances the resolver returns |
| `RouteTable.DottedDomainIsPruned` | internal/gateway/proxy.go:534-544 | a row for `a..` is served and its instance pruned |
| `GatewayTable.Table.Refresh` | internal/gateway/routetable.go:142-236 | rebuilds every table from the rows, or leaves all of them on any failed read |
| `GatewayTable.Table.LookupTarget` | internal/gateway/routetable.go:242-288 | the first matching entry and its forwardable, filtered instances, with the conflict judged over all eligible ones |
| `GatewayTable.Table.TargetKeys` | internal/gateway/routetable.go:305-329 | exactly the keys of all entries, ascending, each once |
| `GatewayTable.Table.AllTargets` | internal/gateway/routetable.go:331-370 | every entry of a domain with all its eligible instances |
| `GatewayTable.ServicesExactIff` | internal/gateway/routetable.go:203-226 | whatever the store answers and in whatever order the cache fills, every component gets its own answer exactly when components with one key share group, service and cluster |
| `GatewayTable.OtherClusterStarves` | internal/gateway/routetable.go:203-226 | two clusters of one service: whichever query filled the cache, one component has nothing to dial |
| `GatewayTable.StarvedGateway` | internal/gateway/routetable.go:203-226 | a concrete such gateway, in which each component's own query has an instance it could dial |
| `GatewayTable.SelectInstances` | internal/gateway/routetable.go:431-461 | the eligible instances, stably sorted |
| `GatewayTable.DropBackupsWhenPrimaryExists` | internal/gateway/routetable.go:504-526 | without stand-bys if there is a primary, unchanged otherwise |
| `GatewayTable.FilterInstancesByMeta` | internal/gateway/routetable.go:531-547 | exactly the instances that have every requested pair |
| `GatewayTable.UpstreamOfPoolKey` | internal/gateway/proxy.go:94-96 | the pruning pass reads back the address a pool key was made from exactly when the ip has no bar |
| `GatewayTable.BarredPoolsAreDropped` | internal/gateway/proxy.go:183-196 | the pool of the one live address is kept exactly when its ip has no bar |
| `GatewayTable.TransportPool.Prune` | internal/gateway/proxy.go:183-196 | drops exactly the pools whose upstream is not live |
| `GatewayTable.LiveAddresses` | internal/gateway/proxy.go:534-544 | exactly the addresses offered when the table is asked under its own names |
| `GatewayTable.RefreshGateway` | internal/gateway/gateway.go:359-377 | a failed refresh changes nothing; a successful one keeps exactly the pools and counters that still resolve |
| `GatewayTable.RefreshKeepsWhatIsServed` | internal/gateway/gateway.go:359-377 | no refresh takes counters or pools from a target the new table can still return |
| `Certificates.MergeCerts` | internal/gateway/certdir.go:124-153 | each domain gets description and key pair from one side, the winner of the two |
| `Certificates.MergeIsMaximum` | internal/gateway/certdir.go:88-101 | the winner is the greater under (rank, expiry); on a tie the database against `file`, the directory otherwise |
| `Certificates.MergeNeverLowers` | internal/gateway/certdir.go:69-101 | the rank never goes down and a manual certificate is never displaced |
| `Certificates.FlipIff` | internal/gateway/certs.go:302-339 | a reload turns `acme` into `file` exactly when the directory holds a CA pair that expires later |
| `Certificates.MirrorNeverFlipsIff` | internal/gateway/certs.go:594-640 | however each mirroring goes no reload flips the source, exactly when no certificate issued expires before an earlier one |
| `Certificates.FlippedForGood` | internal/gateway/certs.go:485-525 | after a flip no reconcile pass ever asks for a certificate again |
| `Wildcards.LookupWildcard` | internal/gateway/certs.go:219-236 | the walk over the labels amounts to one lookup of the name with its first label starred |
| `Wildcards.CoversIff` | internal/gateway/certdir.go:419-431 | a pattern covers a name exactly if one non-empty label is in place of the star |
| `Wildcards.JoinSplit` | internal/gateway/certs.go:219-236 | joining the labels of a name gives the name |
| `Issuance.BackoffFor` | internal/gateway/certs.go:730-739 | the doubling loop computes min(5 2^(n-1), 360) minutes |
| `Issuance.CertManager.RecordFailure` | internal/gateway/certs.go:715-728 | one more failure and a wait of its back-off plus jitter |
| `Issuance.CertManager.AttemptIssuance` | internal/gateway/certs.go:556-591 | attempts exactly when possible and not waiting; a success clears the record, a failure lengthens the wait |
| `Issuance.FailuresSpace` | internal/gateway/certs.go:556-591 | while a domain keeps failing, attempt k waits out the back-off of the failures before it, whatever happens on other domains |
| `Issuance.FourPerHour` | internal/gateway/acme.go:14-19 | the fifth attempt on a failing domain is at least 75 minutes after the first of the five, so no hour holds more than four |
| `Issuance.LongRun` | internal/gateway/certs.go:715-739 | m attempts of at least 8 span at least 635 + 360 (m - 8) minutes |

## Left out

- Rounding of float64 weights, and Go's int64 overflow of durations and counters.
- The FNV hash of the sticky key and md5 are parameters; TLS, X.509 and PEM are not modelled: a certificate is its source, its expiry and an opaque pair.
- SQL text, dialects and drivers: tables are maps and sequences, a statement is atomic. The insert-race fall-backs of the upserts cannot arise with one writer and are left out.
- Configuration columns other than id, content and md5 (type, description, users, time stamps), list and search queries.
- ConfigProtocol: a listener's check (ownership check, query, ownership check under the semaphore) is one step; a restarted process is a new process; a nested transaction, which ConfigNesting models, is one more write of the same transaction.
- ConfigTheorems.CacheExact: needs the owner not to be marked lost; CacheExactIff is exact for every owner whose session lives.
- ConfigNesting.WithConfigTransaction: statements are opaque here; what each does to the tables is ConfigStore's.
- ConfigTheorems.NoLostWakeup: covers a waiter until it is woken for the first time; InformedIff covers it afterwards.
- ConfigAdmission.Owner.WithConfigTransaction: one request at a time; requests of many tasks and processes interleave in ConfigProtocol.
- NamingRuns.SweepsInvisible: speaks of the instances returned; weight and metadata of an instance that a beat recreated after a sweep may differ from those of the unswept run. The clock of all replicas is one monotone input.
- NamingStore.Store.BeatInstance: its update and the registration that may follow are one step.
- Heartbeats.ClientKeepsItsRow: supposes that timers fire on time, and starts with the client's first accepted registration.
- RouteAgreement.AgreeIffUnshadowed: supposes normalised domains, rooted paths, and that every route's component is present; AgreeOnPath also covers other paths and absent components, and Domains.SeenAlikeIff says which stored domains the hypothesis leaves out. Letter case is folded for ASCII only.
- RouteTable.LookupIsResolver: compares the route chosen; Resolver.DialledIsResolved also compares the instances.
- Resolver.DialledIsResolved: supposes that the component names its group, which its declaration ensures (`internal/api/component_spec.go:124-126`), since the table lists under the group as stored and the resolver under the default one. The order the resolver returns instances in is not compared.
- RouteTable.LookupAddressesLive: one direction for one state of the services, since another domain may share the instance; AlwaysLiveIff is exact over all states.
- Strict parsing of the servicePort metadata, prefix stripping, and virtual-host policies of the routing table.
- Certificates.MirrorNeverFlipsIff: the directory is written by this gateway only; scanning the directory's layouts is not modelled. Overlap of a manual upload with an issuance under way is not modelled.
- Issuance.FourPerHour: bounds one domain; the limit of the CA counts all domains of an account together. A restart of the process forgets the records.
- The on-demand cache of self-signed certificates, the ACME conversation, HTTP handlers, the console, the CLI, authentication, and the Python and Node SDKs.

# A verified model of proxy-acl

proxy-acl is a forward proxy that denies by default. A client belongs to a subnet, each subnet has lists of
what its clients may and may not reach, and a request that passes is dialed at exactly the addresses that were
checked. This project models the parts of it that are hard to get right, and proves what they promise.

* **DNS cache** (`DnsCache`, `DnsProtocol`, `DnsInvariants`, `DnsSafety`, `DnsAnswers`, `DnsProgress`). The resolver's critical sections are methods of a class.
  The goroutines that call them are tasks that take one step at a time, a critical section or a channel operation,
  in any order. An invariant over the slot records, semaphores, flights, entries and waiting callers holds in every
  state of every run, and the promises of the resolver follow from it. What a caller gets is traced back to the lookup it
  came from. It never deadlocks, and left alone it comes to rest.
* **Per-client tracker** (`Buckets`, `Sums`, `Limits`, `LimitsConnections`, `LimitsReplies`, `LimitsOverflow`,
  `LimitsForgetting`, `LimitsRates`, `LimitsLog`, `Tracker`). The calls are functions on values, and the promises are about every sequence of calls.
  The class `Tracker` keeps records as objects that the maps and the release functions point at, and each of its
  methods is proved to do what the corresponding call does.
* **Access lists** (`Text`, `Ports`, `Regexes`, `Wildcards`, `Foreign`, `Hostnames`, `Patterns`, `Meanings`, `Rules`,
  `RuleSets`, `NonPublic`, `Verdicts`, `Policies`, `Configured`, `Subnets`, with `Netip` and `Basics`). `Meanings` says
  what a pattern means as it is written, `Patterns` and `Verdicts` what the lists mean once they are read. `RuleSets` compiles them into maps, tests and ranges as the program does, and `Policies` decides requests
  with the compiled form. The two agree on every request, and `Configured` takes that from the texts of a configuration
  to the decision. The regular expression made for a wildcard is modelled as
  text, read back, and given the usual meaning of regular expressions.
* **Dialing** (`HostPort`, `Vetted`, `Dial`, `Requests`, `Race`). The guard before a dial, the time budget, a request from
  its check to the addresses it is dialed at, and the race between the two address families, in every schedule of its
  goroutines.
* **Upstream pools** (`PoolKeys`, `Pools`). The key of a pool, and the map of pools with its eviction.
* **Idle tunnels** (`Tunnel`, `TunnelEnds`). Two copies and a shared time stamp, as a timed step system, and why it ends.

Some conventions. Strings are sequences of Unicode characters. Integers are unbounded where the program's cannot
overflow. Times are integers in nanoseconds, except in the tracker, where they are real numbers like the tokens they
are multiplied with. The clock is a parameter of every call, and so are the answers of DNS. Code of other packages is
a parameter with a stated contract: `Foreign.Library` for `net/netip` and `regexp`, and `PoolKeys.PrintsApart` for the
printed form of addresses.

## What turned out to be different

* An address can hold twice its connection limit, never more, whatever the limits of other addresses.
  `LimitsOverflow.ReachedExactly` has what it can hold: up to the limit in its own record, together with up to the limit in
  one that it shares. An address that always finds the same record holds at most the limit, by
  `LimitsConnections.OnePlaceBound`.
* `Connections` is documented to return the connections held by an address. `LimitsOverflow.ReportMissesShared` and
  `LimitsOverflow.ReportCountsOthers` are runs in which it does not: the address is counted in two records, or shares its
  only one. `LimitsConnections.ReportExactly` says exactly when it does, and by `LimitsConnections.ReportRightWithRoom` it
  does as long as the tracker has never been full.
* Forgetting an idle record can be noticed in its request bucket, but only if 300 seconds do not refill it.
  `LimitsForgetting.ForgettingExactly` has the condition in both directions. For the log bucket it always holds.
* The comment on `pipe` says that a tunnel closes once neither direction has carried data for the whole timeout. Data is
  reported only when a copy returns, so for every timeout a tunnel can be closed while data moves:
  `Tunnel.ClosedWhileDataMoves` builds such runs. `Tunnel.SlackIsOneCheck` has what holds instead: what moved up to one check
  interval before the close may go unnoticed, and nothing that moved earlier during the timeout does.
* Whether a configuration is accepted can depend on the order of its subnets, because a subnet without a name is called by
  its place: `Subnets.OrderCanMatter` has a configuration of two. `Subnets.AcceptedAnyOrder` says exactly when it does not.
* The cache key of a query is its network, a bar and its host. `DnsInvariants.KeysCollideExactly` says which networks could
  share a key; none of those that exist can.

## Model

| member | source | states |
|---|---|---|
| DnsCache.Resolver.FindLocked | internal/dnscache/dnscache.go:133-138 | A fresh entry wins over a flight, and an expired entry is no answer |
| DnsCache.Resolver.Enter | internal/dnscache/dnscache.go:174-181 | The client's record gets one more user, and is made if there is none; nothing else changes |
| DnsCache.Resolver.Leave | internal/dnscache/dnscache.go:182-188 | One user fewer, and the record leaves the map when it was the last |
| DnsCache.Resolver.Recheck | internal/dnscache/dnscache.go:113-125 | A flight is registered only if there is neither a fresh entry nor a flight, and what a lookup finds then is what is returned |
| DnsCache.Resolver.Store | internal/dnscache/dnscache.go:199-230 | The entry is stored; expired entries go if the cache is full, then live ones only until there is room |
| DnsInvariants.KeyInjective | internal/dnscache/dnscache.go:96-96 | Different queries have different cache keys, for all networks without a bar |
| DnsInvariants.KeysCollideExactly | internal/dnscache/dnscache.go:96-96 | Two networks can have a key in common exactly if one begins with the other and a bar |
| DnsInvariants.InvStep | internal/dnscache/dnscache.go:95-197 | Every step of every task keeps the invariant of the whole protocol |
| DnsSafety.RunInv | internal/dnscache/dnscache.go:95-197 | The invariant holds in every state of every interleaving |
| DnsSafety.OneLiveRecord | internal/dnscache/dnscache.go:169-197 | A client has at most one record in use, it is in the map exactly while it has users, and its counts are those of the tasks that wait, hold or leave |
| DnsSafety.ClientCap | internal/dnscache/dnscache.go:107-128 | Calls tagged with a client never have more than 32 unfinished flights, although slot records are dropped and made again |
| DnsSafety.UpstreamCap | internal/dnscache/dnscache.go:151-167 | Never more than 256 upstream lookups at once |
| DnsSafety.SingleFlight | internal/dnscache/dnscache.go:113-128 | Two flights of one query are never registered at once, so their lookups do not overlap |
| DnsSafety.UnregistersOwnFlight | internal/dnscache/dnscache.go:163-166 | The flight that a goroutine deletes from the map is its own |
| DnsSafety.NoNeedlessLookup | internal/dnscache/dnscache.go:113-138 | While a flight has not stored its answer, the cache has no fresh entry for its key |
| DnsSafety.AnswersAreGenuine | internal/dnscache/dnscache.go:95-147 | Every answer is a context error or the result of an upstream lookup of that query, and one from the cache is younger than the lifetime of its class; who gets an error, and which lookup it is, is in `DnsAnswers` |
| DnsSafety.CacheHoldsLookups | internal/dnscache/dnscache.go:199-230 | Entries are results of lookups of their key, expire in time, and are at most 10,000 |
| DnsSafety.EvictsAtMostOne | internal/dnscache/dnscache.go:212-229 | Storing an answer evicts at most one entry that could still be served |
| DnsSafety.AnswerIsFixed | internal/dnscache/dnscache.go:140-167 | The answer of a flight does not change after its channel is closed |
| DnsSafety.NobodyWaitsInVain | internal/dnscache/dnscache.go:140-167 | A caller waits for a flight of its own query that is closed or has a goroutine that will close it |
| DnsAnswers.WaiterGetsAnswer | internal/dnscache/dnscache.go:140-167 | A caller that waited for a flight and did not give up returns, for good, exactly what the lookup of that flight gave, or an error if the flight timed out |
| DnsAnswers.SameFlightSameAnswer | internal/dnscache/dnscache.go:140-147 | Two callers that waited for the same flight return the same |
| DnsAnswers.ResultHasStep | internal/dnscache/dnscache.go:151-162 | The result of a flight is what the lookup of its own goroutine gave, or an error if that timed out |
| DnsAnswers.ErrorsHaveReasons | internal/dnscache/dnscache.go:95-167 | A caller returns a context error exactly if it gave up or its flight timed out |
| DnsAnswers.NoErrorUnlessGivenUp | internal/dnscache/dnscache.go:95-167 | If no caller gives up and no flight times out, no caller gets a context error and no flight has one |
| DnsAnswers.CacheableIsStored | internal/dnscache/dnscache.go:157-166 | A flight whose lookup gave something that may be cached has stored it, to expire in time, before it leaves the map and before anybody is told |
| DnsAnswers.FirstLook | internal/dnscache/dnscache.go:96-112 | Who finds a fresh entry is served it at once, else who finds a flight waits for it, and only others go for a slot, or on without one if untagged |
| DnsAnswers.SecondLook | internal/dnscache/dnscache.go:113-128 | After waiting for a slot: the same, with the slot given back, and only if there is neither is one new flight started and waited for |
| DnsAnswers.TtlIs | internal/dnscache/dnscache.go:202-211 | Addresses live thirty seconds, a missing name five, other failures three, and an empty answer is not kept |
| DnsAnswers.Lifetimes | internal/dnscache/dnscache.go:199-211 | Every entry expires when the lifetime of its class is over, and every answer from the cache is younger than that |
| DnsProgress.NeverStuck | internal/dnscache/dnscache.go:95-197 | No deadlock: while any goroutine is unfinished, some goroutine can go on without anybody giving up or timing out |
| DnsProgress.UndisturbedRunsEnd | internal/dnscache/dnscache.go:95-197 | Without new calls every schedule ends, callers that give up and flights that time out included, within a number of steps fixed by the state it began in |
| DnsProgress.ComesToRest | internal/dnscache/dnscache.go:95-197 | It ends with every caller answered, every flight closed and out of the map, and every slot and token given back |
| Buckets.TakeByLevel | internal/limits/limits.go:233-249 | The level decides, a grant lowers it by one, and tokens stay between zero and the capacity |
| Buckets.LevelLater | internal/limits/limits.go:241-241 | The level rises by the rate up to the capacity and by nothing else |
| Buckets.FullAfter | internal/limits/limits.go:233-249 | A bucket left alone long enough answers like a new one |
| Buckets.RunWellFilled | internal/limits/limits.go:233-249 | Over any calls in order the tokens stay between zero and the capacity |
| Buckets.WindowBound | internal/limits/limits.go:233-249 | In any window no more grants than the capacity plus the rate times its length |
| Buckets.SpacedNeverRefused | internal/limits/limits.go:233-249 | Calls at least one token's time apart are never refused |
| Buckets.BurstExactly | internal/limits/limits.go:237-248 | Of calls at one time a new bucket grants exactly the burst, or one if the burst is smaller |
| Buckets.NoRateNoLimit | internal/limits/limits.go:234-236 | Without a rate every call is granted and the bucket stays as it is |
| LimitsConnections.CountsStep | internal/limits/limits.go:78-132 | Every call keeps the counts: each record counts its release functions, and their record is still in the map |
| LimitsConnections.CountsRun | internal/limits/limits.go:78-203 | That holds in every state of every run, repeated releases and sweeps included |
| LimitsConnections.TotalIsConserved | internal/limits/limits.go:108-132 | The total is the sum over both maps and the number of release functions not yet called |
| LimitsReplies.TotalBound | internal/limits/limits.go:110-121 | In every run in which all calls have a limit on all connections of at most some number, there are never more connections than that |
| LimitsReplies.AcquireExactly | internal/limits/limits.go:110-132 | Refused for all exactly if that limit is set and as many release functions are uncalled, refused for the client exactly if not that and its limit is set and reached in the record it uses, and let in otherwise, with a release function |
| LimitsReplies.PlaceExactly | internal/limits/limits.go:78-97 | A call uses the record of its address, makes one while fewer than 100,000 addresses have one, and else uses that of the network |
| LimitsReplies.TrackedBounded | internal/limits/limits.go:78-84 | Never more than 100,000 addresses have a record of their own |
| LimitsReplies.OverflowExactly | internal/limits/limits.go:99-106 | Addresses share a record exactly if they have the same first 24 bits, or 64 for IPv6 |
| LimitsReplies.OverflowContains | internal/limits/limits.go:99-106 | What they share is a masked prefix of that length that contains them |
| LimitsReplies.ForgottenExactly | internal/limits/limits.go:177-203 | A sweep forgets a record exactly if no connection is counted in it and its last use, a release included, was more than five minutes ago |
| LimitsConnections.RecordsBounded | internal/limits/limits.go:110-121 | With one limit for all, no record ever counts more than the limit |
| LimitsConnections.AddressBound | internal/limits/limits.go:78-132 | Whatever the limits of others, an address holds at most its limit in each of its two records, and more than the limit only if it holds some in both |
| LimitsConnections.OnePlaceBound | internal/limits/limits.go:78-132 | Whatever the limits of others, an address that always finds the same record when it connects holds at most its limit |
| LimitsConnections.ReportExactly | internal/limits/limits.go:205-217 | The report is the number of connections of the address exactly if none is in a shared record beside its own, and none of the shared record it depends on is of another address |
| LimitsOverflow.ReachedExactly | internal/limits/limits.go:78-132 | Some run ends with these numbers of own and shared connections exactly if both are at most the limit |
| LimitsConnections.ReportRightWithRoom | internal/limits/limits.go:78-84 | As long as there was room for one more record before every call, the report is right for every address |
| LimitsOverflow.TwiceTheLimit | internal/limits/limits.go:78-132 | For every limit some run reaches twice the limit, with one limit for all |
| LimitsOverflow.ReportMissesShared | internal/limits/limits.go:205-217 | For all numbers within a limit, a run after which an address holds some in both records and only those in its own are reported |
| LimitsOverflow.ReportCountsOthers | internal/limits/limits.go:205-217 | A run after which two addresses hold connections in the record they share and both are reported wrongly |
| LimitsForgetting.ForgettingUnseen | internal/limits/limits.go:177-203 | With a bucket that refills in 300 seconds, forgetting the record of a network, or of an address that never shares, changes no answer |
| LimitsForgetting.LogForgettingUnseen | internal/limits/limits.go:145-203 | Whatever the request limits, forgetting such a record never changes which log lines are written |
| LimitsForgetting.ForgettingSeen | internal/limits/limits.go:177-203 | With any other limit some run gets a different answer |
| LimitsForgetting.ForgettingExactly | internal/limits/limits.go:26-37 | Forgetting is invisible exactly when the bucket refills in 300 seconds |
| LimitsRates.AnswersOfOneBucket | internal/limits/limits.go:78-173 | Requests and log lines are answered as by one token bucket that was there from the start, although records are made, shared and forgotten |
| LimitsRates.ClientRateBound | internal/limits/limits.go:135-173 | In any window of a run no more requests are allowed, and no more lines written, than the burst and the rate together permit |
| LimitsRates.SpacedClientNeverRefused | internal/limits/limits.go:135-173 | A client whose calls are at least one token apart is never refused |
| LimitsRates.NoRateNoRefusal | internal/limits/limits.go:135-140 | Without a rate every request is allowed |
| LimitsLog.CountsAreExact | internal/limits/limits.go:160-173 | A listed key has the exact number of its refused lines since the last sweep, at most 16 are listed, and all lines are counted |
| LimitsLog.SweepReportsAll | internal/limits/limits.go:177-203 | A sweep reports everything pending, also of what it forgets, and leaves nothing |
| LimitsLog.LinesAreConserved | internal/limits/limits.go:145-203 | Lines logged are lines written plus lines reported plus lines pending, in every run |
| Tracker.Client.Log | internal/limits/limits.go:160-173 | A line is written or counted, by its key while there is room in the list |
| Tracker.Tracker.Get | internal/limits/limits.go:78-97 | The address's own record, or the one of its network when there are too many, made if missing and stamped; no other record changes |
| Tracker.Tracker.Acquire | internal/limits/limits.go:110-132 | Refused for all exactly if that limit is set and as many release functions are uncalled, refused at the limit of the client, or one more connection and a new release function bound to the record; `LimitsReplies.AcquireExactly` has the refusals by the uncalled release functions |
| Tracker.Tracker.Release | internal/limits/limits.go:122-131 | The first call gives the connection back to the record it was taken from; later calls do nothing |
| Tracker.Tracker.Allow | internal/limits/limits.go:135-140 | One token of the address's request bucket, and nothing else |
| Tracker.Tracker.Log | internal/limits/limits.go:145-150 | The line is decided and counted in the address's record |
| Tracker.Tracker.LogUnknown | internal/limits/limits.go:154-158 | The same in the record shared by clients outside every subnet |
| Tracker.Tracker.Sweep | internal/limits/limits.go:177-203 | Each record with counts is listed once and cleared, and idle records without connections are forgotten |
| Tracker.Tracker.CountedIsInUse | internal/limits/limits.go:177-203 | A record that a release function points at has connections, so a sweep keeps it |
| Tracker.Tracker.Connections | internal/limits/limits.go:205-217 | The reported count, and the number of release functions not yet called |
| Text.JoinLabels | internal/acl/rules.go:258-258 | Splitting a name at its dots loses nothing and leaves no dot in a label |
| Text.LabelsJoin | internal/acl/rules.go:258-258 | Labels that are joined are split in the same places |
| Text.ValueOfDecimal | internal/acl/rules.go:362-366 | Reading a printed number gives the number |
| Text.DecimalOfValue | internal/acl/rules.go:353-366 | Printing the value of a numeral without leading zeros gives the numeral |
| Ports.ParsePort | internal/acl/rules.go:353-367 | Accepts exactly the printed form of 1 to 65535, and gives that number |
| Ports.PortUnique | internal/acl/rules.go:351-367 | A text writes at most one port |
| Ports.ParsePortRange | internal/acl/rules.go:370-387 | Accepts exactly a port, or two in order with a hyphen between, with spaces around the whole |
| Ports.RangeUnique | internal/acl/rules.go:370-387 | A text writes at most one range |
| Wildcards.ExprCompiles | internal/acl/rules.go:207-213 | The text made for a pattern is a regular expression, and the one meant |
| Wildcards.FlatByLabels | internal/acl/rules.go:207-213 | Matching in which a star does not cross a dot is matching label by label |
| Wildcards.WildcardMeaning | internal/acl/rules.go:199-214 | The expression matches a name exactly when label-wise globbing does; a leading star label stands for one or more labels |
| Hostnames.CheckHostChars | internal/acl/rules.go:236-247 | Accepts exactly letters, digits, hyphens, underscores and dots, and stars in patterns |
| Hostnames.IsNumeric | internal/acl/rules.go:289-310 | Accepts exactly decimal numbers and hexadecimal ones after 0x |
| Hostnames.ValidateHostname | internal/acl/rules.go:251-286 | Accepts exactly names of valid labels within the lengths, with a last label that is no number, and for a pattern some label that is a name |
| Hostnames.ParseHost | internal/acl/rules.go:217-234 | An address if it can be read as one and has no zone, or else a valid name in normal form |
| Hostnames.NameIsNoAddress | internal/acl/rules.go:277-281 | No accepted hostname can be read as an address |
| Hostnames.TargetIdempotent | internal/acl/rules.go:217-234 | An accepted name in normal form is accepted again, as itself |
| Hostnames.NormalExactly | internal/acl/rules.go:226-233 | A name is kept as it was written but for capitals and one dot at the end |
| Hostnames.LiteralIsPlain | internal/acl/rules.go:218-223 | An accepted literal is valid, has no zone and is not IPv4-mapped |
| Patterns.PrefixExactly | internal/acl/rules.go:320-345 | Accepted are exactly ranges without host bits and single addresses, none IPv4-mapped |
| Patterns.SingleAddress | internal/acl/rules.go:328-337 | A bare address is accepted unless it has a zone or is IPv4-mapped, as a range of that address alone |
| Netip.MaskedIsRange | internal/acl/rules.go:341-343 | A prefix without host bits contains the addresses from its own on, as many as its block |
| Patterns.InDomainByLabels | internal/acl/rules.go:99-99 | Being in a domain means ending in its labels |
| Meanings.NamePatternMeans | internal/acl/rules.go:96-105 | From the text alone: which texts are name patterns, and that a plain one matches the one name, one with a leading dot the names whose labels end in the others, `*` every name, and any other by label-wise globbing |
| Meanings.RuleMeans | internal/acl/rules.go:96-133 | A text that can be read matches exactly the names and the addresses that it means; a range no name, and a name pattern no address |
| Meanings.UserExprFitsWhole | internal/acl/rules.go:112-124 | A user's expression, as it is compiled, has to fit the whole name |
| Rules.WinnerUnique | internal/acl/rules.go:50-52 | At most one rule comes before all others that match |
| RuleSets.AddedHolds | internal/acl/rules.go:106-162 | Every kind of rule is stored where a lookup finds it, and a rule written twice counts where it was first |
| RuleSets.CompileNamePattern | internal/acl/rules.go:175-214 | Compiles exactly the texts that are name patterns, to a pattern that matches exactly the names that the text means; the test of a wildcard is that meaning, and its expression always compiles |
| RuleSets.RuleSet.Add | internal/acl/rules.go:106-162 | Adds the rule exactly if the pattern can be read, and otherwise changes nothing |
| RuleSets.CompileRules | internal/acl/rules.go:86-94 | Succeeds exactly if every pattern can be read, and then holds all of them |
| RuleSets.RuleSet.LongestDomain | internal/acl/rules.go:57-68 | The longest listed domain that the name is in, if any |
| RuleSets.RuleSet.MatchName | internal/acl/rules.go:53-75 | Succeeds exactly if some listed pattern means the name, and reports the first in order of exact, longest domain, wildcards and expressions as listed, star |
| RuleSets.RuleSet.MatchAddr | internal/acl/rules.go:77-84 | The first range that the address is in, if any |
| RuleSets.InSomeRange | internal/acl/rules.go:126-133 | The compiled ranges contain an address exactly if some listed range does |
| Configured.ListMeans | internal/acl/rules.go:86-94 | A list that can be read matches a name or an address exactly if one of its texts means it |
| Configured.ReportsMeans | internal/acl/rules.go:50-75 | What is reported for a name is one of the texts that mean it, and nothing exactly if none does |
| NonPublic.MappedNeverDecides | internal/acl/rules.go:392-421 | Without the entry for IPv4-mapped addresses every request gets the same verdict, under this table and any other |
| Verdicts.RulesAreMonotone | internal/acl/policy.go:163-223 | Fewer deny rules and more allow rules never refuse a request that was allowed |
| Verdicts.OrderDoesNotMatter | internal/acl/policy.go:163-223 | The order of the rules does not change the verdict |
| Policies.CompileSubnet | internal/acl/policy.go:95-132 | Succeeds exactly if every list can be read, and then decides by those lists |
| Policies.CompileDeny | internal/acl/policy.go:121-130 | A star in a deny list becomes two ranges that cover all addresses |
| Policies.DeniedAddr | internal/acl/policy.go:124-130 | The compiled deny list matches an address exactly if a range contains it or the list has a star |
| Policies.Resolve | internal/acl/policy.go:234-253 | Asks once, and gives the unmapped addresses if there are any and all are usable |
| Policies.IsPublic | internal/acl/rules.go:423-430 | Public means in none of the listed ranges |
| Policies.CheckAddr | internal/acl/policy.go:209-218 | An address passes exactly if it is not denied, and is public or explicitly allowed; a denied one is reported with the first range it is in |
| Policies.CheckName | internal/acl/policy.go:192-201 | The checks before a lookup pass exactly if no deny rule, some allow rule and the port agree; otherwise the reason and rule |
| Policies.Check | internal/acl/policy.go:177-223 | Allows exactly what the lists allow, with exactly the checked addresses and port, the deciding rule and reason in every case, and a lookup only after name and port have passed |
| Configured.AllowedMeans | internal/acl/policy.go:95-223 | The verdict of the lists is that of their texts: name, address and port rules as they are written, with ports 80 and 443 if none are listed |
| Configured.CheckAsWritten | internal/acl/policy.go:177-223 | Allows exactly what the texts of the subnet say, with all addresses that were found, in order |
| Configured.CheckConfigured | internal/acl/policy.go:95-223 | From configuration to decision: accepted exactly if it can be read, and then deciding as its texts say |
| Subnets.New | internal/acl/policy.go:64-93 | Accepts exactly configurations that can be read and use no name and no prefix twice |
| Subnets.Claim | internal/acl/policy.go:84-89 | The prefixes of a subnet are recorded exactly if none is taken |
| Subnets.LoadedAreMasked | internal/acl/rules.go:341-343 | All prefixes of an accepted policy are masked |
| Subnets.SubnetOf | internal/acl/policy.go:139-151 | The subnet of a longest prefix that contains the unmapped client address, or none if no prefix does |
| Subnets.LongestUnique | internal/acl/policy.go:137-151 | In an accepted policy there is one longest match |
| Subnets.LongestAnyOrder | internal/acl/policy.go:137-151 | The longest match does not depend on the order of subnets and prefixes |
| Subnets.SubnetAnyOrder | internal/acl/policy.go:137-151 | Policies that give the same prefixes to the same names put every client in the same subnet, or both in none, whatever the order |
| Subnets.OrderCanMatter | internal/acl/policy.go:71-78 | For any two different prefixes, a configuration of two subnets that is accepted and is refused the other way round |
| Subnets.AcceptedAnyOrder | internal/acl/policy.go:64-93 | An accepted configuration is accepted in every order of its subnets exactly if all have names or none has a name that a number could take |
| Subnets.AcceptedAnyCidrOrder | internal/acl/policy.go:84-89 | The order of the prefixes of a subnet never matters for acceptance |
| HostPort.SplitJoined | internal/proxy/proxy.go:163-163 | A joined host and port come apart as they were |
| HostPort.SplitExactly | internal/proxy/dial.go:44-47 | A text comes apart into a host and a port exactly if it is those two with a colon between, the host in brackets or without a colon |
| Vetted.ApprovedHost | internal/proxy/proxy.go:258-289 | An approved host has no character that separates anything |
| Vetted.ApprovedPassesGuard | internal/proxy/dial.go:43-51 | What a tunnel rejoins for an approved destination passes the guard of its own dialer |
| Vetted.GuardExactly | internal/proxy/dial.go:43-47 | Nothing else passes the guard but the same with brackets around the host |
| Vetted.ApprovedAddresses | internal/proxy/proxy.go:289-289 | An approved destination has addresses, and every one passed the check |
| Requests.CheckRequest | internal/proxy/proxy.go:258-290 | A destination is vetted exactly if the client is within its rate and in a subnet whose lists allow the request, and it is approved then; nothing is looked up otherwise |
| Requests.DialVetted | internal/proxy/dial.go:43-82 | Something is tried exactly if the guard passes, only the first three vetted addresses of each family, in order, all within thirty seconds; it succeeds exactly if an attempt connected, and without another deadline each attempt of the first family has a third of the time or more |
| Requests.Serve | internal/proxy/proxy.go:161-163 | From request to dial: something is tried exactly if the lists of the client's subnet allow it, and every address tried passed their check |
| Dial.Partition | internal/proxy/dial.go:57-66 | The first three addresses of the first one's family, and of the other |
| Dial.PartitionIsVetted | internal/proxy/dial.go:57-69 | Only vetted addresses, at most three of each family, and no fallback exactly if there is one family |
| Dial.PartitionInOrder | internal/proxy/dial.go:57-66 | An address with fewer than three of its family before it is tried after as many, so none is left out and the first of all comes first |
| Dial.DialSerial | internal/proxy/dial.go:123-145 | Addresses are tried in order until one connects or time is up, never past the deadline and none after the first once it is over; every attempt has two seconds or all that is left, and an equal share when there is enough for all |
| Dial.ShareStep | internal/proxy/dial.go:127-130 | Taking the truncated share of a budget leaves that much for each of the others |
| Race.StepKeeps | internal/proxy/dial.go:71-119 | Every step of racers, loop, timer and drain keeps the invariant |
| Race.RacersNeverBlock | internal/proxy/dial.go:77-81 | A racer never blocks on the result channel |
| Race.FallbackStartsOnce | internal/proxy/dial.go:83-90 | The fallback is started at most once, and has been exactly if the timer was taken or the first family failed |
| Race.FallbackStartsExactly | internal/proxy/dial.go:83-113 | From the steps: the second family is started when the loop takes the timer or the news that the first failed, and not before |
| Race.ConnectedExactly | internal/proxy/dial.go:77-81 | A racer has a connection exactly if its dial succeeded |
| Race.FirstConnectionWins | internal/proxy/dial.go:99-111 | The first connection that the loop receives is returned, whichever family it is of |
| Race.ErrorExactly | internal/proxy/dial.go:112-116 | In the end the outcome is an error exactly if no dial succeeded |
| Race.ConnectionsAccounted | internal/proxy/dial.go:94-118 | Every connection is in one place: with its racer, in the channel, returned once or closed once |
| Race.ErrorMeansAllFailed | internal/proxy/dial.go:112-116 | An error is returned only after both families were started and both failed |
| Race.NeverStuck | internal/proxy/dial.go:71-119 | While anything is unfinished some step can be taken |
| Race.RunsEnd | internal/proxy/dial.go:71-119 | Every run ends, after at most eight steps |
| Race.AllSettledInTheEnd | internal/proxy/dial.go:101-111 | In the end every connection has been returned or closed, and not both |
| PoolKeys.SortedUnique | internal/proxy/upstream.go:101-101 | There is one sorted order of a multiset of strings |
| PoolKeys.JoinInjective | internal/proxy/upstream.go:102-102 | Different lists of addresses are joined to different texts |
| PoolKeys.KeysApart | internal/proxy/upstream.go:96-103 | Two keys are equal exactly if scheme, host, port and the multiset of addresses are |
| PoolKeys.PoolKey | internal/proxy/upstream.go:96-103 | Computes that key |
| PoolKeys.ApprovedIsFit | internal/proxy/upstream.go:21-26 | Approved requests meet what the keys need |
| Pools.UpstreamPools.GetTransport | internal/proxy/upstream.go:51-66 | The transport leads to the approved destination, is the one there was if there was one, and is stamped; the others stay except a least recently used one when there are 1024 |
| Pools.UpstreamPools.FindOldest | internal/proxy/upstream.go:83-89 | The running minimum ends at a pool that no other was used before |
| Pools.UpstreamPools.DropOldest | internal/proxy/upstream.go:83-94 | Evicts a least recently used pool and closes its idle connections |
| Pools.UpstreamPools.Sweep | internal/proxy/upstream.go:69-79 | Drops exactly the pools unused for more than thirty seconds, and closes their idle connections |
| Tunnel.RunInv | internal/proxy/tunnel.go:19-96 | The time stamp is never older than a report, and all bytes are accounted for, in every run |
| TunnelEnds.ClosedExactly | internal/proxy/tunnel.go:19-96 | A tunnel is closed exactly if it is over, was found idle, a copy failed, or data ended on a connection that cannot be closed half |
| TunnelEnds.HalfCloseLeavesOther | internal/proxy/tunnel.go:84-90 | After an end of data on a connection that can be closed half, the other direction is as it was and goes on moving data |
| TunnelEnds.OpenUntilClosed | internal/proxy/tunnel.go:19-96 | A direction that copies can move data exactly until one of those steps |
| TunnelEnds.StoppedForGood | internal/proxy/tunnel.go:47-52 | After one of those steps nothing moves in either direction |
| TunnelEnds.FaultExactly | internal/proxy/tunnel.go:74-95 | A direction ends with a timeout exactly if it found the tunnel idle, with a failure exactly if its copy failed, and without an error at the end of its data or when the tunnel was closed |
| TunnelEnds.WokenTooEarly | internal/proxy/tunnel.go:65-81 | A direction whose deadline passed before the timeout copies on, and nothing else changes |
| TunnelEnds.NeverIdleWithoutTimeout | internal/proxy/tunnel.go:66-68 | Without a timeout no tunnel is closed as idle |
| TunnelEnds.TotalsExactly | internal/proxy/tunnel.go:19-33 | When the tunnel is over, the totals are the bytes that moved in each direction |
| TunnelEnds.LastMoveExactly | internal/proxy/tunnel.go:62-82 | The time of the last data is that of the last step that moved some, or the start |
| Tunnel.IdleMeansNoReports | internal/proxy/tunnel.go:43-81 | An idle close means that in the whole timeout no copy that carried data has returned, in either direction |
| Tunnel.IdleMeansNoData | internal/proxy/tunnel.go:62-82 | With prompt deadlines no data has moved in that time either, but for the last check interval |
| Tunnel.SlackIsOneCheck | internal/proxy/tunnel.go:58-82 | For every timeout: data can have moved so long before an idle close, during the timeout, exactly if it was at most one check |
| Tunnel.ClosedWhileDataMoves | internal/proxy/tunnel.go:58-61 | For every timeout and every delay up to one check, a run in which data moved that long before the close |
| Tunnel.SilentTunnelEnds | internal/proxy/tunnel.go:62-82 | Both directions are over within the timeout and two checks of the last data |
| Tunnel.ClosedOnceAndCounted | internal/proxy/tunnel.go:19-52 | The connections are closed once, and the totals are the bytes that moved |
| Tunnel.NeverStuck | internal/proxy/tunnel.go:62-82 | Promptness never asks for something impossible |

## Left out

- Buckets.WindowBound: float64 rounding is not modelled, tokens are real numbers; the bucket is a value that a call returns rather than fields it changes.
- Race.StepKeeps: the loop of `dialParallel` is a state with steps rather than a method, and so is `pipe` in `Tunnel`.
- Meanings.UserExprFitsWhole: for an expression that is one by itself. A text such as `a)|(b`, which is one only inside the brackets that the program puts around it, is taken as it compiles, because the syntax of user expressions is not modelled.
- LimitsRates.ClientRateBound: for a record whose forgetting cannot be noticed, the condition of `LimitsForgetting.ForgettingExactly`; with a slower bucket a client can get more after it was forgotten.
- Dial.DialSerial: no time passes between attempts, and an attempt ends when its context does.
- Pools.UpstreamPools.GetTransport: a transport is the destination its dialer captured; connection reuse inside `http.Transport` is not modelled.
- PoolKeys.PoolKey: `slices.Sort` is a function with the contract of sorting, not the library's algorithm.
- DnsProgress.ComesToRest: an upstream lookup is a step that can be taken, so one that never returns is not considered; the program bounds it by a timeout of five seconds.
- LimitsForgetting.ForgettingUnseen: an address that has to share a record after its own was forgotten may notice, because its requests are then counted elsewhere.
- Requests.CheckRequest: the tracker's answer and the idle timeout are parameters; the race that decides when the second family is started is in `Race`.
- `Tracked` of the tracker, `Policy.Check`, `Name` and `Subnets`: each only reads what others have put there.
- The wording of errors and of reasons.
- Text parsing in `net/netip`, user expressions in `regexp`, and strings that are not valid UTF-8.
- HTTP serving, hijacking, headers, bodies and logging in `internal/proxy`, and the listener.
- Configuration files, reloading and signals in `internal/config`, and `cmd/proxy-acl`.
- The memory model and fairness of the Go scheduler: steps are atomic, and what is proved about progress is that a step is possible.

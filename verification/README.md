# Verified model of the dns2ipset pipeline

dns2ipset watches DNS responses, matches the names in them against a rule file
by domain suffix, and writes the resolved addresses into kernel ipsets with a
timeout derived from the DNS TTL. This project models its userspace part in
Dafny and proves what it does. `dafny verify dfyconfig.toml` checks everything.

The model has two layers.

**Sequential components**, each an object or algorithm in the program's own form,
proved against a specification about which the actual claims are then proved:

| module | models |
|---|---|
| `DomainNames` | normalisation, label splitting, and the string-level meaning of suffix matching |
| `SuffixTrie` | the heap trie: `Insert` and `Lookup` over linked nodes, without sharing |
| `Rules`, `RuleProperties` | rule validation, `BuildTrie`, and the string-only reference for which rule a name gets |
| `RuleStore` | the snapshot store and the reload closure |
| `Dedup` | the LRU cache with a sliding time-to-live, against the whole history of calls |
| `DnsParse`, `ParseProperties` | parsing after unpacking: address collection and CNAME mirroring in an arbitrary map order, against the fields of the message |
| `IpsetClient` | TTL arithmetic with 64-bit and 32-bit bounds, the kernel's sets, the rate-limited miss log |
| `Dispatch`, `DispatchProperties`, `Timeouts` | which names are looked up, which writes are attempted, what they leave in the sets |
| `Events`, `Pipeline` | `handle` as one undisturbed call on the objects above |

**The concurrent run**: `PipelineRun` is `Pipeline.Run` as a state machine. The
source, the main goroutine, each worker, cancellation and rule replacement take
steps in any order; a step is one operation on shared state. Handling one event
takes a worker several steps: count it, read the clock, read the cache, write the
cache, parse, load the rules, and then, under the rules it has loaded, one step for
each lookup and two for each write, the call and its counter. Rules can be replaced
between any two of these steps. `Reachable` covers every interleaving, every
cancellation point, any number of workers, any source list, any series of rule
replacements, any clock readings and any map iteration order. `PipelineSafety`,
`PipelineDedup`, `PipelineHistory`, `PipelineWrites`, `PipelineResults`,
`PipelineReloads`, `PipelineCounters` and `PipelineLiveness` prove what all runs have in common, and `PipelineSolo` ties the machine's steps to
the sequential `handle`. The two layers share one set of functions (the cache
operations, the parse result, the calls of a response, the effect of a write).

Parameters of the model: the hash of a payload and the decoding of a payload are
arbitrary functions, the clock readings are arbitrary integers (a non-decreasing
clock is an assumption only where a lemma says so), and the iteration order of the
CNAME map is an arbitrary duplicate-free listing of its keys.

## Findings

Where the program's documentation promises more than its code does, the model
follows the code and the promise is replaced by an exact condition:

- ARCHITECTURE.md:156 promises a logged warning for every duplicate domain. The
  program logs none: the loader collects warnings in a list
  (internal/rules/loader.go:58) that neither the initial load nor the reload closure
  (cmd/dns2ipset/main.go:37-57) reads, so the promise fails for every duplicate. The
  list itself is not always complete either: duplicates are compared after trimming
  one dot, and the trie trims another (internal/rules/loader.go:50,
  internal/rules/trie.go:66), so rules written `a` and `a..` are cleaned to `a` and
  `a.` and share a node without an entry. The list names every override if and only if
  no two cleaned domains differ by one trailing dot (`OverridesReportedIff`, with
  `SilentOverride` as the concrete file).
- The loader accepts rules that match nothing. A rule written `..` covers no string
  (`DeadRule`, `DeadRuleLoads`), and one written `a..b` covers only names with an empty
  label, which no unpacked DNS name has (`GapRuleLoads`). A rule matches some name
  without empty labels if and only if it has labels and none of them is empty
  (`LiveRule`).
- ARCHITECTURE.md:187-188 speaks of the full chain of answer names. Mirroring
  goes one alias deep, so every name of a chain from the query name to its
  addresses is looked up if and only if the chain has at most two hops
  (`ChainLookedUpIff`, with `ThreeHopsSkipAName` as the concrete message).
- The timeout left for an address can depend on the iteration order of the CNAME
  map (`OrderCanMatter`). The final sets are the same for every order if and only if
  all aliases agree on the timeout of every address written
  (`KernelWithoutOrderIff`); membership never depends on it.
- The clamp keeps every TTL inside its bounds if and only if the bounds are in
  order (`ClampStaysInside`). With positive whole-second bounds in order, the timeout
  equals the clamped TTL in seconds if and only if the lower bound fits 32 bits
  (`TimeoutIsClampedTtl`).
- ARCHITECTURE.md:194 describes another deduplication key than the payload hash
  that internal/dedup/dedup.go:27-29 computes; the model uses the code's.

## Model

| member | source | states |
|---|---|---|
| DomainNames.JoinSplit | internal/rules/trie.go:70 | joining the labels of a name with dots gives the name back |
| DomainNames.SplitJoin | internal/rules/trie.go:70 | any list of dot-free labels survives joining and splitting |
| DomainNames.LabelAlignment | internal/rules/trie.go:52-61 | the labels of d end those of n exactly when n is d or ends with a dot followed by d: no match inside a label |
| DomainNames.CoversIsPathPrefix | internal/rules/trie.go:5-8 | the walk from the top-level label down reaches d's node on the way to n exactly when, lower-cased and without one trailing dot, both are non-empty and n is d or a subdomain of d |
| DomainNames.PathInjective | internal/rules/trie.go:65-71 | two names share a trie node exactly when they are equal after normalisation |
| DomainNames.FewerLabelsIsShorter | internal/rules/trie.go:7-8 | among domains covering one name, closest to the root and shortest string are the same thing |
| DomainNames.Normalized | internal/rules/trie.go:66 | normalising drops at most one trailing dot, changes the case of letters only, and leaves no capital letter |
| DomainNames.CaseIsIgnored | internal/rules/trie.go:6-7 | names that differ in the case of letters alone share a trie node |
| DomainNames.Trimmed | internal/rules/loader.go:50 | trimming takes white space off both ends, and all of it |
| SuffixTrie.ShortestLen | internal/rules/trie.go:7-8 | the length found is that of a bound prefix, no shorter one is bound, and 0 means none is |
| SuffixTrie.Trie.constructor | internal/rules/trie.go:19-25 | a new trie is a valid tree of fresh nodes that binds nothing |
| SuffixTrie.Trie.Insert | internal/rules/trie.go:27-44 | the nodes remain an unshared tree, only own or fresh nodes are touched, and exactly the domain's path is rebound; a domain without labels changes nothing |
| SuffixTrie.Trie.Descend | internal/rules/trie.go:32-41 | walking down creates missing nodes only, keeps every binding, and ends on the one node of the path |
| SuffixTrie.Trie.AddChild | internal/rules/trie.go:36-39 | hanging up one fresh node keeps the nodes an unshared tree |
| SuffixTrie.Trie.Mark | internal/rules/trie.go:42-43 | marking a node binds its path and no other |
| SuffixTrie.Trie.Lookup | internal/rules/trie.go:46-63 | the result is the value bound at the shortest non-empty label suffix of the name, or nothing |
| SuffixTrie.Trie.Walk | internal/rules/trie.go:51-62 | the loop with its early exits finds the shortest bound prefix of the path |
| SuffixTrie.Trie.NothingBelow | internal/rules/trie.go:53-56 | a missing child rules out every longer match, so giving up early is right |
| Rules.CheckEntry | internal/rules/loader.go:46-56 | an entry is cleaned and accepted, or refused with exactly its own error |
| Rules.LoadRules | internal/rules/loader.go:37-64 | loading succeeds if and only if the version is 1 and no entry is faulty; then the rules are the cleaned entries with one warning per repeated domain; otherwise the error is the version's or that of the first faulty entry |
| Rules.LastBeforeIsLast | internal/rules/loader.go:45 | the index a warning names is that of the latest earlier rule with the domain |
| Rules.EntryErrors | internal/rules/loader.go:46-56 | an entry is accepted exactly when its cleaned domain is not empty and at least one set is named; each error exactly for its own fault |
| Rules.CleanedRule | internal/rules/loader.go:50 | cleaning keeps both sets and takes from the domain the surrounding white space, one trailing dot and the case of its letters, nothing else |
| Rules.WarningContents | internal/rules/loader.go:57-61 | each warning names a rule, its domain and the latest earlier rule with that domain, in rule order |
| Rules.BuildTrie | internal/rules/loader.go:68-75 | the trie is made of fresh nodes only and holds the rules entered in order |
| Rules.WinnerIsBest | internal/rules/trie.go:5-8 | the reference on strings: the winner covers the name and beats every other covering rule, by a shorter domain or by coming later |
| Rules.MatchIsWinner | internal/rules/trie.go:46-63 | what the built trie returns is the winner of the string-only contest, for every rule list and name |
| Rules.NameCaseIgnored | internal/rules/trie.go:6-7 | names that differ in case alone get the same rule |
| Rules.DomainCaseIgnored | internal/rules/trie.go:6-7 | rules whose domains differ in case alone win for the same names |
| RuleProperties.ReportedIffRepeated | internal/rules/loader.go:57-61 | the list of warnings names a rule exactly when an earlier one has the very same domain string |
| RuleProperties.OverridesReportedIff | internal/rules/loader.go:57-61 | for the rules of any file that loads, the returned list of warnings names every override if and only if no two domains differ by one trailing dot |
| RuleProperties.SilentOverride | internal/rules/loader.go:50 | a concrete file that loads with an empty list of warnings although its second rule replaces its first |
| RuleProperties.DeadRule | internal/rules/trie.go:28-31 | an accepted rule covers some string if and only if its cleaned domain is not a single dot |
| RuleProperties.DeadRuleLoads | internal/rules/loader.go:50-53 | a rule written `..` passes validation and matches no name |
| RuleProperties.LiveRule | internal/rules/trie.go:46-71 | a domain matches some name without empty labels if and only if it has labels and none of them is empty |
| RuleProperties.GapRuleLoads | internal/rules/loader.go:50-53 | a rule written `a..b` passes validation and matches no name without empty labels |
| RuleProperties.InsertsCommute | internal/rules/loader.go:70-73 | neighbouring rules with different nodes can be exchanged without effect: order settles ties only |
| RuleProperties.PrunedMembers | internal/rules/loader.go:66-75 | pruning keeps exactly the rules no other rule makes useless |
| RuleProperties.SurvivorIsTopmost | internal/rules/trie.go:57-59 | a rule survives pruning exactly when its node is topmost and it is the last rule there |
| RuleProperties.PruningPreservesMatch | internal/rules/trie.go:46-63 | removing every covered or overridden rule changes the lookup of no name |
| RuleProperties.PrunedMatchIsUnique | internal/rules/trie.go:46-63 | on the remaining rules at most one rule covers a name: shortest, longest and only match coincide |
| RuleProperties.SurvivorIsNeeded | internal/rules/trie.go:46-63 | a rule survives pruning exactly when it is the one its own domain finds |
| RuleStore.Store.Get | internal/rules/store.go:18-24 | the current rule set, or nothing before the first publication |
| RuleStore.Store.Trie | internal/rules/store.go:26-32 | the published trie, intact and holding the published rules |
| RuleStore.Store.Replace | internal/rules/store.go:34-42 | publishes the rules with a trie of fresh nodes, writing nothing else; a nil rule set changes nothing |
| RuleStore.Reloader.Reload | cmd/dns2ipset/main.go:46-57 | publishes a file that loads and keeps the previous snapshot otherwise, counting each outcome |
| RuleStore.Reloader.ReloadAll | cmd/dns2ipset/main.go:46-57 | after any series of reloads the last file that loads is in force, and a trie handed out earlier keeps all its lookups |
| Dedup.Lru.Get | internal/dedup/dedup.go:31 | the stored time, the entry becoming the most recent one |
| Dedup.Lru.Add | internal/dedup/dedup.go:35 | the entry becomes the most recent one and the oldest beyond the size goes |
| Dedup.MovesToFront | internal/dedup/dedup.go:31-32 | a hit moves its entry to the front with its time, a write with the new time, and no other entry moves |
| Dedup.JoinsAtFront | internal/dedup/dedup.go:35 | a miss moves nothing; a new key joins at the front and the last entry goes when the cache is full |
| Dedup.Dedup.New | internal/dedup/dedup.go:16-22 | a filter with no history, or an error exactly for a non-positive size |
| Dedup.Dedup.Seen | internal/dedup/dedup.go:26-37 | true exactly when the hash was last sighted less than the time-to-live ago with fewer than `size` distinct other hashes since; the sighting is recorded either way |
| Dedup.CacheIsRecent | internal/dedup/dedup.go:16-37 | the bounded cache is the front of the list of all hashes ordered by last sighting |
| Dedup.CacheLookup | internal/dedup/dedup.go:31 | what the cache holds for a hash, in terms of the history alone |
| Dedup.AnswerIsHistory | internal/dedup/dedup.go:24-25 | for every history and position, the answer is the statement about the history |
| Dedup.NeverFalselySeen | internal/dedup/dedup.go:26-37 | the bounded cache never claims a sighting that a map without eviction does not know |
| Dedup.BoundedAgreesWithUnbounded | internal/dedup/dedup.go:26-37 | with a clock that never goes back and at most `size` distinct hashes per window, the bound makes no difference |
| DnsParse.Parse | internal/dnsparse/parser.go:31-91 | the result is the response or the error that the message determines, for some order of the aliases; a payload that does not unpack is malformed |
| DnsParse.Collect | internal/dnsparse/parser.go:51-69 | the address records in answer order and the last target of every alias |
| DnsParse.Mirror | internal/dnsparse/parser.go:71-85 | after the addresses, each alias's copies once, in some order of the aliases |
| DnsParse.Copies | internal/dnsparse/parser.go:78-84 | all address records of the alias's target under the alias's name |
| DnsParse.RecordPresence | internal/dnsparse/parser.go:71-85 | a record is present exactly when an address record with its family, address and TTL is owned by its name or by the target of its name: nothing invented, nothing lost |
| DnsParse.RecordCount | internal/dnsparse/parser.go:71-85 | how often each record occurs, in terms of the message alone |
| DnsParse.NoUsableIffNoAddress | internal/dnsparse/parser.go:42-44 | a NOERROR response is unusable exactly when it has no A and no AAAA answer |
| DnsParse.RecordsUpToOrder | internal/dnsparse/parser.go:77 | any two map orders give the same multiset of records |
| ParseProperties.AliasIsLast | internal/dnsparse/parser.go:66-67 | the alias table holds for each owner the target of its last CNAME |
| ParseProperties.AddressesFirst | internal/dnsparse/parser.go:55-72 | the records start with those of the A and AAAA answers in answer order, each with its answer's owner, family, address and TTL |
| ParseProperties.RecordRepeatsAnswer | internal/dnsparse/parser.go:55-85 | a record is present exactly when some A or AAAA answer has its family, its address (nil only without data) and its TTL, and is owned by the record's name or by the target of its alias |
| ParseProperties.RecordMultiplicity | internal/dnsparse/parser.go:55-85 | how often a record occurs, counted over the answers |
| ParseProperties.ParseOutcome | internal/dnsparse/parser.go:36-49 | which messages are refused with which error, and the header of an accepted one |
| IpsetClient.TtlDurationIsExact | internal/pipeline/pipeline.go:148 | the product of a 32-bit TTL and one second never overflows 64 bits |
| IpsetClient.ClampStaysInside | internal/ipset/client.go:20-32 | every duration is clamped into the bounds if and only if the bounds are in order |
| IpsetClient.ClampIsNearest | internal/ipset/client.go:20-32 | the clamp is the point of the bounds closest to a positive duration; a non-positive one becomes the minimum |
| IpsetClient.WholeSeconds | internal/ipset/client.go:53 | a non-negative duration is written as its whole seconds, exactly when they fit 32 bits |
| IpsetClient.TimeoutIsClampedTtl | internal/ipset/client.go:53 | with whole-second bounds, every timeout written is the TTL clamped in seconds if and only if the lower bound fits 32 bits |
| IpsetClient.Netlink.Add | internal/ipset/client.go:49-68 | a set that does not exist is missing, and exactly then a miss is recorded; bad arguments are refused first; anything else is written and an address already present gets the new timeout |
| IpsetClient.Netlink.RateLimitedMissLog | internal/ipset/client.go:72-84 | logs exactly when the set was not logged within the last minute |
| IpsetClient.LogsAreSpaced | internal/ipset/client.go:79-81 | two logs for one set are at least a minute apart |
| IpsetClient.SilenceIsJustified | internal/ipset/client.go:79-81 | every unlogged miss falls less than a minute after a logged one of its set |
| IpsetClient.LogsPerWindow | internal/ipset/client.go:35 | any closed window of length T holds at most T / 1 minute + 1 logs of a set |
| Dispatch.UniqueNames | internal/pipeline/pipeline.go:175-187 | the query name and the record owners, each once, in order of first appearance |
| Dispatch.LookedUpNames | internal/pipeline/pipeline.go:127 | a name is looked up exactly when it is the query name, owns an address or is an alias of an owner |
| Dispatch.ChainLookedUpIff | internal/dnsparse/parser.go:74-85 | all names of an alias chain from the query name to its addresses are looked up if and only if it has at most two hops |
| Dispatch.ThreeHopsSkipAName | internal/dnsparse/parser.go:74-85 | a concrete three-hop chain with a name that is never looked up, whatever the order |
| Dispatch.CallMembership | internal/pipeline/pipeline.go:127-149 | a write is attempted exactly when some looked-up name's rule sends some record to it |
| Dispatch.WritesAreCalledFor | internal/pipeline/pipeline.go:127-164 | the writes are, for each matched rule, all A addresses into its v4 set and all AAAA addresses into its v6 set, whatever the map order |
| DispatchProperties.OneWritePerPair | internal/pipeline/pipeline.go:127-149 | the writes are exactly one for each pair of a looked-up name with a rule and a record whose family the rule has a set for, names outermost, in order, each into the set of its family with the record's address and clamped TTL |
| DispatchProperties.LookupOrder | internal/pipeline/pipeline.go:175-187 | the query name is looked up first and the owners in the order in which the records mention them |
| DispatchProperties.LookedUpMeans | internal/pipeline/pipeline.go:127 | a name is looked up exactly when it is the question's, owns an address answer or is an alias of an owner |
| DispatchProperties.CalledForMeans | internal/pipeline/pipeline.go:136-147 | what a message calls for, on its answers: A addresses into the v4 sets and AAAA addresses into the v6 sets of the matched rules |
| DispatchProperties.WritesByFamily | internal/pipeline/pipeline.go:136-149 | an address is written into a set exactly when some looked-up name has a rule that names the set for the family of an answer with that address |
| Dispatch.CallsUpToOrder | internal/pipeline/pipeline.go:136-149 | any two map orders attempt the same multiset of writes |
| Dispatch.OutcomeWithoutOrder | internal/dnsparse/parser.go:77-89 | whether parsing succeeds, and its error, do not depend on the map order |
| Timeouts.ReplayEntry | internal/ipset/client.go:54-58 | after any series of writes an entry holds the timeout of its last write, or what it held before |
| Timeouts.LastWrite | internal/pipeline/pipeline.go:136-149 | an entry the message calls for is last written with the clamped TTL of the last record of its address |
| Timeouts.EffectEntry | internal/pipeline/pipeline.go:123-165 | every entry of every set after a message, in terms of the message and the rules |
| Timeouts.MembershipWithoutOrder | internal/dnsparse/parser.go:77 | set membership never depends on the map order |
| Timeouts.LastVisitedDecides | internal/dnsparse/parser.go:77-85 | the alias visited last decides the timeout of the addresses of its target |
| Timeouts.AgreementSuffices | internal/dnsparse/parser.go:77-85 | if the aliases agree on an address, every order ends on the same timeout |
| Timeouts.AgreementIsNeeded | internal/dnsparse/parser.go:77-85 | if they do not, two orders end on different timeouts |
| Timeouts.KernelWithoutOrderIff | internal/dnsparse/parser.go:77-85 | the final sets with timeouts are the same for every order if and only if the aliases agree on every address written |
| Timeouts.OrderCanMatter | internal/dnsparse/parser.go:77 | a concrete message, rule and set: the address ends in the set with 200 or with 100 seconds depending on the order |
| Pipeline.Handler.CountDirection | internal/pipeline/pipeline.go:102-109 | the event is counted under its direction, or under none |
| Pipeline.Handler.Screen | internal/pipeline/pipeline.go:102-115 | the event is counted and its sighting recorded, and a duplicate counted as one |
| Pipeline.Handler.WriteOne | internal/pipeline/pipeline.go:148-162 | one write is attempted and counted as a write, as a missing set or as another error |
| Pipeline.Handler.WriteRecords | internal/pipeline/pipeline.go:136-163 | one attempt per record whose family has a set, in record order |
| Pipeline.Handler.WriteName | internal/pipeline/pipeline.go:128-163 | a name without a match does nothing; with one, the match is counted and the records are written under its rule |
| Pipeline.Handler.WriteNames | internal/pipeline/pipeline.go:127-164 | the loops perform exactly the calls of the response under the one trie loaded, and count every match |
| Pipeline.OutcomesAddUp | internal/pipeline/pipeline.go:149-162 | writes, missing sets and other errors together are the writes attempted |
| Pipeline.Handler.Dispatch | internal/pipeline/pipeline.go:116-164 | parse, load the rules once, write: the verdict, the writes and the counters that the payload and the rules in force determine |
| Pipeline.Handler.Handle | internal/pipeline/pipeline.go:101-165 | a duplicate in the sense of the history is only counted; any other event meets the fate its payload and the rules in force determine, with its effect on sets and on every counter |
| PipelineRun.Config.Workers | internal/pipeline/pipeline.go:39-42 | a positive worker count is kept and any other means exactly one worker |
| PipelineSafety.ChannelsStep | internal/pipeline/pipeline.go:55-87 | every step keeps the channel protocol: capacities, who may have reported, no send on the closed channel |
| PipelineSafety.ConservedStep | internal/pipeline/pipeline.go:91-99 | every step keeps: handled, in hand and queued together are the events sent, as multisets |
| PipelineSafety.HeldOnce | internal/pipeline/pipeline.go:96-98 | an event in a worker's hands is in no other's and not yet handled |
| PipelineSafety.HandledOnce | internal/pipeline/pipeline.go:96-98 | a handled event is in nobody's hands |
| PipelineSafety.InOrderStep | internal/pipeline/pipeline.go:91-99 | every step keeps: a single worker handles events in source order |
| PipelineSafety.NothingLost | internal/pipeline/pipeline.go:91-99 | in every reachable state each event sent is in exactly one place, and the channel is closed only after the source has stopped |
| PipelineSafety.SendBlocksWhenFull | internal/pipeline/pipeline.go:55 | a running source can send exactly while fewer than 1024 events are queued |
| PipelineSafety.ReturnMeansDrained | internal/pipeline/pipeline.go:49-50 | when Run returns the channel is empty, all workers have exited, and exactly the events sent have been handled, once each, in order with one worker |
| PipelineSafety.ReportNeverBlocks | internal/pipeline/pipeline.go:75 | a finishing worker always finds room to report |
| PipelineLiveness.MeasureDecreases | internal/pipeline/pipeline.go:51-99 | every step of the pipeline lowers a lexicographic measure, and rule replacement and cancellation leave it alone |
| PipelineLiveness.StuckIffReturned | internal/pipeline/pipeline.go:80-86 | once cancelled, no step is possible if and only if Run has returned: no deadlock |
| PipelineLiveness.RestsOnlyWhenIdle | internal/source/fake/fake.go:14-24 | before cancellation the pipeline rests only with the whole source list handled and every worker waiting |
| PipelineLiveness.EverythingCanBeHandled | internal/source/fake/fake.go:14-24 | some run sends the whole source list, handles every event once and returns |
| PipelineLiveness.RunReturns | internal/pipeline/pipeline.go:49-87 | from every cancelled reachable state the pipeline's own steps can lead to the return of Run |
| PipelineLiveness.RestMeansReturned | internal/pipeline/pipeline.go:49-87 | any interleaving after cancellation can only come to rest with Run returned |
| PipelineLiveness.EveryFairRunReturns | internal/pipeline/pipeline.go:49-87 | every endless run with a cancelled context in which the pipeline is not kept from moving forever reaches the return of Run and stays there |
| PipelineLiveness.FinitelyManySteps | internal/pipeline/pipeline.go:51-99 | in any endless run the pipeline itself takes only finitely many steps |
| PipelineDedup.GroundedStep | internal/dedup/dedup.go:30-35 | every step keeps: cache entries, pending answers and recorded hits rest on completed sightings, although reading and writing are separate steps |
| PipelineDedup.AccountedStep | internal/pipeline/pipeline.go:110-116 | every step keeps: verdicts and sightings correspond |
| PipelineDedup.ChainFrom | internal/dedup/dedup.go:31-34 | every sighting leads back, in gaps under the time-to-live, to one that was let through |
| PipelineDedup.SuppressionIsJustified | internal/dedup/dedup.go:24-37 | in every reachable state, every suppressed event leads back to one of the same hash that was not suppressed |
| PipelineDedup.EveryHashParsed | internal/pipeline/pipeline.go:110-116 | when Run returns, every hash delivered has been given to the parser at least once |
| PipelineHistory.SightedOnceWork | internal/pipeline/pipeline.go:110-116 | every step of a worker keeps: the events sighted are those handled and those in hand past the duplicate test, as multisets |
| PipelineHistory.EachEventSightedOnce | internal/pipeline/pipeline.go:110 | when Run returns, the events sighted are the events sent, once each |
| PipelineHistory.OneWorkerAnswersHistory | internal/dedup/dedup.go:26-37 | with one worker the answers recorded in any reachable state are, in source order, exactly the statement about the history |
| PipelineHistory.OneWorkerVerdicts | internal/pipeline/pipeline.go:110-116 | with one worker the events are handled in source order and one is a duplicate exactly when the history of sightings says its hash was seen before |
| PipelineWrites.JustifiedStep | internal/pipeline/pipeline.go:123-149 | every step keeps: an event's lookups and writes so far and to come are those of the one rule list it loaded, and the kernel is the initial one with all writes replayed |
| PipelineResults.WriteIsJustified | internal/pipeline/pipeline.go:123-163 | in every reachable state every write traces to a delivered event, a published rule list, a looked-up name, the rule that list gives it, a record of the set's family and its clamped TTL |
| PipelineResults.LookupsShareOneList | internal/pipeline/pipeline.go:123-128 | in every reachable state every lookup of an event was answered by the one rule list it loaded, whatever was published in between |
| PipelineResults.LoadIsFinal | internal/pipeline/pipeline.go:123 | an event's rule list is the one published last when it is loaded and is never exchanged; an event is handled without rules only while none are published |
| PipelineReloads.RulesInForce | internal/rules/store.go:34-42 | at every moment of every run the rules in force are those of the last replacement, or the initial ones; the published lists are the initial one and the replacements in order |
| PipelineReloads.EventMeetsLatest | internal/pipeline/pipeline.go:123-126 | an event loads the rules of the last replacement before it, and is put away without rules only if there never were any |
| PipelineReloads.EnvironmentIsFree | internal/rules/store.go:34-42 | rules can be replaced and the context cancelled at any moment, which does nothing else |
| PipelineReloads.ClockAndOrderAreFree | internal/dedup/dedup.go:30 | a worker's step is possible for any clock reading, and for any order of the aliases where it parses; the reading is the one it keeps |
| PipelineReloads.EventData | internal/pipeline/pipeline.go:101-116 | hash, message and direction of an event are those of its own payload and direction |
| PipelineResults.WriteOutcome | internal/ipset/client.go:49-68 | in every reachable state a write met a missing set exactly when the kernel has no set of that name and the address is not nil |
| PipelineResults.WritesArePrefix | internal/pipeline/pipeline.go:127-164 | at any moment the lookups and writes of an event are the first ones of its lookups and calls, and an event without a rule list has none |
| PipelineResults.EveryEventSettled | internal/pipeline/pipeline.go:101-165 | when Run returns, every delivered event has exactly one verdict, which its payload, the cache and the rules justify; a dispatched one was parsed for some alias order and has had all its names looked up and all its writes performed under one published rule list, once each, in order |
| PipelineResults.FinalMembership | internal/pipeline/pipeline.go:127-164 | when Run returns, each set holds what it held before and what the dispatched events call for, and nothing else |
| PipelineResults.AskedIsDispatched | internal/pipeline/pipeline.go:110-116 | whatever a delivered event asks for, some event with its payload was dispatched for |
| PipelineResults.RunMeansUnion | internal/pipeline/pipeline.go:33-34 | without reloads and hash collisions every interleaving leaves exactly the initial entries and those that some delivered event asks for: deduplication, concurrency and map order are invisible |
| PipelineResults.TimeoutsAreClampedTtls | internal/ipset/client.go:20-53 | in every reachable state an entry is in its set exactly when it was there or was written; unwritten it is as it was, and written it holds the TTL of the very record its last write sent, clamped to the bounds, in seconds |
| PipelineCounters.CountersStep | internal/pipeline/pipeline.go:101-163 | every step keeps: each counter is a count over the history, up to the events and writes not counted yet |
| PipelineCounters.CountersHold | internal/pipeline/pipeline.go:101-163 | the counters agree with the history in every reachable state, matches per domain included |
| PipelineCounters.CountersAlwaysBalance | internal/pipeline/pipeline.go:101-163 | in every reachable state events counted are duplicates, parse errors, events passed on and those in flight, and writes attempted are writes, errors and those not yet counted |
| PipelineCounters.CountersBalance | internal/pipeline/pipeline.go:101-163 | when Run returns, events counted are duplicates, parse errors and events passed on, and writes and errors add up to the writes attempted |
| PipelineCounters.DirectionsCounted | internal/pipeline/pipeline.go:103-108 | when Run returns each direction's counter is the number of events sent with it |
| PipelineCounters.OutcomesCounted | internal/pipeline/pipeline.go:149-162 | when Run returns the missing-set counter is the number of writes to absent sets and the write counter that of the writes to present ones |
| PipelineCounters.MatchesCounted | internal/pipeline/pipeline.go:133-135 | in every reachable state a domain's match counter is the number of lookups that found a rule with it |
| PipelineSolo.WritesAlone | internal/pipeline/pipeline.go:127-164 | undisturbed, a worker's lookup and write steps amount to performing its calls in order |
| PipelineSolo.SeenAlone | internal/dedup/dedup.go:30-35 | undisturbed, the separate clock, read and write of the cache amount to one `Seen` |
| PipelineSolo.UndisturbedIsHandle | internal/pipeline/pipeline.go:101-165 | undisturbed, a worker's steps from receiving an event to putting it away leave the verdict, cache, kernel and counters of one `Handle` |

## Left out

- The eBPF program, its loader and the ring-buffer source: the fake source follows the same channel protocol and stands for any finite source.
- A source that returns an error, or that returns before cancellation: the fake source does neither.
- The DNS wire format: a payload decodes to an abstract message by an arbitrary function. A record without data keeps its nil address.
- Reading and decoding the YAML file: loading starts from a version and a list of optional rules.
- The FNV hash: an arbitrary function, so results about duplicates are per hash, and only `RunMeansUnion` assumes that no two delivered payloads collide.
- Unicode: lower-casing and white space are ASCII.
- The file watcher, signals, flags, HTTP, logging and the metrics registry. Counters are plain numbers or bags of labels; the labels of the write counter and the in-flight gauge are not kept.
- Running without metrics, and the missing-dependency check of `Run` (internal/pipeline/pipeline.go:52-54).
- How errors are classified by their text.
- IpsetClient.Netlink.Add: does not model the kernel refusing an entry of an existing set, because what it refuses is not visible in the program; such a call would leave the entry as it was and count as another error.
- Kernel expiry of entries, and sets created or destroyed while the program runs: the collection of sets is fixed.
- Pointer identity of rules and rule sets, which are values here: a caller that changed a published rule in place would not be noticed.
- Which of two concurrent reloads publishes last: `Replace` is one step at any time, with any rule list.
- The linked list and hash map inside the LRU library: the cache is the list of its entries, most recent first.
- The miss log inside the concurrent run: its callers are serialised by a mutex, so any interleaving of callers is one of the histories that `IpsetClient` quantifies over.
- IpsetClient.TimeoutOf: does not model the float rounding of fractional-second durations, and the conversion of seconds outside 32 bits, which depends on the implementation, is left undetermined.
- PipelineResults.RunMeansUnion: assumes that the rules are not replaced and that delivered payloads do not collide, because a duplicate is then handled under the rules of its first sighting, and a colliding payload is never parsed; `FinalMembership` holds without either.
- Pipeline.Handler.WriteOne: does not keep the set and family labels of the write counter, because they are functions of the writes attempted.
- PipelineHistory.OneWorkerAnswersHistory: assumes a positive cache size, because `Dedup.New` refuses any other; with several workers the answers depend on the interleaving and `SuppressionIsJustified` is what remains.
- Dedup.Dedup.Seen: does not model the saturation of `time.Duration` when two clock readings are more than 292 years apart.

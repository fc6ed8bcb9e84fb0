# Soroban in Dafny

Soroban is a peer-to-peer directory: under each key it keeps many values for a limited time.
Clients use it as a meeting place, nodes copy each other's Adds and Removes.  This project
models its core and proves what the parts promise, alone and together.

| module | what it is about |
|---|---|
| `TimedStore`, `Lifetimes` | the directory as a value: three operations on a map of timed lists; how long a value lives, over every run |
| `Memory` | the same operations on the heap: pointer lists with spare capacity in a cache, purged, shifted and extended in place |
| `Rpc`, `Rendezvous`, `Contents`, `Progress`, `Clients` | bounded polling, the Ping/Pong protocol of any number of pairs over one store, what its messages say, when it succeeds, and the two client loops as written |
| `TimedRendezvous`, `TimedRuns` | the rendezvous over the timed directory itself: each operation refines one of the rendezvous, whole runs too, and payloads taken in time never expire |
| `Roles`, `Replication`, `Relay`, `Flow`, `Convergence` | nodes, main processes and children that exchange messages which may be lost, repeated and reordered |
| `Wildcard`, `Confidential` | the glob compiler with its memo table, the choice of a rule, the signature gate |
| `DirectoryService` | the handlers of requests and messages, composed of all the above; each does what a step of `Replication` does |
| `Text` | decimal numbers, nonces, the texts that are signed |
| `Wrappers` | a value that may be missing |
| `Watchdog`, `Stats` | the receive loop's timers, request counts over sliding windows |

`TimedStore` is the hub.  The methods of `Memory.Memory` leave its `contents` exactly as the
`TimedStore` functions say, and `DirectoryService.Directory` keeps `contents` equal to
`Run(events)` for the history of its operations; so each lemma about `Run` holds of the heap
directory and of every node of `Replication`.  `Clients` plays the same part for the
rendezvous: the loops take exactly the steps of which `Rendezvous` speaks.  Its store is the
directory with expiry set free, which `TimedRendezvous` proves: under any injective naming of
directories and payloads each List, Add or Remove of `TimedStore` is an expiry, the operation
of `Rendezvous`, and an expiry.

Instants and durations are nanoseconds, except in `Stats`, which counts whole seconds.  The
clock, the answers to polls, random draws, the regexp engine for syntax that is not modelled
and the signature verifiers are parameters; every statement is for all of them.  Hashes and
ciphertexts are terms, keys of one domain have different hashes, and JSON and YAML say what
was put in.

## Where the code does other than it says

- README.md line 96 promises that the first matching rule is applied; a request's key can bring
  another (`Confidential.FirstApplied` says exactly for which configurations and keys the
  promise is kept, `Confidential.KeyDecides` shows where it is not).
- The comment at confidential/config.go:171 promises the first matching rule with the key; the
  *last* one is used (`Confidential.FirstPromised` has the exact condition,
  `Confidential.LastDecides` a failure).
- README.md lines 99-102 say that a confidential key's read must be signed; a rule that asks for
  a signature is bypassed if a lax one can be chosen instead
  (`Confidential.ListsWithoutSignature` and `Confidential.WritesWithoutSignature` say exactly
  when, `Confidential.LaxRuleBypasses` shows one).
- confidential/config.go:122 promises an exact match for a pattern without `*`, but does not
  quote it; among those that can be read the promise is kept exactly by the patterns without
  dot, anchor or backslash (`Wildcard.StarFreeMeansItself`; `Wildcard.TrailingBackslash` is the oddest
  failure).
- A list lives for the TTL of the latest Add to its key, though internal/memory/memory.go:75
  says that all values share one TTL; with mixed TTLs a value can vanish early
  (`Lifetimes.MixedTtl` says exactly when, `Lifetimes.ShorterAddLoses` shows one).
- clients/python/rpc.py:69 discards the answer to the last poll (`Rpc.WaitAndRemove`).
- A client may use the key `p2p.heartbeat`, but nothing added there reaches another directory
  (`Convergence.HeartbeatKeyStaysHome`).
- A Remove at a main process with children is forwarded to nobody (`Flow.RemoveStaysAtMain`),
  and an Add and a Remove that cross leave nodes apart (`Convergence.RemovesCross`;
  `Convergence.AgreeExactly` says exactly when two nodes agree).
- The signed texts of two Adds with different names can be equal
  (`Text.EntryTextCollisions` says exactly when, `Text.EntryTextsCollide` shows two).
- server/stats.go:137-138 adds Tor's three and six hour counts crosswise
  (`Stats.CrossedTotals`), and server/stats.go:93 can panic (`Stats.Stats.Cleanup` says exactly
  when, `Stats.CleanupPanics` shows logs with which it does).
- services/p2p.go:115-120 is never reached (`Roles.RolesExclude`, `DirectoryService.Directory.Receive`).

## Model

| member | source | states |
|---|---|---|
| Memory.PurgeKeyList | internal/memory/memory.go:160-169 | rewriting the slice that is being read, over its own backing array, leaves exactly the unexpired entries, in order |
| Memory.RemoveAt | internal/memory/memory.go:180-182 | shifting the tail of the array down by one drops the one entry at that place and keeps the order of the rest |
| Memory.Contains | internal/memory/memory.go:171-178 | finds the first place with the value, or reports -1 |
| Memory.Append | internal/memory/memory.go:92-103 | appending keeps everything that is there, whether or not a larger array has to be taken |
| Memory.Memory.GetKeyList | internal/memory/memory.go:148-158 | yields the very list that the cache holds, or a new empty one that it does not hold yet |
| Memory.Memory.List | internal/memory/memory.go:50-70 | the answer is a fresh array with what was stored before the purge; the state afterwards is that of the timed map |
| Memory.Memory.Add | internal/memory/memory.go:76-110 | refuses exactly what the timed map refuses; else renews the value in place or appends it, purges, and stores the list with its new deadline, as the timed map does |
| Memory.Memory.Remove | internal/memory/memory.go:113-136 | as the timed map: only a Remove that found its value re-stores the list with a new deadline; an empty list is deleted |
| Memory.Memory.Evict | internal/memory/memory.go:29-37 | the cache may drop any lists at any time; no other key is affected |
| TimedStore.UnexpiredMembers | internal/memory/memory.go:160-169 | an entry survives a purge exactly if its expiry is not before the limit |
| Lifetimes.ApplyHas | internal/memory/memory.go:50-136 | after any operation a value is stored with an expiry exactly if that operation wrote it so, or it was stored so and the operation neither wrote, nor evicted, nor outlived it or its list |
| Lifetimes.StoredExactly | internal/memory/memory.go:50-136 | over every run, evictions included: a value is stored with an expiry exactly if its latest write was an Add giving that expiry, no later operation on the key found it expired, and its list was neither evicted nor overdue at any operation since; all of it read off the history alone |
| Lifetimes.DeadlineExactly | internal/memory/memory.go:86-127 | a cached list's TTL is that of the latest Add to the key, and its deadline one such TTL after the latest Add, or the latest Remove that found its value |
| Lifetimes.ListAnswer | internal/memory/memory.go:58-69 | List answers with a value exactly if a list still held has an entry for it |
| Lifetimes.NoPrematureLoss | internal/memory/memory.go:86-107 | while time does not run backwards, the list is not evicted, and no later Add to the key gives the list a deadline before the value's expiry, a value is stored with an expiry not yet reached exactly if its latest write was an Add giving it |
| Lifetimes.OneTtlNoPrematureLoss | soroban.go:48-52 | if all Adds to a key use one TTL, every value is listed until it expires or is removed, whatever Removes re-store the list |
| Lifetimes.DeadlineCovers | internal/memory/memory.go:107-127 | unless a later Add to the key gave the list an earlier one, a cached list's deadline is not before the expiry of any value on it, expired or not, also after a Remove has stored the list again |
| Lifetimes.OneTtlDeadlineCovers | soroban.go:48-52 | with one TTL for all Adds to the key that holds of every value on the list, at all times |
| Lifetimes.MixedTtl | internal/memory/memory.go:86-107 | an Add of another value lets a stored one live to its expiry exactly if the list's new deadline is no earlier than that expiry |
| Lifetimes.ShorterAddLoses | internal/memory/memory.go:86-107 | a value added for three minutes is no longer listed after sixteen seconds, once another has been added for fifteen |
| Lifetimes.NothingExpiredLeft | internal/memory/memory.go:66-67 | after an accepted operation on a key no entry of its list was expired at that operation |
| Lifetimes.ExpiredListedAtMostOnce | internal/memory/memory.go:60-69 | once an operation on the key has met an expired value, no List shows it until it is added again |
| Lifetimes.RunDistinct | internal/memory/memory.go:92-103 | in every reachable state no list has a value twice |
| Lifetimes.FirstInsertionOrder | internal/memory/memory.go:92-103 | over every run each list is in the order in which its values last came onto it; renewing a value does not move it |
| Lifetimes.ListsInOrder | internal/memory/memory.go:58-69 | over every run and at every clock a List answers with its values strictly in the order in which they came onto the list |
| Lifetimes.AddedComesLast | internal/memory/memory.go:92-103 | a value that is added to a list on which it is not comes last in the next answer |
| Lifetimes.Answers | internal/memory/memory.go:54-136 | an operation is refused, and changes nothing, exactly if its key is empty, or for an Add its value is empty or its TTL below a second; a Remove leaves no empty list behind |
| Lifetimes.OtherKeysUnchanged | internal/memory/memory.go:50-136 | an operation changes neither what is held nor what will be listed under any other key, at any later time |
| Lifetimes.AddInPlace | internal/memory/memory.go:92-105 | while nothing has expired, adding a listed value leaves the listing as it is, and any other value comes last |
| Lifetimes.RemoveDropsOne | internal/memory/memory.go:123-129 | while nothing has expired, a Remove drops one occurrence of the value from the listing and nothing else |
| Replication.TimeToLive | internal/common/ttl.go:8-30 | whatever the mode, at least fifteen seconds, so that no Add is ever refused for its TTL |
| Convergence.ListedForItsMode | internal/common/ttl.go:13-29 | an accepted Add, if nothing follows, is listed exactly for 15, 60, 300 or, in any other mode, 180 seconds |
| Text.ParseOfFormat | internal/common/keys.go:10-27 | for every counter and value, parsing what was formatted gives both back; a negative counter parses to 0 and the whole text |
| Text.ParseShape | internal/common/keys.go:10-22 | for every text the parse is 0 and the text, or a split behind digits that fit 64 bits |
| Text.FormatOfParse | internal/common/keys.go:10-27 | formatting what was parsed gives the text back exactly if its number has no leading zero |
| Text.NumberOfDecimal | internal/common/keys.go:24-27 | the printed decimal of a number reads back as that number |
| Text.NumberFromTheLeft | internal/common/keys.go:10-27 | what is printed and read is positional decimal: each digit counts for itself times its power of ten |
| Text.Printed | internal/common/keys.go:24-27 | some numbers and a nonce as they are printed, and the 64-bit bounds |
| Text.IntTextInjective | services/directory.go:260-279 | different integers print differently, the negative ones included |
| Text.ListTextInjective | services/directory.go:260 | the signed text of a List determines name and timestamp, whatever dots the name has |
| Text.SignedTexts | services/directory.go:260-279 | the texts that are signed for a List and for an Add of one request |
| Text.EntryTextExtends | services/directory.go:260-279 | an Add's text is that of a List with a dot and the entry behind it |
| Text.ListIsEntryText | services/directory.go:260-279 | exactly when a List and an Add have one text: the List's timestamp ends the entry, alone or behind a dot, and the rest is the List's name |
| Text.EntryTextInjective | services/directory.go:279 | for a fixed name the signed text of an Add or Remove determines timestamp and entry |
| Text.EntryTextCollisions | services/directory.go:279 | across names it does not: two texts are equal exactly if the longer name continues the shorter with the first timestamp, and the first entry starts with what the longer name leaves over |
| Text.EntryTextsCollide | services/directory.go:279 | two requests with different names, timestamps and entries and one signed text |
| Text.LinesDiffer | clients/python/soroban-client.py:39 | a Ping or Pong line determines its word, counter and time |
| Rpc.WaitAndRemove | clients/python/rpc.py:57-77 | whatever the store answers: at most the given number of polls; the last entry of the first non-empty answer, exactly if that comes before the last poll, is returned and alone removed; else a timeout that removes nothing |
| Clients.PollsAreOutcome | clients/js-browser/lib/soroban-client-lib.js:131-155 | a waiting party's polls, one call at a time, end as the polling loop does |
| Clients.RunInitiator | clients/python/soroban-client.py:32-62 | the initiator's loop ends in the phase, with the messages and after the changes to the store that the rendezvous steps of its role give for the same answers; its calls alternate Adds of the round's line, under the nonce drawn and with the time read in that round, and Removes, each in the directory named by the one before; what it has received is what it removed |
| Clients.RunContributor | clients/python/soroban-client.py:90-125 | the same for the contributor's loop, which removes before it adds |
| Clients.AfterAsks | clients/js-node/soroban-client.js:36-148 | whatever the store answers, a party's steps ask of it what the two loops ask |
| Rendezvous.PrintInjective | clients/js-browser/soroban-client.js:42-135 | the line that is encrypted determines the message |
| Contents.LinesRead | clients/python/soroban-client.py:39-113 | a Ping and a Pong line as they are encrypted |
| Contents.EveryPayload | clients/python/soroban-client.py:39-43 | over every run payload `n` of a pair is the line of its round with the time that was read, under the shared key and the nonce drawn, in the step of the `n`th send |
| Contents.EveryReceived | clients/python/soroban-client.py:56-109 | over every run what a party has received are, in order, the rounds' messages with the times that its peer read when it sent them |
| Contents.PollComesTo | clients/python/rpc.py:61-75 | nine polls may find something, whose last entry is taken; the tenth ends the wait whatever it finds |
| Rendezvous.LinksDiffer | clients/python/soroban-client.py:29-51 | the chain of directory names never returns to an earlier one, whatever the nonces and times |
| Rendezvous.StepKeepsInv | clients/python/soroban-client.py:36-125 | one step of any party, a refused Remove, an expiry, a failed call, or another client's call keeps all sessions in order at once |
| Rendezvous.EveryReachableSession | clients/python/soroban-client.py:28-125 | in every reachable state, for every pair: both ends are on one chain of directories at most one link and one round apart; who waits does so where the other writes next; no directory of the pair holds two entries; what was decrypted is a prefix of what the other sent |
| Rendezvous.StoppedWithoutTimeout | clients/python/soroban-client.py:36-62 | a pair that has stopped, without either having timed out or failed, was started with one number of rounds and has exchanged exactly that many messages each way, in order and without loss, whatever happened to all others; and unless a Remove of theirs was refused every directory of its own is empty |
| Rendezvous.RunTidy | clients/python/rpc.py:74-77 | over every run in which no Remove of the pair is refused, the only entry in its directories is the last payload, until that has been taken |
| Progress.NeverGivesUp | clients/python/rpc.py:57-70 | if in any stretch in which one of a pair makes eight calls the other makes three or has stopped, no call of theirs fails, and nothing that one has sent expires before the other takes it, no party started with as many rounds as its peer ever times out, whatever all others do |
| Progress.FairPairSucceeds | clients/python/soroban-client.py:28-125 | such a pair, once stopped, has had all its rounds, and each has received in order all that the other sent |
| TimedRendezvous.CollectExpires | internal/memory/memory.go:148-158 | the lists that the cache forgets are, read as terms, an expiry in the store of the rendezvous |
| TimedRendezvous.OperationShows | internal/memory/memory.go:50-136 | a List, Add or Remove of the timed directory is, read as terms, the operation of the rendezvous on what it finds, and then an expiry |
| TimedRendezvous.StepSimulated | clients/python/rpc.py:45-55 | every step over the timed directory is three of the rendezvous: an expiry, the step, an expiry |
| TimedRuns.Unroll | clients/python/rpc.py:57-77 | every run over the timed directory is a run of the rendezvous, with the same sessions after each step |
| TimedRuns.EveryPollReadsItsAnswer | clients/python/rpc.py:62-75 | in every run over the timed directory a party that polls goes by the very answer to its List, and takes the last of its values |
| TimedRuns.TimedSafety | clients/python/soroban-client.py:28-125 | over the timed directory, whatever its clocks do and whatever it drops: one chain, at most one link apart, at most one entry under the name of any directory of the pair, and prefixes of what was sent |
| TimedRuns.TimedSuccess | clients/python/soroban-client.py:43-117 | if each payload of a pair is taken within the minute for which "short" stores it, the schedule is fair and no call of theirs fails, neither party ever times out, and once stopped both have had all their rounds |
| Rendezvous.CallsAreBounded | clients/js-node/soroban-client.js:38-148 | however they interleave and whatever the store does, all parties together make no more calls than their rounds and polls allow |
| Rendezvous.OnlyFailedCallsFail | clients/python/soroban-client.py:105-108 | whatever a party takes from its directory it can decrypt: it fails only by a failed call of its own, whatever happens to all others |
| Roles.RolesExclude | server/server.go:59-82 | a receive loop in peer mode has no IPC client, one in child mode has one; a process that serves clients through an IPC client is in no p2p room |
| Roles.RolesAre | server/child.go:39 | what each of the three kinds of process does: one started alone, a main process, and a child, started with its ID and no count, which has an IPC client, passes up what it hears and takes requests from its main process |
| Replication.EventsAreHistory | services/directory.go:92-191 | in every run each node's directory has had exactly the operations that the steps of the run did there, in their order |
| Replication.StepAccounted | services/p2p.go:63-109 | every step keeps every Add and Remove in every history, and every message, accounted for by a client operation, and heartbeats out of what children send up |
| Replication.HeartbeatsStayOut | services/p2p.go:63-69 | in every run each step that does anything to a directory under the heartbeat key is a step of a client of that very node |
| Replication.Provenance | services/p2p.go:52-123 | over every run with loss, repetition, reordering, expiry and eviction: a listed value was named for its key by an accepted client Add somewhere, the last step that wrote the pair at this node was an Add, and under the heartbeat key that step was an Add by one of this node's own clients |
| Relay.AddsGoOut | services/directory.go:131-175 | for any main process, child of it and peer in the room there is a run after which an Add made at the main process is listed at the peer |
| Relay.AddsAndRemovesComeIn | services/p2p.go:73-93 | there is a run in which an Add made at the peer is listed at the main process, and no more once it has been removed at the peer |
| Flow.PublishedAtMostOnce | services/directory.go:131-183 | over every run each client operation or heartbeat is published at most once, by a member of the room, never by a main process with children |
| Flow.NobodyHearsItself | p2p/soroban.go:197-219 | over every run what comes to a node from the room was published by another, and only members of the room are sent anything |
| Flow.ReceivingNeverPublishes | services/p2p.go:73-122 | handling a message from the room, or one sent up, publishes nothing and sends nothing down; a peer passes nothing up |
| Flow.RemoveStaysAtMain | services/directory.go:193-236 | at a main process with children a Remove goes to nobody, though an accepted Add goes down |
| Flow.RankFalls | services/ipc.go:31-85 | each handling or loss of a message lowers a rank on what is on its way |
| Flow.QuietTracesEnd | p2p/soroban.go:197-231 | from any state at most as many messages are handled as the rank says, until a new operation, heartbeat or repetition comes |
| Convergence.StoredIsLastWrite | internal/memory/memory.go:50-136 | after Lists, Adds and Removes in any order within the shortest TTL exactly the pairs are stored whose latest write is an Add |
| Convergence.ListsWhatWasAddedLast | services/p2p.go:95-113 | in such a run of the network a node lists a value exactly if the last operation on the pair that it has handled is an Add |
| Convergence.AgreeExactly | services/directory.go:92-191 | two nodes agree on a pair exactly if the last operation on it that each has handled is an Add at both or at neither |
| Convergence.ListsAllAdds | services/ipc.go:55-60 | when nothing is removed from a key, a node that has handled each accepted Add under it, made there or brought by a message, lists exactly the accepted values |
| Convergence.Converged | services/p2p.go:95-123 | so any two such nodes list the same values, whatever the order and the repetitions of the messages |
| Convergence.BringingWrites | services/directory.go:92-97 | an Add that was accepted at its origin passes the checks at every node that serves, except as a heartbeat |
| Convergence.HeartbeatKeyStaysHome | services/p2p.go:63-69 | under the heartbeat key a node lists a value exactly if the last of its own clients' operations on it is an Add, whatever has been delivered |
| Convergence.RemovesCross | services/directory.go:186-236 | for any two peers in the room there is a run after which both have handled one Add and one Remove, and they disagree |
| Wildcard.WildCardToRegexp | confidential/config.go:119-138 | the loop over the split pattern builds the anchored text in which each star is `.*` and every other character of a pattern with a star is quoted |
| Wildcard.ParseOfTranslated | confidential/config.go:125-137 | read back as a regexp, the translation is one item for each character of the pattern |
| Wildcard.StarPatternMeans | confidential/config.go:119-138 | for every pattern with a star the regexp is well formed and finds exactly the glob's language: each star any run without newline, every other character itself |
| Wildcard.DotPatternMeans | confidential/config.go:121-124 | a pattern without star whose only syntax is dots is well formed, and each dot finds any character but a newline |
| Wildcard.StarFreeMeansItself | confidential/config.go:121-124 | every pattern without star that can be read, brackets and braces that close or repeat nothing included, denotes itself alone exactly if it has no dot, anchor or backslash |
| Wildcard.TrailingBackslash | confidential/config.go:121-124 | a backslash at the end of such a pattern escapes the closing anchor: `a\` finds `a$x` and not itself |
| Wildcard.MatchesMeaning | confidential/config.go:140-158 | what `match` answers is the glob's meaning with a star, and that of the dots without |
| Wildcard.Matcher.Match | confidential/config.go:140-158 | after any history of calls the memo table answers as if the pattern had just been compiled |
| Confidential.ConfidentialRules.MatchingRules | confidential/config.go:160-168 | collects exactly the matching rules in their order, whatever was compiled before under any configuration |
| Confidential.ConfidentialRules.Reload | confidential/config.go:91-96 | a reload replaces the rules and keeps the compiled patterns usable |
| Confidential.ConfidentialRules.GetConfidentialInfo | confidential/config.go:160-186 | chooses the last matching rule with the request's key if that has a pattern, else the first matching rule, else none |
| Confidential.LastWithKey | confidential/config.go:170-176 | no later rule has the key |
| Confidential.ChosenMatches | confidential/config.go:160-186 | a matching rule is chosen whenever one exists |
| Confidential.ChosenHasKey | confidential/config.go:170-185 | for every name, the empty one included, exactly when a request with a key gets a rule with that key: if some matching rule has it, and, where rules without pattern match, the last such has a pattern or the first matching rule has the key |
| Confidential.FirstApplied | confidential/config.go:160-186 | the first matching rule, which README.md line 96 promises, is chosen exactly if the request has no key, or no matching rule has it, or the last that does has no pattern or is that same rule |
| Confidential.KeyDecides | confidential/config.go:170-185 | of two rules with one pattern and two keys a request with the second key gets the second rule |
| Confidential.FirstPromised | confidential/config.go:171-176 | the first rule of the configuration that matches and has the key, which is promised, is chosen exactly if the last rule that matches and has the key is the same rule |
| Confidential.LastDecides | confidential/config.go:171-176 | of two rules with one key and one pattern the first is not chosen |
| Confidential.ListsWithoutSignature | services/directory.go:57-65 | a List without any acceptable signature is let through for some request exactly if no rule matches the directory, or a lax rule is the first that matches or the last that matches with its key |
| Confidential.WritesWithoutSignature | services/directory.go:107-118 | the same for Adds and Removes and their rules |
| Confidential.LaxRuleBypasses | services/directory.go:57-65 | with a lax rule for everything before one that wants signed reads, an unsigned List of a protected key is let through |
| Confidential.GateIsExact | services/directory.go:238-281 | what both layers say, for every rule, request, clock and verifier: an incomplete rule grants; else a request with another key, a timestamp not strictly within a day, an unknown algorithm, or another one than NaCl where the rule has that, is refused; any other is granted, refused or ended by a panic as the rule's verifier says of the signed text (the second layer is confidential/signature.go:32-96) |
| DirectoryService.Directory.List | services/directory.go:50-90 | under a confidential rule that is not satisfied there is no answer and nothing changes; else what the store lists, as limited: without repeats, only stored values, of size min(Limit, n) if Limit is positive and n otherwise |
| DirectoryService.Limit | services/directory.go:73-78 | for every sequence of shuffle swaps: a sub-collection of the list of the size asked for, or the list itself in order |
| DirectoryService.EveryOrder | services/directory.go:74-76 | every order of a list is what some draws make of it |
| DirectoryService.EverySelection | services/directory.go:73-78 | so every selection of the size asked for, in every order, is what some draws leave |
| DirectoryService.LimitedAnswer | services/directory.go:73-78 | a limited answer has no repeats, only stored values, and size min(Limit, n) if Limit is positive, n otherwise |
| DirectoryService.Directory.ListStore | internal/memory/memory.go:60-63 | the store hands out an array of its own, so that shuffling it cannot disturb what is stored |
| DirectoryService.Directory.Add | services/directory.go:99-184 | a refused Add leaves the store as it was and publishes nothing; an accepted one is stored once, goes down exactly if there is an IPC client, is published exactly if the process is in the room and the request down did not fail |
| DirectoryService.Directory.Remove | services/directory.go:193-236 | without the rule's consent nothing changes and nothing is answered; else it is applied, and published even if the store refuses it, but never sent down |
| DirectoryService.AddedIsListed | services/directory.go:92-97 | what an Add request has just added is listed under the request's name |
| DirectoryService.RemovedIsNotListed | services/directory.go:186-191 | what a Remove request has just removed is not |
| DirectoryService.Directory.Receive | services/p2p.go:54-123 | heartbeats and unreadable messages change nothing; a child passes the rest up; a peer applies it and passes nothing up |
| DirectoryService.Directory.IpcHandler | services/ipc.go:31-85 | success exactly for messages of another type and for Adds and Removes that the store takes; an error changes nothing |
| DirectoryService.Directory.HandleDown | server/server.go:121-168 | a readable message is published once if the child is in the room, any other not at all; a request of another type is answered "unknown" |
| DirectoryService.AddIsStep | services/directory.go:122-183 | what the Add handler does to the store, the room and the children is the step of the replicated directories |
| DirectoryService.RemoveIsStep | services/directory.go:220-236 | the same for the Remove handler |
| DirectoryService.CopyIsStep | services/p2p.go:63-122 | the same for a message from the room |
| DirectoryService.UpIsStep | services/ipc.go:55-72 | the same for a message that a child has sent up |
| DirectoryService.DownIsStep | server/server.go:137-163 | the same for a message that the main process has sent down |
| DirectoryService.Directory.Publish | p2p/soroban.go:222-246 | without a topic publishing does nothing |
| Watchdog.Loop | services/p2p.go:50-143 | the loop's variables, heartbeats and exit are those of the timed runs below, for every sequence of messages and timers |
| Watchdog.ExitsExactlyWhenTooLong | services/p2p.go:50-130 | over every run the process exits exactly if some timer finds the last heartbeat, or the start, further back than the delay, which is 15 minutes until the first heartbeat and 3 minutes ever after |
| Watchdog.SentExactly | services/p2p.go:125-136 | over every run a heartbeat is sent at each instant at which the timer fires, until it fires once too late, and at no other |
| Watchdog.SilentRoom | services/p2p.go:50-142 | alone in its room the process sends thirty heartbeats, half a minute apart, and then exits |
| Watchdog.BusyIsQuiet | services/p2p.go:52-142 | with messages always less than 30 seconds apart it neither exits nor sends a heartbeat |
| Watchdog.ExitsInTime | services/p2p.go:125-130 | once messages stop, it is gone no later than 30 seconds after both that instant and the last heartbeat's delay have passed |
| Stats.Stats.RecordRequest | server/stats.go:34-46 | the instant comes last in its own log, the other log stays |
| Stats.Stats.CountRequests | server/stats.go:48-70 | counts the entries not older than the window |
| Stats.CountIsSize | server/stats.go:64-68 | the count is the number of the entries within the window, each once |
| Stats.Stats.Cleanup | server/stats.go:72-94 | drops from the front of each log only entries that are not recent; the index found for IPv4 is carried over to Tor, and it panics exactly if Tor's log has no recent entry and is shorter than that index |
| Stats.CleanupPanics | server/stats.go:87-93 | with two IPv4 requests more than a day apart and an empty Tor log the index that is carried over lies behind Tor's log |
| Stats.CleanupInvisible | server/stats.go:48-94 | for every log, sorted or not, a Cleanup never changes a later count over a strictly shorter window |
| Stats.SortedKeepsRecent | server/stats.go:78-85 | on a sorted log with a recent entry exactly the recent entries stay |
| Stats.CountMonotone | server/stats.go:48-70 | a wider window never counts less |
| Stats.CrossedTotals | server/stats.go:131-143 | the three hour total is never too small, the six hour total never too large, both err by the same amount, and are right exactly if no Tor request lies between three and six hours back |

## Left out

- Confidential.GateIsExact: the signature schemes themselves (NaCl, ECDSA, the Bitcoin networks) are a parameter that may accept, reject or panic.
- Text.EntryTextInjective: holds for a fixed name only, because across names it is false; `Text.EntryTextCollisions` has the exact condition.
- Lifetimes.NoPrematureLoss: assumes that no list is evicted, because the cache's policy (libcache's ARC) is not part of this model; `Lifetimes.StoredExactly` is without that assumption.
- Lifetimes.AddInPlace: speaks of lists in which nothing has expired; `Lifetimes.ApplyHas` covers expired entries.
- Convergence.Converged: one clock window within the shortest TTL, no eviction, no Remove on the key, and not the heartbeat key; `Convergence.AgreeExactly` and `Convergence.HeartbeatKeyStaysHome` say what holds otherwise.
- Wildcard.MatchesMeaning: patterns without star that hold one of `+?()|[` unescaped, an opening brace before a digit, or a backslash before a letter or digit, go to the regexp engine, which is a parameter; of them only that the table is transparent is stated. What the other patterns without star find is `Wildcard.DotPatternMeans` and `Wildcard.StarFreeMeansItself`.
- Rendezvous.EveryReachableSession: starts from pairs that have found each other; List followed by Remove is not atomic, so that two contributors can take one offer. Other clients are assumed not to use the directories named after the pair's secrets.
- Rendezvous.OnlyFailedCallsFail: nonces need no freshness, because the messages of a session differ by their counters; hashes and ciphertexts are symbolic terms without collisions.
- Clients.RunInitiator: a failed remote call or an exception inside the loop is the `Abort` step of the rendezvous (a call that takes effect but whose answer is lost is the call and then `Abort`, save for a party's very last call); the answers to polls are given up front as the store's choice.
- Confidential.FirstPromised: for named directories, or configurations in which every rule has a pattern; a rule without pattern matches the empty name alone, which no store accepts (`Confidential.ChosenHasKey` covers that case).
- TimedRuns.TimedSuccess: the pause between polls is not modelled; the schedule is counted in calls, and the clock may read anything until a payload's minute has passed. A refused or failed call does not touch the directory.
- Watchdog.ExitsInTime: handling a message or a timer takes no time, and a wait never lasts longer than 30 seconds.
- Flow.QuietTracesEnd: the network is closed; nodes that are not of the model, and messages that they make up, are not considered.
- Replication.Provenance: signature gates narrow which client operations happen and are modelled in `DirectoryService`; here any accepted operation is possible. A request between a main process and its children is handled at most once; a message of the room never goes back to the process that published it, though the code compares the forwarding peer (p2p/soroban.go:207), not the author.
- Relay.AddsGoOut: says what can happen, not that it must; messages may be lost.
- DirectoryService.Directory.Add: the signature check and the store read one clock; the code reads it once each.
- Memory.Memory.Add: the cache and the expiry likewise share one clock reading; the cache is known only to forget lists past their deadline, or any list at any time (`Evict`).
- Memory.Append: how far Go's `append` grows an array is arbitrary there; here it doubles.
- Locks: each operation of the directory, of the memo table and of the statistics is one step, as their mutexes make it.
- Contexts without a directory or a p2p object (services/directory.go:51-55, 178-181): a server always puts both in place (server/server.go:68-73).
- Encodings: JSON, YAML and the guards of p2p/message.go are the identity on messages, with one value for what cannot be read; strings are sequences of characters, and invalid UTF-8 is not considered.
- HTTP, CORS, Tor, libp2p, gossip, NATS, subprocesses, file watching, peer persistence, logging and command lines: input and output.
- The other clients' ways of saying the same (clients/js-browser, clients/js-node): one protocol, one model; `box_shared` and key generation are terms.
- services/announce.go, server/status.go, options.go, key export and the remaining windows of the statistics report: they would only add easy members.

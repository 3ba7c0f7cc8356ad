# Torge, modelled and proved

Under the HTTP plumbing of the Torge web framework sit a number of state
machines and algorithms that are worth more than a test. This project models
each of them in Dafny, in the shape the Go code has (objects whose methods
change fields, loops, searches over linked nodes), and proves what it is for.

How the files go together:

| files | what is modelled | what it is proved against |
|---|---|---|
| `Text`, `Pattern`, `Router` | route patterns, the segment trie, its search, URL building | the plain map from method and shape to route, and the order of precedence on shapes |
| `Validate`, `ValidatePlan` | compiled and pruned validation plans | a direct reading of the tags that knows no plans |
| `Positions`, `Judging`, `Reading`, `Addressing` | what that reading reports, and which values get their own `Validate` run | for every position in a value what is wrong there, in order; a reading in which every `Validate` runs |
| `Container`, `Build`, `Lifecycle` | cycle search, construction, start and stop | walks in the dependency graph; dependency order |
| `Hub` | topics, replay rings, bounded channels, eviction | the list of everything published on a topic in its lifetime |
| `RateLimit` | GCRA in memory and as a Redis script | a token bucket, and a limiter that never forgets |
| `Recency`, `Cache` | the LRU and TTL cache | a plain list of entries, a record of writes and of uses |
| `SingleFlight` | one load at a time for each key | a record of every load in every interleaving |
| `Capture`, `Idempotency` | recording and replaying responses; the protocol over a shared store | what clients were sent; a record of every run |
| `Jobs`, `RedisQueue` | the job manager with its memory queue; the queue in Redis | one place and one history for every job |
| `DotEnv`, `EnvForm`, `EnvRead`, `EnvFile` | the .env parser | printing; files written from their entries in every form the syntax has, and what those stand for |
| `Sse` | server-sent events | section 9.2.6 of the WHATWG HTML Living Standard |
| `Schema`, `Conforming` | JSON Schemas derived from types | closure of references; the JSON that fits a type |

Concurrent parts are classes with one method for each step that the code takes
without another goroutine, client or process being able to step in between (a
critical section, one access to a store, one Redis command, script or
transaction). Any caller may make any step whenever its precondition holds, so
what every step keeps holds in every interleaving. What happened so far is kept
in ghost fields, and the theorems about whole runs are lemmas about those.

Choices the code leaves to chance, time or the outside (which worker goes on,
whether a store answers, when a timer fires, jitter) are parameters or
nondeterministic choices; clocks are parameters that do not go back.

## Where the code does not do what one might expect

* A cache sweep is invisible to readers, but not to later writes: on a full
  cache an expired entry that was not swept can cost a live one its place.
  `Recency.SweepNoticed` is such a case, `Recency.SweepUnnoticed` says exactly
  over which runs no difference shows.
* Events may be published with IDs of their own next to automatic ones. A client
  that reconnects then misses an event whose number is not greater than its last
  ID although it is buffered (`Hub.ResumeGap`), and is sent an event again whose
  ID is not a number (`Hub.ResumeRepeat`). `Hub.ResumeExact` says for every
  history and every last ID when nothing is missed or repeated; numbers that only
  go up are safe, whoever gave them (`Hub.ResumeAscending`).
* The rate limiter reads the clock before it takes the lock. Were the times to
  reach a shard out of order, a sweep could admit a request that should be
  denied: `RateLimit.SweepNeedsMonotoneClock`. With times in order sweeping is
  never noticed.
* The recorder keeps status 200 for a response that switched protocols (101),
  and bytes whether or not writing them to the first client succeeded. For
  handlers that write through the recorder those are the two ways in which what
  is replayed can differ in status or bytes from what the first client was sent:
  `Capture.RecordAndReplay`.
* A type whose `Validate` has a pointer receiver is not validated where its
  value cannot be addressed: passed to the validator by value, or as a value of
  a map. `Addressing.MapValuesUnheard` is a report that stays empty for that
  reason; `Addressing.EveryValidateRuns` says exactly when every `Validate` runs.
* When the channel of the memory queue is full and retries have no delay, every
  worker can end up waiting to put its job back, and then none of them receives
  any more: `Jobs.Jam` gets there, `Jobs.Manager.Standstill` says that there is
  no other standstill short of having nothing to do, and `Jobs.Manager.Happen`
  that nothing but closing the queue ends it.
* A dotenv value that holds U+E000 comes back with a dollar in its place, since
  the parser uses that character internally: `DotEnv.RoundTrip`. The comment on
  `LoadDotEnv` lists four escapes; the code also knows `\r` and `\$`, and the
  model follows the code. It also says that values in no quotes end at a blank
  and "#"; right behind the equals sign the blank is dropped first, and what
  follows is a value.
* A dotenv value in double quotes that takes several lines loses the white space
  before its first line break, as the first line is trimmed before it is looked
  at: `EnvFile.EntriesMean` says that nothing else is lost, in any form.
* When two fields of a struct and the structs embedded in it have the same name,
  its schema describes the last of them. Go's encoding/json takes the one nested
  least, so that a schema can refuse what is sent: `Conforming.OuterFieldShadowed`.
* A server-sent event whose data holds a carriage return without a line feed, or
  whose ID holds a NUL, does not arrive as it was sent: `Sse.SentAsReceived`.
* A handler that panics leaves its pending idempotency record to expire, since
  the middleware releases the key only when the handler returns:
  `Idempotency.Service.Die`.
* Validation never looks into a field whose static type is an interface; the
  reference reading of the tags does the same.

## Model

| member | source | states |
|---|---|---|
| Pattern.ParsePattern | router.go:76-120 | accepts exactly the patterns that are well formed (a slash first, named and distinct parameters, a wildcard only at the end) and returns their parameter names in order |
| Pattern.NamesAre | router.go:93-116 | a segment ":x" or "*x" declares the name x, a bare "*" the name "*", and nothing else declares one |
| Pattern.ServersOrdered | router.go:174-222 | of two different shapes that serve the same path exactly one comes first, static before parameter before wildcard, left to right: the best route is unique |
| Pattern.PrecedenceIs | router.go:192-215 | which of two is best is settled at the first segment where they differ: literal text before a parameter or a wildcard, a parameter before a wildcard |
| Pattern.CapturedCount | router.go:174-222 | a path a pattern serves yields exactly one value for each of its parameter names |
| Router.Append | router.go:192-215 | Go append on shared backing arrays: what earlier slices of the array hold is left as it was |
| Router.Node.StaticChild | router.go:33-45 | the scan of narrow nodes and the index of wide ones find the child with that label, if there is one |
| Router.Node.AddStatic | router.go:47-64 | finds the child or adds one bare child, keeping labels, children and index in step |
| Router.Node.Match | router.go:192-215 | backtracking over static, parameter and wildcard children returns the best route below the node, or none if none matches, with the values it captured behind those already collected |
| Router.Node.Descend | router.go:217-222 | the same for what follows one segment |
| Router.Node.Lookup | router.go:174-188 | the same for a whole path from the root of a method |
| Router.Router.Insert | router.go:124-162 | fails exactly for malformed patterns; reports the route already there exactly when method and shape are taken, changing nothing; otherwise adds just that route |
| Router.Router.Find | router.go:166-172 | the registered route whose shape is best among those that serve the path, and none exactly if none serves it; the values are the captured pieces, as many as the route has names |
| Router.Router.Allowed | router.go:226-245 | none exactly if no registered route serves the path; otherwise the methods of those that do, OPTIONS, and HEAD if GET is one of them |
| Router.Router.PrefixPlaced | router.go:124-162 | the trie has a node for every prefix of every shape it has a node for |
| Pattern.FilledServes | route.go:318-353 | a filled pattern serves the URL it gives with the values put in, if and only if those are non-empty where a parameter wants a segment and hold no slash there |
| Pattern.BuildURL | route.go:318-353 | errors exactly for an odd list and for a missing name, naming it; otherwise a URL that routes back to the pattern with the same values if and only if these are plain |
| Pattern.PairMapIs | route.go:323-326 | a name stands for the value behind its last mention, and only names mentioned are known |
| ValidatePlan.CompileRules | validate/validate.go:325-363 | compiling a rule list succeeds exactly when every rule is known for the type, and the plan then realises the list, dive by dive |
| ValidatePlan.ApplyValuePlan | validate/validate.go:392-427 | running a compiled value plan adds exactly the errors the direct reading of the tag gives, and passes exactly when that does; what those errors are says Judging.JudgeIs |
| ValidatePlan.Dive | validate/validate.go:410-427 | the same for the items of a collection after dive |
| Judging.RulesValidIs | validate/validate.go:325-363 | a tag is in order exactly if every rule in it can be used on the type as many items down as there are dives before it: a dive on something with items, a check if it is registered and takes its parameter |
| Judging.DiveSplits | validate/validate.go:325-363 | a tag is the rules up to the first dive, that dive, and the rules for the items |
| Judging.DerefIs | validate/validate.go:509-517 | what is judged is what is behind all pointers and interfaces, or nothing if one of them is nil |
| Judging.JudgeIs | validate/validate.go:392-427 | for every chain of item indices: the value there is held to the rules between as many and one more dives if all values further out are sound; one error for each value so reached that is lacking or fails a check, in order, with its path and the first rule it fails; and no others |
| Reading.ReportIs | validate/validate.go:372-487 | the whole report on a struct, at any depth: just what the tags of its fields, those of the structs inside them and the types' own Validate methods have to say, each thing once, in order of position, each with its path |
| ValidatePlan.Validator.Compile | validate/validate.go:247-300 | a failure comes with a chain of fields that leads to a malformed tag; a success leaves a plan that covers every field, on any type graph, recursive or not |
| ValidatePlan.Validator.MayNeedValidation | validate/validate.go:302-315 | no is answered only for types none of whose values can yield an error |
| ValidatePlan.QuietLook | validate/validate.go:302-315 | a type pruned as having no work yields no errors, whatever the value and however deep |
| ValidatePlan.Validator.Plan | validate/validate.go:227-245 | the cache keeps only plans of types from which no malformed tag can be reached |
| ValidatePlan.Validator.ValidateStruct | validate/validate.go:372-386 | running the pruned plan of a struct adds exactly the errors of reading every field, and those of its own Validate where that can be called |
| ValidatePlan.Validator.ValidateNested | validate/validate.go:429-451 | the same for structs inside fields, through pointers, slices, arrays and maps: targets of pointers and items of slices can be addressed, items of arrays if the array can, values of maps cannot |
| ValidatePlan.Validator.RunValidatable | validate/validate.go:453-487 | the errors of a type's own Validate, located below the path; none if only a pointer has the method and the value cannot be addressed |
| ValidatePlan.Validator.Check | validate/validate.go:155-176 | the report on any finite value is the one of the direct reading (Reading.ReportIs says what is in it), with no plan at all, passed by value or by pointer; a bad-type report means a malformed tag can be reached, and no report of another kind is given if one can |
| ValidatePlan.NoFault | validate/validate.go:247-300 | from a type with a sound plan no malformed tag can be reached |
| Addressing.EveryValidateRuns | validate/validate.go:453-463 | the report is the one in which every Validate runs, if and only if the reading comes to no complaining struct whose Validate wants a pointer where there is none |
| Addressing.MapValuesUnheard | validate/validate.go:429-463 | a concrete struct with a map whose values complain, and an empty report on it, wherever it is |
| Build.Registry.AddProvider | container.go:195-225 | a second provider of a type is reported, or replaces the first and moves to the end of the order |
| Container.Search.Visit | container.go:327-369 | three-colour search from one provider: a closed walk, or that provider and all it needs are finished |
| Container.FindCycle | container.go:327-369 | returns a closed walk along real dependencies if there is any, and otherwise there is none and every provider has a place after all it depends on |
| Container.NoClosedWalk | container.go:327-369 | a graph that can be put in dependency order has no cycle |
| Build.Registry.Validate | container.go:272-325 | no diagnostics if and only if no singleton asks for the request's context, everything asked for is built in or provided, no singleton asks for what belongs to a request, and there is no closed walk; everything of these that is wrong is reported, and nothing else is |
| Build.Registry.Singleton | container.go:371-408 | memoised construction runs only constructors that come before in dependency order, after all they need |
| Build.Registry.BuildAll | container.go:253-270 | a graph with anything wrong in it runs nothing and every problem is told; another runs each singleton constructor at most once, after all it needs, and none that asks for a request's context, and gathers the hooks in that order; when one fails, what was built is closed in reverse |
| Build.Registry.CloseBuilt | container.go:442-449 | closes what was built, last first |
| Build.ClosersAre | container.go:442-449 | closed are the hooks that stop and do not start, each once and in order |
| Build.HooksAre | container.go:427-439 | a value constructed brings one hook that starts and stops, one that only stops, or none, behind those of the values before it |
| Build.ReliedOnEarlier | container.go:371-408 | whatever a constructed value is made from, directly or by way of others, was constructed before it |
| Lifecycle.App.StartAll | app.go:433-490 | start callbacks run in order; when one fails exactly those before it are stopped, in reverse |
| Lifecycle.App.RunStopHooks | app.go:733-750 | stop callbacks run in exact reverse of what was started, whatever they return; a second call does nothing |
| Lifecycle.StartsStops | app.go:433-490 | one more hook is started after the others, if it starts, and stopped before them, if it stops |
| Lifecycle.DependencyHookFirst | container.go:427-439 | the hook of anything a value is made from, directly or by way of others with or without hooks, is gathered before the value's own |
| Lifecycle.DependencyStartsFirstStopsLast | app.go:433-490 | what a value is made from, directly or by way of others, starts before it and stops after it, each half for whatever starts or stops, closers included; also when start-up ends early |
| Lifecycle.Launch | app.go:433-490 | building and then starting an application, to the end or to the first failure, and stopping it keeps that order for all its values |
| Hub.ResumeExact | realtime/hub.go:262-284 | for any history and any last ID, whoever gave the IDs: one who has seen the first n events is replayed exactly the others, if and only if those are all buffered and all after the last ID, and none of the first n that are still buffered is |
| Hub.ResumeGapFree | realtime/hub.go:429-439 | with automatic IDs only, that is so if and only if no more were missed than the buffer holds |
| Hub.ResumeAscending | realtime/hub.go:429-439 | with numbers that only go up, given or automatic, and the last of those seen as last ID, that is so if and only if no more were missed than the buffer holds |
| Hub.ResumeGap | realtime/hub.go:429-439 | a concrete history with an event that is buffered, was missed, and is not replayed |
| Hub.ResumeRepeat | realtime/hub.go:429-439 | a concrete history with an event that was seen and is replayed |
| Hub.Topic.Record | realtime/hub.go:213-228 | the ring holds, from start and round, the most recent events, in order |
| Hub.Hub.EvictLocked | realtime/hub.go:374-390 | drops, only at the cap, the topic without subscribers whose last use, a publication with replay or a subscription, lies furthest back; there is just one |
| Hub.Hub.MakeRoom | realtime/hub.go:374-390 | after eviction there is room: the number of topics stays within the larger of the cap and one more than the most that ever had subscribers at once |
| Hub.Hub.TopicLocked | realtime/hub.go:353-369 | getting a topic is its latest use, and no other topic's last use changes; an existing topic is kept as it is, and so is the table; a new one starts empty, its IDs from the beginning, and at the cap takes the place of the victim and of no other |
| Hub.Hub.Publish | realtime/hub.go:192-234 | every open subscriber of the topic is handed the event, or disconnected if its buffer is full, keeping what it had; nobody else is touched. The topic's history grows by just that event, or begins with it; other histories are what they were, and no topic leaves the table but the victim for a new one or, without replay, the topic itself. The event keeps name and data, and its ID or else the next number. With replay this is the topic's latest use, and no other topic is used |
| Hub.Hub.Deliver | realtime/hub.go:213-234 | a send that never blocks and never goes to a closed channel |
| Hub.Hub.DetachLocked | realtime/hub.go:406-415 | a subscriber leaves its topic and its channel is closed once, however often this happens |
| Hub.Hub.RemoveSub | realtime/hub.go:392-401 | unsubscribing again, or after the topic began a new life, does nothing; the topic goes only if it has no events to replay |
| Hub.Hub.Subscribe | realtime/hub.go:254-284 | the channel first holds the replay after the last ID seen, then everything published from now on; no topic leaves the table but the victim for a new one; it is the topic's latest use |
| Hub.Hub.Reconnect | realtime/hub.go:254-284 | whatever happened since, a client of an earlier channel that comes back while its topic lives goes on, without a gap or a repeat, from what it had taken, if and only if the last ID it sends meets the condition of Hub.ResumeExact; and what it had and what it is replayed are then all events of the topic since it first joined |
| Hub.Subscriber.Continued | realtime/hub.go:254-284 | however often it has come back so, all it has taken, at any later time, is an unbroken stretch of the topic's events |
| Hub.Hub.Receive | realtime/hub.go:254-284 | the client takes events in the order they were queued; received and queued together remain the replay and then every event since joining |
| Hub.Hub.Close | realtime/hub.go:294-310 | closes every open channel once, keeps what is queued, and does nothing the second time |
| RateLimit.StepRefines | ratelimit/ratelimit.go:79-103 | one GCRA decision is one decision of a token bucket refilled one unit per unit of time |
| RateLimit.DecidesAsBucket | ratelimit/ratelimit.go:79-103 | over any sequence of requests in time order GCRA decides as the bucket does |
| RateLimit.AdmittedInWindow | ratelimit/ratelimit.go:79-103 | requests admitted over a time w are at most capacity + w / interval |
| RateLimit.IntervalIs | ratelimit/ratelimit.go:47-48 | the interval is the longest of which as many as the limit fit into the period |
| RateLimit.SteadyAdmitted | ratelimit/ratelimit.go:79-103 | however the limiter is used, a key whose requests are spaced so that no more than the limit come in a period is never denied |
| RateLimit.BurstAdmitted | ratelimit/ratelimit.go:50-56 | of a new key's requests, all at one instant, just the burst is admitted, or the limit if there is none |
| RateLimit.WindowBound | ratelimit/ratelimit.go:139-156 | however the limiter is used and swept, what it answered for one key is what a token bucket of that key answers, and no stretch of the key's requests over a time w had more than capacity + w / interval admitted |
| RateLimit.RemainingExact | ratelimit/ratelimit.go:79-103 | just as many more requests as Remaining says would be admitted at once |
| RateLimit.RetryAfterExact | ratelimit/ratelimit.go:79-103 | a denial stores nothing new, and waiting helps if and only if it is at least RetryAfter |
| RateLimit.ResetAfterExact | ratelimit/ratelimit.go:79-103 | the bucket is full again exactly after ResetAfter |
| RateLimit.ForgettingUnnoticed | ratelimit/ratelimit.go:139-156 | forgetting a stored time changes a decision if and only if it is still to come |
| RateLimit.SweepNeedsMonotoneClock | ratelimit/ratelimit.go:139-156 | with times out of order a sweep can admit what would have been denied: a concrete case |
| RateLimit.Memory.Allow | ratelimit/ratelimit.go:139-156 | decides as a limiter that remembers every key for ever, sweeps notwithstanding, and gives the burst, or else the limit, as the limit |
| RateLimit.Memory.Sweep | ratelimit/ratelimit.go:145-153 | drops exactly the keys whose time has passed, unnoticed by any later decision |
| RateLimit.ScriptIsGcra | contrib/redis/limiter.go:19-33 | the script and the conversion of its reply decide as GCRA does, and its deadline is never before the time stored |
| RateLimit.Shared.Expire | contrib/redis/limiter.go:19-33 | a key expiring at its deadline changes no decision |
| RateLimit.Shared.Allow | contrib/redis/limiter.go:54-70 | decides as a limiter whose keys never expire |
| Recency.SweepThenPut | cache/memory.go:109-124 | sweeping right before a write leaves the same live entries if and only if the write finds room, finds its key, or would have evicted an expired entry or found none |
| Recency.SweepUnnoticed | cache/memory.go:74-148 | two caches with the same live entries, each swept whenever it likes, keep the same ones over any later run of Get, Set, Add, Delete and DeletePrefix if and only if every call evicts a live entry from both or from neither |
| Recency.SameAnswers | cache/memory.go:74-148 | as long as that is so every call is answered the same by both |
| Recency.SweepNoticed | cache/memory.go:109-124 | a concrete cache of two entries, one expired, where after the same write a reader finds a value with a sweep and none without it |
| Recency.LookSwept | cache/memory.go:185-193 | no reader, then or later, sees that expired entries were dropped |
| Cache.Evictable | cache/memory.go:121-123 | the entry that falls off a full list has seen as many other keys used as the rest of the list holds |
| Cache.Memory.Get | cache/memory.go:74-88 | gives the value last written, unexpired; nothing only if nothing is written, it has expired, or the maximum number of other keys was used since; a hit moves to the front, an expired entry goes |
| Cache.Memory.Set | cache/memory.go:109-124 | the list is as after a write to a plain recency list: in place and to the front, or in front and the last one off |
| Cache.Memory.Add | cache/memory.go:99-107 | writes exactly when a reader would find nothing, and otherwise changes nothing |
| Cache.Memory.Delete | cache/memory.go:127-136 | exactly the named keys go |
| Cache.Memory.DeletePrefix | cache/memory.go:139-148 | exactly the keys with the prefix go |
| Cache.Memory.Sweep | cache/memory.go:185-193 | exactly the expired entries go, and what is promised of reads stands |
| Cache.Memory.Remove | cache/memory.go:167-170 | list and index lose the same entry |
| SingleFlight.NoOverlap | cache/typed.go:111-134 | in every run, a load of a key has ended before the next one of that key begins |
| SingleFlight.NoSecondLoad | cache/typed.go:80-95 | no load follows a successful one unless in between the entry was deleted, expired or not kept by the store |
| SingleFlight.OneOutcome | cache/typed.go:111-134 | all callers that return from one flight return the same value or error |
| SingleFlight.Group.Join | cache/typed.go:111-124 | a caller joins the flight of its key if there is one and otherwise starts the only one |
| SingleFlight.Group.Recheck | cache/typed.go:84-87 | the leader looks again before it loads |
| SingleFlight.Group.EndLoad | cache/typed.go:88-92 | a failed or panicking load settles the flight with the error; a panic leaves the panic error |
| SingleFlight.Group.Keep | cache/typed.go:92-93 | the value is returned whether or not the store keeps it |
| SingleFlight.Group.Release | cache/typed.go:126-131 | the flight leaves the board before anyone is let go |
| SingleFlight.Group.Wake | cache/typed.go:116-120 | one who waited returns what the flight holds |
| Idempotency.NoOverlap | idempotency/idempotency.go:172-231 | handler runs for one key never overlap |
| Idempotency.NoRunWhileKept | idempotency/idempotency.go:172-231 | once a response is kept no handler runs for the key until it expires |
| Idempotency.ReplayFaithful | idempotency/idempotency.go:172-193 | a replay answers a request with the fingerprint of one that was executed, no handler for the key has begun since, and what it sends is the status the client of that one was sent and the bytes its handler wrote, unless that client was switched to another protocol |
| Idempotency.Service.TryAdd | idempotency/idempotency.go:80-87 | a request that makes the pending record runs its handler; a store that fails means no answer, whether or not it made the record |
| Idempotency.Service.Read | idempotency/idempotency.go:88-100 | a different fingerprint is refused, a pending record means in progress, a kept response is written to the client, and a record gone means one more round |
| Idempotency.Service.Finish | idempotency/idempotency.go:195-206 | runs the handler's actions through the recorder; only a response without error, recorded whole and below 500 is to be kept |
| Idempotency.Service.Settle | idempotency/idempotency.go:206-230 | the response is stored or the key released; if the store does neither the pending record stays |
| Idempotency.Service.Die | idempotency/idempotency.go:195-199 | a process that dies, or a handler that panics, leaves its pending record |
| Idempotency.Service.Expire | idempotency/idempotency.go:74-101 | records expire, pending ones only after their request is over |
| Capture.Recorder.WriteHeader | internal/capture/capture.go:55-71 | records the first final status, the headers worth keeping, and that cookies forbid keeping |
| Capture.Recorder.Write | internal/capture/capture.go:74-87 | records what fits, whether or not it gets through to the client; one byte too many and nothing is kept |
| Capture.Record | internal/capture/capture.go:55-104 | after any handler the kept response is the status its client was sent, but 200 for 101, and the bytes written, of which the client was sent what got through; and it is kept exactly when it was begun, fits the limit and sets no cookie |
| Capture.WriteTo | internal/capture/capture.go:26-37 | a replay sends the kept status, headers and bytes |
| Capture.RecordAndReplay | internal/capture/capture.go:17-104 | a later client is sent the same status as the first exactly if that one was not switched to another protocol, and then the same bytes exactly if its status shows no body or every write got through to it whole; the nine headers about the body are as the first had them, and no other header is the first one's |
| Jobs.ExponentialBackoff | jobs/jobs.go:212-221 | the base doubled once per earlier attempt, capped, and at most a fifth more |
| Jobs.DoubledIs | jobs/jobs.go:210-217 | doubling once gives twice as much, and doubling a times and then b times is doubling a + b times |
| Jobs.Manager.Dispatch | jobs/jobs.go:261-301 | unknown names are refused if there are handlers, anything is once closed; otherwise one new job at attempt 1 |
| Jobs.Manager.Register | jobs/jobs.go:225-243 | refuses while running, empty names and names taken |
| Jobs.Manager.Land | jobs/memory.go:69-75 | a job waiting for room becomes ready, last in line |
| Jobs.Manager.Abandon | jobs/memory.go:69-75 | waiting ends without room only when the dispatcher gives up or the queue closed |
| Jobs.Manager.Fire | jobs/memory.go:51-64 | a timer that fires takes its job out of the delayed ones |
| Jobs.Manager.Receive | jobs/memory.go:79-86 | the job ready longest goes to one worker |
| Jobs.Manager.Handle | jobs/jobs.go:378-399 | the handler runs at the attempt the job is at; a job nobody handles is rejected |
| Jobs.Manager.Judge | jobs/jobs.go:399-427 | success acknowledges; failure retries below the limit unless permanent, and rejects otherwise |
| Jobs.Manager.Settle | jobs/memory.go:119-133 | each delivery is settled once: acknowledged, rejected, or put back one attempt on |
| Jobs.Manager.Close | jobs/memory.go:99-112 | loses the delayed jobs and nothing else |
| Jobs.Manager.Conserved | jobs/memory.go:43-133 | while the queue is open every job dispatched is at exactly one place |
| Jobs.Manager.Attempts | jobs/jobs.go:378-433 | the handler has run at attempts 1 to k without a gap, k at most max(1, limit); an acknowledged job at every attempt it was delivered |
| Jobs.Bounded | jobs/jobs.go:378-433 | as many deliveries were settled as made, and runs stay within the limit |
| Jobs.Manager.Leave | jobs/jobs.go:359-366 | a worker told to stop leaves only between deliveries |
| Jobs.Manager.Drained | jobs/jobs.go:333-357 | when all workers have left nothing is in flight |
| Jobs.Manager.Standstill | jobs/memory.go:46-76 | no worker can go on exactly if all are idle with nothing ready, or all wait to put a job back into a full open channel |
| Jobs.Manager.Happen | jobs/memory.go:46-76 | that second standstill outlasts dispatches, dispatchers giving up, timers, registrations and a stop |
| Jobs.Jam | jobs/jobs.go:378-433 | a run of one worker and two jobs that ends there |
| RedisQueue.Queue.Enqueue | contrib/redis/queue.go:41-51 | one new job at the head of ready, or in the delayed set |
| RedisQueue.Queue.Promote | contrib/redis/queue.go:53-60 | up to 100 jobs that are due, earliest first, become ready behind those that are; fewer only if no more are due |
| RedisQueue.Queue.Take | contrib/redis/queue.go:72-72 | the oldest ready job moves to processing in one step |
| RedisQueue.Queue.Ack | contrib/redis/queue.go:133-135 | takes a job out of processing, only after its handler succeeded |
| RedisQueue.Queue.Retry | contrib/redis/queue.go:137-150 | replaces a job by its next attempt, delayed, in one step |
| RedisQueue.Queue.Reject | contrib/redis/queue.go:152-159 | moves a job from processing to the dead ones in one step |
| RedisQueue.Queue.Crash | contrib/redis/queue.go:63-90 | a worker that dies at any point changes no list |
| RedisQueue.Queue.RequeueProcessing | contrib/redis/queue.go:95-107 | everything in processing is ready again, before what was, and counted |
| RedisQueue.Queue.NeverLost | contrib/redis/queue.go:41-159 | whatever crashes, a job is on exactly one list, once, until an Ack after its handler succeeded |
| RedisQueue.Queue.OneWorker | contrib/redis/queue.go:63-90 | no job is with two workers |
| DotEnv.FindClosingQuote | config/dotenv.go:216-226 | the first double quote no backslash escapes |
| DotEnv.UnescapeDouble | config/dotenv.go:233-257 | escapes resolved, or the first unknown one |
| DotEnv.ExpandAll | config/dotenv.go:261-282 | the loop from sign to sign puts out the text with its first reference resolved, and so on in what follows it; what is put in is not looked at again, and all else is left as it is |
| DotEnv.FirstRefIs | config/dotenv.go:261-282 | the first reference is a dollar sign and a valid key in braces, and there is none before it; if none is found there is none |
| DotEnv.ReadQuoted | config/dotenv.go:169-182 | a quoted value over as many lines as it takes |
| DotEnv.ParseDotEnv | config/dotenv.go:135-200 | line by line the same keys, values and first error as the grammar gives; what those are say EnvFile.EntriesMean and EnvFile.FaultsTold |
| DotEnv.EscapeCloses | config/dotenv.go:216-226 | an escaped value ends at the quote put after it and nowhere before |
| DotEnv.UnescapeEscape | config/dotenv.go:233-257 | unescaping undoes escaping, dollars marked |
| DotEnv.RoundTrip | config/dotenv.go:135-200 | keys and values printed in double quotes parse to themselves in any environment, if and only if no value holds U+E000 |
| EnvForm.BeforeIs | config/dotenv.go:139-145 | a reference stands for the value of the last entry for its key before it, or else for the environment's, or else for nothing |
| EnvFile.EntriesMean | config/dotenv.go:135-200 | any file of blank lines, comments and assignments in double, single or no quotes, over one or more lines, with or without "export", blanks and comments, its lines ended by LF or CR LF, parses to its assignments with escapes resolved and each reference replaced by what it stands for there, if and only if no value in double quotes has white space before its first line break |
| EnvFile.FaultsTold | config/dotenv.go:158-182 | behind any such entries a line with no equals sign or no key, a quote that is not closed or an escape there is not is told as such, with the line it begins on |
| Sse.Stream.Send | stream.go:127-162 | writes the frame of a valid event and nothing else; refuses IDs and types with line breaks |
| Sse.Stream.Comment | stream.go:174-183 | writes a comment, line breaks blanked |
| Sse.FrameBack | stream.go:134-157 | read by section 9.2.6 of the WHATWG HTML Living Standard a frame dispatches exactly its event and leaves nothing behind |
| Sse.NormalIs | stream.go:151-151 | data is sent as it is but that a CR LF is one LF |
| Sse.SentAsReceived | stream.go:127-183 | a client receives exactly the events sent, in order, if and only if no data holds a carriage return without a line feed and no ID a NUL |
| Sse.Serve | stream.go:127-183 | any sequence of Send and Comment on a stream writes what that theorem is about, so its client receives exactly the events sent under the same condition |
| Schema.GroundedWhenCut | openapi/schema.go:76-162 | the generator has a termination measure if and only if every cycle of types passes through a named struct that is not taken apart for embedding, or a type that describes itself |
| Schema.SelfDescribing | openapi/schema.go:80-97 | a struct that holds a pointer to itself and describes itself is such a graph |
| Schema.Generator.ComponentName | openapi/schema.go:150-162 | finds a name nobody owns, of safe characters; for names that are fit as they are it is the type's own if that is free, else with the package, else with the first number from 2 that makes it new |
| Schema.SanitizeIs | openapi/schema.go:164-167 | what is left of a name is of safe characters with no underscore at either end, and a name that is so already stays as it is |
| Schema.Generator.SchemaFor | openapi/schema.go:76-133 | any type graph that is grounded gets its schema, components by reference |
| Schema.Generator.RefTo | openapi/schema.go:135-146 | a component known or being described is referred to; another is described first |
| Schema.Generator.AddFields | openapi/schema.go:178-209 | the properties are those of the exported fields in order, embedded structs taken apart; what they mean says Conforming.BodyFits |
| Schema.Generator.Generate | openapi/schema.go:38-40 | every reference in the schema and in every component is to a finished component of the type that owns the name; different types have different names |
| Schema.ShapeStable | openapi/schema.go:76-133 | a schema depends only on the names of the components it uses |
| Schema.ShapeRefs | openapi/schema.go:76-133 | every reference in a schema is to the name of a component it uses, and none of it is left to be filled in |
| Conforming.BodyFits | openapi/schema.go:178-209 | a struct's schema accepts an object exactly if it has all required members, called by the JSON tag's name or else the field's, and every member fits the last field so called, of the struct or of any embedded in it at any depth |
| Conforming.ShapeFits | openapi/schema.go:76-133 | with every component in place the schema of any type accepts exactly the JSON that fits the type, recursive types included |
| Conforming.Document | openapi/schema.go:38-40 | the generator's answer accepts exactly what fits the type asked for, and a reference to any component exactly what fits the type that owns it |
| Conforming.OuterFieldShadowed | openapi/schema.go:178-209 | a concrete struct whose own field gives way to an embedded one of the same name |

## Left out

- Sockets, listeners, TLS, signals, `net/http` itself, files, logging, metrics and tracing: calls into libraries with nothing of this kind to prove.
- JSON, gzip, SHA-256, HMAC and regular expressions: values that are encoded and decoded are modelled as themselves; a request fingerprint is any string.
- Reflection: types, tags and values of the validator, the container and the schema generator are small algebraic types.
- Texts of errors and diagnostics, and which of several diagnostics comes first.
- Concurrent `Start` and `Shutdown` of one application, the server loop, and the drain of requests: only the order of hooks is modelled, used sequentially.
- The HEAD to GET fallback and the 404 and 405 answers of the dispatcher: single-branch facts on top of the router.
- URL escaping in `buildURL`: values are put in as they are, which is what the theorem on plain values is about.
- The container's request-scoped resolution (`Context.resolve`) and `Invoke`: the same recursion as singletons, once per request.
- Map iteration order in `ValidatePlan`: a dictionary's items are judged in one fixed order.
- ValidatePlan.Validator.RunValidatable: the panic of reflection on the own `Validate` of an embedded struct of an unexported type, and validators that change the value they are called on, are not modelled.
- Hub.Hub.Publish: numbers of events are unbounded, so the wrap of a 64-bit counter is not modelled; `Serve` and the encoding of payloads are not either.
- RateLimit.RemainingExact: times are integers of unbounded size, so the rounding of the float division and the overflow of 64-bit durations are not modelled, nor a period shorter than the limit, whose interval is zero.
- RateLimit.Shared.Allow: the script's microsecond times are taken as exact, and Redis is taken to drop a key no earlier than its deadline.
- RateLimit.Memory.Allow: the 32 shards are one, since a key only ever meets its own shard.
- Cache.Memory.Get: clones of byte slices are values; the list is a sequence of entry objects rather than linked elements, so constant-time removal is not modelled.
- SingleFlight.NoSecondLoad: a value that cannot be encoded or decoded counts as one the store did not keep; waiting has no time limit, as in the code.
- Idempotency.NoOverlap: the pending record is assumed to outlive the request that made it, and the store not to evict; a lock that expires while its handler runs would let a second one in.
- Capture.Record: what a write or a commit reports back to the handler, and a response begun before the middleware runs, writers that handlers reach by unwrapping the recorder, and headers changed by hooks that run as the response is committed are not modelled.
- Jobs.ExponentialBackoff: durations are unbounded, so the overflow of the doubled delay for a cap above half the 64-bit range is not modelled.
- Jobs.Manager.Dispatch: dispatch options that rewrite a job, contexts, timeouts, correlation IDs, and middleware around handlers; a job is told apart by a serial number, not by its ID, which callers may repeat.
- RedisQueue.Queue.NeverLost: two jobs are taken to have different payloads, as the delayed set is keyed by payload; payloads that do not decode are not modelled, since moving them to the dead list takes two commands; `RequeueProcessing` is used as its comment demands, while no worker has a job.
- EnvFile.EntriesMean: a dollar sign that begins no reference is only there as an escape or in single quotes (`DotEnv.FirstRefIs` says that it is left as it is elsewhere), and the line `export =x` is not an entry, since its key is taken for the prefix.
- DotEnv.ParseDotEnv: text is a sequence of code points, so invalid UTF-8 is not modelled, nor the limit of one megabyte on a line; looking for files and setting the environment are left out.
- Sse.SentAsReceived: the byte order mark a client would skip at the start of a stream never occurs in what is written; failing writes end the stream and are left out.
- Conforming.ShapeFits: the JSON of a basic or special type is told from others only by that type, so formats and bounds of numbers and strings are not modelled; which of several fields of one name encoding/json would take is not either.
- Schema.Generator.Generate: documentation and validation keywords on schemas, and `InlineSchema` with exclusions, add no references and are left out; schemas are values, each being linked into one parent only; types that are nothing but a cycle of pointers are not modelled; a type that describes itself is taken to refer to no component.
- Pagination, content negotiation, CORS, policies, sessions, configuration binding, the command line and the templates: mostly single-branch facts.

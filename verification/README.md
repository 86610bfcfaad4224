# A verified model of the TLS measurement pipeline

The benchmark client probes three TLS endpoints in a rotating order. For every recorded probe the
client and the server each post one half of a measurement to the dashboard. The dashboard merges the
halves by sample id in SQLite and summarises the merged rows. This project models that pipeline from
the probe schedule to the displayed counts and medians, and proves what it promises.

Check everything with `dafny verify dfyconfig.toml` (Dafny 4.11).

## How the model is laid out

| file | what it models |
|---|---|
| `Wrappers.dfy`, `CText.dfy`, `Decimal.dfy`, `Modes.dfy`, `Reals.dfy` | optional values, C strings and `snprintf`/`strstr`, decimal printing, the three modes, products of reals |
| `Platform.dfy` | sockets, SSL objects, the clock and `tcp_connect_host`; calls whose outcome the program does not control are nondeterministic |
| `SampleIds.dfy`, `Requests.dfy`, `Server.dfy` | identifiers, the probe request and what the server reads out of it, the server's connection handler |
| `Probes.dfy`, `Schedule.dfy`, `Benchmark.dfy` | one probe, the rotation, the client's run |
| `Json.dfy`, `Messages.dfy`, `Intake.dfy`, `Http.dfy` | `json_escape`, the printed reports, their reading by RFC 8259 and by the schema's names, `send_all`, `post_json` and framing by RFC 9112 |
| `Store.dfy`, `Repository.dfy`, `StoreLog.dfy`, `StoreInvariants.dfy`, `Queries.dfy`, `Schemas.dfy` | the two tables, the repository object, the log they refine, their invariants, the read queries, the API's field limits |
| `Sorting.dfy`, `Percentile.dfy`, `Analytics.dfy`, `SummaryFacts.dfy` | order statistics, the percentile, `describe` and `summarize`, and how they respond to their data |
| `EndToEnd.dfy` | the whole pipeline |

Where the source changes state step by step the model does too: the repository is a class whose
methods commit or roll back, the buffer routines write arrays, and the programs work on a kernel object
whose sockets may be closed only while they are open and which logs every call that can take time, with
its outcome and the clock when it began and ended. Each such method is tied to a specification
function, and the theorems are about those functions.

## Main results

- **Convergence and refinement.** Every row and every run is a closed function of the log of admitted
  writes (`StoreLog.RowsRefineLog`, `StoreLog.RunsRefineLog`). Two orders of delivery of one pair of
  halves leave the same row if and only if the halves agree (`StoreLog.OrdersAgreeExactly`), and two
  deliveries of consistent reports leave the same rows up to timestamps (`StoreLog.DeliveriesConverge`). Two
  whole histories that say the same leave the same tables up to timestamps, provided that the reports of
  each sample repeat or agree with each other and no run is described in two ways
  (`StoreLog.TablesConverge`). In a live run the halves always agree (`EndToEnd.LiveHalvesAgree`).
- **Conservation.** At any moment, whatever was lost, the samples that the dashboard shows of a mode are the
  probes of which some half was taken, and their successes those that returned 0 or whose client's report
  was not taken (`EndToEnd.ShownExactly`). Once the client's reports have been taken, whatever their order,
  repetition and surrounding traffic, it shows one sample per iteration and admitted mode, with the right
  successes and failures (`EndToEnd.Conservation`, `EndToEnd.FailuresAccountedFor`). Of the rest of the traffic, and of what the
  database holds before, nothing is asked but that it does not write under the run's own id or its
  sample ids; other runs of the client meet that, and so do ids that do not begin with the run's id and a
  dash or are too short (`EndToEnd.LabelledElsewhere`, `EndToEnd.UnlikeElsewhere`). That the client's reports were taken follows
  from the answers to its posts, through every byte of their path (`EndToEnd.AnsweredIsReported`).
- **Identity and wire formats.** Sample ids, probe requests, JSON reports and HTTP framing are each
  proved to be inverted by their readers: ids and requests with the exact limits at which they stop being
  so, reports when the names in them need no escaping, framing when path and host carry no CR and the
  recipient ends lines at CRLF.
- **Statistics.** The percentile is a quantile, linear, monotone, 1-Lipschitz and mirror-symmetric, and the
  minimisers of total absolute deviation are exactly the values between the two middle samples.

## What the code does that its descriptions do not say

- The API and the analytics know three modes, but the CHECK constraint admits two, so every
  `hybrid_p256` report is rejected and rolled back. `EndToEnd.Conservation` states what this means: no
  sample of that mode is ever shown, and the client counts failures that the dashboard cannot.
- README.md of the repository describes an alternation of two modes; the code rotates three, and the
  model follows the code.
- README.md promises a unique sample id for every measured connection. Over everything the client's own
  option check admits there is one exception, stated exactly by `SampleIds.SampleIdCollisions`: the
  buffer cuts the id of probe 1000000 of the P-256 mode when the run id has all 160 characters. Within the
  dashboard's limit of 120 characters the promise holds.
- The server records a probe only when the run id has at most 139 characters, and also records an
  unrecorded one when the Host value contains `record=1` (`Requests.RequestRoundTrip`).
- COALESCE skips NULL and not the empty string (`StoreLog.EmptyStringErases`).
- The recorded handshake time never wraps; the printed one does, exactly when the probe failed before its
  handshake and the clock had moved (`Probes.SpansAreTrue`).
- A server's report alone counts as a success, so a probe that failed on the client's side is shown as a
  success while the client's report is missing or lost (`EndToEnd.ShownExactly`). The dashboard may lack
  failures in this way, but it never invents one (`EndToEnd.FailuresAreReal`).
- `dashboard_data` takes the empty run id for none and shows an empty page, while the run list would count
  the rows of such a run: the two agree about every other run, and about this one exactly while it has no
  rows (`Queries.AggregatesAgree`). The API refuses the empty id, so it never has (`Schemas.ApiPagesAgree`).
- The API bounds byte counts only from below, and the database's driver refuses those of 2^63 and more
  (`Schemas.AcceptedIsAdmitted`).
- `percentile` raises beyond 100 and, below 0, wraps around as Python indices do before it raises
  (`Percentile.RaisesExactly`).
- README.md starts the client's TCP time at `connect()`; the code starts it before name resolution.

## Modelling decisions

- SQLite evaluates CHECK constraints on the proposed row before it looks for a conflicting key, and its
  driver refuses integers outside 64 bits; both reject the whole transaction.
- Clock readings are parameters of the store's writes. ISO timestamps compare as their instants.
- Queries are specified up to the order of rows with equal timestamps, and the results about them hold for
  every such answer.
- Measured values are integers and statistics are real numbers.
- Texts that come from the TLS library, and the expected groups, are C strings. Where a result needs that
  their names contain no quotes, backslashes or control characters it says so (`Messages.PlainNames`).
- The dashboard answers a client's post only after it has taken what it read (`EndToEnd.Took`).
- Both TLS ends are assumed to report the same group, version and cipher of a session, and a server to run
  with the mode and group of the endpoint the client addresses it by.

## Model

| member | source | states |
|---|---|---|
| `SampleIds.ValidIdentifier` | tls/common.c:127-143 | accepts exactly the texts of 1 to 160 letters, digits, `_`, `-` and `.` |
| `SampleIds.Alphabet` | tls/common.c:134-140 | the characters of an identifier, spelt out |
| `SampleIds.DefaultRunIdValid` | tls/tls_benchmark.c:38-44 | the run id the client makes up itself is always valid and short |
| `Decimal.PaddedInjective` | tls/tls_benchmark.c:175 | zero-padded printing of the sequence number loses nothing |
| `Decimal.DecWidth` | tls/tls_benchmark.c:175 | the width of a printed number, both ways |
| `SampleIds.FullIdInjective` | tls/tls_benchmark.c:175 | the uncut id determines run, mode and sequence, although run ids may contain dashes |
| `SampleIds.IdAsPrinted` | tls/tls_benchmark.c:175 | what the id of a probe looks like, for each mode |
| `SampleIds.TruncationExactly` | tls/tls_benchmark.c:154-175 | the 180-byte buffer cuts exactly one kind of id among all the client's options admit |
| `SampleIds.CutShortId` | tls/tls_benchmark.c:154-175 | the concrete collision: the cut id is the id of another probe |
| `SampleIds.SampleIdCollisions` | tls/tls_benchmark.c:154-175 | when two probes of any runs share an id, if and only if |
| `SampleIds.SampleIdsUnique` | dashboard/app/schemas.py:12-22 | within 120 characters ids are unique, uncut and pass the API's own limit |
| `Requests.ScanValue` | tls/tls_server.c:119-121 | the end pointer stops at the first separator or at the end of the string |
| `Requests.CopyValue` | tls/tls_server.c:124-125 | the value and its NUL land in the output buffer |
| `Requests.ExtractQueryValue` | tls/tls_server.c:111-127 | success and output are those of the first occurrence of the name whose value fits and is an identifier |
| `Requests.ValueIsIdentifier` | tls/tls_server.c:116-126 | whatever is taken for a value is an identifier that fits, and nothing is without its name |
| `Requests.ReadsBack` | tls/tls_server.c:117-126 | a value printed after the first occurrence of its name is read back, exactly when it fits |
| `Requests.RequestLayout` | tls/tls_benchmark.c:204-212 | the query always fits the 640-byte buffer; only the Host value and what follows can be cut |
| `Requests.RequestFormat` | tls/tls_benchmark.c:204-212 | the request as printed, and from which length on its buffer cuts it |
| `Requests.RequestArrives` | tls/tls_benchmark.c:204-213 | the request fits the server's buffer and no NUL cuts it |
| `Requests.FlagInRequest` | tls/tls_server.c:170 | the record flag is seen when the client set it or the Host value contains it, and not otherwise |
| `Requests.RequestRoundTrip` | tls/tls_benchmark.c:204-212 | the server recovers exactly the printed ids and records exactly under the stated condition, for every valid run id and every host |
| `Server.DecideRecord` | tls/tls_server.c:170-172 | the decision on the request buffer is the specified one |
| `Server.HandleConnection` | tls/tls_server.c:129-220 | served exactly when handshake and read succeed; connection and SSL object are released once on every path, and are no longer held when the socket that carries the half is opened; the half's time covers the handshake and nothing before or after; it is posted exactly when a recordable request was read |
| `Server.ResponseIsAnswer` | tls/tls_server.c:193-202 | fifteen bytes of the server's response make the client take it for an answer |
| `Server.HalvesAreReportable` | tls/tls_server.c:170-218 | every half that the server's parsing leads to is within its message's limits |
| `Server.ServerMessageReadsBack` | tls/tls_server.c:204-218 | the server's message is never cut by its 1200-byte buffer, and a JSON reader recovers exactly the half |
| `Server.PostDelivers` | tls/tls_server.c:204-219 | off an answered post the dashboard takes in the posted half and no other |
| `Server.PostAddressed` | tls/tls_server.c:218 | the post goes to the path where the dashboard takes server reports |
| `Platform.TcpConnectHost` | tls/common.c:20-52 | one look-up, then every address in turn until one connects; exactly the returned socket stays open, and no peer receives anything |
| `Probes.ReadResponse` | tls/tls_benchmark.c:217-222 | for any chunking the buffer holds the delivered bytes or their first 4095, NUL-terminated; the recorded reading is taken after the first chunk and before any other |
| `Probes.Converse` | tls/tls_benchmark.c:193-227 | the request is written exactly when the negotiated group is the expected one; once written, the response is read as far as it goes, and its text alone decides between success and failure |
| `Probes.AnswerDecides` | tls/tls_benchmark.c:223-226 | which status lines the client takes for an answer: those of 200 OK alone |
| `Probes.CaseIgnored` | tls/tls_benchmark.c:200 | the expected group is recognised in either case, and nothing else is taken for it |
| `Probes.NamesReported` | tls/tls_benchmark.c:194-199 | each negotiated name is reported in its own column, whole unless its buffer is too short |
| `Probes.Try` | tls/tls_benchmark.c:147-239 | on every exit sockets and SSL objects are released exactly once; every clock reading is taken at its place among the calls; the exit is the one that the calls' outcomes demand, with its own error text; the byte counts are those before the farewell |
| `Probes.SpansAreTrue` | tls/tls_benchmark.c:240-258 | no recorded subtraction wraps; tcp + handshake and ttfb fit in total, and are ordered on success; when the printed one wraps |
| `Probes.Probe` | tls/tls_benchmark.c:147-261 | 0 exactly on success; the half is reported exactly for recorded probes, with the values of the attempt |
| `Schedule.EachModeOnce` | tls/tls_benchmark.c:327-333 | every iteration probes every mode once, and at which position |
| `Schedule.RoundOrder` | tls/tls_benchmark.c:327-333 | the order of the modes in each of three rounds |
| `Schedule.Rotates` | tls/tls_benchmark.c:327-333 | which repeat for ever |
| `Schedule.OccupancyIs` | tls/tls_benchmark.c:327-333 | how often a mode holds a position, in closed form |
| `Schedule.PositionsShared` | tls/tls_benchmark.c:327-333 | every mode holds every position floor(N/3) or ceil(N/3) times |
| `Schedule.ThreeIterations` | tls/tls_benchmark.c:327-333 | a full rotation advances every mode's time sum alike |
| `Schedule.TimesBalanced` | tls/tls_benchmark.c:327-333 | time sums of two modes differ by at most 2, and not at all over whole rotations |
| `Schedule.DriftCancels` | README.md:110-110 | linear drift in either direction favours no mode beyond two steps, and none over whole rotations |
| `Benchmark.AcceptOptions` | tls/tls_benchmark.c:76 | the limits on iterations, warm-ups and run id |
| `Benchmark.Warmup` | tls/tls_benchmark.c:320-325 | each round probes the three endpoints in their fixed order; nothing is reported of them, and no socket opened for them is sent anything in the clear |
| `Benchmark.Measure` | tls/tls_benchmark.c:327-333 | one measured probe is the scheduled one and posts its half |
| `Benchmark.RunProbes` | tls/tls_benchmark.c:320-334 | 3N measured probes in rotating order, one half each in that order, the failures counted are those that did not return 0, and of every answered post the dashboard has received the whole message |
| `Benchmark.RecordClient` | tls/tls_benchmark.c:102-145 | every socket is closed, and the result is that of the whole message and its answer |
| `Benchmark.GenuineIsReportable` | tls/tls_benchmark.c:147-256 | every measured probe's attempt is within its message's limits, however it ended |
| `Benchmark.WireDelivers` | tls/tls_benchmark.c:102-145 | off an answered post of a run the dashboard takes in exactly the half of that probe, and no other |
| `Benchmark.WireAddressed` | tls/tls_benchmark.c:144 | the post goes to the path where the dashboard takes client reports |
| `Benchmark.RunDelivers` | tls/tls_benchmark.c:303-310 | off the creation request the dashboard takes in exactly the run that the options describe |
| `Benchmark.RunBenchmark` | tls/tls_benchmark.c:289-345 | no probe unless the run could be created; otherwise all of them between creation and completion, and 0 exactly when none failed |
| `Json.JsonEscape` | tls/common.c:107-125 | writes inside the buffer only, terminates it, and leaves the escape of the longest prefix that leaves room for a pair |
| `Json.EscapeDecodes` | tls/common.c:107-125 | every escaped text reads back as its sanitised form |
| `Json.PrintableStays` | tls/common.c:120-122 | printable text is left alone |
| `Json.ControlsSanitised` | tls/common.c:118-122 | a line break or tab becomes a space, any other control character goes |
| `Json.QuotesEscaped` | tls/common.c:115-117 | quotes and backslashes are put behind a backslash |
| `Json.EscapeMeans` | tls/common.c:115-117 | what the escapes stand for to the reader |
| `Json.EscapedDecodes` | tls/common.c:107-125 | in any buffer the result fits and reads back as a sanitised prefix; no pair is split |
| `Json.TakesAllExactly` | tls/common.c:113-124 | when the whole text is taken, if and only if, and that twice the length suffices |
| `Messages.ErrorSaid` | tls/tls_benchmark.c:118-123 | the client's error text is never cut by its buffer and reads back sanitised |
| `Messages.ReadsBack` | tls/tls_benchmark.c:124-143 | a flat object printed member by member is read back by the JSON grammar |
| `Messages.ClientMessageReadsBack` | tls/tls_benchmark.c:102-145 | the client's message is never cut, and a JSON reader recovers exactly the reported half |
| `Messages.VersionWhole` | tls/tls_benchmark.c:303 | how much of the library's version text is kept |
| `Messages.RunMessageReadsBack` | tls/tls_benchmark.c:303-309 | so is the message that creates the run |
| `Intake.ClientTakenIn` | dashboard/app/schemas.py:31-46 | read by the names of the schema, a client's message is taken in as the half it means |
| `Intake.ServerTakenIn` | dashboard/app/schemas.py:20-28 | and a server's |
| `Intake.RunTakenIn` | dashboard/app/schemas.py:11-17 | and the description of a run |
| `Intake.EntriesDetermine` | tls/tls_benchmark.c:124-143 | reports that read alike are alike |
| `Http.SendAll` | tls/common.c:54-64 | success delivers the data once and in order; failure a proper prefix, and only because a send was refused |
| `Http.PostJson` | tls/common.c:66-105 | every socket is closed; once connected the message is sent when its header fits, an answer is awaited exactly when it was sent whole, and the result is success exactly when that accepts it |
| `Http.StatusDecides` | tls/common.c:100-104 | which status lines accept: 200 and 201 |
| `Http.RequestLineRead` | tls/common.c:78-86 | the recipient reads the method and the path that were meant |
| `Http.FieldsSaid` | tls/common.c:78-86 | and the host, the type of the content and the wish to close |
| `Http.FramingRecovers` | tls/common.c:78-92 | a recipient recovers exactly the posted JSON when path and host carry no CR |
| `Schemas.AcceptedIsAdmitted` | dashboard/app/schemas.py:11-28 | which of the runs, server reports and client reports that the API accepts the database takes, if and only if |
| `Schemas.LiveReportAccepted` | dashboard/app/schemas.py:31-46 | when a live client report is accepted, by run id, duration and names, and when it is then taken, if and only if |
| `Schemas.FieldLimits` | dashboard/app/schemas.py:11-46 | the limits of every field of the three kinds of object |
| `Schemas.LiveRunAccepted` | dashboard/app/schemas.py:11-17 | when the creation of a live run is accepted, if and only if, and that it is then taken |
| `Schemas.ApiPagesAgree` | dashboard/app/schemas.py:11-46 | in every state the API can bring about, run list and page show the same counts for every run |
| `Repository.BenchmarkRepository.constructor` | dashboard/app/db.py:44-82 | a new database is empty and valid |
| `Repository.BenchmarkRepository.InsertOrIgnoreRun` | dashboard/app/db.py:84-89 | adds a bare run only when the id is new |
| `Repository.BenchmarkRepository.CreateRun` | dashboard/app/db.py:91-112 | whole new state; a known run keeps its start and completion |
| `Repository.BenchmarkRepository.CompleteRun` | dashboard/app/db.py:114-117 | whole new state; an unknown run is created first |
| `Repository.BenchmarkRepository.RecordServer` | dashboard/app/db.py:119-146 | whole new state and when it commits; a rejected write rolls back even the run it inserted |
| `Repository.BenchmarkRepository.RecordClient` | dashboard/app/db.py:148-190 | whole new state and when it commits, with COALESCE on the three negotiated columns |
| `Repository.BenchmarkRepository.JoinRun` | dashboard/app/db.py:195-199 | the join counts a run's rows and its successful rows |
| `Repository.BenchmarkRepository.Runs` | dashboard/app/db.py:192-203 | the newest runs first, up to the limit, each once, with their counts |
| `Repository.BenchmarkRepository.Measurements` | dashboard/app/db.py:205-220 | the selected rows, newest first, up to the limit, each once |
| `Repository.BenchmarkRepository.DashboardData` | dashboard/app/db.py:222-233 | the selected run, its summary and its 40 newest rows; no rows for the empty id |
| `Queries.Newest` | dashboard/app/db.py:200-214 | a descending, duplicate-free, complete selection cut at the limit |
| `Queries.HowMany` | dashboard/app/db.py:200-214 | how many rows a limit leaves |
| `Queries.RunListOrder` | dashboard/app/db.py:192-203 | the run list is as long as asked for, the latest start first, none left out that is later |
| `Queries.MeasurementOrder` | dashboard/app/db.py:205-220 | measurements come by their creation, the latest first, each once and only of the run asked for |
| `StoreLog.SettledAppend` | dashboard/app/db.py:128-161 | how one more write settles a negotiated column |
| `StoreLog.RowOfAppend` | dashboard/app/db.py:119-190 | the row of a longer history is the upsert of the row of the shorter one |
| `StoreLog.RowsRefineLog` | dashboard/app/db.py:119-190 | after any requests a row is the closed function of the admitted writes that name it, and exists iff there are any |
| `StoreLog.RunsRefineLog` | dashboard/app/db.py:84-117 | the same for runs: start of the first write, completion of the last, description of the last creation |
| `StoreLog.Converges` | dashboard/app/db.py:119-190 | once both agreeing halves have arrived, in any order and number and amid any traffic, the row is their merge |
| `StoreLog.OrdersAgreeExactly` | dashboard/app/db.py:119-190 | the two single-delivery orders agree if and only if the halves agree wherever both speak |
| `StoreLog.EmptyStringErases` | dashboard/app/db.py:158-161 | an empty client value overwrites the server's, but only when it comes second |
| `StoreLog.DeliveriesConverge` | dashboard/app/db.py:119-190 | two logs with the same consistent reports leave the same rows up to timestamps |
| `StoreLog.RunsConverge` | dashboard/app/db.py:84-117 | two logs that say the same leave the same run up to when it began and ended, unless they describe it in two ways |
| `StoreLog.CreationOrdersAgreeExactly` | dashboard/app/db.py:91-112 | two creation requests of a run may come in either order if and only if they describe it alike |
| `StoreLog.TablesConverge` | dashboard/app/db.py:84-190 | two consistent histories of a new database that say the same leave the same tables up to timestamps |
| `StoreInvariants.StepKeeps` | dashboard/app/db.py:84-190 | every write keeps validity and undoes nothing settled |
| `StoreInvariants.ReplayKeeps` | dashboard/app/db.py:84-190 | so does every sequence of writes from any valid state |
| `StoreInvariants.HistoryKeeps` | dashboard/app/db.py:84-190 | between any two moments of a history rows and runs persist with their fixed fields |
| `StoreInvariants.RejectedLeaveNoTrace` | dashboard/app/db.py:31-43 | rejected writes could be struck from the log without any effect |
| `StoreInvariants.ThirdModeRejected` | dashboard/app/db.py:61 | a report of hybrid_p256 changes nothing |
| `StoreInvariants.OtherModesTaken` | dashboard/app/db.py:119-190 | a report of the other two is kept whole if its numbers are signed 64-bit ones, and changes nothing otherwise |
| `StoreInvariants.CreationSays` | dashboard/app/db.py:91-112 | a creation request sets every described column and neither start nor completion of a known run |
| `StoreInvariants.BareRunCreated` | dashboard/app/db.py:84-89 | what the run of a report that comes first looks like |
| `Queries.CompleteAnswer` | dashboard/app/db.py:205-220 | an unlimited answer lists each selected row once |
| `Queries.AnswerCounts` | dashboard/app/db.py:205-220 | counting listed records by any test is counting table rows |
| `Queries.AggregatesAgree` | dashboard/app/db.py:192-233 | the run list and the page's summary show the same samples, successes and failures of a run, if and only if its id is not empty or it has no rows |
| `Queries.SummaryIsOfTheTable` | dashboard/app/db.py:222-233 | the displayed summary does not depend on the order of ties |
| `Queries.ListingsCoverTable` | dashboard/app/db.py:192-203 | without a limit the listed samples add up to the table |
| `Sorting.SortMonotone` | dashboard/app/analytics.py:26 | raising samples raises every order statistic |
| `Sorting.SortPermutation` | dashboard/app/analytics.py:26 | the sorted sample depends on the values only |
| `Percentile.Quantile` | dashboard/app/analytics.py:22-35 | for a non-empty sample and p in 0..100 the function returns a value |
| `Percentile.NegativeIndices` | dashboard/app/analytics.py:33-35 | what Python indices below 0 and beyond the list give |
| `Percentile.RaisesExactly` | dashboard/app/analytics.py:22-35 | when it raises and when it has no answer, if and only if |
| `Percentile.QuantileMonotoneInP` | dashboard/app/analytics.py:29-35 | p50 <= p95 <= p99, and generally in p |
| `Percentile.QuantileSplits` | dashboard/app/analytics.py:29-35 | enough samples are at or below it and enough at or above it |
| `Percentile.QuantileEnds` | dashboard/app/analytics.py:29-35 | p = 0 and p = 100 are the least and greatest samples |
| `Percentile.QuantilePermutation` | dashboard/app/analytics.py:22-35 | order of the samples does not matter |
| `Percentile.QuantileMirror` | dashboard/app/analytics.py:29-35 | negating the data swaps p and 100 - p |
| `Percentile.QuantileShift` | dashboard/app/analytics.py:29-35 | adding a constant adds it to the result |
| `Percentile.QuantileMonotoneInData` | dashboard/app/analytics.py:26-35 | raising samples never lowers it |
| `Percentile.QuantileLipschitz` | dashboard/app/analytics.py:26-35 | moving samples by at most e moves it by at most e |
| `Percentile.QuantileOfProgression` | dashboard/app/analytics.py:29-35 | interpolation is linear: exact on equally spaced samples |
| `Percentile.MedianIsMiddle` | dashboard/app/analytics.py:45 | p50 lies between the two middle samples |
| `Percentile.MedianMinimises` | dashboard/app/analytics.py:22-45 | no real number is closer to the sample in total absolute deviation |
| `Percentile.MinimisersExactly` | dashboard/app/analytics.py:22-45 | the minimisers are exactly the values between the middle samples |
| `Analytics.Describe` | dashboard/app/analytics.py:38-50 | the percentiles a description asks for never raise |
| `Analytics.SummarizeMode` | dashboard/app/analytics.py:56-63 | the loop over the metrics fills the specified table of one mode |
| `Analytics.CompareMode` | dashboard/app/analytics.py:70-79 | the loop over the metrics fills the specified comparison |
| `Analytics.SummarizeModes` | dashboard/app/analytics.py:55-63 | the loop over the modes fills the specified table |
| `Analytics.CompareModes` | dashboard/app/analytics.py:65-80 | every mode but the baseline is compared with it |
| `Analytics.Summarize` | dashboard/app/analytics.py:53-85 | the filled dictionary is the specified summary, with the hybrid alias |
| `SummaryFacts.SamplesAre` | dashboard/app/analytics.py:56-62 | the values behind a metric are those of the mode's successful rows that have it, in order |
| `SummaryFacts.DescriptionOrdered` | dashboard/app/analytics.py:38-50 | min <= p50 <= p95 <= p99 <= max, with the mean among them |
| `SummaryFacts.DescriptionIs` | dashboard/app/analytics.py:38-50 | every figure is the statistic it is named after, and there is none of no values |
| `SummaryFacts.MeanIsCentre` | dashboard/app/analytics.py:44 | deviations from the displayed mean cancel, and squared ones from any other number add up to more, by how much |
| `SummaryFacts.ComparisonMeans` | dashboard/app/analytics.py:65-79 | the difference from the classical median, and the same in hundredths of it |
| `SummaryFacts.SummaryHolds` | dashboard/app/analytics.py:54-85 | a table for every mode, a comparison for every one but the classical, and the hybrid alias |
| `SummaryFacts.TablesHold` | dashboard/app/analytics.py:62-79 | every table covers every metric |
| `SummaryFacts.SummaryPermutation` | dashboard/app/analytics.py:53-85 | the summary does not depend on row order |
| `SummaryFacts.FailedRowsIrrelevant` | dashboard/app/analytics.py:57-79 | failed rows affect no metric and no comparison |
| `SummaryFacts.RaiseMovesOneDelta` | dashboard/app/analytics.py:65-80 | raising one metric of one compared mode by c moves that delta by c, and no count, no other description and no other delta |
| `SummaryFacts.NearDeltas` | dashboard/app/analytics.py:65-79 | noise of at most e moves medians by at most e and deltas by at most 2e |
| `SummaryFacts.CountsAddUp` | dashboard/app/analytics.py:55-63 | every row is counted once |
| `EndToEnd.WarmupsLeaveNothing` | tls/tls_benchmark.c:320-325 | no server records a warm-up probe unless a host name carries the flag |
| `EndToEnd.KeyAtInjective` | tls/tls_benchmark.c:327-333 | different measured probes have different keys |
| `EndToEnd.StemsSays` | tls/tls_server.c:170-218 | both halves of a probe carry its id, run and mode |
| `EndToEnd.LiveHalvesAgree` | tls/tls_server.c:200-219 | in a live run a server's half always agrees with the client's |
| `EndToEnd.LabelledElsewhere` | tls/tls_benchmark.c:175 | other runs within the dashboard's limit never use an id of this run |
| `EndToEnd.UnlikeElsewhere` | dashboard/app/schemas.py:22 | nor does any id that does not begin with the run's id and a dash, or is too short for what follows |
| `EndToEnd.AnsweredIsReported` | tls/tls_benchmark.c:235-256 | when the posts of a run were answered the dashboard has taken exactly the halves the client meant |
| `EndToEnd.ProbeHasRow` | dashboard/app/db.py:148-190 | a probe has a row if and only if one of its halves was taken; a row without the client's half counts as a success, any other tells the probe's outcome |
| `EndToEnd.RowHasProbe` | dashboard/app/db.py:119-190 | every row of the run belongs to a measured probe of an admitted mode |
| `EndToEnd.ModeRowsAre` | dashboard/app/db.py:119-190 | the run's rows of a mode are exactly those of its probes of which a half was taken, and its successful rows those that seem done |
| `EndToEnd.ShownExactly` | dashboard/app/db.py:119-190 | samples, successes and failures shown of each mode at any moment, whatever has arrived and whatever was lost |
| `EndToEnd.FailuresAreReal` | dashboard/app/db.py:123-127 | the dashboard never shows more failures of a mode than its probes had |
| `EndToEnd.Conservation` | dashboard/app/analytics.py:53-63 | N samples, the right successes and the rest as failures for classical and for hybrid; none for hybrid_p256 |
| `EndToEnd.FailuresAccountedFor` | tls/tls_benchmark.c:332-338 | the client's failures are the dashboard's plus those of the mode the table rejects |
| `EndToEnd.LiveRowMerged` | dashboard/app/db.py:119-190 | a probe whose two halves have arrived has the merged row |

## Left out

- OpenSSL, handshakes, certificates, name resolution and the transport: their results are nondeterministic.
- The response body the server writes to the client: only the client's reading of a status line is modelled.
- Port numbers, command-line parsing but for its limits, and what the programs print to the terminal.
- HTTP status handling of the dashboard, templates, scripts, CSV export and the score, exposure, roadmap, compliance and inventory pages: small tables and library calls.
- JSON white space and negative or fractional numbers: neither reporter prints any.
- SQLite's storage, its journal and lock time-outs: a transaction is one atomic step.
- Rounding of floating-point statistics, and integers beyond the exact range of a float.
- Text that cannot be encoded as UTF-8; a C character is one Dafny character.

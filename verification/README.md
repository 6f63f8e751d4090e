# Onserva agent: a verified model

The Onserva agent watches one server. It follows the reverse proxy's access log and reports rates,
error rates and latency percentiles per site; it keeps readings while the platform is unreachable and
sends them in order afterwards; it hands actions the owner authorised to a privileged executor through
two spool directories; and it asks the local databases for their statistics over hand-written clients.
This project models those five parts and proves what they promise.

- **Latency histogram** (`LatencyHistogram`). The bucket counters, the bisection that fills them and the
  interpolating quantile. `Histogram.Valid` ties the counters to everything observed since the last
  reset; the main theorem compares a quantile with the sorted list the histogram replaced.
- **Access log** (`AccessLog`, `Lines`, `Tail`, `TailRuns`, `TailDelivery`, `TailHistory`, `TailExamples`,
  `SiteWindows`, `SiteReport`, `AccessCollector`, `Format`). Parsing; one pass of the tailer (`Tail`); all its runs
  against a writer that appends, rotates, truncates, removes and restores files, with failing calls and short reads,
  where every byte written has a serial number, so that what is returned can be compared with what was written
  (`TailRuns`, `TailDelivery`, `TailHistory`);
  the bounded map of sites; the report of a window. `Collector.Valid` ties every counter to the entries since the
  last sample, those and every report made to the lines the tailer ever returned, and those to its passes.
- **Fix protocol** (`Spool`, `Mailbox`, `FixProtocol`, `Reboots`, `OutcomesHeard`, `SpoolDirectory`, `Commands`,
  `FixProcesses`).
  `Mailbox` is one spool directory as a state machine over temporary writes, renames, listings, reads, removals,
  crashes and reboots; `FixProtocol` joins two of them with the memory of the two processes and interleaves all their
  steps; `OutcomesHeard` is what the platform hears when acknowledgements are lost. `SpoolDirectory` and `FixProcesses`
  are the calls and loops as the processes run them: spooling what was authorised, taking and carrying out requests
  (`Commands`), collecting outcomes. Each is proved to be a run of those steps.
- **Store and forward** (`AgentLoop`, `AgentDelivery`). The bounded queue, a tick, a flush, backoff, and results riding
  along. Ghost history records what became of every reading and every envelope acknowledged; `Agent.Valid`
  relates it to the state and holds whatever the platform answers and the clock reads. `AgentDelivery` proves a flush
  and a whole tick to be runs of the fix protocol.
- **Databases** (`MySqlWire`, `PostgresWire`, `DatabaseRates`). The decoders and session loops against encoders
  written from the MySQL Client/Server Protocol ("MySQL Packets", "Length-Encoded Integer", "Text
  Resultset") and the PostgreSQL 16 documentation (section 55.2.2 "Simple Query", section 55.7 "Message
  Formats"); and the rates drawn from cumulative counters over any run of visits.

`Wrappers`, `Sequences`, `Bytes`, `Alphabets`, `Fields` and `Ratios` are shared vocabulary. `dafny verify dfyconfig.toml` checks everything.

How the environment enters: system calls, the clock, the platform's replies and a command's outcome are
parameters chosen by the environment (`Luck`, `WriteLuck`, `Event`, `Reply`); library calls on text and JSON are
function parameters (`Std`, `Codec`), of which only that decoding inverts encoding is ever used. Durations,
rates and percentages are `real` and stated before rounding; counters are unbounded except in
`DatabaseRates`, where 64-bit wrap-round decides a result.

## What turned out not to hold

Where the code differs from its comments, its tests' comments or what one would expect, the model follows the
code, shows an input and proves the exact condition.

- A rotation is said to lose nothing (`internal/httplog/httplog_tail_test.go:113`). What was written to the old file
  after the last read is lost for good unless the path names that file again, and its unfinished last line is
  lost: `TailExamples.RotationLosesBytes`; for the condition `TailDelivery.RotationLosesExactly`,
  `TailDelivery.LeftBehindForGood` and `TailDelivery.LeftUnreadExactlyUntil`.
- Nothing is counted twice after a transient failure, as is said (`README.md:111-113` of the repository), but a log
  renamed away and back, or cut short and not emptied, is returned a second time: `TailExamples.RestoredIsReturnedTwice`,
  `TailExamples.CutShortIsReturnedTwice`; for the condition
  `TailDelivery.OnceExactlyWhen` and `TailDelivery.StartsDecide` of a whole run, `TailDelivery.StartDoublesExactlyWhen`
  of one pass.
- A file emptied and refilled past the position between two reads is not noticed, and a line is returned that
  was never written: `TailExamples.HiddenTruncationSplices`; for the condition `Tail.LookIsFaithful`.
- A colon is said to survive only inside a bracketed literal (`internal/httplog/parse.go:125`). Without
  brackets only what follows the last colon is dropped, so it survives wherever there are two, and an
  unbracketed IPv6 address loses its last group: `AccessLog.BareAddressIsCut`, and
  `AccessLog.ColonSurvivesExactlyWhen` for every header.
- The cache-hit percentage divides by a 64-bit sum that can wrap round (`internal/dbstat/collect.go:224-227`): two
  visits to PostgreSQL or Redis that report more than 100 or nothing are `DatabaseRates.HitPctOverflows`, the
  condition is `DatabaseRates.HitRatioIsPercentageExactlyWhen`; MySQL's counters cannot do it
  (`DatabaseRates.MySqlRatioIsPercentage`).
- From 1024 GiB on `formatBytes` looks up a letter that is not there (`internal/httplog/collector.go:300-311`):
  `Format.FormatBytes` returns nothing exactly then.
- The MySQL client stops at an undecodable row and leaves the rest of the reply unread
  (`internal/dbstat/mysql.go:191-194`), where the PostgreSQL client reads on: `MySqlWire.EmptyRowDesynchronises`,
  and `MySqlWire.InStepExactlyWhen` for when the session stays in step.
- An outcome looked at between its rename and its chown is removed unread (`internal/spool/spool.go:241-248`), and
  nobody ever hears of it: `FixProtocol.OutcomeCanBeLost`, and `SpoolDirectory.YieldsExactly` for what a reader
  does hand over.
- A duplicated outcome is called a lie the platform cannot detect (`cmd/onserva-agent/main.go:178-180`), and the agent
  can send one: `FixProtocol.OutcomeHeardTwice`. It does if and only if the platform took an envelope with outcomes,
  its acknowledgement was lost, and the agent sent again without having died, been rebooted or had an
  acknowledgement in between: `OutcomesHeard.HeardTwiceExactlyWhen`.

## Model

| member | source | states |
|---|---|---|
| LatencyHistogram.BucketBoundsAreAScale | internal/httplog/histogram.go:16-19 | the bucket bounds are positive and strictly increasing, which is all the theorems below ask of bounds |
| LatencyHistogram.SearchBounds | internal/httplog/histogram.go:38 | bisection finds the one bucket whose bounds enclose the duration |
| LatencyHistogram.ObservedKeepsSummary | internal/httplog/histogram.go:34-52 | updating counters, total, least and greatest keeps them a summary of all durations observed; a negative one leaves them alone |
| LatencyHistogram.Histogram.constructor | internal/httplog/histogram.go:30-32 | a new histogram summarises nothing |
| LatencyHistogram.Histogram.Observe | internal/httplog/histogram.go:34-52 | after the update in place the histogram summarises one observation more, unless it was negative |
| LatencyHistogram.Histogram.Reset | internal/httplog/histogram.go:54-61 | after the loop the histogram summarises nothing |
| LatencyHistogram.Histogram.QuantileAt | internal/httplog/histogram.go:66-119 | the loop answers exactly when something was observed, with the quantile specified of the summary |
| LatencyHistogram.ScanLands | internal/httplog/histogram.go:77-118 | the walk towards a target within the count stops in a non-empty bucket where the cumulative count passes it: the return after the loop is never reached |
| LatencyHistogram.BelowPermutes | internal/httplog/histogram.go:34-52 | the counts do not depend on the order of the observations |
| LatencyHistogram.SortedSplit | internal/httplog/histogram.go:80-88 | in the sorted list a value is in a bucket before the i-th exactly when its rank is below the cumulative count there |
| LatencyHistogram.ScanAccurate | internal/httplog/histogram.go:77-116 | the walk ends in the bucket that holds the ceil(target)-th smallest observation |
| LatencyHistogram.QuantileAccurate | internal/httplog/histogram.go:13-15 | for all observations and 0 < p < 1 the answer is in the bucket of the ceil(p n)-th smallest observation, and off by at most that bucket's width |
| LatencyHistogram.QuantileInterpolates | internal/httplog/histogram.go:91-115 | the answer lies as far between the bounds of that bucket as p n is between the observations before it and those in it, or is the nearer end of the range observed; the largest observation stands for the bound the last bucket lacks |
| LatencyHistogram.QuantileWithinFactorTwo | internal/httplog/histogram.go:13-19 | with the bounds in use a value between 1 ms and 60 s is at most twice and at least half of what is reported for it |
| LatencyHistogram.QuantileEnds | internal/httplog/histogram.go:70-75 | p at or below 0 gives the least observation and p at or above 1 the greatest |
| LatencyHistogram.BoundIsInclusive | internal/httplog/histogram.go:38 | a duration equal to a bound is counted in the bucket below it |
| LatencyHistogram.QuantileWithin | internal/httplog/histogram.go:108-114 | no figure outside the range observed is ever claimed |
| LatencyHistogram.QuantileMonotone | internal/httplog/histogram.go:66-119 | p <= q implies quantile(p) <= quantile(q), across empty buckets, the overflow bucket and both clamps |
| AccessLog.NormalizeHost | internal/httplog/parse.go:109-131 | the loop over the characters accepts exactly the names made of allowed characters, 1 to 100 long |
| AccessLog.PlainHeaderExactlyWhen | internal/httplog/parse.go:119-130 | a header without port, brackets or final dot is a site if and only if it has at most 100 characters, all lower-case letters, digits, dots, dashes, underscores |
| AccessLog.HostNeverOverflows | internal/httplog/collector.go:64-66 | no Host header whatever is attributed to "(other)"; every name reported is a host name |
| AccessLog.SiteIgnoresPortAndDot | internal/httplog/parse.go:111-117 | a name, the name with a port, with a final dot, and with both are one site |
| AccessLog.BracketedLiteralSurvives | internal/httplog/parse.go:111-116 | a bracketed IPv6 literal keeps all its colons, with or without a port |
| AccessLog.StableExactlyWhen | internal/httplog/parse.go:109-131 | a reported name asked for again names the same site if and only if it holds no colon and no final dot |
| AccessLog.BareAddressIsCut | internal/httplog/parse.go:113-115 | an unbracketed IPv6 address that loses its last group |
| AccessLog.ColonSurvivesExactlyWhen | internal/httplog/parse.go:111-125 | for any header that names a site: the site holds a colon if and only if the header held two, or one with a closing bracket after it |
| AccessLog.ColonSurvivesUnbracketed | internal/httplog/parse.go:113-125 | for a header without brackets that could be a name: a colon survives if and only if there were two |
| AccessLog.ParseDuration | internal/httplog/parse.go:212-241 | the loop over the unit table is the first-suffix-that-matches specification |
| AccessLog.DurationNonNegative | internal/httplog/parse.go:228-240 | a parsed duration is never negative, for any table of positive units |
| AccessLog.DurationUnits | internal/httplog/parse.go:213-233 | every unit is read with its own factor, although "s" ends all the others |
| AccessLog.DurationWithoutUnit | internal/httplog/parse.go:235-240 | a bare number is milliseconds |
| AccessLog.DurationInMilliseconds | internal/httplog/parse.go:212-241 | "s" is 1000 ms, "ms" one, "us" and its Greek spelling a thousandth, "ns" a millionth; a negative number is refused |
| AccessLog.JsonLineIsRead | internal/httplog/parse.go:79-97 | a JSON line is an entry if and only if a status is there and the duration is not negative; the duration is nanoseconds, the status the client's or, if that is missing, the backend's, the site the one the host header names |
| AccessLog.ClfLineIsRead | internal/httplog/parse.go:139-165 | a line of text, quoted request and fields is an entry if and only if there are two fields, the first a number from 100 to 599 and the last a duration; these are its status and duration, and it names no site |
| AccessLog.OnlyClfLinesAreRead | internal/httplog/parse.go:139-147 | no line without a quoted request is an entry of that format |
| AccessLog.AutoDecidesByBrace | internal/httplog/parse.go:65-76 | the automatic format reads as JSON exactly the lines that begin with a brace |
| AccessLog.ParsedEntriesAreClean | internal/httplog/parse.go:59-165 | every entry parsed from either format has a status, a non-negative duration, and a host name or none |
| Lines.GlueInvertsSplit | internal/httplog/tail.go:102-107 | finished lines, each with its newline, and the remainder are the bytes split; no line holds a newline |
| Lines.SplitInvertsGlue | internal/httplog/tail.go:102-107 | splitting recovers exactly the lines written |
| Lines.SplitConcat | internal/httplog/tail.go:97-107 | reading two pieces with the unfinished line held back gives the lines of both together |
| Tail.Tailer.DropHandle | internal/httplog/tail.go:162-167 | the handle goes and nothing else changes |
| Tail.Tailer.EnsureOpen | internal/httplog/tail.go:113-158 | the new position and error for every outcome of stat and open: missing, denied, broken, first open, same file, rotated |
| Tail.Tailer.ReadLines | internal/httplog/tail.go:51-110 | position, lines, skipped bytes and error of a pass for every outcome of every call |
| Tail.Tailer.HoldBack | internal/httplog/tail.go:97-109 | the lines finished by the new bytes come out, the unfinished one stays |
| Tail.PassGoesOn | internal/httplog/tail.go:51-95 | where any pass that gets at a file ends up, what it reports as skipped, and when it fails: from the end of the first file ever opened, the start of any other new one, the last position else; from the start if the file shrank; past all but the last 8 MiB |
| Tail.PassReturnsRead | internal/httplog/tail.go:86-109 | such a pass returns exactly the lines finished by the bytes from there, begun by what was held back if nothing came between |
| Tail.MissedKeepsPosition | internal/httplog/tail.go:113-138 | a pass that gets at no file returns nothing, keeps its position, and fails only if the file is neither missing nor forbidden |
| TailHistory.HistoryIsLeft | internal/httplog/tail.go:141-149 | in every run the first pass ever to open a file returns nothing and takes up its end, and what stood in it by then is never taken unless the file is started again from its beginning |
| Tail.LookIsFaithful | internal/httplog/tail.go:65-95 | after looking at the file the bytes taken stand in it if and only if they did before, or the size is below the position, or the gap is above the cap |
| Tail.PassReturnsLines | internal/httplog/tail.go:51-110 | the lines of the stretch after a pass are those before it, unless the pass left it behind, and exactly the lines the pass returns |
| TailRuns.EveryRunAccounts | internal/httplog/tail.go:51-158 | in every run, whatever the writer and the calls do: everything returned is the lines of the stretches taken, stretch by stretch; what is held back completes the present one; each byte taken is a byte written; taken plus skipped is the distance travelled, and if nothing was skipped nothing is missing |
| TailRuns.PassesReturnTheOutput | internal/httplog/tail.go:51-110 | the output of a run is what a tailer making its passes has returned |
| TailDelivery.EveryRunIsFaithful | internal/httplog/tail.go:51-158 | if every cut shows in the size, a run has returned, after the stretches left behind, exactly the finished lines that stand in the file from the start of the stretch to the position, and holds back the unfinished one |
| TailDelivery.CutsDoNotMatter | internal/httplog/tail.go:47-110 | runs that left the same stretches and reached the same position of the same content have returned the same lines, however reads were placed, cut or failed |
| TailDelivery.NothingTwice | internal/httplog/tail.go:160-161 | over the whole run and every file, the lines returned are written bytes, and none is used twice if no pass takes a byte that had been taken when the file it reads was last started from its beginning |
| TailDelivery.OnceExactlyWhen | internal/httplog/tail.go:51-158 | in every run, whatever the writer and the calls do: no byte is taken twice if and only if no pass takes a byte taken before its file was last started from the beginning, rotations, cuts and skips included |
| TailDelivery.StartsDecide | internal/httplog/tail.go:66-70 | if passes that start a file from its beginning read on, it is decided before each of them: no byte is taken twice if and only if none from where it reads was taken |
| TailDelivery.StartDoublesExactlyWhen | internal/httplog/tail.go:66-70 | such a pass, reading all it may, takes some byte twice if and only if one of the last 8 MiB standing in the file was taken before |
| TailDelivery.RotationLosesExactly | internal/httplog/tail.go:150-153 | after a rotation the pass goes on as if the old file had never been; all of the stretch was returned if and only if its last line was finished and nothing was unread |
| TailDelivery.LeftBehindForGood | internal/httplog/tail.go:150-153 | what was not read of a file is never taken by any continuation in which the path does not name it |
| TailDelivery.LeftUnreadExactlyUntil | internal/httplog/tail.go:150-153 | a byte left unread is taken by the next full pass if and only if the path names its file again and it is among the last 8 MiB |
| TailExamples.RestoredIsReturnedTwice | internal/httplog/tail.go:150-153 | a run in which one line was written, no cut goes unseen, and the line is returned twice |
| TailExamples.CutShortIsReturnedTwice | internal/httplog/tail.go:66-70 | a run in which a log cut to its first line returns that line again |
| TailExamples.RotationLosesBytes | internal/httplog/tail.go:150-153 | runs through a rotation after which no continuation ever takes what had not been read, while its file stays away |
| TailExamples.HiddenTruncationSplices | internal/httplog/tail.go:65-70 | a run in which a truncation does not show and a line is returned that was never written |
| SiteWindows.RoomMeansNoOverflow | internal/httplog/collector.go:122-129 | the overflow slot appears only once all 48 are taken; there are never more than 49 slots |
| SiteWindows.TrackedSize | internal/httplog/collector.go:122-132 | exactly the first 48 distinct hosts are tracked, fewer only while all named ones are |
| SiteWindows.RecordingOne | internal/httplog/collector.go:115-133 | for any entry the slot chosen gains exactly it, every other slot keeps its share, no other slot appears |
| SiteWindows.CountedIsWindowOf | internal/httplog/collector.go:156-165 | counting one entry more into a window gives the window of the entries with it |
| SiteWindows.TotalsCount | internal/httplog/collector.go:147-153 | the counters count all requests, those answered 400 to 499 and those answered 500 or more |
| SiteWindows.CleanDurations | internal/httplog/collector.go:154 | the histogram is given every request's own duration, in order |
| SiteWindows.WithinIsOwn | internal/httplog/collector.go:156-165 | a host's window is over the entries that name it, all of them and no others |
| SiteWindows.SitesWithIsSitesOf | internal/httplog/collector.go:115-165 | after any stream the bounded map is the first 48 hosts with their own counts and one slot for all others |
| SiteWindows.SitesConserve | internal/httplog/collector.go:141-166 | for requests, 4xx, 5xx and each histogram bucket, the slots add up to the entries naming a site, and with the host-less ones to the aggregate |
| SiteReport.SortSites | internal/httplog/collector.go:254-259 | the rows come back permuted into strictly descending load, by name under equal load |
| SiteReport.StringLessIsLexical | internal/httplog/collector.go:258 | names are compared at their first difference, a beginning before what it begins |
| SiteReport.RankingUnique | internal/httplog/collector.go:254-259 | two such orders of the same rows are equal |
| SiteReport.ReportIsUnique | internal/httplog/collector.go:215-278 | the report of given windows is one and the same for any order of walking the map |
| SiteReport.ReportShape | internal/httplog/collector.go:209-278 | at most 20 named rows, each its site's own, busiest first and by name under equal load; a site is left out only behind twenty others; one "(other)" without error rate or percentiles if and only if a site was left out or requests overflowed; hosts distinct |
| SiteReport.ReportConserves | internal/httplog/collector.go:211-214 | through both caps the summed rates times elapsed are the window's requests, 4xx and 5xx that name a site |
| SiteReport.PercentilesInOrder | internal/httplog/collector.go:186-199 | P50 <= P95 <= P99, all three there exactly when the window had requests |
| AccessCollector.Collector.constructor | internal/httplog/collector.go:95-103 | a new collector has an empty window and a tailer at its start |
| AccessCollector.Collector.SiteFor | internal/httplog/collector.go:115-133 | the window for a host: none, its own, the overflow one or a new one, and the map with it |
| AccessCollector.Collector.CountTotals | internal/httplog/collector.go:147-154 | the aggregate counters gain the entry's weight and the histogram its duration |
| AccessCollector.Collector.CountSite | internal/httplog/collector.go:156-165 | the map after the entry is the specified one |
| AccessCollector.Collector.Record | internal/httplog/collector.go:147-165 | every counter and slot again says what the window's entries say, with one entry more |
| AccessCollector.Collector.IngestLine | internal/httplog/collector.go:141-166 | a parseable line adds its entry to the window, any other counts as malformed |
| AccessCollector.Collector.Ingest | internal/httplog/collector.go:137-169 | a pass feeds exactly the lines the tailer returned, failed or not |
| AccessCollector.Collector.Sample | internal/httplog/collector.go:173-207 | with time elapsed, the right report of exactly the open window, which is then closed; without, nothing is reported and nothing lost |
| AccessCollector.Collector.SampleSites | internal/httplog/collector.go:215-278 | loops, sort and cut together yield the one right report of the map |
| AccessCollector.Collector.RowsOfMap | internal/httplog/collector.go:220-252 | in whatever order the map is walked: one row per site, the overflow slot apart |
| AccessCollector.Collector.CutRows | internal/httplog/collector.go:261-275 | the rows past the twentieth are summed into one last row with what overflowed before |
| AccessCollector.SamplesCountLines | internal/httplog/collector.go:137-207 | for every placement of ingests and samples, closed windows plus the open one hold one entry per parseable line returned; with the malformed ones, every line |
| AccessCollector.SamplesReportEverything | internal/httplog/collector.go:171-207 | for every placement of ingests and samples, what all samples returned reported of requests, 4xx and 5xx, plus the open window, are the entries of the lines ever returned |
| AccessCollector.CountsIgnoreCuts | internal/httplog/collector.go:137-169 | two collectors whose tailers read the same content differently cut and placed hold the same entries, reported or open |
| AccessCollector.SampleCountsWindow | internal/httplog/collector.go:179-199 | a sample's rates times elapsed are its window's entries, in total and over the rows; percentiles and error rate exactly when there are any |
| AccessCollector.SampleIsTrue | internal/httplog/collector.go:171-207 | every figure of a sample is true of its window's entries: rates times elapsed count them, the error rate is the share answered 500 or more, P50, P95 and P99 each fall in the bucket of the value of that rank |
| AccessCollector.RowsAreTrue | internal/httplog/collector.go:219-252 | the same of every named row, over the entries that name its site, of which there is one at least |
| Format.Itoa | internal/httplog/collector.go:313-325 | twenty places always suffice, and the text is the canonical decimal numeral of the number; empty for a negative one |
| Format.FormatBytes | internal/httplog/collector.go:300-311 | below 1024 GiB the numeral in the largest unit that leaves a whole number; no letter, hence nothing, exactly from there on |
| Spool.NamesAreDistinct | internal/spool/spool.go:292-305 | distinct safe ids never share a final or temporary name, temporary names are never taken for finished files, no name leaves the directory |
| Spool.SafeIdExactlyWhen | internal/spool/spool.go:292-305 | an id is safe if and only if it has 1 to 64 characters, all letters, digits or dashes |
| Mailbox.StepKeepsGood | internal/spool/spool.go:162-211 | every step of writer, reader, crash or reboot keeps files whole and letters taken once |
| Mailbox.EveryRunIsGood | internal/spool/spool.go:156-159 | atomic publication: under any interleaving every name ending ".json" holds one whole published letter under its own name; nothing taken is taken again or still on disk |
| Mailbox.LetterIsSent | internal/spool/spool.go:307-321 | temporary write and rename do publish the letter |
| Mailbox.LetterIsTaken | internal/spool/spool.go:181-205 | listing, reading and removing do take it |
| SpoolDirectory.Directory.WriteAtomic | internal/spool/spool.go:307-321 | for every outcome of its system calls: the whole letter under its name, or nothing but perhaps a temporary file |
| SpoolDirectory.Directory.TakeAll | internal/spool/spool.go:169-211 | every finished file is gone, every other untouched, and what the entries yield is returned in order |
| SpoolDirectory.WriteIsSteps | internal/spool/spool.go:307-321 | an undisturbed write is three steps of the directory's state machine |
| SpoolDirectory.ListingIsTaken | internal/spool/spool.go:258-285 | an undisturbed pass over a listing is a run of the steps, with the same letters handed over and the same files left |
| SpoolDirectory.YieldsExactly | internal/spool/spool.go:187-205 | a letter is handed over if and only if some entry within the cap is a finished, readable file of bearable size that decodes to it; never more than the cap |
| FixProtocol.StepKeepsInvariant | cmd/onserva-agent/execute.go:47-73 | every step of either process, crash or reboot keeps the protocol's invariant |
| FixProtocol.AtMostOnce | internal/spool/spool.go:162-168 | in every reachable state, actions started for an id plus its copies on disk and in memory never exceed its publications; each was published just so, fresh and planned; none is still on disk |
| FixProtocol.StartedWhileFresh | internal/spool/spool.go:50-56 | in every reachable state each action was started at most ten minutes after its request was written, and not before, and was planned |
| FixProtocol.OnlyAllowedIsPublished | internal/spool/spool.go:139-150 | in every run every published request names a known action, a valid target and a safe id, and carries a time |
| Reboots.RebootForgets | internal/spool/spool.go:10-12 | whatever happens before and after a reboot, no action started after it is for a request begun before it |
| FixProtocol.DeliveredAtMostOnce | internal/spool/spool.go:252-257 | through crashes, reboots and lost acknowledgements each published request has at most one outcome acknowledged, carrying its id |
| OutcomesHeard.HeardIsGenuine | cmd/onserva-agent/main.go:172-181 | everything the platform hears is the published outcome of a published request; everything acknowledged was heard |
| OutcomesHeard.HeardOnceIfNoneLost | cmd/onserva-agent/main.go:172-181 | if no acknowledgement is lost the platform hears each outcome at most once |
| OutcomesHeard.ExposedExactlyWhen | cmd/onserva-agent/main.go:401-418 | in every run the agent holds an outcome the platform has heard if and only if it last sent some without learning of the acknowledgement, and neither died nor was rebooted since |
| OutcomesHeard.HeardTwiceExactlyWhen | cmd/onserva-agent/main.go:401-418 | in every run some outcome is heard twice if and only if the agent sent again in that condition |
| FixProtocol.PublicationIsAtomic | internal/spool/spool.go:156-159 | in every run each finished file of both directories is one whole letter under its own name |
| FixProtocol.ReportBegins | cmd/onserva-agent/execute.go:66-71 | a request taken can always be reported on, and never twice |
| FixProtocol.RequestGoesThrough | cmd/onserva-agent/main.go:469-493 | a fresh, planned request can be acted on and its outcome delivered, leaving both directories empty |
| FixProtocol.GoneIsNeverHeard | internal/spool/spool.go:268-276 | an outcome of which no file and no copy is left is never heard of in any continuation |
| FixProtocol.OutcomeCanBeLost | internal/spool/spool.go:241-248 | a run in which a published outcome is removed unread, and no continuation ever delivers it |
| FixProtocol.OutcomeHeardTwice | cmd/onserva-agent/main.go:401-418 | a run in which an acknowledgement is lost and the platform hears an outcome twice |
| FixProcesses.Write | internal/spool/spool.go:139-160 | an unknown action, a bad target or an unsafe id leaves the directory alone; anything else is written atomically |
| FixProcesses.SpoolAuthorised | cmd/onserva-agent/main.go:476-493 | the directory after the loop is that of the authorised fixes one by one, refused ones passed over |
| FixProcesses.TakenExactly | internal/spool/spool.go:181-205 | the executor takes exactly the letters in readable, decodable files of 1 to 8192 bytes among the first 32 entries, never more than 32; the agent takes such outcomes from the whole directory |
| FixProcesses.Executor.PurgeSwap | cmd/onserva-agent/execute.go:206-263 | nothing is touched unless the figures can be read, the guard allows it and the tools are there; then swapoff and, however it ends, swapon; success only if both succeed |
| FixProcesses.Executor.CarryOut | cmd/onserva-agent/execute.go:80-198 | a request without a time, from the future, older than ten minutes or not planned starts nothing, does nothing and fails; any other is started and succeeds if and only if all went well that its kind of command takes; there is always an outcome |
| FixProcesses.VerdictIsTruthful | cmd/onserva-agent/execute.go:80-198 | an outcome says "done" if and only if the request was fresh and planned, something was done to the machine and all of it succeeded; swap is only touched when memory can take half as much again |
| Commands.MayPurgeExactlyWhen | internal/fixes/fixes.go:332-353 | the guard allows a purge if and only if there is swap, the figures agree, and what is available is one and a half times what is parked, rounded down, or nothing is parked |
| FixProcesses.SwapIsRearmed | cmd/onserva-agent/execute.go:233-250 | over any number of requests, whatever fails, every swapoff is followed at once by a swapon |
| FixProcesses.Executor.WriteResult | internal/spool/spool.go:232-250 | an unsafe id writes nothing; any other outcome is published atomically, and reported as failed, though published, if there is an agent's group and it cannot be handed over |
| FixProcesses.Executor.Run | cmd/onserva-agent/execute.go:47-73 | everything pending is off the disk before anything is carried out; starts, what is done to the machine and result files are those of the requests taken, in order |
| FixProcesses.SpoolingIsARun | cmd/onserva-agent/main.go:476-493 | from any state reached, spooling a batch is a run of the protocol with the same request files |
| FixProcesses.TakingIsARun | internal/spool/spool.go:169-211 | from any state reached, taking everything pending is a run of the protocol with the same requests in hand and the same files left |
| FixProcesses.ExecutorRunIsARun | cmd/onserva-agent/execute.go:47-73 | from any state reached, a whole executor run is a run of the protocol with the same starts in the same order, the same result files and the same request files left |
| FixProcesses.CollectingIsARun | cmd/onserva-agent/main.go:374-388 | from any state reached, collecting outcomes is a run of the protocol that adds the same outcomes to those pending and leaves the same files |
| AgentLoop.Buffer.Push | cmd/onserva-agent/buffer.go:26-33 | the reading is last; a full queue loses its oldest and says so |
| AgentLoop.Buffer.Peek | cmd/onserva-agent/buffer.go:35-40 | the oldest reading, if any, without a change |
| AgentLoop.Buffer.Pop | cmd/onserva-agent/buffer.go:42-46 | the oldest reading leaves; an empty queue stays |
| AgentLoop.Agent.Backoff | cmd/onserva-agent/main.go:506-518 | Retry-After if given, else min(interval 2^(n-1), 5 min); no intermediate value above 10 min |
| AgentLoop.WaitGrows | cmd/onserva-agent/main.go:504-518 | the wait never shrinks from failure to failure and never exceeds 5 min |
| AgentLoop.WaitDoubles | cmd/onserva-agent/main.go:506-518 | the wait is the interval after the first failure and twice the last one after each further, never above five minutes |
| AgentLoop.ClampedIs | internal/config/config.go:105-113 | a cadence between five seconds and ten minutes is kept, any other becomes the nearer end |
| AgentLoop.CadenceIsTheOneAsked | cmd/onserva-agent/main.go:462-464 | up to the seconds whose nanoseconds fit 64 bits the cadence is the one asked for, clamped |
| AgentLoop.Agent.HandleSendError | cmd/onserva-agent/main.go:427-452 | a rejection costs one reading and nothing else; anything else costs a wait, and one journal line at the start of an outage |
| AgentLoop.Agent.OnSuccess | cmd/onserva-agent/main.go:454-467 | failures and wait are forgotten, an outage's end is noted once, a requested cadence is clamped after 64-bit wrap-round, and the fixes authorised are spooled one by one |
| AgentLoop.Agent.SendOldest | cmd/onserva-agent/main.go:401-423 | the envelope of the queue head and all pending results is what is acknowledged; both go then, and results stay otherwise |
| AgentLoop.Agent.Flush | cmd/onserva-agent/main.go:390-425 | nothing while backing off; else the loop leaves queue, fates, envelopes, results and the request directory as the specified sends do |
| AgentLoop.FlushSends | cmd/onserva-agent/main.go:390-425 | a flush delivers the oldest readings in order, as many as are acknowledged in a row and at most 8, all results in the first, and takes in every fix they authorise; a rejection then costs its own reading and a retry nothing |
| AgentLoop.Agent.CollectResults | cmd/onserva-agent/main.go:374-388 | what was taken is appended; a failure to read changes nothing |
| AgentLoop.Agent.Tick | cmd/onserva-agent/main.go:276-303 | without a reading nothing happens; with one it is queued, results are collected, and a flush follows unless backing off |
| AgentLoop.TickGranted | cmd/onserva-agent/main.go:276-303 | with every send granted a tick takes up to eight readings off the queue its own has joined, and leaves no result pending |
| AgentLoop.Agent.Turn | cmd/onserva-agent/main.go:250-274 | after a tick the cadence is the one requested, if any, and always within bounds |
| AgentLoop.BacklogDrains | cmd/onserva-agent/main.go:276-303 | a backlog of n is gone within ceil(n / 7) granted ticks, and not before unless the queue was full |
| AgentLoop.BacklogIsDelivered | cmd/onserva-agent/main.go:276-303 | the same of the queue itself over any readings the ticks bring |
| AgentLoop.EveryReadingHasOneFate | cmd/onserva-agent/main.go:401-423 | each reading ever pushed is exactly one of evicted, acknowledged, rejected or queued; the queue is the tail; the acknowledged envelopes carried exactly the acknowledged readings in push order, and their results with those pending are all ever taken |
| AgentDelivery.FlushIsARun | cmd/onserva-agent/main.go:390-425 | from any state reached, a flush is a run of the protocol: the same outcomes pending, those delivered and heard that the first send's acknowledgement or its loss accounts for, and the same request files |
| AgentDelivery.TickIsARun | cmd/onserva-agent/main.go:276-303 | from any state reached, a whole tick, collecting and flushing, is a run of the protocol with the same outcomes pending and the same request files |
| AgentLoop.OutageNotesAlternate | cmd/onserva-agent/main.go:445-460 | start and end lines of outages strictly alternate, the last one being a start exactly while sends fail |
| DatabaseRates.Sampler.DeepSample | internal/dbstat/collect.go:143-230 | reading, note and memory of a visit depend on that engine's own memory alone, and no other engine's is touched |
| DatabaseRates.RatesExactlyWhenDue | internal/dbstat/collect.go:208-222 | in any run of visits a rate is there if and only if the visit before succeeded, time advanced and no counter fell, and is the difference between exactly these two |
| DatabaseRates.RatesAreTheEngines | internal/dbstat/collect.go:151-228 | in each engine's own counters: the rate times the time elapsed is the work counted, the hit ratio the hits' share of hits and misses, MySQL's hits being the requests that did not go to disk |
| DatabaseRates.NoRatesOtherwise | internal/dbstat/collect.go:208-220 | no rate and no ratio after a failed visit, without time elapsed or when a counter fell |
| DatabaseRates.GaugesAreTheEngines | internal/dbstat/collect.go:147-206 | connections, limit, size and longest query of every visit are the engine's own, each left out exactly when it could not be had or the engine has none |
| DatabaseRates.HitPctIsPercentage | internal/dbstat/collect.go:224-228 | the hit ratio is at most 100 if and only if the deltas do not overflow together, and absent exactly when their wrapped sum is zero |
| DatabaseRates.HitRatioIsPercentageExactlyWhen | internal/dbstat/collect.go:208-228 | in any run of visits, when rates are due: the ratio reported is at most 100 if and only if the advances do not overflow together, and missing exactly when their wrapped sum is zero |
| DatabaseRates.MySqlRatioIsPercentage | internal/dbstat/collect.go:161-171 | between two MySQL visits the ratio is always between 0 and 100 |
| DatabaseRates.HitPctOverflows | internal/dbstat/collect.go:224-228 | two visits to PostgreSQL, and two to Redis, after which more than 100 is reported, and two after which nothing is |
| DatabaseRates.OpsTelescope | internal/dbstat/collect.go:222 | over an unbroken run the rates times their intervals add up to the counter's whole advance |
| DatabaseRates.NotesAlternate | internal/dbstat/collect.go:184-195 | "cannot read" and "readable again" alternate, one open exactly while the engine is down |
| MySqlWire.LenencRoundTrip | internal/dbstat/mysql.go:229-244 | every 64-bit value encoded canonically is read back, whatever follows |
| MySqlWire.LengthIsWritten | internal/dbstat/mysql.go:229-244 | the value of a length byte by byte, for each first byte, and nothing if it is reserved or bytes are missing |
| MySqlWire.ParseTextRow | internal/dbstat/mysql.go:203-227 | the loop decodes exactly what the recursive reading of the row does, errors included |
| MySqlWire.RowRoundTrip | internal/dbstat/mysql.go:203-227 | a row of nullable byte strings is read back value by value, NULL as "" |
| MySqlWire.RowIsNoMarker | internal/dbstat/mysql.go:185-190 | no row that fits a packet is mistaken for EOF or ERR |
| MySqlWire.MarkersAre | internal/dbstat/mysql.go:199-201 | EOF is 0xfe in at most eight bytes, ERR is 0xff, NULL 0xfb |
| MySqlWire.CutRowIsRefused | internal/dbstat/mysql.go:203-227 | an encoded row cut short anywhere is refused |
| MySqlWire.PacketRoundTrip | internal/dbstat/mysql.go:261-285 | a framed payload of at most 2^20 bytes is read back, leaving what follows |
| MySqlWire.PacketExactlyWhen | internal/dbstat/mysql.go:261-276 | a packet is taken if and only if the stream begins with a header and as many bytes as it announces, at most 2^20; and then just that |
| MySqlWire.PacketMissing | internal/dbstat/mysql.go:261-276 | otherwise the stream is used up, or read past an implausible header |
| MySqlWire.Connection.WritePacket | internal/dbstat/mysql.go:278-285 | the frame goes out with the current number, which advances modulo 256 |
| MySqlWire.FrameIsWritten | internal/dbstat/mysql.go:278-285 | what is sent is the payload's length in three bytes, the packet's number and the payload |
| MySqlWire.Connection.ReadPacket | internal/dbstat/mysql.go:261-276 | payload and rest of the stream, or what a short stream or an implausible length leaves |
| MySqlWire.Connection.Query | internal/dbstat/mysql.go:144-197 | the command goes out; result and rest of the stream are those of the reply specification, on any stream at all |
| MySqlWire.SetIsRead | internal/dbstat/mysql.go:162-197 | after the definitions a query reads up to the first EOF, ERR or undecodable row and no further |
| MySqlWire.ReplyIsRead | internal/dbstat/mysql.go:144-197 | a well-formed reply of any size is consumed exactly, whatever follows, and yields the rows sent or a failure |
| MySqlWire.BrokenSetFails | internal/dbstat/mysql.go:150-182 | a result set that breaks off, before, among or after its definitions or among its rows, is a failure whatever rows came before |
| MySqlWire.SessionStaysInStep | internal/dbstat/mysql.go:144-197 | k queries over k well-formed replies each get their own result |
| MySqlWire.InStepExactlyWhen | internal/dbstat/mysql.go:191-194 | after a result set of any payloads the session is in step, and the query succeeds, if and only if every row decodes |
| MySqlWire.EmptyRowDesynchronises | internal/dbstat/mysql.go:191-194 | a reply after which the session is out of step |
| PostgresWire.DecodeDataRow | internal/dbstat/pg.go:164-188 | the loop decodes exactly what the recursive reading of the row does, errors included |
| PostgresWire.DataRowRoundTrip | internal/dbstat/pg.go:164-188 | a row of nullable byte strings is read back value by value, NULL as "" |
| PostgresWire.CutRowIsRefused | internal/dbstat/pg.go:164-188 | an encoded row cut short anywhere is refused |
| PostgresWire.SizeIsSigned | internal/dbstat/pg.go:175-184 | a size with its highest bit set is NULL, any other a length that must be there |
| PostgresWire.ErrorMessage | internal/dbstat/pg.go:191-209 | the two nested loops find the field the specification finds, or fall back |
| PostgresWire.ErrorRoundTrip | internal/dbstat/pg.go:190-209 | of any well-formed ErrorResponse the first message field is shown, wherever it stands |
| PostgresWire.UnfinishedMessageIsShown | internal/dbstat/pg.go:199-207 | a message field without its closing zero byte is shown as far as it goes |
| PostgresWire.MessageRoundTrip | internal/dbstat/pg.go:148-162 | a framed message is read back, leaving what follows |
| PostgresWire.MessageExactlyWhen | internal/dbstat/pg.go:148-162 | a message is taken if and only if the stream begins with its kind, a plausible length and as many bytes; and then just that |
| PostgresWire.MessageMissing | internal/dbstat/pg.go:148-162 | otherwise the stream is used up, or read past an implausible header |
| PostgresWire.IntroductionIsWhole | internal/dbstat/pg.go:64-76 | the startup message states its own length, protocol 3.0 and the user up to the next zero byte |
| PostgresWire.StartupIsWhole | internal/dbstat/pg.go:64-76 | the message sent says protocol 3.0, the user and the database "postgres", each closed by a zero byte, one more at the end, and its own length |
| PostgresWire.Connection.ReadMessage | internal/dbstat/pg.go:148-162 | kind, payload and rest of the stream, or what a short stream or an implausible length leaves |
| PostgresWire.Connection.Query | internal/dbstat/pg.go:106-146 | the query goes out; result and rest of the stream are those of the reply specification, on any stream at all |
| PostgresWire.Connection.Start | internal/dbstat/pg.go:61-103 | the startup message goes out; outcome and rest of the stream are those specified, on any stream at all |
| PostgresWire.ReplyIsRead | internal/dbstat/pg.go:106-146 | a query consumes exactly its own reply: the decoded rows in order, or an error if and only if it held an ErrorResponse or an undecodable row |
| PostgresWire.BrokenReplyFails | internal/dbstat/pg.go:115-119 | a reply that breaks off before ReadyForQuery is a failure whatever rows came before |
| PostgresWire.SessionStaysInStep | internal/dbstat/pg.go:133-136 | k queries over k replies, errors or not, each get their own result |
| PostgresWire.StartupExactlyWhen | internal/dbstat/pg.go:80-102 | startup succeeds if and only if nothing before ReadyForQuery is an error or asks for more than peer authentication, and then leaves the stream right after it |
| PostgresWire.StartupStopsAt | internal/dbstat/pg.go:80-102 | startup stops at the first message that does not welcome it and reads no further |
| PostgresWire.BrokenStartupFails | internal/dbstat/pg.go:80-84 | startup does not succeed when the stream breaks off |

## Left out

- Floating point: rounding, NaN, infinities and `roundTo`; rates, durations and bounds are `real`.
- Overflow of the 64-bit request counters, file offsets and memory figures, and a column count beyond the platform's `int`.
- Library calls: JSON, number parsing, trimming, case folding and splitting into fields are parameters; `sort.Slice` is any sort, done here by insertion.
- Site windows as separate heap objects: the map holds them as values, so that two hosts never share a window is not something the model could get wrong.
- HTTP, sockets, deadlines, failing writes to a database and process execution: environment choices, or assumed to work.
- AccessLog.NormalizeHost: takes the host already lower-cased and trimmed, because those are library calls.
- Tail.Tailer.EnsureOpen: does not model a file replaced between stat and open, or an inode number used again for a new file, because the two calls are one step.
- Tail.Tailer.ReadLines: does not model a file that changes between the fstat, the seek and the read of one pass, because they are one step against one content.
- TailDelivery.CutsDoNotMatter: does not cover a file of which bytes already taken were cut off since the tailer's last look, because then the file no longer says what was read.
- AccessCollector.Collector.Sample: does not model the health line and its byte count, which only report the skipped bytes counted here.
- FixProtocol.AtMostOnce: does not cover a failing `os.Remove`, whose error the code ignores, because then the promise does not hold.
- FixProcesses.Executor.CarryOut: does not word the outcome or say which settings file or program a planned action stands for, because the compiled-in tables are a function here.
- AgentLoop.Agent.Tick: does not model surveys, settings and the notes logged on the way, which neither queue nor send anything.
- DatabaseRates.Sampler.DeepSample: does not model an unknown engine, for which nothing is read.
- MySqlWire.Connection.Query: does not word the error a server sends, only that there was one.
- Directory creation, ownership and permissions of the spool, but for the file that cannot be read yet.
- The MySQL handshake, the Redis client, process figures, containers, backups, configuration files and the installer.

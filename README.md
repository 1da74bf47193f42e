# contribution-graph-sync, modelled in Dafny

contribution-graph-sync copies a GitLab user's activity into a local git
repository. The outer loop does the following:

1. It reads the checkpoint file `last-recorded-date.txt`.
2. It asks GitLab for the page of the user's events after that instant.
3. For each event, a first-match-wins `switch` decides which records to
   write.
4. A multi-commit push is expanded into its commits through a second API
   call. The commits come back newest first; the program truncates the list
   to `CommitCount` entries and reverses it.
5. Every record goes through `CreateGitCommit`. This appends a line to the
   day's file `YYYY-MM-DD.txt`, overwrites the checkpoint with the record's
   RFC 3339 time, and makes one git commit dated at that time.
6. The loop ends when a page comes back empty. Any failure ends the process.
   Events that no case handles write nothing. With a checkpoint file present,
   a feed that keeps answering with the same non-empty page of such events
   gets the same request in every cycle. Without one, each request follows
   the clock. Either way the program never returns.

The model follows the program's structure, one module per source file, plus
the helper modules the time handling needs:

| module | file | models |
|---|---|---|
| `Wrappers` | wrappers.dfy | `Option` and `Result` |
| `Decimal` | decimal.dfy | `fmt.Sprint` of integers, and the fixed-width digits of the time layouts |
| `Calendar` | calendar.dfy | the proleptic Gregorian calendar, as day numbers |
| `TimeFormat` | timefmt.dfy | the parts of Go's `time` package the program uses |
| `Env` | env.dfy | `GetLastRecordedDate`, `strings.TrimSpace`, and the checkpoint file name |
| `Gitlab` | gitlab.dfy | `GetEvents` and `GetCommitsBetween`, after the HTTP exchange |
| `Git` | git.dfy | the target directory and `CreateGitCommit` |
| `Sync` | sync.dfy | the `switch`, `HandleMultipleCommits`, and the outer loop of `main` |

`TimeFormat` models these parts of Go's `time` package, at second precision
and with a fixed zone offset:

- the `time.RFC3339` layout, the `time.DateOnly` layout, and the
  "2006-01-02 15:04:05" stamp;
- `time.Parse` with the RFC 3339 layout;
- `AddDate`.

**Time.** An instant is `Time(unix, offset)`: seconds since the epoch and the
zone offset in seconds. Formatting and parsing are defined concretely. Go's
layout strings are modelled as sequences of layout elements, interpreted by
`TimeFormat.Format`. The RFC 3339 text (section 5.6 of RFC 3339) is proved to
read back as the instant it was written from. This holds for every instant
with a four-digit local year and a zone offset of whole minutes under a day.

**The outside world.** Everything outside the process is a `Sync.World` value:

- the user;
- the reply to each cycle's events request (a scripted sequence of pages);
- the commits listing for each query;
- the clock in each cycle;
- the outcome of each local write.

A reply is either a transport failure or a status with a body. The body
could not be read, could not be decoded, or decoded to a value. Which write
fails, and at which step, is given by `World.faults`, numbered by write.

**Where changes happen in place.** The target directory is the class
`Git.TargetRepo`. Its fields are:

- the map from daily file name to file text;
- the checkpoint file;
- the git history. Each commit records its message, its author and
  committer dates, and the tree it recorded.

The methods `CreateGitCommit`, `HandleMultipleCommits`, `HandleEvent` and
`Run` update this object step by step. Each is proved equal to a pure
specification function of the state it starts from. The specification
functions are `Git.Materialize`, `Sync.Expand`, `Sync.Handle` and
`Sync.RunFrom`. The lemmas state what the source promises about those
functions.

The countdown loop of `GetCommitsBetween` is a method, proved against
`Gitlab.TakeNewest`.

`SetLastRecordedDate`, called at src/main.go:62, is not defined in the
source files. The model assumes it overwrites the checkpoint with the RFC
3339 text of its argument, the same way src/git.go:44-46 does
(`Git.TargetRepo.SetLastRecordedDate`).

In these points the code's behaviour is easy to misread; the model follows
the code:

- The checkpoint is read again at the start of every cycle (src/main.go:19).
- The checkpoint is overwritten, not raised to a maximum (src/git.go:45). It
  is therefore guaranteed to move forward only when records come in date
  order (`Sync.CheckpointMonotone`). A record dated before the previous one
  moves it back (`Sync.CheckpointCanRegress`).
- After a multi-commit expansion, the checkpoint is also set to the event's
  own time (src/main.go:62).
- Any commit count other than 1 goes to the expansion branches, including 0
  and negative counts (src/main.go:39-43).
- The daily line is `"<date> <clock> CET: <message>"`. Here `CET` is literal
  layout text. The commit message is `"sync: <date> <clock> CET"`, whatever
  the record's message is (src/git.go:40, 50).

## Model

| member | source | states |
|---|---|---|
| Sync.Classify | src/main.go:33-48 | Each case is taken exactly when its own guard holds and no earlier guard does. A count of 1 never reaches the expansion cases, and every other action or target ends in the not-handled case. |
| Sync.PlanShape | src/main.go:35-47 | Single-commit pushes and opened merge requests give one record at the event's time, with the message of their case. The not-handled case writes nothing, and it is the only case that does. A multi-commit push gives one "created a commit" record per commit at its authored date, in order, then the checkpoint at the event's time. A new branch adds "pushed new branch" as the last write. |
| Sync.ExpansionAt | src/main.go:59-61 | The i-th record of an expansion is "created a commit" at the i-th commit's authored date. |
| Sync.HandleFollowsPlan | src/main.go:32-48 | Handling an event performs exactly the writes of its plan, in order. The commits are looked up once, and only for a multi-commit push. A failed lookup stops the run before any write. |
| Sync.NoLookupWithoutExpansion | src/main.go:35-47 | Events other than multi-commit pushes look nothing up. An event that matches no case leaves the state untouched and does not stop the loop. |
| Sync.SingleCommitIsOneRecord | src/main.go:35-38 | A single-commit push is exactly one CreateGitCommit at the event's time. Its message is "pushed new branch" for a new branch and "created a commit" otherwise. |
| Sync.CheckpointAfterSteps | src/main.go:59-62 | After a run of writes that all succeed, the checkpoint holds the RFC 3339 text of the last write's date. |
| Sync.ExpansionLeavesEventTime | src/main.go:54-64 | After a multi-commit push is handled without error, the checkpoint holds the event's time, whatever the commits' dates. |
| Sync.CheckpointAfterPrefix | src/git.go:44-46 | When a run of writes succeeds, each of its prefixes succeeds too, and leaves the date of its own last write in the checkpoint. |
| Sync.PrefixReadBack | src/env.go:53-67 | After the first i writes, the checkpoint reads back as the date of the i-th write. |
| Sync.CheckpointMonotone | src/git.go:44-46 | If the writes come in date order, a later checkpoint reads back as an instant no earlier than a former one. |
| Sync.TwoRecords | src/git.go:44-46 | Two writes in a row whose steps do not fail both succeed; the first leaves its date in the checkpoint, and the second replaces it with its own, whatever the two dates. |
| Sync.CheckpointCanRegress | src/git.go:44-46 | A successful record dated before the previous one moves the checkpoint back: it then reads back as the earlier instant. |
| Sync.RunKeepsRequests | src/main.go:18-31 | The requests made so far stay in the trace: the run only adds to them. |
| Sync.CycleAsksAfterCheckpoint | src/main.go:19-24 | Each cycle reads the checkpoint afresh and asks for the events after the instant it holds. |
| Sync.DoneOnlyOnEmptyPage | src/main.go:28-30 | The run ends normally only in a cycle whose page decoded to no events. |
| Sync.EmptyPageChangesNothing | src/main.go:28-30 | A cycle with an empty page ends the run and leaves the directory exactly as it was. A rerun on an unchanged feed therefore writes nothing. |
| Sync.UnhandledPageKeepsState | src/main.go:32-49 | A page whose events all fall to the `default` case writes nothing and looks nothing up. The run goes on to the next cycle from the same state. |
| Sync.UnhandledPageRepeatsRequest | src/main.go:18-24 | After a non-empty page of only unhandled events, with a checkpoint file present, the next cycle sends exactly the events request this cycle sent. |
| Sync.Create | src/main.go:36 | One CreateGitCommit takes the next write number and halts on that write's fault, as the write step of the specification does. |
| Sync.RecordCommits | src/main.go:59-61 | The loop over the expanded commits performs exactly the expansion's writes, up to the first one that fails. |
| Sync.HandleMultipleCommits | src/main.go:54-64 | It looks the commits up, records each one, then overwrites the checkpoint with the event's time, stopping at the first failure. |
| Sync.HandleEvent | src/main.go:32-48 | The switch on one event leaves the directory and the trace the specification `Handle` gives. |
| Sync.Run | src/main.go:18-51 | The outer and inner loops end in the state and with the stop reason of `RunFrom`. The possible stop reasons are an empty page, a fatal error, or no more scripted pages. |
| Gitlab.GetEvents | src/gitlab.go:84-98 | It succeeds exactly on a status 200 reply whose body decodes, and returns that body. The body is read before the status is checked: an unreadable body is an error even with another status, a transport failure is an error, and so is any other status. |
| Gitlab.EventsEndpointInjective | src/gitlab.go:70 | The events URL carries sort=asc, per_page=100 and after=<RFC 3339>. Equal URLs mean equal user ids and equal checkpoints. |
| Decimal.NatTextValue | src/gitlab.go:70 | The decimal text of a user id reads back as that id. |
| Decimal.IntTextRoundTrip | src/gitlab.go:110 | The decimal text of the commit count, with a sign when it is negative, reads back as the count. |
| Gitlab.RevisionRangeSplits | src/gitlab.go:108-111 | The range splits at its last ".." into CommitTo and a start. The start is CommitFrom, or CommitTo~CommitCount when CommitFrom is empty. |
| Gitlab.ResultSize | src/gitlab.go:141 | The size is min(CommitCount, len). It is 0 when the count is not positive and never more than the list's length. |
| Gitlab.TakeNewest | src/gitlab.go:140-144 | The result's length is that size, and result[j] is raw[size-1-j]. |
| Gitlab.TakeNewestMembers | src/gitlab.go:140-144 | The result is a permutation of the first `size` entries of the listing, so it holds only entries from those positions. |
| Gitlab.TakeNewestOrder | src/gitlab.go:142-144 | A newest-first listing comes out oldest first. |
| Gitlab.CommitsFromReply | src/gitlab.go:125-146 | It succeeds exactly on a status 200 reply whose body decodes, and returns the truncated and reversed list. The status is checked before the body is read; a transport failure, a bad status and an unreadable body are each an error. |
| Gitlab.CheckOrderDiffers | src/gitlab.go:84-90 | The same non-200 reply with an unreadable body is an unreadable-body error for the events call and a status error for the commits call. |
| Gitlab.GetCommitsBetween | src/gitlab.go:107-147 | The countdown loop returns exactly the truncated and reversed listing for the push's query, or the reply's error. |
| Git.MaterializeOtherFiles | src/git.go:26-42 | No daily file other than the record's own is created, removed or changed. |
| Git.MaterializeDailyFile | src/git.go:26-42 | The day's file exists afterwards unless it could not be opened. Its earlier text is kept, and it grows by exactly the record's line once the write step is passed. |
| Git.MaterializeCheckpointAndLog | src/git.go:44-54 | Once the line is written, the checkpoint is replaced by the record's RFC 3339 text, whatever it held. The history never loses a commit, and it grows by one exactly when no step fails. |
| Git.CommitRecordsWrittenTree | src/git.go:44-54 | The new commit records the tree after both the line and the checkpoint are written, so the checkpoint is written before `git add .`. Its message depends only on the date, and both of its dates are the record's RFC 3339 text. |
| Git.DailyFileIsNotCheckpoint | src/env.go:69-71 | No daily file name is the checkpoint file's name. |
| Git.SameDailyFile | src/git.go:26 | Two records go to the same daily file exactly when they fall on the same local day. |
| Git.MaterializeReadBack | src/git.go:44-45 | After a successful CreateGitCommit, GetLastRecordedDate returns the record's instant. |
| Git.TargetRepo.CreateGitCommit | src/git.go:24-55 | The call succeeds exactly when no step fails. It leaves the directory as `Materialize` says: the state after the last step that succeeded. |
| Git.TargetRepo.SetLastRecordedDate | src/main.go:62 | It overwrites the checkpoint with the RFC 3339 text of the date, or changes nothing when the write fails. |
| Env.TrimSpaceTrims | src/env.go:65 | The trimmed text is the slice of the content after its leading white space. Only white space surrounds it, and it neither starts nor ends with white space. |
| Env.TrimSpaceOf | src/env.go:65 | Text that starts and ends with a non-space character comes out of any white-space padding unchanged. |
| Env.GetLastRecordedDate | src/env.go:53-67 | With no checkpoint file, the result is a time at least 1095 days before now. An unreadable file is an error. Otherwise the result is a time exactly when the trimmed text parses. |
| Env.ContentsIgnoreClock | src/env.go:53-67 | The clock matters only when the file is missing: an existing checkpoint file reads back the same at any time. |
| Env.CheckpointReadBack | src/env.go:65 | A checkpoint holding the RFC 3339 text of an instant, with any surrounding white space, reads back as that instant. |
| Env.ExactReadBack | src/git.go:44-45 | The checkpoint exactly as CreateGitCommit writes it reads back as the written instant. |
| Calendar.CivilFromDaysInverse | src/git.go:26 | The calendar date of a day number is valid, and it maps back to that day number. |
| TimeFormat.FieldsOfValid | src/git.go:26 | The broken-down local time of an instant is a valid date and clock time, and it adds back up to the instant's local seconds. |
| TimeFormat.DateOnlyText | src/git.go:26 | `DateOnly` prints the local date as YYYY-MM-DD. |
| TimeFormat.StampText | src/git.go:40 | The stamp prints the local date, a space, and the local clock as hh:mm:ss. |
| TimeFormat.FormatRFC3339Text | src/git.go:44 | The RFC 3339 layout prints the date, "T", the clock and the zone, laid out as section 5.6 of RFC 3339 describes. |
| TimeFormat.DateOnlySameDay | src/git.go:26 | Two instants get the same `DateOnly` text exactly when they fall on the same local day. |
| TimeFormat.ZoneRoundTrip | src/env.go:65 | A zone printed as "Z" or ±hh:mm parses back to its offset. |
| TimeFormat.TextRoundTrip | src/env.go:65 | RFC 3339 text of valid fields and an offset parses to the instant those fields name. |
| TimeFormat.RFC3339RoundTrip | src/env.go:65 | Parsing the RFC 3339 text of an instant gives back the same instant and offset. |
| TimeFormat.ThreeAndAHalfYearsBack | src/env.go:56 | now.AddDate(-3, -6, 0) lies at least 1095 days before now. |

## Left out

- HTTP is not modelled: requests, the `PRIVATE-TOKEN` header, and JSON decoding (src/gitlab.go:72-98, 114-138). Each exchange is a `Reply` value, and decoding is whether the body decoded.
- `GetUserInfo` (src/gitlab.go:18-49) is a network call with no logic of its own. The user is a field of the world.
- The commits URL is kept as a `CommitsQuery` value (project, revision range, author); its text is not built. `url.QueryEscape` of the e-mail address is not modelled.
- `SetupENV`, `godotenv` and `getEnvKeyOrPanic` (src/env.go:26-51) are left out: they load configuration into global state. The target directory is implicit, and file names are relative to it, because `path.Join` with a fixed directory is injective on these names.
- `time.Sleep` pacing (src/main.go:50, 63) is left out: it has no functional effect.
- Time is modelled at second precision. Nanoseconds, time-zone names and daylight-saving rules are not modelled: each instant carries a fixed offset, and `AddDate` keeps it.
- `runGit` (src/git.go:13-22) is not modelled as a process: its output and environment are not represented. Its effect is one commit appended to the history. A failure of `git add .` and a failure of `git commit` are both faults that leave the history unchanged.
- Partial writes, file permissions and `defer fileHandle.Close()` are left out. A write either completes or fails before changing the file.
- Event fields the loop never reads (title, target ids, author id, target title) are left out. The commit title is kept as a field; nothing reads it.
- The loop of `main` has no bound (src/main.go:18). The model runs it over a finite, scripted sequence of pages. A run that uses them all stops with `Exhausted`, which the program itself never does. On a feed that repeats a page of unhandled events, the program loops forever. With a checkpoint file present it sends the same request in every cycle; without one, each request follows the clock. The model shows the repetition one cycle at a time, for a present checkpoint file (`Sync.UnhandledPageRepeatsRequest`), and stops when the scripted pages run out.
- `log.Fatal` is modelled as a `Halt` value that ends the run with the state as it was at the failure. The process exit itself is not modelled.
- Env.GetLastRecordedDate: for a missing file, the contract only bounds the default (at least 1095 days before now). The function itself computes `AddDate(now, -3, -6, 0)`.
- TimeFormat.RFC3339RoundTrip: holds only for instants with a local year from 0 to 9999 and a zone offset of whole minutes under a day. Go's own round trip fails for the other instants as well. A year outside 0–9999 prints in a form that neither Go's parser nor the model's accepts. An offset with seconds prints as ±hh:mm and reads back shifted by those seconds. Only offsets from ±24:00 to ±24:59 read back in Go and not in the model (see TimeFormat.ParseRFC3339 below).
- Gitlab.EventsEndpointInjective: holds only for such well-formed instants, for the same reason.
- Git.SameDailyFile and TimeFormat.DateOnlySameDay: hold only for four-digit local years.
- Fractional seconds: Go keeps the fraction of a parsed time; the model drops it.
- TimeFormat.ParseRFC3339: stricter than Go's `time.Parse(time.RFC3339, …)`. When its fixed-width fast path fails, Go falls back to the general layout parser. That parser also accepts a one-digit hour ("2024-01-01T5:04:05Z"), and it range-checks the zone only as hours up to 24 and minutes up to 60, so "+24:00" and "-24:00" are accepted. The model rejects all of these. A hand-edited checkpoint in these forms is therefore read by the program but halts the model.
- Gitlab.TakeNewest: integers are unbounded, whereas Go's `CommitCount` is a 64-bit `int`. For `CommitCount` equal to the smallest 64-bit integer, `resultSize - 1` wraps to the largest one (src/gitlab.go:142), and indexing the listing at src/gitlab.go:143 panics. The model returns an empty list instead; the same holds for `ResultSize` and `GetCommitsBetween`.

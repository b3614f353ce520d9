# factory-agent: verified core

A Dafny model of the parts of factory-agent on which its answers rest, and proofs about them.
`dafny verify dfyconfig.toml` checks the whole project.

- **Owner snapshots** (`Table`, `Progress`, `Footer`, `PayrollView`, `PayrollGroups`, `View`, `Transparency`,
  `RaggedGroups`, `SnapshotCodec`, `ResultCache`, `SnapshotExecutor`, `SingleFlight`). One whole-tenant detail
  snapshot per operation and window is stored; every caller's answer is derived on read by scope
  filter, calendar slice, business filters, grouping and footer recomputation. The main result is
  that the cache agrees with what it speeds up: `SnapshotExecutor.Executor.Execute` answers as a
  direct fetch would over the same columns, under arbitrary interference from other callers that
  keep the store sane, and `SnapshotExecutor.SnapshotExactly` says when the columns make no difference.
  What its parts mean is stated without their own functions, on names, texts, cells and figures:
  who is served which rows (`Visibility`), which questions share a snapshot (`CacheKeys`), what may
  be stored and used (`SnapshotGate`, `ExecutorRules`), what footers say (`FooterFigures`), and what
  groups hold (`ProgressGroups`, `PayrollFigures`), all over `RawRows`.
- **Trace timeline** (`TraceTimeline`). The event sweep and the union fold both compute the number
  of milliseconds covered, counted point by point.
- **Pagers** (`Pager`, `Directory`, `DirectoryRules`, `DirectoryCache`). Bounded page loops against
  arbitrary servers: what a complete result proves, and exactly which lists come back whole.
- **Prefetch protocol** (`PrefetchProtocol`). Replicas, a token-owned lease with a time to live, a
  run deadline, publication and a completion marker, as a state machine with a clock.
- **Usage rollup** (`Rollup`, `RollupFigures`), **export cache** (`ExportCache`), **event stream**
  (`Sse`, `SseReading`), **script embedding** (`ScriptEmbed`), **calendar phrases** (`Calendar`,
  `CalendarPeriods`).

`Sorting`, `TextOrder` and `Wrappers` hold what several of these need.

Decimals are exact rationals, dates are day numbers, cache keys are records. A cell of the customer
system is a text together with what the program's readings make of it, and an ISO date of ten
characters in a date column is a day wherever it comes from (`Table.Cell`). The customer
system is an arbitrary or an honest function, stated as such in each contract; clocks, store
failures and provider answers are parameters.

Where the code does less than its documentation or an obvious reading promises, the model follows
the code:

- Encoding pads missing columns with blanks, so ragged detail is served with columns a direct fetch
  does not have, and a grouping that a direct fetch refuses may be answered under a blank key
  (`Transparency.RaggedRowsDiffer`, `RaggedGroups.BlankKeyAnswers`). When the answers are equal all
  the same is stated exactly (`RaggedGroups.RaggedAnswersDiffer`).
- A snapshot whose parameters include one named `groupby` is stored and never accepted again
  (`SnapshotCodec.WrittenReadsBack`).
- An owner's write-back of payroll stores a recomputed footer, which lacks the totals whose column
  the detail lacks; a caller without rows then gets fewer keys than from a direct fetch
  (`Footer.EmptyViewHasTotals`). The footers agree exactly when every total of the caller's rows
  exists over the whole detail (`SnapshotExecutor.WrittenBackServes`, `Footer.TotalLostOverWhole`).
- Grouping payroll by a measure counts the group's value once more
  (`PayrollView.MeasureAsDimensionDoubles`).
- The search for the columns of a footer stops when its own columns have been met, so on ragged rows
  a percentage footer can go unchecked (`Footer.EarlyStopSkipsRatio`); it is vouched for exactly when
  both columns of the ratio were met (`Footer.RatioVouchedFor`).
- A complete page walk proves the number of rows, not which rows they are
  (`Pager.CompleteMayMissRows`); it is a given list exactly when no page had moved
  (`Pager.CompleteExactlyIfUnmoved`).
- A prefetch write that the deadline cancels in flight may still reach the store after the run has
  freed its lease (`PrefetchProtocol.CancelledWriteEscapes`). That is the only way in which a write
  escapes its lease (`PrefetchProtocol.SafeExactlyIfOrderly`), as long as no write takes effect later
  after its deadline check than the lease outlives the deadline (`PrefetchProtocol.LateWriteEscapes`).
- An ungrouped progress answer fetched without the cache carries the dates as the customer system
  prints them; from the cache they are normalised (`SnapshotExecutor.NativeRowsAreTruth`).
- A blank parent of a style type counts as a broken identifier
  (`Directory.RootTypeBreaksDirectory`, `Directory.WholeNeedsParents`).
- Rollup rows are overwritten by the latest window, so a window that starts inside a bucket
  replaces full figures by partial ones (`Rollup.SlidingWindowErodes`, `Rollup.StoredIsStream`); a
  category named `completed` or `failed` is counted among the statuses (`Rollup.MesCallsAgree`).
- A phrase whose range starts on 0001-01-01 has no UTC instant east of Greenwich, and on the last two
  days of year 9999 the redline has no date to judge by (`Calendar.NamedResolves`,
  `Calendar.NamedNeverRejected`).
- The export cap is applied by exports only; fetches can exceed it (`ExportCache.CapAfterFetch`).
- The client splits lines at U+0085, U+2028 and U+2029, which the printer leaves in payloads
  (`Sse.RoundTrip`).

## Model

| member | source | states |
|---|---|---|
| `SnapshotExecutor.Executor.Execute` | src/factory_agent/data_api/result_cache.py:1209-1337 | In any mode, for any request and any detail, ragged or not, whatever other callers did to the store at each wait as long as they kept it sane: the reply comes from the snapshot found first, found under the lock or produced, if it projects and the request takes it, and else from the caller's own fetch, with the whole store each leaves; the store stays sane; a snapshot reply is what a direct fetch of the question window projects to after padding with the columns of a covering window, with only true totals in its footer and every announced one that both its rows and the whole detail have; a complete reply from the caller's own detail is the direct answer unless the whole detail lacks the bed column, with exactly the announced totals its rows have; a complete ungrouped native reply is the visible listing, whose normalised form is the direct answer |
| `SnapshotExecutor.SnapshotExactly` | src/factory_agent/data_api/result_cache.py:827-978 | For every operation, caller, filter set and grouping: a snapshot of a covering window answers as a direct fetch does if and only if its blanks are invisible in the caller's rows, or, where these are refused for want of the bed column, the snapshot has none either |
| `SnapshotExecutor.UniformAnswers` | src/factory_agent/data_api/result_cache.py:827-978 | Where all rows of an operation carry the same columns, whatever Execute may answer from a snapshot is the direct answer |
| `SnapshotExecutor.ServedFooter` | src/factory_agent/data_api/result_cache.py:433-481 | Where complete replies announce the same keys, a snapshot reply has the footer of a direct fetch if every total of its rows exists over the snapshot's whole detail |
| `SnapshotExecutor.Executor.Obtain` | src/factory_agent/data_api/result_cache.py:1238-1277 | Read, lock, read again, produce, in this order, with what each leaves in the store; whatever is obtained answers with the padded or the direct answer and keeps the announced totals |
| `SnapshotExecutor.SecondReadServes` | src/factory_agent/data_api/result_cache.py:1248-1277 | What another caller stored while this one waited for the lock is used, and nothing is produced |
| `SnapshotExecutor.ProductionServes` | src/factory_agent/data_api/result_cache.py:1481-1555 | Where nothing is found, a complete owner answer that passes serves the direct answer, and in the storing modes is stored under the question's key as the owner's detail |
| `SnapshotExecutor.Executor.Adopt` | src/factory_agent/data_api/result_cache.py:1278-1323 | A hit is served with recomputed footer if it projects and the request takes it; otherwise exactly its entry is evicted |
| `SnapshotExecutor.Executor.FetchSnapshot` | src/factory_agent/data_api/result_cache.py:1481-1555 | A complete owner answer becomes a hit exactly if it is stored or, where nothing is stored, its footer holds; the hit is the whole normalised detail of the window, and the store is exactly extended by it |
| `SnapshotExecutor.Executor.MaybeWrite` | src/factory_agent/data_api/result_cache.py:1686-1735 | A complete, ungrouped, unnarrowed owner reply that passes the gate is written back, nothing else is, and writing it keeps every entry equal to the owner detail of its key |
| `ExecutorRules.ForbiddenExactly` | src/factory_agent/data_api/result_cache.py:1216-1218 | Refused are exactly the questions with a parameter that, in lower case, is one of the four credentials or six scope names |
| `ExecutorRules.WriteBackExactly` | src/factory_agent/data_api/result_cache.py:1686-1721 | For questions not refused: write-back needs a storing mode, a complete ungrouped reply and an owner whose filters leave all but the departments unrestricted |
| `ExecutorRules.NativeKeepsWholeGroups` | src/factory_agent/data_api/result_cache.py:1339-1419 | Where a grouped native reply is used, rows alike in the columns grouped by are kept or dropped together by every filter |
| `ExecutorRules.NativeColumns` | src/factory_agent/data_api/result_cache.py:1339-1419 | A native reply is passed over exactly if a row grouped by sheet has no date or a row lacks the bed column filtered by |
| `SnapshotExecutor.Realtime` | src/factory_agent/data_api/result_cache.py:1339-1479 | Which of the native and the detail fetch answers, and exactly what rows, footer and completeness come out of each |
| `SnapshotExecutor.WriteBackIsWhole` | src/factory_agent/data_api/result_cache.py:1686-1735 | What an owner's unnarrowed reply would store is the owner detail of the window, whether it came natively or by projection, with the announced totals that detail has |
| `SnapshotExecutor.WrittenBackServes` | src/factory_agent/data_api/result_cache.py:1686-1800 | A written-back snapshot with a recomputed footer serves rows and footer of a direct fetch if and only if its blanks make no difference and every announced total of the caller's rows exists over the whole detail |
| `SnapshotExecutor.HitServes` | src/factory_agent/data_api/result_cache.py:827-978 | Any hit in a faithful store comes from a covering window, projects to the answer padded with that window's columns, and keeps every announced total the whole detail has |
| `SnapshotExecutor.PaddedServes` | src/factory_agent/data_api/result_cache.py:1557-1652 | Stored detail of any window that covers the question projects to what the question's own detail, padded alike, projects to |
| `SnapshotExecutor.WholeServes` | src/factory_agent/data_api/result_cache.py:1557-1652 | Where all rows of an operation carry the same columns, the whole detail of any window that covers the question projects to the direct answer |
| `SnapshotExecutor.FetchServes` | src/factory_agent/data_api/result_cache.py:1420-1448 | A complete fetch that leaves out only what the caller may not see or did not ask for projects to the true answer, or the whole detail lacks the bed column |
| `SnapshotExecutor.NativeRowsAreTruth` | src/factory_agent/data_api/result_cache.py:1396-1419 | An ungrouped native reply, with its dates normalised, is the true answer unless the whole detail lacks the bed column; as printed it is that answer if and only if every row is normal already: a date of ten characters and no derived date column |
| `SnapshotExecutor.VisibleDecides` | src/factory_agent/data_api/result_cache.py:654-714 | Two listings that show the caller the same rows give the same answer, but for the bed-column error |
| `ResultCache.Snapshots.Read` | src/factory_agent/data_api/result_cache.py:827-978 | Returns the first candidate that is present, unexpired and accepted |
| `ResultCache.Snapshots.Write` | src/factory_agent/data_api/result_cache.py:990-1124 | Writes exactly when the gate passes and the store takes it, with the whole new store and expiry; every entry ever stored came through the gate |
| `ResultCache.Snapshots.Evict` | src/factory_agent/data_api/result_cache.py:1126-1143 | Drops one key and nothing else |
| `CacheKeys.SameKeyExactly` | src/factory_agent/data_api/result_cache.py:155-176 | Two questions share a snapshot if and only if tenant, operation and window agree and their parameters agree in all but dates and order, the types as sets of non-blank parts between commas |
| `CacheKeys.NormalParamsKeep` | src/factory_agent/data_api/result_cache.py:155-176 | Normalised parameters ask for the same rows as the parameters themselves |
| `SnapshotGate.GateExactly` | src/factory_agent/data_api/result_cache.py:990-1060 | Written is exactly what is ungrouped, free of credential names in parameters, rows and footer and of scope parameters, with a footer that holds, a date on every progress row and a day in every row's date column |
| `SnapshotGate.AcceptsExactly` | src/factory_agent/data_api/result_cache.py:225-283 | Used is exactly a version 4 payload of distinct, credential-free columns and full rows, of the very operation, parameters and window, ungrouped, whose progress rows have a day in their date column |
| `SnapshotGate.DecodeExactly` | src/factory_agent/data_api/result_cache.py:225-283 | Decoding puts each cell under its column, and fails exactly on unsound payloads |
| `SnapshotGate.TriedInOrder` | src/factory_agent/data_api/result_cache.py:843-857 | The windows tried are today's prefetch, then yesterday's, each only if it holds the question, then the question's own |
| `SnapshotGate.LookupIsFirst` | src/factory_agent/data_api/result_cache.py:858-978 | The answer comes from the first usable entry among the windows tried |
| `SnapshotGate.UsableUntilExpiry` | src/factory_agent/data_api/result_cache.py:990-1124 | What passed the gate is usable under its key until it expires and not after, unless its parameters name a grouping |
| `ResultCache.CandidatesCover` | src/factory_agent/data_api/result_cache.py:843-857 | Every probed window contains the question window, the question window itself is probed, and there are at most three |
| `ResultCache.LookupFinds` | src/factory_agent/data_api/result_cache.py:858-978 | A hit names a probed window whose entry is usable and is that entry; a miss means none is usable |
| `ResultCache.AnchorSurvives` | src/factory_agent/data_api/result_cache.py:155-176 | Key normalisation does not change which column anchors a row in time |
| `SnapshotCodec.EncodePayload` | src/factory_agent/data_api/result_cache.py:196-222 | The header does not depend on the order in which the columns are met |
| `SnapshotCodec.HeaderIsUnique` | src/factory_agent/data_api/result_cache.py:207-207 | Any listing of the rows' columns sorts to the same header |
| `SnapshotCodec.CodecRoundTrip` | src/factory_agent/data_api/result_cache.py:196-283 | Decoding an encoding gives the rows padded with blanks to the union of their columns |
| `SnapshotCodec.EncodedIsAccepted` | src/factory_agent/data_api/result_cache.py:733-755 | An encoded snapshot of clean, normalised rows is accepted under its key unless the key carries a parameter named groupby |
| `SnapshotCodec.WrittenReadsBack` | src/factory_agent/data_api/result_cache.py:990-1124 | What passed the gate reads back as its normalised rows, padded, if and only if its parameters name no grouping |
| `Transparency.CacheIsTransparent` | src/factory_agent/data_api/result_cache.py:827-978 | For every universe, role, filter set and grain: a snapshot of a covering window serves the same rows, groups and footer as a direct fetch, when the detail is rectangular |
| `Transparency.PaddedTransparency` | src/factory_agent/data_api/result_cache.py:1557-1652 | The same with no assumption on columns, over rows padded to the same columns |
| `Transparency.RaggedRowsDiffer` | src/factory_agent/data_api/result_cache.py:217-217 | For ragged detail of either operation and any filters, the ungrouped answers from snapshot and direct fetch are equal if and only if every served row carries every column of the snapshot, or, where the direct answer is refused, no row of the snapshot has the bed column |
| `RaggedGroups.RaggedAnswersDiffer` | src/factory_agent/data_api/result_cache.py:217-217 | For ragged detail of either operation, any filters and any grouping, the answers from snapshot and direct fetch are equal if and only if padding is invisible: ungrouped, every served row has every column; grouped progress, no refusal is for a missing column alone that the snapshot has; grouped payroll, every group carries every measure of the snapshot, or the refusal is for something blanks do not supply |
| `RaggedGroups.ProgressPads` | src/factory_agent/data_api/progress_detail.py:82-141 | Padding never changes a progress grouping that is answered, and answers a refused one if and only if only columns that occur elsewhere were missing |
| `RaggedGroups.PayrollPads` | src/factory_agent/data_api/result_cache.py:1803-1821 | Padding keeps an answered payroll grouping if and only if every group carries every measure among the columns, and answers a refused one if and only if its figures can be read and its dimensions are among the columns |
| `RaggedGroups.BlankKeyAnswers` | src/factory_agent/data_api/result_cache.py:1803-1821 | A row without the requested dimension: refused when fetched directly, one group with a blank key when padded |
| `Transparency.StoredSlices` | src/factory_agent/data_api/result_cache.py:560-572 | The stored detail of a wide window, sliced, is the stored detail of the narrow one |
| `Transparency.ScopeIsLocal` | src/factory_agent/data_api/result_cache.py:515-547 | Two ready snapshots that agree inside the caller's scope give that caller identical rows, aggregates and footer |
| `Transparency.StoredIsReady` | src/factory_agent/data_api/result_cache.py:575-586 | Normalised detail always has valid time anchors |
| `View.ProjectRows` | src/factory_agent/data_api/result_cache.py:1577-1652 | Validation, scope, slice, business filters and grouping in this order, with each error |
| `Visibility.AnswerExactly` | src/factory_agent/data_api/result_cache.py:1577-1652 | For every role, filter set and grouping, on the cells of the detail: each refusal exactly, and else the grouping of exactly the rows the caller is entitled to, in the window and asked for, in order |
| `Visibility.UngroupedAnswer` | src/factory_agent/data_api/result_cache.py:654-714 | Ungrouped: a row is served if and only if it is in the detail, its department and employee texts are in the caller's scope, its day in the window, and its style, order, plan, material and bed among those asked for |
| `Visibility.DepartmentHeld` | src/factory_agent/data_api/result_cache.py:515-547 | A department head is served no row whose department text is blank or outside the own departments, whatever departments were asked for |
| `Visibility.OutsidersChangeNothing` | src/factory_agent/data_api/result_cache.py:654-714 | Grouped or not, rows outside scope, window and question change no answer |
| `Visibility.StripsToOne` | src/factory_agent/data_api/result_cache.py:550-557 | The check-time column is chosen exactly when the flag is a one with nothing but white space around it |
| `View.SelectSwap` | src/factory_agent/data_api/result_cache.py:515-572 | Scope filter and calendar slice commute |
| `Footer.SumColumn` | src/factory_agent/data_api/result_cache.py:433-481 | The sum of a column, or nothing when a cell cannot be read |
| `Footer.RecomputedFooter` | src/factory_agent/data_api/result_cache.py:433-481 | Each retained key holds the total of its column, the ratio key the rounded ratio of two totals; the others are dropped |
| `FooterFigures.FooterServed` | src/factory_agent/data_api/result_cache.py:433-481 | A recomputed additive total is there exactly if announced, carried (or no rows) and readable, and is the sum of the figures |
| `FooterFigures.RatioServed` | src/factory_agent/data_api/result_cache.py:455-467 | The recomputed percentage is there exactly if both columns are carried and readable, and is a hundred times the quotient of their sums, rounded, or nothing where nothing was issued |
| `FooterFigures.OnlyTotalsServed` | src/factory_agent/data_api/result_cache.py:447-450 | Keys that are no totals are dropped |
| `Footer.FooterReconciles` | src/factory_agent/data_api/result_cache.py:295-423 | Summing the columns itself, accepts exactly the footers whose every announced total is the total of its column, whole totals exactly and others within the tolerance, and whose ratio agrees where both its columns were met; columns the rows lack are skipped |
| `FooterFigures.FooterAccepted` | src/factory_agent/data_api/result_cache.py:295-423 | For non-empty rows the check accepts a footer if and only if each announced total of a carried column is the sum of its readable figures, exactly if it is whole and not of wages, else within tolerance times the larger of its size and one, and the percentage is the rounded quotient of two sums where its columns were met |
| `FooterFigures.EmptyFooterAccepted` | src/factory_agent/data_api/result_cache.py:345-358 | Without rows it accepts exactly the footers whose every announced total is nothing |
| `Footer.SeenWanted` | src/factory_agent/data_api/result_cache.py:335-340 | Stopping the search for columns early misses none that the footer speaks of |
| `Footer.SeenMeans` | src/factory_agent/data_api/result_cache.py:335-340 | A column is met if and only if some row carries it that is the first or comes while a column of the footer is still unmet |
| `Footer.AnnouncedRatioIsChecked` | src/factory_agent/data_api/result_cache.py:359-380 | A footer that also announces both columns of the ratio has its ratio checked whenever the rows allow it |
| `Footer.UniformRowsAreSeen` | src/factory_agent/data_api/result_cache.py:335-340 | On rows with the same columns the early stop sees them all |
| `Footer.EarlyStopSkipsRatio` | src/factory_agent/data_api/result_cache.py:335-362 | On ragged rows any percentage can pass, because the search ended before the columns of the ratio |
| `Footer.RatioVouchedFor` | src/factory_agent/data_api/result_cache.py:359-423 | With the other keys in order, every percentage the check accepts is the ratio of the rows if and only if both columns of the ratio were met before the search ended |
| `Footer.RecomputedReconciles` | src/factory_agent/data_api/result_cache.py:295-481 | A recomputed footer passes the check on the same rows |
| `Footer.RecomputedFromKeys` | src/factory_agent/data_api/result_cache.py:433-481 | A recomputed footer depends on the keys of the old one only |
| `Footer.RecomputedTwice` | src/factory_agent/data_api/result_cache.py:433-481 | Recomputing a footer over the whole detail and then over a view gives the footer recomputed over the view if and only if every announced total the view has, the whole detail has |
| `Footer.EmptyViewHasTotals` | src/factory_agent/data_api/result_cache.py:433-481 | A total whose column no row of the detail carries is in the footer of an empty direct answer and not in that of a written-back one |
| `Footer.TotalLostOverWhole` | src/factory_agent/data_api/result_cache.py:433-481 | For a choice of the rows, an additive total is lost over the whole detail if and only if the choice is empty and the detail lacks the column, or an unreadable figure lies outside the choice |
| `Footer.GroupingKeepsFooter` | src/factory_agent/data_api/result_cache.py:433-481 | Grouping progress detail changes none of the six additive footers and not the percentage footer |
| `PayrollGroups.AggregatePayrollRows` | src/factory_agent/data_api/result_cache.py:1803-1821 | The loops yield one row per key, in order, with the group's dimensions and, for each measure one of its rows carries, the sum over exactly the rows with that key; they fail exactly when a row lacks a dimension or carries an unreadable figure |
| `PayrollFigures.PayrollAnswered` | src/factory_agent/data_api/result_cache.py:1803-1821 | A payroll grouping is answered if and only if every row has every dimension and readable figures in the eight measures |
| `PayrollFigures.PayrollHolds` | src/factory_agent/data_api/result_cache.py:1803-1821 | Each group's row holds the dimensions of the group's first row and each measure a row of the group carries, added up; every row has its group; groups come in the order of the dimensions as asked for |
| `PayrollGroups.PayrollIsGroupSum` | src/factory_agent/data_api/result_cache.py:1803-1821 | The grouping used by every projection is that table |
| `PayrollGroups.PayrollIgnoresOrder` | src/factory_agent/data_api/result_cache.py:1803-1821 | Success and output depend on the multiset of rows only |
| `PayrollView.CollectConserves` | src/factory_agent/data_api/result_cache.py:1803-1821 | The groups add up to the detail, plus the first value of each group where a measure is itself a dimension |
| `PayrollView.PayrollKeepsFooter` | src/factory_agent/data_api/result_cache.py:1803-1821 | Grouping keeps a measure's footer if and only if those first values add up to nothing |
| `PayrollView.MeasureAsDimensionDoubles` | src/factory_agent/data_api/result_cache.py:1803-1821 | A row of two pieces grouped by its pieces reports four |
| `Progress.DeriveProgressRows` | src/factory_agent/data_api/progress_detail.py:65-79 | All rows with normalised dates, or an error |
| `Progress.DeriveRowwise` | src/factory_agent/data_api/progress_detail.py:65-79 | Derivation succeeds exactly when each row does, and works row by row |
| `Progress.DeriveNormal` | src/factory_agent/data_api/progress_detail.py:48-79 | Derived rows are normal, and normal rows derive to themselves |
| `Progress.Accumulate` | src/factory_agent/data_api/progress_detail.py:108-141 | The grouping loop holds, per key, the first row's dimensions and the sums of the contributions, and fails exactly when the rows are unacceptable |
| `Progress.AggregateProgressRows` | src/factory_agent/data_api/progress_detail.py:82-141 | Computes the declarative group-sum; refused exactly when that is undefined |
| `ProgressGroups.GroupingAnswered` | src/factory_agent/data_api/progress_detail.py:82-121 | A grouping is answered if and only if its columns, in any listing, are one of the three documented grains, every listed row has a date, those columns and six non-negative figures, and rows with the same codes have the same names and, where sheets are grouped by, the same date |
| `ProgressGroups.GroupingHolds` | src/factory_agent/data_api/progress_detail.py:108-141 | Each group's row holds exactly the columns asked for, the date where sheets are grouped by, the six sums over all listed rows with its codes and their rounded percentage; every listed row has its group; groups ascend in Python's order of their codes |
| `ProgressGroups.OneDateForAll` | src/factory_agent/data_api/progress_detail.py:112-121 | The date of a group is the date of every listed row with its codes |
| `TextOrder.TextLeMeans` | src/factory_agent/data_api/progress_detail.py:125-126 | The order of texts is that of the first character in which they differ, a beginning before its continuations |
| `Progress.GroupingIgnoresOrder` | src/factory_agent/data_api/progress_detail.py:108-141 | For normalised rows and one grain, acceptance and output depend on the multiset of rows only |
| `Progress.AggregateIgnoresOrder` | src/factory_agent/data_api/progress_detail.py:82-141 | For raw rows, success depends on the multiset of rows only, and with a grouping so does the output itself |
| `Progress.GroupsAddUp` | src/factory_agent/data_api/progress_detail.py:108-141 | For each measure, the groups add up to the detail |
| `Progress.CompletionIsAverage` | src/factory_agent/data_api/progress_detail.py:125-141 | With something issued, a group's unrounded completion lies between the bounds of its rows' ratios, and wcl is within half a hundredth of it |
| `Progress.ReviewedIsWellFormed` | src/factory_agent/data_api/progress_detail.py:82-107 | In a reviewed grain every column is a key or a name, and none is the date, a measure or the percentage |
| `Table.HalfUpRounds` | src/factory_agent/data_api/progress_detail.py:125-141 | HALF_UP moves a value by at most half a hundredth and leaves hundredths alone |
| `FooterFigures.HalfUpExactly` | src/factory_agent/data_api/progress_detail.py:125-141 | A hundredth is the rounding of exactly the values from half a hundredth below it, inclusive, to half a hundredth above |
| `SingleFlight.ProductionIsExclusive` | src/factory_agent/data_api/result_cache.py:1248-1277 | In every interleaving of any number of callers at most one is inside the provider call, and the calls exceed losses plus failed productions by at most one |
| `SingleFlight.CallsRationed` | src/factory_agent/data_api/result_cache.py:1248-1277 | In every run of any number of callers the provider is called at most once more often than snapshots are lost and productions fail |
| `SingleFlight.DoneIsSettled` | src/factory_agent/data_api/result_cache.py:1238-1277 | No caller is done that neither found a snapshot nor produced, failed to produce or was cancelled |
| `SingleFlight.ProducersMissedTwice` | src/factory_agent/data_api/result_cache.py:1238-1260 | Nobody refers to the lock who did not first read and find nothing, and nobody produces who did not read and find nothing again under the lock |
| `SingleFlight.PublishedOnce` | src/factory_agent/data_api/result_cache.py:1481-1555 | After a producer's publication no run without expiry or eviction calls the provider again, even if the lock is dropped and made anew |
| `SingleFlight.ForeignPromise` | src/factory_agent/data_api/result_cache.py:1248-1277 | A publication from outside the lock gives the same promise if and only if no caller is between its second read and its call |
| `SingleFlight.NeverStuck` | src/factory_agent/data_api/result_cache.py:1248-1277 | A waiting caller can take the lock unless another caller owns it |
| `SingleFlight.RunKeeps` | src/factory_agent/data_api/result_cache.py:1192-1194 | Every referenced lock is the one in the weak dictionary, it has one owner, and production stays rationed, along every run |
| `TraceTimeline.IntervalOccupancy` | src/factory_agent/application/trace.py:423-445 | Occupancy, overlap and per-kind exclusive time are the numbers of milliseconds with any kind, with several, and with that kind alone |
| `TraceTimeline.Sweep` | src/factory_agent/application/trace.py:423-445 | The sorted sweep with counters computes those measures |
| `TraceTimeline.BuildEvents` | src/factory_agent/application/trace.py:423-432 | The events are those of the clipped intervals, kind by kind |
| `TraceTimeline.SpanIntervals` | src/factory_agent/application/trace.py:404-411 | The clipped, non-empty intervals of the spans |
| `TraceTimeline.IntervalsCoverExactly` | src/factory_agent/application/trace.py:404-411 | A millisecond is in some interval exactly when a span covers it on the axis |
| `TraceTimeline.UnionMs` | src/factory_agent/application/trace.py:414-420 | The fold is the number of milliseconds covered, whatever the order of the intervals |
| `TraceTimeline.SortedEventsFaithful` | src/factory_agent/application/trace.py:423-445 | Sorting the events keeps every count and orders the moments |
| `TraceTimeline.ActiveNeverNegative` | src/factory_agent/application/trace.py:432-445 | No counter is ever negative |
| `TraceTimeline.CountersAreMix` | src/factory_agent/application/trace.py:432-445 | Between two moments the positive counters are the kinds that cover the stretch |
| `TraceTimeline.TallyPartition` | src/factory_agent/application/trace.py:393-401 | Overlap and the exclusive times partition the occupancy |
| `TraceTimeline.TallyMonotone` | src/factory_agent/application/trace.py:393-401 | Exclusive time is within a kind's occupancy, and that within the whole |
| `TraceTimeline.UnionOfKind` | src/factory_agent/application/trace.py:336-358 | The union of one kind's intervals is that kind's measure |
| `TraceTimeline.UnionOfAll` | src/factory_agent/application/trace.py:393-401 | The union over all timed intervals agrees with the sweep |
| `TraceTimeline.CoveredAtMostLengths` | src/factory_agent/application/trace.py:414-420 | A union is at most the sum of the lengths |
| `TraceTimeline.LengthsAtMostDurations` | src/factory_agent/application/trace.py:404-411 | Clipped lengths are at most the durations |
| `TraceTimeline.ProcessingTimes` | src/factory_agent/application/trace.py:316-401 | Segments are disjoint and exhaust the axis, and exclusive <= occupancy <= cumulative for every kind |
| `TraceTimeline.LeavesMeant` | src/factory_agent/application/trace.py:325-325 | Exactly the leaf spans are counted, each as often as it was recorded |
| `TraceTimeline.LoneSpan` | src/factory_agent/application/trace.py:345-350 | A lone span lasts as many milliseconds as it covers of an axis that holds it |
| `TraceTimeline.DurationsAdd` | src/factory_agent/application/trace.py:345-350 | Cumulative times add up over spans |
| `TraceTimeline.TotalMs` | src/factory_agent/application/trace.py:591-608 | The axis is the least that holds the ledger, the wall clock and every span |
| `TraceTimeline.NothingClipped` | src/factory_agent/application/trace.py:404-411 | On an axis that holds every span, nothing is clipped |
| `TraceTimeline.BuildPhases` | src/factory_agent/application/trace.py:546-588 | Phases start where their states were first announced and last until the next |
| `TraceTimeline.CollapseShape` | src/factory_agent/application/trace.py:546-588 | Collapsing keeps first and last state and leaves no repetition |
| `TraceTimeline.PhasesTile` | src/factory_agent/application/trace.py:546-588 | The phases account for exactly the time from the first announcement to the end of the axis if and only if none was announced before its predecessor or after the end |
| `Pager.FetchAll` | src/factory_agent/data_api/pagination.py:70-247 | The loop computes the reference run of the pager |
| `Pager.FetchSound` | src/factory_agent/data_api/pagination.py:92-247 | Against any server: at most one request over the page budget, at most one resize, never more than the row budget, a justified reason whenever incomplete, and complete only with as many rows as announced |
| `Pager.CompleteExactlyIfUnmoved` | src/factory_agent/data_api/pagination.py:92-247 | Against a list that may change between requests, a complete result is a given list of the announced size, in order, if and only if every page of the last walk showed, when it was requested, what that list has there |
| `Pager.DisjointPagesCover` | src/factory_agent/data_api/pagination.py:92-247 | If the last walk draws its pages from a list of the announced size without taking a row twice, a complete result is that list as a multiset |
| `Pager.CompleteMayMissRows` | src/factory_agent/data_api/pagination.py:92-247 | A list that shifts between two requests passes every test with a row twice and a row missing |
| `Pager.FetchExact` | src/factory_agent/data_api/pagination.py:70-247 | Against a server that slices a fixed list the fetch is complete if and only if the list fits the budgets with distinct pages, and is then the list in order, through the resize or not |
| `Pager.ReachIsProduct` | src/factory_agent/data_api/pagination.py:92-120 | Pages reach page number times size into the list |
| `PrefetchProtocol.PrefetchIsSafe` | src/factory_agent/application/prefetch.py:168-290 | In every interleaving, with writes and releases that take effect after their sender stopped waiting: a snapshot or marker was written under its writer's unexpired lease exactly if it took effect before its writer's release did, held writes for a factory-day never interleave between runs, a stored marker follows both families written by the same run, and a run reports no retry only when its day was completed |
| `PrefetchProtocol.SafeExactlyIfOrderly` | src/factory_agent/application/prefetch.py:168-227 | All writes of all runs are held and the writes of each factory-day are uninterrupted if and only if no write takes effect after its run's release |
| `PrefetchProtocol.CancelledWriteEscapes` | src/factory_agent/application/prefetch.py:168-181 | Whatever the slack, a write cancelled in flight can take effect after the lease was freed and another run has written the same day: unheld, and interleaved |
| `PrefetchProtocol.StrayHolds` | src/factory_agent/application/cache.py:260-282 | A write nobody waits for takes effect under its run's lease exactly when the run's release has not |
| `PrefetchProtocol.WriterHolds` | src/factory_agent/application/prefetch.py:229-290 | A write its run waits for takes effect under the run's unexpired lease |
| `PrefetchProtocol.MarginSuffices` | src/factory_agent/application/prefetch.py:182-200 | The thirty-second margin covers any write that lands within thirty seconds of its deadline check |
| `PrefetchProtocol.LeaseTtlExactly` | src/factory_agent/application/prefetch.py:182-200 | The lease lasts thirty seconds more than the run may, in whole seconds, and less than thirty-one |
| `PrefetchProtocol.NothingAfterDeadline` | src/factory_agent/application/prefetch.py:229-306 | From its deadline on a run reads no marker, skips no family, sends no write and counts none as done |
| `PrefetchProtocol.SentMayBeLost` | src/factory_agent/application/prefetch.py:168-181 | A sent write may fail, time out or be cancelled at any moment and is adrift from then on |
| `PrefetchProtocol.StepsFollow` | src/factory_agent/application/prefetch.py:182-290 | Every step moves a run on in the order of the program, or to its release or end, and a finished run never again |
| `PrefetchProtocol.UnansweredIsAdrift` | src/factory_agent/application/prefetch.py:168-181 | A run that stops waiting for a write before it landed sets it adrift, whatever the step |
| `PrefetchProtocol.ResultsAlways` | src/factory_agent/application/prefetch.py:229-290 | Along every run of the system each family is refreshed at most once by a run, and its marker follows two successes |
| `PrefetchProtocol.LateWriteEscapes` | src/factory_agent/application/prefetch.py:301-306 | Beyond the margin a run writes without its lease: the bound is exact |
| `PrefetchProtocol.FreeJobCompletes` | src/factory_agent/application/prefetch.py:168-227 | From every state, once a job's lease is free or expired, there is a schedule in which a new run completes the job, asks for no retry and frees the lease |
| `PrefetchProtocol.OnlyTheHolderFrees` | src/factory_agent/application/cache.py:260-282 | Until it expires a lease is changed by nothing but its holder's release |
| `PrefetchProtocol.RunKeeps` | src/factory_agent/application/prefetch.py:168-290 | The invariant of leases, deadlines, program counters, log and markers holds along every run |
| `Rollup.ComputeBucketMetrics` | src/factory_agent/application/rollup.py:95-150 | The loops refine per-bucket sums and distinct counts; buckets exist exactly where a fact touches them; fails exactly on an unknown category |
| `Rollup.AddChat` | src/factory_agent/application/rollup.py:107-127 | What one interaction fact adds to its bucket, and whether it creates it |
| `Rollup.AddLlm` | src/factory_agent/application/rollup.py:128-138 | What one model call adds to its bucket |
| `Rollup.AddMes` | src/factory_agent/application/rollup.py:139-146 | What one customer-system call adds to its bucket, or the failed lookup of an unknown category |
| `RollupFigures.CategoryFigures` | src/factory_agent/application/rollup.py:139-146 | A bucket's calls of a billing category are those of the operations listed under that very name, and of other also the unlisted ones |
| `RollupFigures.CallFigures` | src/factory_agent/application/rollup.py:139-146 | Calls count once in all, once by how they ended, and once more where their category is named like an ending |
| `RollupFigures.QuestionFigures` | src/factory_agent/application/rollup.py:107-122 | Questions are the started facts, valid ones the routed facts with a capability, and each status counts the facts with that very text |
| `RollupFigures.DurationFigures` | src/factory_agent/application/rollup.py:123-127 | The durations of a stage are added over the facts that have one, and those facts are tallied |
| `RollupFigures.TokenFigures` | src/factory_agent/application/rollup.py:128-138 | Every model call is an attempt, and each kind of token goes into its own sum |
| `RollupFigures.TallyFigures` | src/factory_agent/application/rollup.py:128-138 | Each kind of token is tallied once per model call; questions and attempts have no tally |
| `RollupFigures.NameFigures` | src/factory_agent/application/rollup.py:112-149 | Users and logical calls are the numbers of distinct non-empty names |
| `RollupFigures.BucketExists` | src/factory_agent/application/rollup.py:95-150 | A bucket exists exactly for a call or model call, or a question that started, was routed with a capability, ended or lasted |
| `RollupFigures.UnknownCategory` | src/factory_agent/application/rollup.py:145-146 | The rollup fails exactly on an operation listed under a name that is none of the six |
| `Rollup.DayIsSumOfHours` | src/factory_agent/application/rollup.py:95-150 | Each additive metric of a day is the sum over its twenty-four hours |
| `Rollup.DayTouchedByHours` | src/factory_agent/application/rollup.py:88-92 | A day has a bucket exactly when one of its hours has |
| `Rollup.LogicalCallsBetween` | src/factory_agent/application/rollup.py:147-149 | A day's logical calls lie between any hour's and the sum over the hours |
| `Rollup.MesCallsAgree` | src/factory_agent/application/rollup.py:139-146 | mes_calls is completed plus failed, and the sum over the four categories, if and only if no called operation has a category named like a status |
| `Rollup.PartialBucket` | src/factory_agent/application/rollup.py:213-247 | A window computes a bucket's additive totals as the whole stream would if and only if it leaves out no fact of the bucket that adds anything |
| `Rollup.PartialFigures` | src/factory_agent/application/rollup.py:213-247 | A window computes every figure of a bucket, distinct counts included, as the whole stream would if and only if moreover every user and logical call it leaves out is met inside it |
| `Rollup.InsideBucketIsExact` | src/factory_agent/application/rollup.py:213-247 | Every figure of a bucket inside the window, distinct counts included, is that of the whole stream |
| `Rollup.Engine.RollupRange` | src/factory_agent/application/rollup.py:213-247 | Replaces the touched buckets of both granularities and no others; an unknown category leaves the table alone |
| `Rollup.Engine.RunWindows` | src/factory_agent/application/rollup.py:290-304 | After any series of runs each bucket holds the figures of the last window that wrote it |
| `Rollup.StoredIsStream` | src/factory_agent/application/rollup.py:213-304 | After any series of runs a bucket is stored with the figures of the whole stream if and only if the last window that wrote it leaves out no contributing fact and no user or logical call it does not meet, or no window wrote it and it was so stored before |
| `Rollup.SlidingWindowErodes` | src/factory_agent/application/rollup.py:290-304 | Once a run starts after a contributing fact and before a later fact of the same bucket, the stored figures are no longer those of the stream |
| `Directory.FetchHangingLines` | src/factory_agent/data_api/knowledge_directory.py:447-498 | The loop computes the reference scan within the page budget |
| `Directory.CompleteIsListed` | src/factory_agent/data_api/knowledge_directory.py:447-498 | A complete answer is the rows of consecutive pages that announce its size, each identifier once |
| `Directory.CompleteIsTheSet` | src/factory_agent/data_api/knowledge_directory.py:447-498 | Rows from a fixed set whose size is announced: a complete answer is exactly that set |
| `Directory.SlicedListIsReturned` | src/factory_agent/data_api/knowledge_directory.py:447-498 | Against a slicing server the list comes back in order if and only if it fits both budgets and its identifiers are stable |
| `Directory.CodesAgree` | src/factory_agent/data_api/knowledge_directory.py:750-760 | The loop accepts exactly when each code has one name |
| `Directory.DirectorySource.LoadFamily` | src/factory_agent/data_api/knowledge_directory.py:390-445 | A directory stored under exactly this address within a day, or else a whole live one, paged or projected, which is then stored and is what every load of the next day reads; every entry ever stored is readable |
| `Directory.ProjectedIsTyped` | src/factory_agent/data_api/knowledge_directory.py:520-642 | A projected response has the datasets of its family, each row with exactly the approved fields and types |
| `DirectoryRules.FormReadsBack` | src/factory_agent/data_api/knowledge_directory.py:520-572 | The projected rows of styles, types, colours and sizes give back what the response's rows say, in their order, with the announced number |
| `DirectoryRules.PlainReadsBack` | src/factory_agent/data_api/knowledge_directory.py:573-602 | The same for production types and processes |
| `DirectoryRules.StepsReadBack` | src/factory_agent/data_api/knowledge_directory.py:603-642 | The same for the steps of styles and of bills |
| `Directory.LinesRelated` | src/factory_agent/data_api/knowledge_directory.py:734-748 | The rows built from hanging lines satisfy the relations exactly when the lines have distinct, canonical identifiers |
| `Directory.WholeIsReadable` | src/factory_agent/data_api/knowledge_directory.py:436-445 | Whatever live directory is complete passes every test of the reader, though the writer runs none of its own |
| `Directory.RootTypeBreaksDirectory` | src/factory_agent/data_api/knowledge_directory.py:739-744 | A style type without a parent makes the whole style directory invalid |
| `Directory.WholeNeedsParents` | src/factory_agent/data_api/knowledge_directory.py:734-777 | A style directory is whole if and only if it fits the budget, its identifiers are canonical and distinct, every style's type is listed, and every type has a canonical parent |
| `DirectoryRules.PlainWhole` | src/factory_agent/data_api/knowledge_directory.py:734-748 | A response of production types or processes is whole if and only if it is counted, within the budget, and its identifiers are canonical and different |
| `DirectoryRules.StepsWhole` | src/factory_agent/data_api/knowledge_directory.py:734-760 | A response of steps is whole if and only if moreover its codes are canonical and have one name each, and a bill's steps are of that bill and of one style |
| `DirectoryRules.FormWhole` | src/factory_agent/data_api/knowledge_directory.py:734-777 | The form of a style is whole if and only if it is counted, within the budget, and holds at most that style's row, with colours and sizes of that very style and none without it |
| `Directory.StoredReadsBack` | src/factory_agent/data_api/knowledge_directory.py:653-732 | What a load fetched and stored reads back under its own tenant, family and entity for 24 hours and under no other address or time |
| `DirectoryCache.ReadableExactly` | src/factory_agent/data_api/knowledge_directory.py:653-732 | The reader accepts exactly what some whole response of the family is stored as |
| `DirectoryCache.ReadableLines` | src/factory_agent/data_api/knowledge_directory.py:653-732 | The same for hanging lines: distinct, canonical and within the budget |
| `DirectoryCache.ReadExactly` | src/factory_agent/data_api/knowledge_directory.py:680-695 | An entry is read exactly in version 1, at its own address, for 24 hours from its time, and with readable rows |
| `DirectoryCache.ShortExactly` | src/factory_agent/data_api/knowledge_directory.py:643-650 | A response is short exactly if a list is not as long as announced or all together exceed the budget |
| `DirectoryCache.TrimmedExactly` | src/factory_agent/data_api/knowledge_directory.py:739-744 | A canonical identifier is a non-empty text that stripping leaves alone |
| `ExportCache.ExportService.Export` | src/factory_agent/export_service.py:77-134 | Records the artifact durably and leaves the cache within its cap, having dropped expired and then oldest entries only |
| `ExportCache.ExportService.Fetch` | src/factory_agent/export_service.py:136-166 | Answers as the ledger of all exports would: owner matches and expiry is in the future |
| `ExportCache.ExportService.Restart` | src/factory_agent/export_service.py:136-142 | Losing the cache loses no answer |
| `ExportCache.Bound` | src/factory_agent/export_service.py:123-128 | Keeps as many entries as the cap allows and drops none that expires after a kept one |
| `ExportCache.ExportService.EvictExpired` | src/factory_agent/export_service.py:168-171 | Keeps exactly the live entries |
| `ExportCache.ServeAll` | src/factory_agent/export_service.py:77-183 | Over any sequence of exports, fetches and restarts with a monotone clock and fresh identifiers, every answer is the ledger's |
| `ExportCache.FetchDelivers` | src/factory_agent/export_service.py:77-166 | In any well-timed sequence a fetch gives back exactly what an earlier export put under that identifier, to its owner alone and until the retention period is over |
| `ExportCache.CapAfterFetch` | src/factory_agent/export_service.py:136-166 | A fetch leaves the cache over its cap if and only if the live entries exceeded it or filled it and one more was brought back |
| `Sse.ParseEvents` | scripts/run_qa_batch.py:238-269 | The loop computes the reference parse, with both protocol errors |
| `SseReading.FrameReads` | scripts/run_qa_batch.py:238-269 | What lines before a blank one amount to: too large beyond sixteen mebicharacters of values; nothing without data; else the event of the last name or message, the last number or zero, and the data lines one below the other, or an error where the number is none or negative or the data no object |
| `SseReading.FieldMeans` | scripts/run_qa_batch.py:256-258 | A field is named up to its first colon, and one space after that is no part of its value |
| `SseReading.LinesEnd` | scripts/run_qa_batch.py:389-402 | A line ends at each boundary, but a carriage return and the line feed after it are one |
| `SseReading.BreaksListed` | scripts/run_qa_batch.py:389-402 | The ten code points that end a line |
| `Sse.RoundTrip` | src/factory_agent/api/sse.py:25-30 | The printed stream is read back as the same events if and only if no name or payload holds a line boundary and every event fits the size limit |
| `Sse.OpenBoundaries` | src/factory_agent/api/sse.py:25-30 | The boundaries JSON text leaves unescaped are U+0085, U+2028 and U+2029 |
| `Sse.TruncatedFrameYieldsNothing` | scripts/run_qa_batch.py:238-269 | A stream cut anywhere inside a frame yields the events before it and nothing of the frame |
| `Sse.RunCase` | scripts/run_qa_batch.py:389-416 | The client's loop over connections computes the reference client |
| `SseReading.ReceiveMeans` | scripts/run_qa_batch.py:398-412 | Until a completed, failed or cancelled event the client applies what is newer than all it has seen, and every heartbeat, and nothing else |
| `Sse.ResumeIsExact` | scripts/run_qa_batch.py:389-416 | Wherever connections break, the applied events are the log up to the furthest point reached: each once, in order |
| `Sse.GapIsLoss` | scripts/run_qa_batch.py:398-402 | The applied events stay a prefix of the log if and only if a replay starts no later than the client's place or brings nothing |
| `Sse.NumberRoundTrip` | src/factory_agent/api/sse.py:25-30 | The printed sequence number is read back by the integer reading of both ends |
| `SseReading.SignedReads` | src/factory_agent/api/sse.py:33-40 | A sign before the digits counts |
| `Sse.HeaderRoundTrip` | src/factory_agent/api/sse.py:33-40 | The Last-Event-ID a client sends is the one the server reads |
| `SseReading.HeaderMeans` | src/factory_agent/api/sse.py:33-40 | A missing, malformed or negative header starts from the beginning, any other from its number |
| `ScriptEmbed.EmbedJson` | src/factory_agent/application/trace_report.py:47-51 | The loop applies the two replacements in order |
| `ScriptEmbed.EmbeddedIsSafe` | src/factory_agent/application/trace_report.py:35-51 | For every text, the embedded form contains neither a closing tag opener nor a comment opener |
| `ScriptEmbed.EmbeddingIsInvisible` | src/factory_agent/application/trace_report.py:35-51 | For every text with well-formed strings and no angle bracket between them, every string decodes as before, in the same place |
| `Calendar.PeriodsNest` | src/factory_agent/application/time_expressions.py:90-121 | Today is in its day, week and month, and month lies within quarter within year |
| `Calendar.PreviousAdjoins` | src/factory_agent/application/time_expressions.py:90-121 | Previous periods end where current ones start |
| `CalendarPeriods.MonthHolds` | src/factory_agent/application/time_expressions.py:90-121 | A date is in this month if and only if year and month agree, and in last month if and only if it is of the month before |
| `CalendarPeriods.QuarterHolds` | src/factory_agent/application/time_expressions.py:90-121 | The same for quarters, counted on across the years |
| `CalendarPeriods.YearHolds` | src/factory_agent/application/time_expressions.py:90-121 | The same for years |
| `CalendarPeriods.DaysHold` | src/factory_agent/application/time_expressions.py:90-103 | Today, yesterday and the day before are single days; a week is the seven days from its Monday |
| `CalendarPeriods.PreviousIsCurrentBefore` | src/factory_agent/application/time_expressions.py:90-121 | The previous day, week, month, quarter or year is the current one of the day before the current one starts |
| `CalendarPeriods.RecentHolds` | src/factory_agent/application/time_expressions.py:124-131 | The last n days are today and the n - 1 days before |
| `CalendarPeriods.BareMonthHolds` | src/factory_agent/application/time_expressions.py:156-163 | A date is in a bare month if and only if it is of that month, this year if the month has started and last year if not |
| `Calendar.BareMonthIsLatest` | src/factory_agent/application/time_expressions.py:156-163 | A bare month is its latest occurrence that starts by today |
| `Calendar.NamedRange` | src/factory_agent/application/time_expressions.py:90-163 | Every phrase but "the last n days" is a non-empty range of at most 366 days that starts by today |
| `Calendar.NamedResolves` | src/factory_agent/application/time_expressions.py:46-59 | In any zone such a phrase resolves to its range if and only if that range is in the calendar and does not start on 0001-01-01 east of Greenwich, and otherwise fails because a date or an instant cannot be formed; every day from year 3 to 9998 resolves |
| `Calendar.RecentResolves` | src/factory_agent/application/time_expressions.py:46-59 | "The last n days" resolves if and only if n is at most the number of days so far in the calendar, fewer east of Greenwich, and tomorrow is a date |
| `Calendar.MonthsInCalendar` | src/factory_agent/application/time_expressions.py:166-190 | A range between firsts of months is in the calendar exactly when their years are |
| `Calendar.NamedNeverRejected` | src/factory_agent/application/time_expressions.py:62-87 | In any fixed-offset zone the redline passes every one of them, except that on the last two days of year 9999, and on no others, the day it judges by cannot be formed |
| `Calendar.RecentRejectedPastAYear` | src/factory_agent/application/time_expressions.py:62-87 | "The last n days" is too long if and only if n exceeds 366, and otherwise passes except on those two days |
| `CalendarPeriods.RedlineExactly` | src/factory_agent/application/time_expressions.py:62-87 | A range is rejected exactly if it is empty, longer than allowed, or starts after tomorrow by the factory's calendar |
| `Calendar.BeforeYearFormula` | src/factory_agent/application/time_expressions.py:173-190 | Counting the days before a year agrees with the Gregorian leap-year formula |

## Left out

- HTTP transport, credentials, token exchange and response envelopes: the customer system is a function.
- Redis, SQL, FastAPI, model gateways, prompts, logging and trace wrappers: they do not change results.
- Byte and JSON encodings and digests of cache values: keys are records and payloads structured values.
- NaN, infinities, binary floating point and decimal context precision: figures are exact and finite.
- The permission matrix, capability maps, settings and intent or summary text: table lookups.
- SnapshotExecutor.Executor.Execute: assumes that the customer's rows depend on the parameters only through what CacheKeys.SameKeyExactly compares; allows natively grouped progress replies and says nothing about their figures, which the customer system computes; footers of native replies are the customer system's own unless rows were filtered out; in shadow mode the realtime result attached for comparison, and its later discard, are not part of the reply; a store that raises during a read is the same as one without a usable entry.
- SnapshotExecutor.ServedFooter: one direction, because an entry written by the provider keeps keys that a written-back one drops; the other direction for those is SnapshotExecutor.WrittenBackServes.
- SnapshotExecutor.Realtime: exceptions of the inner fetch are not modelled; the call then ends without a reply.
- ResultCache.Snapshots.Write: the publication deadline is in PrefetchProtocol; `generated_at` and `source` are not modelled.
- Footer.FooterReconciles: the default tolerance and the policy's are parameters; rounding inside the float comparison is not modelled.
- Progress.CompletionIsAverage: the bounds are given as factors that every row of the group respects.
- SingleFlight.ProductionIsExclusive: one process; a cancelled write that lands later counts as a publication from outside the lock.
- PrefetchProtocol.PrefetchIsSafe: one clock for all replicas; an acquisition takes effect while its run waits for it or not at all; stores without leases and `purge_all`, which nothing calls, are not modelled.
- Rollup.Engine.RollupRange: one tenant; distinct users across granularities are not compared, because a fact that counts a user need not create a bucket; facts that arrive after their window are not modelled.
- Directory.DirectorySource.LoadFamily: the in-flight table that joins concurrent loads, the validation of raw responses and the tenant binding checks are not modelled; a live directory that is short or broken is answered as nothing rather than as rows marked incomplete or an error.
- Sse.RoundTrip: what counts as a JSON object is a parameter; digits other than ASCII ones are not read, and chunk boundaries of the transport are not modelled.
- Sse.ResumeIsExact: the wire-only terminal event after a follow timeout is not in the log and is not modelled.
- ScriptEmbed.EmbeddingIsInvisible: code units above U+FFFF written raw are one unit in the model.
- Calendar.NamedNeverRejected: explicit dates and months with a year are not modelled; zones whose offset changes during the range are not modelled.
- Shadow comparison, the knowledge search, sessions, the execution kernel and statistics pages: not part of this model.

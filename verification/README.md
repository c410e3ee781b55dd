# Node time synchronisation, block metrics and in-memory storer — a Dafny model

This project models three small components of a distributed-ledger node:

- **Clock-offset synchronisation** (`ntp/syncTime.go`). A `syncTime` object issues
  ten NTP queries per cycle. It drops the queries that fail and publishes the mean
  of the other offsets, truncated toward zero, as the node's clock offset. If every
  query fails, the previous offset is kept. The object also gives the corrected
  "now" and renders a time as the fixed-width text
  `YYYY-MM-DD hh:mm:ss.nnnnnnnnn ` (with a trailing space).
- **Block metrics** (`process/block/metrics.go`). These functions count miniblocks
  and transactions and add up encoded sizes. They push the results into the node's
  status handler.
- **The in-memory storer** (`process/mock/storerMock.go`). A map-backed key/value
  table with put, get, remove and bulk lookup.

Files:

- `wrappers.dfy`: `Option` and `Result`.
- `go_ints.dfy`: Go's `uint32`, `uint64`, `int` and slice lengths. It also holds the
  `int`→`uint64` conversion and the wrapping `uint64` addition.
- `sums.dfy`: the plain sum of an integer sequence, shared by both components.
- `decimal.dfy`: Go's `%d` and `%.Nd` rendering of integers, and the parser that
  inverts it.
- `sync_time.dfy`: the `SyncTime` class, the cycle's specification
  (`Successes`, `CycleMean`), Go's truncating division, and the time layout.
- `block_metrics.dfy`: a recording status handler, the block entities, and the five
  metric operations.
- `storer_mock.dfy`: the `StorerMock` class.

Modelling choices:

- Durations and instants are integers counting nanoseconds.
- The NTP query is a parameter of `Sync`: the sequence of what each of the ten
  queries returns (`Some(offset)` or `None` for an error). Whether a query
  function is installed (Go's `query != nil`) is the field `hasQuery`.
- The clock reading "now" is a parameter of `CurrentTime`. Go's calendar
  decomposition of an instant is a function parameter of `FormattedCurrentTime`.
- The marshaller is a function giving the length of an entity's encoding, or
  `None` when encoding fails.
- The status handler is a class that records the last value set for each metric
  and how many times each counter was incremented.
- Metric names are an enumeration. Their string values live in `core/constants.go`,
  which is not part of this model.

## Model

| member | source | states |
|---|---|---|
| `GoInts.ToU64` | process/block/metrics.go:35 | Go's `uint64(x)` of an `int`: unchanged when non-negative, otherwise `x + 2^64` |
| `GoInts.AddU64` | process/block/metrics.go:23 | a `uint64` `+=` is the exact sum whenever that sum fits in 64 bits |
| `DecimalText.Decimal` | process/block/metrics.go:89 | `%d` of a natural number is a non-empty digit string with no leading zero (except "0" itself) |
| `DecimalText.ParseDecimal` | process/block/metrics.go:89 | reading back the `%d` text of `n` gives `n` |
| `DecimalText.ParseLeadingZeros` | ntp/syncTime.go:116 | zero padding does not change the value a digit string denotes |
| `DecimalText.DecimalFits` | ntp/syncTime.go:116 | the `%d` text of `n` has at most `w` digits exactly when `n < 10^w` |
| `DecimalText.Padded` | ntp/syncTime.go:116 | `%.Nd`: empty for N = 0 and the value 0, otherwise the sign plus max(N, digit count) characters; a non-negative value reads back from the digits, a negative one from the digits after '-'; for N >= 1 a value in [0, 10^N) gives exactly N characters |
| `SyncTime.TruncDiv` | ntp/syncTime.go:88 | Go's `int64 / int64` by a positive count: the remainder has the dividend's sign and is smaller than the divisor |
| `SyncTime.TruncDivSymmetric` | ntp/syncTime.go:88 | truncation is symmetric: dividing `-a` gives minus the quotient of `a` |
| `SyncTime.TruncDivVersusFloor` | ntp/syncTime.go:88 | Go's quotient equals Dafny's floor division for a non-negative dividend or an exact division, and is one greater otherwise (so -7 / 2 is -3, not -4) |
| `SyncTime.TruncDivWithin` | ntp/syncTime.go:88 | a truncated quotient lies between any `lo`, `hi` with `lo*b <= a <= hi*b` |
| `SyncTime.Successes` | ntp/syncTime.go:76-85 | the offsets of the successful queries, in issue order, never more than the queries issued |
| `SyncTime.CycleMean` | ntp/syncTime.go:76-90 | a cycle publishes nothing exactly when every query failed; otherwise it publishes a value between the smallest and largest successful offsets |
| `SyncTime.NoSuccessIffAllFail` | ntp/syncTime.go:79-87 | the success count is zero exactly when every query returned an error |
| `SyncTime.SumAtLeast` | ntp/syncTime.go:84 | the sum of the successful offsets is at least their count times their minimum |
| `SyncTime.SumAtMost` | ntp/syncTime.go:84 | the sum of the successful offsets is at most their count times their maximum |
| `SyncTime.MeanWithinRange` | ntp/syncTime.go:84-88 | the truncated mean lies between the minimum and maximum successful offsets |
| `SyncTime.FailureIgnored` | ntp/syncTime.go:79-84 | a failed query anywhere in the cycle adds nothing to the successes, so neither to the sum nor to the count |
| `SyncTime.FailureIgnoredByMean` | ntp/syncTime.go:79-89 | a failed query anywhere in the cycle does not change the published offset |
| `SyncTime.JoinLength` | ntp/syncTime.go:116 | a rendered layout is as long as its fields plus one separator each |
| `SyncTime.JoinPiece` | ntp/syncTime.go:116 | in a rendered layout, each field's text and its separator sit at that field's start position |
| `SyncTime.TimePiecesStart` | ntp/syncTime.go:116 | with fitting fields, after the year (which starts at 0), the fields start at 5, 8, 11, 14, 17 and 20 |
| `SyncTime.FormatTime` | ntp/syncTime.go:115-119 | for a year of at most four digits and fields that fit two (nine for nanoseconds) digits: the text is 30 characters, with `-`,`-`,` `,`:`,`:`,`.` and a trailing space at fixed positions, and every field reads back unchanged |
| `SyncTime.SyncTime.constructor` | ntp/syncTime.go:55-57 | a new object has offset 0, the given sync period, and the NTP client installed |
| `SyncTime.SyncTime.Sync` | ntp/syncTime.go:71-92 | with a query installed: exactly 10 queries are issued, and the offset becomes the cycle's truncated mean, or keeps its old value if all queries failed. With no query: nothing is issued and nothing changes |
| `SyncTime.SyncTime.ClockOffset` | ntp/syncTime.go:95-101 | returns the offset currently published |
| `SyncTime.SyncTime.SetClockOffset` | ntp/syncTime.go:103-107 | the offset becomes the given value; period and query are unchanged |
| `SyncTime.SyncTime.CurrentTime` | ntp/syncTime.go:122-124 | the corrected time minus the local reading equals the published offset |
| `SyncTime.SyncTime.FormattedCurrentTime` | ntp/syncTime.go:110-112 | the text of the corrected time is 30 characters and reads back to the calendar fields of that time, whenever they fit the layout |
| `SyncTime.SuccessesAppend` | ntp/syncTime.go:76-85 | splitting the answers anywhere, the successes are those of the first part followed by those of the second: the aggregation keeps issue order and is independent of how the cycle is cut |
| `SyncTime.ScenarioSuccesses` | ntp/syncTime.go:79-84 | of the answers 50, -, -, 60, -, -, -, 70, -, - the successes are 50, 60, 70 |
| `SyncTime.ScenarioMean` | ntp/syncTime.go:76-89 | that cycle publishes 180 / 3 = 60 |
| `SyncTime.SyncScenario` | ntp/syncTime.go:55-124 | a new object has offset 0, and its corrected time is the local time. After the cycle above the offset is 60. After a cycle of ten failures it is still 60 |
| `BlockMetrics.StatusRecorder.constructor` | process/block/metrics.go:31-35 | a new recording handler holds no values and no increments |
| `BlockMetrics.StatusRecorder.SetUInt64Value` | process/block/metrics.go:31-35 | records the value for that metric; nothing else changes |
| `BlockMetrics.StatusRecorder.SetStringValue` | process/block/metrics.go:87-89 | records the text for that metric; nothing else changes |
| `BlockMetrics.StatusRecorder.Increment` | process/block/metrics.go:85 | adds one to that counter; nothing else changes |
| `BlockMetrics.SizeOrZero` | process/block/metrics.go:26-29 | an encoding's length when marshalling succeeded, 0 when it failed |
| `BlockMetrics.WrappedSumExact` | process/block/metrics.go:22-24 | while the true total fits in 64 bits, the wrapping `uint64` accumulator holds it exactly |
| `BlockMetrics.MiniBlockHeaderCountsTotal` | process/block/metrics.go:22-24 | the summed per-shard counts equal the number of miniblock headers across all shards |
| `BlockMetrics.TxHashCountsTotal` | process/block/metrics.go:46-47 | the summed per-miniblock counts equal the number of transaction hashes across the body |
| `BlockMetrics.EncodedSizesAllFail` | process/block/metrics.go:49-52 | a body none of whose miniblocks can be marshalled has size 0 |
| `BlockMetrics.CrossCheckText` | process/block/metrics.go:89 | the cross-check text starts with "meta ", and the rest is all digits that read back to the nonce |
| `BlockMetrics.GetMetricsFromMetaHeader` | process/block/metrics.go:12-36 | sets five values: header size (encoded length, or 0 when marshalling fails), `TxCount`, the total miniblock headers over `ShardInfo`, headers processed, and `uint64(headersCountInPool)`. Nothing else changes |
| `BlockMetrics.GetMetricsFromBlockBody` | process/block/metrics.go:38-57 | sets three values: the total transaction hashes, the number of miniblocks, and the sum of the encoded sizes of the miniblocks that marshal. Nothing else changes |
| `BlockMetrics.GetMetricsFromHeader` | process/block/metrics.go:59-75 | sets three values: header size (encoded length, or 0), `numTxWithDst` as the pool load, and `uint64(totalTx)` as processed transactions. Nothing else changes |
| `BlockMetrics.SaveMetricsForACommittedBlock` | process/block/metrics.go:77-90 | the accepted-blocks counter goes up by one exactly when `isInConsensus`. It sets the block hash, the final nonce, and "meta " followed by the decimal meta nonce |
| `BlockMetrics.EstimateRewardsForMetachain` | process/block/metrics.go:92-114 | if the node's key equals one of the keys, the counter goes up by exactly `numBlockHeaders` (when positive). Otherwise nothing changes |
| `Storer.StorerMock.constructor` | process/mock/storerMock.go:17-21 | a new store is empty |
| `Storer.StorerMock.Put` | process/mock/storerMock.go:29-35 | no error; the key maps to the value, all other keys are unchanged |
| `Storer.StorerMock.Get` | process/mock/storerMock.go:38-48 | a stored key gives its value without error; an absent key gives a not-found error and no value |
| `Storer.StorerMock.GetFromEpoch` | process/mock/storerMock.go:51-53 | behaves as `Get` whatever the epoch |
| `Storer.StorerMock.GetBulkFromEpoch` | process/mock/storerMock.go:56-67 | never an error; the result holds exactly the input keys that are stored, each with its stored value |
| `Storer.StorerMock.HasInEpoch` | process/mock/storerMock.go:70-72 | always a not-implemented error; the store is not changed |
| `Storer.StorerMock.SearchFirst` | process/mock/storerMock.go:75-77 | always a not-implemented error; the store is not changed |
| `Storer.StorerMock.Has` | process/mock/storerMock.go:80-82 | always a not-implemented error; the store is not changed |
| `Storer.StorerMock.Remove` | process/mock/storerMock.go:85-92 | no error; the key is no longer stored, other keys are unchanged, and removing an absent key changes nothing |
| `Storer.StoreRoundTrip` | process/mock/storerMock.go:17-91 | from a new store: a value put is read back, another key keeps its value, and a removed key is not found, also after a second removal |

## Left out

- `StartSync` (ntp/syncTime.go:62-67): a loop that never returns, alternating `sync` with `time.Sleep`. It calls `Sync` and does nothing else worth stating.
- Locking: the `sync.RWMutex` of `syncTime` and the `sync.Mutex` of `StorerMock` are concurrency control. The guarded state is a plain field here. `CurrentTime` reads `clockOffset` without taking the lock (ntp/syncTime.go:123), so it races with `setClockOffset`. The model, being sequential, does not show this race.
- `queryNTP`, the NTP client library and `NewNTPOptions` (ntp/syncTime.go:25-44): the network exchange of RFC 5905 and its placeholder configuration. They are replaced by the sequence of answers given to `Sync`.
- `time.Now` and Go's calendar decomposition: "now" is a parameter, and the calendar is a function parameter of `FormattedCurrentTime`.
- `SyncTime.SyncTime.Sync`: does not model `int64` overflow of the offset sum (ntp/syncTime.go:84); offsets are unbounded integers.
- `SyncTime.FormatTime`: states the layout only for fields that fit their widths; for wider or negative fields `FormatTime` still renders them as Go does, but the 30-character statement does not apply.
- `BlockMetrics.GetMetricsFromBlockBody`: `totalTxCount` is a Go `int` later converted with `uint64()`; the model accumulates it directly as a wrapping `uint64`, which gives the same bits for the non-negative lengths added.
- Slice lengths are unbounded `nat`s in the model, while in Go they are below 2^63. The accumulators still wrap modulo 2^64 as Go's do.
- The marshaller and `AppStatusHandler` implementations are foreign interfaces. They are replaced by a length function and the recording handler. The block entities keep the fields the metrics read and a few identifying fields (nonce, round, root hash, miniblock hash) on which the encoding length may depend; the metrics never read the latter.
- The text of the not-found error (the key in base64, process/mock/storerMock.go:44) is not modelled; the error carries the key instead.
- The no-op methods `Close`, `ClearCache`, `DestroyUnit`, `RangeKeys` and `IsInterfaceNil` of `StorerMock` (process/mock/storerMock.go:24-26, 95-110) are not modelled.
- `Put` stores the caller's slice itself, so a later change to that slice by the caller would show in the store. Values here are immutable sequences, so this aliasing is not modelled.

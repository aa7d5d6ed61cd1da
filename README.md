# mod_limits admission gate, modelled in Dafny

mod_limits is an Apache HTTP Server module that refuses requests with 503
(Service Unavailable) based on three signals:

- the number of scoreboard slots serving the same client address;
- the number of slots serving the same virtual host;
- the recent one-minute load average.

This project models the core of `mod_limits.c` and proves properties of it:

- **`limits_handler`.** It declines sub-requests. It refreshes the cached load sample at most once per `checkavg` seconds, and rejects when the sample exceeds `loadavg`. Then it walks the scoreboard row by row, slot by slot, counting slots for the requester's address and its vhost. It stops at the first slot where an enabled count exceeds its limit, testing the address before the vhost at each slot.
- **`create_dir_config`.** It builds the record with no limits and a 5 second refresh interval.
- **The five directive parsers.** `cfg_perip`, `cfg_pervhost`, `cfg_peruid`, `cfg_loadavg` and `cfg_checkavg` each write one field of the record.

Layout:

- `wrappers.dfy`: the `Option` datatype.
- `census.dfy`: scoreboard slots and the scoreboard grid, with the order in which the scan visits them (`Flatten`). Also the vhost comparison, the per-dimension counts, and the closed form of admission, `WithinLimits`.
- `verdicts.dfy`: the verdicts, and `IsScanVerdict`, the relation a scan of the scoreboard must satisfy. Also the lemmas about that relation: it is a function; it admits iff `WithinLimits`; it rejects at the first breach; a limit of 0 disables its dimension.
- `config.dfy`: the record. `ConfigState` is its value and the class `LimitsConfig` holds it in place, with the constructor (`create_dir_config`) and the five parsers. It also holds the directive argument rules and the load-sample refresh rule `Refreshed`.
- `handler.dfy`: `ScanScoreboard`, the nested scoreboard loop, proved against `IsScanVerdict`. Also `LimitsHandler`, which updates the record's cache and the request's environment in place.

Modelling choices:

- **The `vhost` field.** The record in `mod_limits.h:51-58` has no `vhost` field, yet `mod_limits.c:43` and `mod_limits.c:153` use `limits->vhost`. The model's record has the field.
- **Vhost comparison.** Vhosts are matched as the Apache 2.x branch does, with `strncmp(…, 31)` (`mod_limits.c:154`). The predicate is `VhostMatch`: the first 31 characters agree, and a name shorter than that must be equal. The full `strcmp` of the 1.3 branch (`mod_limits.c:197`) is the variant predicate `VhostEqual`. `EqualNamesMatch` proves that it implies `VhostMatch`. `SharedPrefixNamesMatch` shows that different hostnames with a common 31-character prefix are counted as one vhost.
- **Integer directives.** Their parsers take the `long` that `strtol` returned. The model follows the C conversions exactly, with LP64 sizes (64-bit `long`, 32-bit `unsigned int`): the value is held in an `unsigned long` (modulo 2^64), refused only when it equals `LONG_MAX`, and stored in an `unsigned int` field (modulo 2^32).
- **`cfg_loadavg`.** It takes the value `strtod` returned, as a `real`.
- **External inputs.** The clock reading `now`, the result of `getloadavg` (`Option<real>`, `None` on failure) and the scoreboard are parameters.

Three behaviours of the code a reader might not expect:

- **No shortcut when both connection limits are 0.** The code walks the scoreboard anyway; neither counter changes and the scan admits (`DisabledDimensionNeverRejects`).
- **Unparsable integer arguments are accepted.** No end pointer is checked, so text `strtol` cannot read yields 0, and that value is accepted (`ZeroArgumentAccepted`). What 0 means depends on the directive: for LimitMaxConnsPerIP and LimitMaxConnsPerVhost it disables the limit; for LimitMaxConnsPerUid it is stored and, like any value there, never enforced; for CheckLoadInterval it makes the handler query the load again on every request made one second or more after the last sample.
- **Only the overflow sentinel is refused.** The underflow sentinel `LONG_MIN` and negative values are accepted and wrap (`NegativeArgumentsWrap`).

## Model

| member | source | states |
|---|---|---|
| `Census.Count` | mod_limits.c:138-155 | the number of matching slots among those scanned never exceeds the number of slots scanned |
| `Census.RunningCountSnoc` | mod_limits.c:131-139 | scanning one more slot raises a counter by one exactly when its dimension is enabled and the slot matches; a dimension breaches exactly when it is enabled and its counter exceeds its limit |
| `Census.CountMonotone` | mod_limits.c:126-155 | the counters never decrease as the scan advances |
| `Census.WithinIffNoEarlierBreach` | mod_limits.c:139-166 | the slots scanned so far are within the limits exactly when no earlier slot pushed an enabled count over its limit |
| `Census.WithinIffNotOver` | mod_limits.c:139-156 | being within the limits is the absence of a breach on either dimension |
| `Census.NextSlotPrefix` | mod_limits.c:126-127 | the slots visited before and up to slot j of row i are the first slots of the row-by-row scan order |
| `Census.EqualNamesMatch` | mod_limits.c:197 | the full comparison of the 1.3 branch implies the bounded 31-character match |
| `Census.ShortNameMatchIsEquality` | mod_limits.c:154 | when either hostname is shorter than 31 characters, the bounded match is plain equality |
| `Census.LongNamesMatchOnPrefix` | mod_limits.c:154 | two hostnames of at least 31 characters match when their first 31 characters agree |
| `Census.SharedPrefixNamesMatch` | mod_limits.c:154 | different hostnames sharing a 31-character prefix match, so they are counted as one vhost |
| `Verdicts.StopAtNextSlot` | mod_limits.c:139-166 | a scan within the limits so far whose counters go over at the next slot rejects at that slot, on the address if its count is over and otherwise on the vhost |
| `Verdicts.AdmitIffWithinLimits` | mod_limits.c:124-170 | the scan admits exactly when every enabled dimension's total count over the whole scoreboard is within its limit |
| `Verdicts.ScanVerdictUnique` | mod_limits.c:126-170 | the scan relation determines one verdict for every scoreboard, request and limits |
| `Verdicts.RejectIsFirstBreach` | mod_limits.c:139-166 | a rejection is at the first slot, in scan order, where an enabled count goes over its limit |
| `Verdicts.RejectCountIsLimitPlusOne` | mod_limits.c:138-156 | the rejecting slot itself matches, and the reported count is exactly the limit plus one |
| `Verdicts.DisabledDimensionNeverRejects` | mod_limits.c:131 | a limit of 0 never rejects on its dimension, and with both limits 0 the scan admits |
| `Verdicts.TooManyFromAddressRejectsOnIp` | mod_limits.c:131-150 | with only the address limit set, more slots from the address than the limit means an address rejection at count limit + 1 |
| `Verdicts.ThreeFromOneAddressScenario` | mod_limits.c:126-150 | three slots from the requester's address over two rows, against a limit of 2, reject at the fourth slot with count 3 and limit 2 |
| `Config.CountArgument` | mod_limits.c:220-223 | an integer directive is refused iff strtol returned LONG_MAX; otherwise the parsed value modulo 2^32 is stored, so values below 2^32 are stored unchanged |
| `Config.LoadArgument` | mod_limits.c:250-253 | the load directive is refused iff the parsed value is negative; otherwise the value is stored and is non-negative |
| `Config.ZeroArgumentAccepted` | mod_limits.c:220-224 | a parse result of 0 (what unreadable text gives) is accepted for every directive and stored as 0, while LONG_MAX is refused |
| `Config.NegativeArgumentsWrap` | mod_limits.c:220-223 | -1 stores 2^32 - 1 and LONG_MIN stores 0: neither is refused |
| `Config.Refreshed` | mod_limits.c:94-99 | only the cached sample and its time change, and only when the load limit is set, more than checkavg seconds have passed and the query succeeds; the sample time never decreases; after a successful query the sample is at most checkavg seconds old |
| `Config.NoLoadLimitNoRefresh` | mod_limits.c:94 | with no load limit the cache is not touched and the load gate passes |
| `Config.SamplingWindow` | mod_limits.c:97-99 | with a 5 second interval and a sample at t = 0, t = 3 reuses the sample and t = 6 takes the query's result |
| `Config.HighCachedLoadScenario` | mod_limits.c:101-121 | a load limit of 1.5 and a cached sample of 2.0 not yet due for refresh make the load gate reject |
| `Config.LimitsConfig.constructor` | mod_limits.c:33-51 | ip, uid, vhost and loadavg are 0 and checkavg is 5; the sample and its time are the query's result and now when the query succeeds, and 0 otherwise |
| `Config.LimitsConfig.SetPerIp` | mod_limits.c:218-225 | refuses with the overflow message or stores the converted value in ip; nothing else changes and loadavg stays non-negative |
| `Config.LimitsConfig.SetPerVhost` | mod_limits.c:228-235 | refuses with the overflow message or stores the converted value in vhost; nothing else changes and loadavg stays non-negative |
| `Config.LimitsConfig.SetPerUid` | mod_limits.c:238-245 | refuses with the overflow message or stores the converted value in uid; nothing else changes and loadavg stays non-negative |
| `Config.LimitsConfig.SetLoadAvg` | mod_limits.c:248-255 | refuses negative values with its message or stores the value in loadavg; nothing else changes and loadavg stays non-negative |
| `Config.LimitsConfig.SetCheckAvg` | mod_limits.c:258-265 | refuses with the overflow message or stores the converted value in checkavg; nothing else changes and loadavg stays non-negative |
| `Handler.Status` | mod_limits.c:72-214 | DECLINED exactly for a declined sub-request, OK exactly for admission, 503 exactly for any rejection |
| `Handler.ScanScoreboard` | mod_limits.c:124-170 | the nested scoreboard walk returns the verdict the scan relation prescribes; its loop invariants keep each counter equal to the matching slots seen so far (0 when disabled) and the slots seen within the limits |
| `Handler.LimitsHandler` | mod_limits.c:53-215 | a sub-request is declined with nothing changed; otherwise the cache follows the refresh rule, an over-limit load rejects whatever the scoreboard holds, and otherwise the verdict is the scan's; OK exactly when the load gate passes and the limits hold; LIMITED=1 is set exactly on a rejection; the load limit stays non-negative |

## Left out

- Logging. The `ap_log_error` calls only write log lines and do not affect the verdict.
- Apache plumbing: module registration, the directive table, hook registration and `limits_init`. `server_limit` and `thread_limit` are the dimensions of the scoreboard given to the handler.
- The digit-level behaviour of `strtol` and `strtod` belongs to libc. The parsers take the value those functions returned.
- Floating point. Load values are only compared, so they are `real`. A NaN from `strtod` is not modelled.
- The two `time(NULL)` calls of the handler are read as one clock value `now`.
- When `getloadavg` fails, the cached sample is taken to be unchanged.
- Strings are assumed to contain no NUL character, so `strcmp`/`strncmp` equal to 0 becomes equality of sequences.
- The C `int` counters are unbounded integers. They are bounded by the scoreboard size and cannot overflow in practice.
- The per-user limit is parsed and stored but never enforced, as in the code.
- Concurrency. Races between workers refreshing the shared cache are outside this sequential model.
- The Apache 1.3 scan loop is not modelled separately. Its only difference, the full comparison of vhost names, is the predicate `VhostEqual`.
- Type sizes other than LP64. The integer conversions of the parsers and the comparison `time(NULL) - lastavg > checkavg` are modelled with a 64-bit `long` and `time_t` and a 32-bit `unsigned int`. With a 32-bit `long`, `strtol` would saturate "4294967296" to `LONG_MAX` and the directive would be refused, where `CountArgument` stores 0.
- The request environment is a case-sensitive map. `r->subprocess_env` is an APR table whose keys match without regard to case, so an existing "limited" entry would be overwritten by `apr_table_setn`, whereas the map keeps it beside the new "LIMITED". The verdict does not depend on this.

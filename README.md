# Crop-insurance payout agent: a verified model of its decision logic

The agent watches each farmer's daily weather and soil readings. It decides
whether the farmer is in drought, and if so it authorises one compensating
payout. It never pays twice. It also forecasts a few days of rainfall and turns
that forecast into a drought-risk percentage.

This Dafny project models the three source files that hold that logic and proves
what they promise.

- `observations.dfy` (module `Observations`): the observation record, and the
  farmer filter and date sort that `check_drought` starts with
  (`core/drought_logic.py`, line 9).
- `drought.dfy` (module `Drought`): the drought classifier `check_drought`. It
  has the "No data" case, the soil-moisture short-circuit on the latest day, the
  `is_dry` column and the streak loop over the last `consecutive_days` rows. The
  method `CheckDrought` is proved equal to `Classify`, a declarative statement
  of the verdict: "the last `n` rows exist and are all dry". The lemmas about
  `Classify` give the properties the classifier promises.
- `payout.dfy` (module `Payout`): the class `PayoutEngine` with its ledger of
  `PayoutRecord`s. `TriggerPayout` does the duplicate check and then the append.
  It is tied to the function `Authorize`. The lemmas about `Authorize` state the
  one-record-per-farmer invariant, the append-only history and the
  success-then-blocked behaviour of a repeated call.
- `rainfall.dfy` (module `Rainfall`): the class `RainfallPredictor`.
  `PredictNextDays` is the closed-loop simulation, proved equal to the
  recursive `Forecast`. `Trajectory` lists the simulated states, and lemmas
  show that moisture stays in [10, 80] after every step. The module also has
  the risk scorer `CalculateDroughtRisk` and `Round2`, used for `round(x, 2)`.

Inputs from outside the core become parameters:

- The random temperature changes of the forecast are a sequence `deltas`.
- The fitted regression is an arbitrary function `(real, real) -> real`.
- The least-squares fit is a function parameter of `Train`.
- `uuid.uuid4().hex` and the formatted timestamp are arguments of `TriggerPayout`.
- Python's rendering of a float inside a reason string is a parameter `showReal`
  of `Verdict.Reason`.

Three behaviours of the code worth knowing:

- `get_ledger` returns the engine's own DataFrame, not a copy. The model
  returns a Dafny sequence, which is a value and so always a snapshot.
- The docstring of `trigger_payout` (core/payout_engine.py, line 11) speaks of a
  unique transaction id, but the code keeps only 8 hex digits of a random uuid,
  so two payouts may share an id. The model proves that the id is `TXN-`
  followed by the uuid's first 8 digits upper-cased, and that uuids differing
  in those digits give different ids (`DistinctPrefixesGiveDistinctIds`).
- `consecutive_days` may be zero or negative in the code. Then `tail` yields a
  window that the streak never falls short of, so any farmer with data and fine
  moisture gets a drought verdict. `NonPositiveWindowIsDrought` states this.

## Model

| member | source | states |
|---|---|---|
| Observations.FarmerRows | core/drought_logic.py:9 | the `Farmer ID` mask keeps a subsequence of the rows, never more rows than the input |
| Observations.FarmerRowsCount | core/drought_logic.py:9 | the farmer filter keeps every observation of the farmer exactly as often as it occurs and drops all others |
| Observations.FarmerRowsAppend | core/drought_logic.py:9 | filtering a concatenation is the concatenation of the filtered parts |
| Observations.FarmerRowsEmpty | core/drought_logic.py:9-10 | the farmer's slice is empty exactly when no observation carries the farmer's id |
| Observations.InsertByDate | core/drought_logic.py:9 | inserting into a date-sorted slice keeps it sorted and adds exactly that row |
| Observations.SortByDate | core/drought_logic.py:9 | the sort returns a date-ascending permutation of its input |
| Observations.History | core/drought_logic.py:9 | the farmer's slice is sorted by date and holds the same rows as the filter |
| Observations.LatestHasGreatestDate | core/drought_logic.py:9-14 | the last row of the slice is one of the farmer's observations, and none of theirs has a later date |
| Drought.TrailingRun | core/drought_logic.py:22-27 | the count of dry days ending the window, never more than the window's length |
| Drought.TrailingRunIsMaximalSuffix | core/drought_logic.py:22-27 | the trailing-run count is at most the length, covers only `true` items, and the item just before it is `false` |
| Drought.TrailingRunSnoc | core/drought_logic.py:24-27 | a dry day adds one to the run and a wet day sets it back to zero |
| Drought.TrailingRunFull | core/drought_logic.py:22-29 | the run covers the whole window exactly when every day in it is dry |
| Drought.Verdict.Reason | core/drought_logic.py:11-32 | "No data" and "Normal conditions" for the two non-drought verdicts, and a drought's text is never one of those two |
| Drought.VerdictTuples | core/drought_logic.py:10-32 | the answers `(False, "No data")` and `(False, "Normal conditions")`, and the moisture and rainfall verdicts report a drought |
| Drought.Tail | core/drought_logic.py:23 | `tail(n)` is a suffix of length `min(n, len)` for `n >= 0`, and all but the first `-n` items for negative `n` |
| Drought.DryFlags | core/drought_logic.py:19 | the `is_dry` column marks exactly the rows whose rain is strictly below the threshold |
| Drought.ScanDryStreak | core/drought_logic.py:22-27 | the loop ends with the trailing run of dry days: at most the window length, all those days dry, the one before wet |
| Drought.DryStreakIsTrailingDryRun | core/drought_logic.py:22-27 | the final counter is at most `min(consecutive_days, row count)` and is the trailing run of dry rows in the window |
| Drought.WindowStreakMatchesDryWindow | core/drought_logic.py:22-29 | the streak reaches `consecutive_days` exactly when the last `consecutive_days` rows exist and are all dry |
| Drought.ClassifyWhenMoistureFine | core/drought_logic.py:14-32 | with the latest moisture at or above the critical level, only the dry window decides between a dry-streak verdict and "Normal conditions" |
| Drought.CheckDrought | core/drought_logic.py:1-32 | the verdict is "No data", then a moisture breach, then a dry streak of the last `n` rows, else normal (`Classify`) |
| Drought.NoDataIffNoRows | core/drought_logic.py:9-11 | the verdict is "No data" exactly when no observation belongs to the farmer |
| Drought.MoistureBreachComesFirst | core/drought_logic.py:14-16 | a latest moisture strictly below the critical level gives a drought, reported as a moisture breach whatever the rainfall |
| Drought.DryStreakIffWindowDry | core/drought_logic.py:22-32 | with moisture fine and `n >= 1`, drought holds exactly when there are at least `n` rows and the last `n` are all dry; otherwise "Normal conditions" |
| Drought.WetDayInWindowIsNormal | core/drought_logic.py:26-32 | one wet day among the last `n` rows gives "Normal conditions", whatever came before |
| Drought.ShortHistoryIsNormal | core/drought_logic.py:23-32 | with moisture fine, fewer rows than `n` always give "Normal conditions" |
| Drought.NonPositiveWindowIsDrought | core/drought_logic.py:23-30 | a window of zero or fewer days is always a drought once the farmer has rows |
| Drought.OtherFarmersIrrelevant | core/drought_logic.py:9 | inserting another farmer's observation anywhere leaves the verdict unchanged |
| Payout.RecentPayouts | core/payout_engine.py:16-18 | the mask keeps exactly the farmer's records, and is empty exactly when the farmer has none |
| Payout.TransactionId | core/payout_engine.py:22 | the id is `TXN-` followed by the uuid's first 8 digits, each upper-cased, so 8 upper-case hexadecimal digits |
| Payout.DistinctPrefixesGiveDistinctIds | core/payout_engine.py:11-22 | two uuids whose first 8 digits differ give different transaction ids |
| Payout.UpperCharInjective | core/payout_engine.py:22 | upper-casing never makes two different lower-case hex digits equal |
| Payout.Authorize | core/payout_engine.py:15-34 | a call succeeds exactly when the farmer has no record, and the ledger grows by one record on success and by none on refusal |
| Payout.AuthorizeRefusesExactlyDuplicates | core/payout_engine.py:15-20 | a call is refused exactly when the farmer already has a record; a refusal carries the duplicate message and leaves the ledger unchanged |
| Payout.AuthorizeAppendsOneRecord | core/payout_engine.py:22-34 | success appends exactly one record at the end, keeps all earlier records, and stores the returned id with the given farmer, amount, reason and timestamp |
| Payout.AuthorizeIsAppendOnly | core/payout_engine.py:15-34 | the old ledger is always a prefix of the new one |
| Payout.AuthorizePreservesOnePerFarmer | core/payout_engine.py:15-33 | "no two records share a farmer" is preserved by every call |
| Payout.AuthorizeTwiceForSameFarmer | core/payout_engine.py:15-34 | a farmer without a record is paid on the first call; the second call is always blocked and leaves the ledger length as it was |
| Payout.PayoutEngine.constructor | core/payout_engine.py:5-7 | a new engine has an empty ledger |
| Payout.PayoutEngine.TriggerPayout | core/payout_engine.py:9-34 | success exactly when the farmer has no record; on success the ledger gains one record at the end; on refusal the message is returned and nothing changes; amount defaults to 5000; the invariant is kept |
| Payout.PayoutEngine.GetLedger | core/payout_engine.py:36-37 | the ledger itself, in the order the payouts were made |
| Rainfall.Round2 | ai/rainfall_predictor.py:36 | the result is a whole number of hundredths within 0.005 of the input, and is non-negative for a non-negative input |
| Rainfall.Round2Monotone | ai/rainfall_predictor.py:54 | rounding preserves order |
| Rainfall.Round2OfCents | ai/rainfall_predictor.py:54 | a whole number of hundredths rounds to itself |
| Rainfall.CountBelow | ai/rainfall_predictor.py:52 | the count of values below the threshold is at most the length |
| Rainfall.CountBelowAppend | ai/rainfall_predictor.py:52 | the count over a concatenation is the sum of the counts |
| Rainfall.CountBelowCountsIndices | ai/rainfall_predictor.py:52 | the count is the number of positions whose value is below the threshold |
| Rainfall.CountBelowAll | ai/rainfall_predictor.py:52 | the count equals the length exactly when every value is below the threshold |
| Rainfall.CountBelowNone | ai/rainfall_predictor.py:52 | the count is zero exactly when no value is below the threshold |
| Rainfall.CalculateDroughtRisk | ai/rainfall_predictor.py:45-54 | 0 on an empty list; within 0.005 of count/length × 100; always in [0, 100]; 100 when all values are below; 0 when none is |
| Rainfall.DroughtRiskMonotone | ai/rainfall_predictor.py:52-54 | for forecasts of equal length, more days below the threshold never lower the risk |
| Rainfall.ThreeOfFiveIsSixty | ai/rainfall_predictor.py:52-54 | three of five values below the threshold give exactly 60 |
| Rainfall.Clip | ai/rainfall_predictor.py:41 | `np.clip` leaves a value inside the bounds unchanged and sends one below or above to that bound: the nearest point of the interval |
| Rainfall.PredictedRain | ai/rainfall_predictor.py:34-35 | the day's rain is the model's value, or 0 when that is negative: never negative, never below the model's value |
| Rainfall.NextConditions | ai/rainfall_predictor.py:39-41 | the next day's temperature is the perturbed one; its moisture is the moved value when that lies in [10, 80], else the nearer bound |
| Rainfall.Trajectory | ai/rainfall_predictor.py:30-41 | one state per day plus the final one, starting from the current conditions |
| Rainfall.Forecast | ai/rainfall_predictor.py:33-36 | one value per simulated day, each non-negative |
| Rainfall.TrajectoryMoistureBounded | ai/rainfall_predictor.py:40-41 | after every simulated step the moisture lies in [10, 80] |
| Rainfall.ForecastFollowsTrajectory | ai/rainfall_predictor.py:34-41 | day `k` is the rounded clamped prediction at state `k`; the next state has the perturbed temperature, and its moisture is moved by the unrounded prediction and that new temperature, then clipped to [10, 80] |
| Rainfall.Features | ai/rainfall_predictor.py:16 | one pair per training row, in order, holding that row's temperature and soil moisture |
| Rainfall.Targets | ai/rainfall_predictor.py:17 | one target per training row, in order, holding that row's rainfall |
| Rainfall.RainfallPredictor.constructor | ai/rainfall_predictor.py:5-7 | a new predictor is untrained, with an unfitted model |
| Rainfall.RainfallPredictor.Train | ai/rainfall_predictor.py:9-20 | afterwards the predictor is trained, with the model fitted on every row's features and targets |
| Rainfall.RainfallPredictor.PredictNextDays | ai/rainfall_predictor.py:22-43 | untrained gives `[]`; trained gives exactly `days` values (none for `days <= 0`), all non-negative, equal to `Forecast` on the first `days` temperature changes |

## Left out

- app.py is not part of this model. It holds the Streamlit layout, session state, charts, the one-second delay, and the wiring that passes a drought verdict's reason to `trigger_payout`.
- data/weather_generator.py is not part of this model. The synthetic observations are an arbitrary input sequence here.
- core/notification.py is not part of this model. It is a single message template.
- The least-squares fit and the prediction of scikit-learn's `LinearRegression` are left out as a foreign library. The fit is a function parameter of `Train`, and a fitted model is any function of temperature and moisture. A fit that raises on bad input is not modelled.
- `uuid.uuid4()` and `pd.Timestamp.now()` are left out as sources of fresh values. They are arguments of `TriggerPayout`. Transaction ids are distinct only when the uuids' first 8 digits are. Nothing is claimed about how often random uuids collide there.
- `np.random.uniform(-1, 1)` is left out as a random source. Its draws are the `deltas` argument. No property needs their bound, so none is required.
- Payout.PayoutEngine.GetLedger: its contract only says that it returns the ledger. Insertion order follows from `TriggerPayout`'s contract. The aliasing of the returned DataFrame is not modelled, because a Dafny sequence is a value.
- Rainfall.Round2: it rounds an exact real to the nearest hundredth, halves to even. Python's `round` on a binary float can differ near a half, e.g. 2.675 rounds to 2.67, and that is not modelled.
- Floating point is left out: all readings are exact reals. NaN readings, which make every comparison in the classifier false, are not modelled.
- Observations.SortByDate: the model sorts stably (an insertion sort). pandas' default sort is not stable, so rows with equal dates may come out in another order. That order does not matter when dates within one farmer's slice are distinct, as in the generated data. With equal dates, "the latest row" is still one of the rows with the greatest date (`LatestHasGreatestDate`).
- The text of the reason strings is modelled in `Verdict.Reason`, but the verdict itself is a datatype. Python's float formatting inside the strings is the parameter `showReal`.
- Concurrency is left out. The code runs in one thread, so the check-then-append in `trigger_payout` is not raced.

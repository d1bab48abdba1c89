# Car-following acceleration laws of the L310 Flow experiments

This project models the per-vehicle acceleration laws in
`flow/flow/controllers/car_following_models.py`. Once per simulation tick,
each law reads the simulator's view of the vehicles and returns one
acceleration command. The controllers modelled are:

- `BaselineController`: a linear law. It adds the speed difference to the leader when the leader is closer than 40 units.
- `IDMController`: the Intelligent Driver Model, with the headway floored at `1e-3`.
- `SimCarFollowingController`: returns `None`.
- `ConsensusController`: loops over the whole fleet `idm_0 .. idm_{n-1}` and averages the headway, speed and acceleration differences over `n - 1`.
- `ConsensusFailureController`: averages headway, speed and acceleration differences over a cached list of the 20 nearest vehicles. Unlike the fleet law, it subtracts the neighbours' signed accelerations, with no `abs`. It keeps a call counter and rebuilds the cache whenever `counter % update_interval == 0`.
- `FigureEightController`: uses the same cache, limited to 15 entries. It has only a headway term with the fixed gain 0.006, plus a bias chosen by a "parity" test on the vehicle's id.

The kernel the laws query is modelled as an immutable snapshot (`Kinematics.Snapshot`). It holds:

- the ids in `get_ids()` order;
- a map from id to speed, previous speed, headway, position, 2D position and leader;
- the tick length `sim_step > 0`.

Python exceptions are modelled as values: `Result.Err(ZeroDivisionError | IndexError | ValueError)`. All quantities are `real`.

Square roots are abstracted:

- `sqrt(a*b)` in the IDM is a parameter `sqrtAB > 0`, with `sqrtAB * sqrtAB == a * b` when `a * b > 0`. Without a leader the root is never taken. With a leader and `a * b < 0`, numpy's root is NaN, `max(0, nan)` is 0, and `s_star` is `s0`. With a leader and `a * b == 0` the root is 0: for `a, b >= 0` (a floating-point product of `+0.0`), a non-positive `v*(v - lead_vel)` gives `-inf` or NaN, `max` drops it, and `s_star` is `s0` again. The model follows both. A product of `-0.0` (one of `a`, `b` negative, the other zero) gives a root of `-0.0`, which flips the infinities; see "## Left out".
- The neighbour sort uses squared 2D distance instead of `np.linalg.norm`. `NeighbourCache.NormOrderAgrees` proves the two keys order any two vehicles the same way. `NeighbourCache.NormKeySortsAlike` lifts this to lists: a list is in stable order by the norm exactly when it is in stable order by the squared distance.

The two stateful controllers are classes with fields `counter` and `consensusInfo`. Each `GetAccel` method is proved equal to a pure `Tick` function of the old state and the snapshot. The properties are then proved about `Tick`.

## Behaviour of the code worth knowing

- **Fleet consensus and self.** The fleet loops run over all of `idm_0 .. idm_{n-1}`, the vehicle itself included, while the sums are divided by `n - 1`. Self adds nothing to the headway and speed sums (`Consensus.SelfContribution`). It does add `acc - abs(acc)` to the acceleration sum, because `abs` is applied only to the other vehicles' accelerations, never to self's own `acc`. A fleet moving in lockstep therefore gets the bare self-term for a non-negative common acceleration (`Consensus.UniformFleetGivesSelfTerm`). When it decelerates, the acceleration sum is `2*n*acc`, and the command leaves the self-term whenever `a` and `c_acceleration` are non-zero (`Consensus.DeceleratingUniformFleetKeepsAccelTerm`). With the default `c_acceleration = 0`, or with `a = 0`, that sum is multiplied by 0 and the decelerating fleet still gets the bare self-term.
- **Signed accelerations in the cached law.** `ConsensusFailureController` subtracts the cached neighbours' signed accelerations, with no `abs`.
- **FigureEight parity bias.** The bias is `-.005 if carid % 1 else +.005`, which suggests an alternating bias. But `carid % 1` is 0 for every integer, so every vehicle gets `+0.005` (`FigureEight.ParityBias`). Two vehicles whose ids parse therefore receive the same command when they have the same speed, headway and cache (`FigureEight.ParityIsIrrelevant`).
- **Counter moves only on success.** The counter is incremented only when the command is computed. A call that raises ZeroDivisionError (empty cache, `v0 == 0`) or fails to parse the id leaves the counter unchanged. The rebuilt cache is kept, because it was assigned before the failure.
- **Empty cache.** The cache is empty after a rebuild when the vehicle is alone or the neighbour count is 0, and every such call fails (`ConsensusFailure.NoNeighboursFails`).
- **Baseline leader distance.** The distance to the leader is `norm(lp - p)` of two scalar positions along the road, i.e. `abs(lp - p)`. It is not a 2D Euclidean distance.

## Model

| member | source | states |
|---|---|---|
| Kinematics.GetVehicleAccel | flow/flow/controllers/car_following_models.py:267-270 | `(v - pv)/sim_step`: times the tick length it is the speed change, and it is non-negative exactly when the speed did not drop |
| VehicleIds.Decimal | flow/flow/controllers/car_following_models.py:177 | the `str(k)` in `f'idm_{k}'` is a non-empty run of ASCII digits with no `_` |
| VehicleIds.ParseInt | flow/flow/controllers/car_following_models.py:432 | `int(t)`: fails on the empty text; a plain digit string reads as its decimal value |
| VehicleIds.SecondField | flow/flow/controllers/car_following_models.py:432 | `split('_')[1]` is missing exactly when the id has no `_`, and holds no `_` itself |
| VehicleIds.CarIndex | flow/flow/controllers/car_following_models.py:432 | `int(id.split('_')[1])` raises IndexError exactly when the id has no `_`; any other failure is a ValueError |
| VehicleIds.DecimalValue | flow/flow/controllers/car_following_models.py:177 | reading back the decimal rendering of `k` gives `k` |
| VehicleIds.CarIndexRoundTrip | flow/flow/controllers/car_following_models.py:432 | for any prefix without `_`, the index read back from `<prefix>_<k>` is `k` |
| VehicleIds.IdmIdIndex | flow/flow/controllers/car_following_models.py:177 | the fleet id `idm_<k>` reads back as index `k` |
| Baseline.Slowing | flow/flow/controllers/car_following_models.py:98-101 | `v - lv` when a leader exists and is closer than 40 along the road, 0 otherwise |
| Baseline.GetAccel | flow/flow/controllers/car_following_models.py:69-110 | ZeroDivisionError exactly when `v0 == 0`; otherwise `a*(1 - v/v0)` without a leader in range, and `a*((1 - v/v0) + (v - lv))` with one |
| Baseline.SlowerLeaderInRangeRaisesCommand | flow/flow/controllers/car_following_models.py:96-103 | with `a > 0` and a leader in range, the command exceeds the free-road value exactly when the leader is slower |
| SimCarFollowing.GetAccel | flow/flow/controllers/car_following_models.py:541-543 | always `None` |
| Idm.FloorHeadway | flow/flow/controllers/car_following_models.py:516-518 | the floored headway is at least `1e-3` in size; it is `h` when `abs(h) >= 1e-3`, else `1e-3` |
| Idm.LeadSpeed | flow/flow/controllers/car_following_models.py:520-523 | there is no leader speed exactly when the leader is `None` or `''` |
| Idm.DesiredGap | flow/flow/controllers/car_following_models.py:520-526 | `s_star` is 0 without a leader. With one it is `s0` when `max(0, ...)` drops a NaN or `-inf` dynamic part (`a*b < 0`, or `a*b == 0` with `v*(v - lead_vel) <= 0`), and otherwise the larger of `s0` and `s0 + v*T + v*(v - lead_vel)/(2*sqrt(a*b))` |
| Idm.Law | flow/flow/controllers/car_following_models.py:516-528 | ZeroDivisionError exactly when `v0 == 0` |
| Idm.GetAccel | flow/flow/controllers/car_following_models.py:510-528 | fails exactly when `v0 == 0`; without a leader it equals the free-road value `a*(1 - (v/v0)^delta)`; with `a >= 0` it never exceeds it |
| Idm.FreeRoadBound | flow/flow/controllers/car_following_models.py:520-528 | the interaction term `(s_star/h)^2` only ever lowers the command when `a >= 0`, and is absent without a leader |
| Idm.FreeRoadIffNoDesiredGap | flow/flow/controllers/car_following_models.py:520-528 | with `a > 0`, the command equals the free-road value exactly when `s_star == 0` |
| Idm.NegativeRootProductIgnoresLeaderSpeed | flow/flow/controllers/car_following_models.py:522-526 | with a leader and `a*b < 0`, neither the leader's speed nor the root value changes the command |
| Idm.ZeroGainWithoutLeaderIsZero | flow/flow/controllers/car_following_models.py:520-521 | with `a = 0` and no leader, the root is never taken and the command is 0 |
| Idm.ZeroRootKeepsMinimumGap | flow/flow/controllers/car_following_models.py:522-528 | with a leader, `a*b == 0` and `v*(v - lead_vel) <= 0`, the command is that of the minimum gap `s0`, whatever the root value; for `a, b >= 0` this is the source's result |
| Idm.HeadwayFloorIsInvisible | flow/flow/controllers/car_following_models.py:516-518 | any headway with `abs(h) < 1e-3` gives the command at `h = 1e-3`; the floor is idempotent |
| Idm.StandstillAcceleratesAtFullGain | flow/flow/controllers/car_following_models.py:528 | a standing vehicle with no leader, `v0 = 30` and `delta = 4` is commanded exactly `a` |
| Consensus.Combine | flow/flow/controllers/car_following_models.py:194-205 | ZeroDivisionError exactly when the count is 0 or `v0 == 0`; with all three sums 0 the gains drop out |
| Consensus.FleetAccel | flow/flow/controllers/car_following_models.py:161-210 | the fleet law fails, with ZeroDivisionError, exactly when the fleet has one vehicle or `v0 == 0` |
| Consensus.GetAccel | flow/flow/controllers/car_following_models.py:175-205 | the three accumulator loops over `idm_0 .. idm_{n-1}`, then the combination, compute exactly `FleetAccel` |
| Consensus.AccumulateHeadways | flow/flow/controllers/car_following_models.py:175-178 | the headway loop ends with the sum of `h - c_head` over `idm_0 .. idm_{n-1}` |
| Consensus.AccumulateSpeeds | flow/flow/controllers/car_following_models.py:180-183 | the velocity loop ends with the sum of `v - c_vel` over the fleet |
| Consensus.AccumulateAccels | flow/flow/controllers/car_following_models.py:185-192 | the acceleration loop ends with the sum of `acc - abs(c_vel - c_prev_vel)/sim_step` over the fleet |
| Consensus.UniformFleetGivesSelfTerm | flow/flow/controllers/car_following_models.py:175-205 | a fleet sharing self's speed, previous speed and headway, with a non-negative acceleration, gets the bare self-term `a*(1 - (v/v0)^4)` |
| Consensus.LockstepSumsVanish | flow/flow/controllers/car_following_models.py:175-192 | in such a fleet all three sums are 0 |
| Consensus.DeceleratingUniformFleetKeepsAccelTerm | flow/flow/controllers/car_following_models.py:185-205 | a fleet decelerating in lockstep leaves the acceleration sum `2*n*acc`, and the command differs from the self-term whenever `a` and `c_acceleration` are non-zero |
| Consensus.DeceleratingAccelSum | flow/flow/controllers/car_following_models.py:185-192 | that acceleration sum is `n * 2 * acc`, and it is negative |
| Consensus.LockstepDecelerationDiffs | flow/flow/controllers/car_following_models.py:186-192 | each term of the acceleration loop is `2*acc` in such a fleet, with `acc < 0` |
| Consensus.AccelSumShowsInCommand | flow/flow/controllers/car_following_models.py:197-205 | a non-zero acceleration sum moves the command off the self-term when `a` and `c_acceleration` are non-zero |
| Consensus.SelfContribution | flow/flow/controllers/car_following_models.py:175-192 | self's own entry `idm_j` adds nothing to the headway and speed sums, and `acc - abs(acc)` to the acceleration sum |
| Consensus.ZeroGainsGiveSelfTerm | flow/flow/controllers/car_following_models.py:195-205 | with all gains 0 the command is the self-term; at `v == v0` it is 0 |
| NeighbourCache.Dist2 | flow/flow/controllers/car_following_models.py:292 | the squared 2D distance is non-negative |
| NeighbourCache.NormOrderAgrees | flow/flow/controllers/car_following_models.py:292-293 | a norm and its square order two vehicles alike, both strictly and for ties |
| NeighbourCache.NormKeySortsAlike | flow/flow/controllers/car_following_models.py:292-293 | a list is sorted by the norm key, ties in `get_ids()` order, exactly when it is sorted by the squared key |
| NeighbourCache.CandidatesFrom | flow/flow/controllers/car_following_models.py:290-292 | every entry is the distance record of an id other than self, at its `get_ids()` position; positions strictly increase |
| NeighbourCache.CandidatesComplete | flow/flow/controllers/car_following_models.py:290 | every id other than self is a candidate |
| NeighbourCache.CandidatesCount | flow/flow/controllers/car_following_models.py:290 | there are `n - 1` candidates when self is active, `n` when it is not |
| NeighbourCache.Insert | flow/flow/controllers/car_following_models.py:293 | insertion adds exactly the new entry |
| NeighbourCache.InsertKeepsOrder | flow/flow/controllers/car_following_models.py:293 | inserting an entry with a new `get_ids()` position into a stably sorted list keeps it stably sorted |
| NeighbourCache.SortByDistance | flow/flow/controllers/car_following_models.py:293 | `sorted(..., key=distance)` is a permutation, ordered by distance with ties in `get_ids()` order |
| NeighbourCache.StableOrderIsUnique | flow/flow/controllers/car_following_models.py:293 | any two stably sorted arrangements of the same entries are equal, so every stable sort gives this list |
| NeighbourCache.Nearest | flow/flow/controllers/car_following_models.py:290-300 | the chosen neighbours are candidates: never self, always active vehicles |
| NeighbourCache.NearestLength | flow/flow/controllers/car_following_models.py:290-300 | the cache has `min(k, n-1)` entries when self is active |
| NeighbourCache.NearestStablySorted | flow/flow/controllers/car_following_models.py:293-300 | the cache is ordered by distance, ties in `get_ids()` order |
| NeighbourCache.NearestIsPrefixOfStableSort | flow/flow/controllers/car_following_models.py:293-300 | the cache is a prefix of every stable sort of the other vehicles by distance |
| NeighbourCache.NearestAreNearest | flow/flow/controllers/car_following_models.py:293-300 | every vehicle left out is at least as far as every vehicle kept |
| NeighbourCache.InfoFor | flow/flow/controllers/car_following_models.py:295-300 | a cached tuple carries the neighbour's id and its acceleration over the last tick |
| NeighbourCache.Rebuild | flow/flow/controllers/car_following_models.py:295-303 | the new `consensus_info` has one tuple per chosen neighbour, in order, read from the snapshot at rebuild time |
| NeighbourCache.ResyncsIsModulo | flow/flow/controllers/car_following_models.py:289 | the resync test is `counter % update_interval == 0` |
| NeighbourCache.CacheForCall | flow/flow/controllers/car_following_models.py:289-303 | a call works with a rebuilt cache when it resyncs, and with the kept cache otherwise |
| NeighbourCache.FirstAndUnitIntervalCallsRebuild | flow/flow/controllers/car_following_models.py:289 | counter 0 always resyncs, and with interval 1 every counter does |
| NeighbourCache.CacheFrozenBetweenRebuilds | flow/flow/controllers/car_following_models.py:289-303 | between resyncs the cache is the kept one, whatever the snapshot says |
| ConsensusFailure.CachedConsensus | flow/flow/controllers/car_following_models.py:305-323 | ZeroDivisionError exactly when the cache is empty or `v0 == 0` |
| ConsensusFailure.Step | flow/flow/controllers/car_following_models.py:289-327 | the state a call leaves: the cache is `CacheForCall`, and the counter goes up by one exactly when the call succeeds (non-empty cache, `v0 != 0`) |
| ConsensusFailure.Tick | flow/flow/controllers/car_following_models.py:272-328 | a call leaves the state `Step` gives; it computes a command exactly when it succeeds, which is exactly when the counter goes up, and otherwise raises ZeroDivisionError |
| ConsensusFailure.ConsensusFailureController.constructor | flow/flow/controllers/car_following_models.py:255-264 | a new controller has counter 0 and an empty cache |
| ConsensusFailure.ConsensusFailureController.GetAccel | flow/flow/controllers/car_following_models.py:272-328 | the new counter, the new cache and the result are those of `Tick` on the old state |
| ConsensusFailure.AccumulateDiffs | flow/flow/controllers/car_following_models.py:305-312 | the loop over the cache computes the three sums of differences, with the cached accelerations used as they are |
| ConsensusFailure.MatchingCacheGivesSelfTerm | flow/flow/controllers/car_following_models.py:305-323 | a non-empty cache matching self's headway, speed and acceleration gives the bare self-term |
| ConsensusFailure.NoNeighboursFails | flow/flow/controllers/car_following_models.py:289-317 | a vehicle that is alone, or that keeps no neighbours, fails every resync call with ZeroDivisionError and an empty cache, and its counter stays put |
| ConsensusFailure.EveryCallRebuilds | flow/flow/controllers/car_following_models.py:262 | with `update_interval = 1` every call rebuilds the cache from the current snapshot |
| ConsensusFailure.FrozenCacheIgnoresNeighbours | flow/flow/controllers/car_following_models.py:289-312 | between resyncs only self's own state enters the call, not the neighbours' current state |
| ConsensusFailure.SuccessfulRunCountsCalls | flow/flow/controllers/car_following_models.py:327 | when the first `t` calls of a run succeed, call `t` sees counter `c + t` |
| ConsensusFailure.SuccessfulRunResyncSchedule | flow/flow/controllers/car_following_models.py:289 | after `t` successful calls, call `t` resyncs exactly when `(c + t) % interval == 0`, and then works with the freshly rebuilt cache |
| FigureEight.ParityBias | flow/flow/controllers/car_following_models.py:433 | `-.005 if carid % 1 else +.005` is `+0.005` for every integer |
| FigureEight.CachedHeadwayLaw | flow/flow/controllers/car_following_models.py:424-434 | errors in source order: empty cache gives ZeroDivisionError, then a bad id gives IndexError or ValueError, then `v0 == 0` gives ZeroDivisionError |
| FigureEight.Tick | flow/flow/controllers/car_following_models.py:390-439 | same cache schedule and counter rule as ConsensusFailure, applied to this law |
| FigureEight.AccumulateHeadways | flow/flow/controllers/car_following_models.py:424-426 | the loop over the cache computes the sum of headway differences |
| FigureEight.FigureEightController.constructor | flow/flow/controllers/car_following_models.py:373-382 | a new controller has counter 0 and an empty cache |
| FigureEight.FigureEightController.GetAccel | flow/flow/controllers/car_following_models.py:390-439 | the new counter, the new cache and the result are those of `Tick` on the old state |
| FigureEight.ParityIsIrrelevant | flow/flow/controllers/car_following_models.py:432-434 | any two ids that parse get the same command |
| FigureEight.FleetIdsNeverFailToParse | flow/flow/controllers/car_following_models.py:432 | for `idm_<k>` the law fails exactly when the cache is empty or `v0 == 0` |
| FigureEight.ConsensusGainsIgnored | flow/flow/controllers/car_following_models.py:424-434 | the configured `c_headway`, `c_velocity` and `c_acceleration` do not affect the command |
| FigureEight.MatchingHeadwaysGiveBiasedSelfTerm | flow/flow/controllers/car_following_models.py:424-434 | a non-empty cache matching self's headway gives `a*((1 - (v/v0)^4) + 0.005)` |
| FigureEight.ZeroHeadwaySumLeavesBias | flow/flow/controllers/car_following_models.py:429-434 | a zero headway sum leaves only the self-term and the bias |

## Left out

- The `print` calls are console output and have no effect on the command.
- `BaseController` (action delay, Gaussian noise, failsafe) wraps every law and is outside this model; its noise is random.
- The simulation kernel is replaced by the snapshot. What the kernel answers for ids it does not know is not modelled. The laws instead require that the kernel can answer every query they make: `LeaderKnown` for the leader, and `FleetKnown` for `idm_0 .. idm_{n-1}`.
- In Baseline, a leader `''` is treated like any other leader id the kernel answers for. The source checks only for `None` there.
- Floating-point rounding, NaN and infinities are not modelled; all arithmetic is exact on `real`.
- `np.sqrt` and `np.linalg.norm` are abstracted as described above.
- Idm.ZeroRootKeepsMinimumGap: the sign of a floating-point zero is not modelled. When `a*b` is `-0.0` (for example `a = -1.0, b = 0.0`), `np.sqrt` returns `-0.0` and the source's infinities flip sign: a leader with `v*(v - lead_vel) < 0` then gives an infinite `s_star` and a command of `+inf` or NaN, while the model, like `Idm.GetAccel` on that input, gives the finite command at gap `s0`. Conversely, on the input `Idm.GetAccel` excludes (`v*(v - lead_vel) > 0`), a `-0.0` product gives a dynamic part of `-inf`, which `max` drops, so there the source's command is the finite one at gap `s0`. A negative `a` with a `+0.0` product (`b = -0.0`) makes the excluded case's command `+inf` rather than `-inf`.
- Idm.GetAccel: excludes a leader with `a*b == 0` and `v*(v - lead_vel) > 0`. There, for `a, b >= 0`, numpy's division by the zero root gives `+inf`, `s_star` is infinite, and the command is `-inf` (for `a > 0`) or NaN (for `a = 0`) rather than an exception. Every other `a*b` is admitted, with or without a leader.
- VehicleIds.ParseInt: models `int()` only for an optional sign followed by ASCII digits. Surrounding whitespace and non-ASCII digits, which Python also accepts, are read as ValueError. An `_` cannot occur in the field after `split('_')`. Its contract states the value only for unsigned digit strings.
- The `get_vehicle_accel` methods of the two cached controllers are the shared function `Kinematics.GetVehicleAccel`.
- `update_interval` and `consensus_car_count` are constants in both classes, as in the source. The cache, tick and run functions take them as parameters, with `update_interval > 0`.
- The run lemmas (`SuccessfulRunCountsCalls`, `SuccessfulRunResyncSchedule`) are stated for ConsensusFailure. FigureEight's `Tick` follows the same counter and cache rule, as its contract states.
- Reads that do not affect the command: `p` in the three consensus controllers, `n_vehicles` in the two cached ones, and the leader's headway `lh` in Baseline. Likewise the unused parameters (the consensus controllers accept `s0` and store `delta`, and use neither) have no effect on the command.
- `flow/examples/exp_simulate.py` (command-line parsing, JSON output, running the experiment) is not part of this model.
- The `flow/examples/exp_configs/non_rl` files (parameter assembly around the simulator library) are not part of this model.
- `utils.py` (CSV loading and plotting for offline analysis) is not part of this model.

# Ticketing load tests and seat bootstrap: a Dafny model

This project models the deterministic core of the ticketing system's load-test
drivers and of the purchase service's start-up seat initialization, and proves
properties about that model.

- **Seat space** (`SeatSpace`, `seat_space.dfy`): a venue has
  `zone_count × row_count × col_count` seats. `idx_to_seat` maps a linear index
  to a seat, using Python's floor division and modulo. The model proves that
  the mapping is injective, that it stays inside the venue, and that it is
  inverted by the zone-major numbering.
- **Seat slicing** (`SeatSlicing`, `seat_slicing.dfy`): `on_test_start` cuts
  `[0, total_capacity)` into slices of at most 78 seats and enqueues them. The
  loop is proved to produce exactly `ceil(capacity / 78)` slices, in order, with
  these properties:
  - every slice is full except possibly the last;
  - the slices are pairwise disjoint;
  - concatenated, they list every seat of the venue exactly once.

  A missing layout or a layout with zero zones stops the runner.
- **Sequential purchaser** (`SequentialPurchaser`, `sequential_purchaser.dfy`):
  the per-user state machine of `SequentialTicketPurchaser`.
  - A fresh pick moves one seat from the slice to the attempted list.
  - A duplicate pick replays an attempted seat.
  - A request counts one attempt once its response has been handled. If that
    handling raises, the attempt is not counted, because the increment at the
    end of the task is skipped.

  Over any schedule, a user sends at most `attempts_total` (94) requests plus
  one per task whose response handling raised. It sends them only for seats of
  its own slice, and a lemma over a concrete schedule shows the extra term is needed. Two running
  users never share a seat.
- **Fixed seat queue** (`FixedSeatQueue`, `fixed_seat_queue.dfy`):
  `_build_seat_queue` walks row A from column 6 and wraps row by row, producing
  at most 100 seats. The loop is proved equal to a closed-form description. From
  that description the model proves:
  - the seats lie in range;
  - they come in strictly increasing row-major order, hence are distinct;
  - the queue is short only when the rows ran out.
- **Two-seat user** (`TwoSeatUser`, `two_seat_user.dfy`): `FiveRequestsUser`
  validates the layout and gets a budget of two seats. A seat is spent after the
  response has been handled, so a handler that raises leaves the budget
  untouched. Under every interleaving of users on the shared queue, the proofs
  establish three things:
  - each queued seat is sent at most once (the sent seats followed by the rest
    of the queue are the original queue), whatever raises;
  - no user sends more than two purchases plus one per own turn whose response
    handling raised, and a lemma over a concrete schedule shows a third purchase;
  - a user with an invalid layout sends none.
- **Environment and configuration** (`EnvConfig`, `env_config.dfy`): this
  module covers the following parts of `env.py`:
  - host normalization (strip trailing `/`; `None` for missing or empty);
  - the priority chains of `purchase_host`/`query_host`, which both instantiate
    `ServiceHost`;
  - the file-path priority of `venues_file`/`events_file`;
  - the three `ConfigError` cases of `load_yaml_file`;
  - the `{}` defaulting of `load_venues`/`load_events`.

  It also covers the module-level host fallback chain of `locustfile.py`.
- **Seat bootstrap** (`SeatBootstrap`, `seat_bootstrap.dfy`): the loop of
  `RedisSeatBootstrap.run`. The model records the calls made to the venue
  service and to the seat service, and the final `initializedCount`. It proves:
  - the initializer is called exactly once for each qualifying event, in list
    order. An event qualifies when it is enabled, its venue id is not blank
    after Java `trim`, and its venue exists;
  - the venue service is consulted only for enabled events with a non-blank
    venue id;
  - a failing initialization never changes the calls, only the count;
  - the count is at most the list length.

`Common` (`common.dfy`) holds `Option`, `Result`, `Min`/`Max`, a ceiling
division and a few arithmetic lemmas.

External effects are inputs of the model:
- random draws are a duplicate roll plus a choice index, and the shuffle is any
  permutation of the slice;
- the venue service's existence answer and the initializer's failure are
  functions supplied by the caller;
- environment variables, `os.path.abspath`, `os.path.exists` and the YAML
  parser are fields of `EnvConfig.Environment`;
- whether handling a purchase response raised (a 201 whose body is not a JSON
  object, a failing query request, …) is an input of each task run.

Three behaviours of the code that the model keeps as they are:
- `attempts_total` is computed from `SEATS_PER_USER` (78 → 94). It is not
  computed from the length of the slice actually received, so the last, shorter
  slice still gets 94 attempts.
- A host made only of slashes normalizes to `""`. `purchase_host`/`query_host`
  then return `""` rather than falling back to the ALB host.
- When `col_count ≤ 0`, `_build_seat_queue` still produces seats, all in column
  1 of rows B, C, …. Every user refuses such a layout, so none of them is ever
  requested.

## Model

| member | source | states |
|---|---|---|
| SeatSpace.FloorDiv | load_testing/locustfile.py:132-135 | `//` is Python's floor quotient: `q·d ≤ a < q·d + d` for a positive divisor, mirrored for a negative one |
| SeatSpace.FloorMod | load_testing/locustfile.py:133-135 | `%` takes the sign of the divisor and completes the floor quotient: `(a // d)·d + a % d == a` |
| SeatSpace.IdxToSeat | load_testing/locustfile.py:131-142 | numbering the produced seat zone-major gives back the index; with a positive column count the column lies in 1..cols, with a negative one it lies in cols+2..1 as Python's `%` gives |
| SeatSpace.SeatToIdxRecoversIndex | load_testing/locustfile.py:131-142 | zone-major numbering of the produced seat gives back the index, for every index and all non-zero row/column counts |
| SeatSpace.IdxToSeatInjective | load_testing/locustfile.py:131-142 | distinct indices give distinct seats |
| SeatSpace.IdxToSeatInRange | load_testing/locustfile.py:128-142 | with positive dimensions every index in `[0, total_capacity)` yields zone in 1..zones, row index in 0..rows-1, column in 1..cols |
| SeatSpace.SeatToIdxInverse | load_testing/locustfile.py:128-142 | every existing seat has an index in `[0, total_capacity)` that `idx_to_seat` maps back to it |
| SeatSpace.RowLabelsDefined | load_testing/locustfile.py:128-137 | with positive dimensions and at most 1114047 rows, every index below the capacity gets a row label: `ord('A') + row_idx` is a code point |
| SeatSpace.NegativeDimensionsBreakLabel | load_testing/locustfile.py:128-137 | the layout 1 × −67 × −1 has capacity 67, yet index 66 lands on row index −66, where `chr` has no code point to return |
| SeatSpace.IndexBelowCapacity | load_testing/locustfile.py:128-129 | the zone-major index of an existing seat lies in `[0, total_capacity)` |
| SeatSlicing.CapacityNeedsDims | load_testing/locustfile.py:128-149 | the capacity is zero exactly when some dimension is zero; so a positive capacity implies non-zero row and column counts and `idx_to_seat` never divides by zero |
| SeatSlicing.CollectSlice | load_testing/locustfile.py:147-149 | the inner loop collects exactly the seats of `range(start, stop)` in index order |
| SeatSlicing.EnqueueStep | load_testing/locustfile.py:145-153 | one round of the outer loop collects a non-empty slice (so the `continue` is never taken) and keeps the queue equal to the first slices, covering the first seats |
| SeatSlicing.BuildSlices | load_testing/locustfile.py:145-153 | the outer loop enqueues `ceil(capacity/per)` slices, slice k covering indices `[k·per, min((k+1)·per, capacity))`, and their concatenation is the whole seat list |
| SeatSlicing.OnTestStart | load_testing/locustfile.py:113-153 | a failed layout load or zero zones quits the runner with nothing enqueued; otherwise the queue is the sliced seat list |
| SeatSlicing.SliceSizes | load_testing/locustfile.py:146-152 | every enqueued slice is non-empty with at most `per` seats, and all but the last hold exactly `per` |
| SeatSlicing.SlicesDisjoint | load_testing/locustfile.py:145-153 | a seat occurs in only one slice and only at one position |
| SeatSlicing.AllSeatsEnumeratesVenue | load_testing/locustfile.py:128-153 | the concatenated slices have `capacity` seats, no duplicates, and contain a seat iff it exists in the venue |
| SeatSlicing.EmptyLayoutNoSlices | load_testing/locustfile.py:128-152 | with zero rows or columns no slice is enqueued |
| SeatSlicing.TwelveSeatsInFives | load_testing/locustfile.py:145-153 | a 2×2×3 venue cut by 5 gives three slices of sizes 5, 5, 2 |
| SeatSlicing.SeatSevenOfTwoByThree | load_testing/locustfile.py:131-142 | index 7 of a 2-row, 3-column venue is zone 2, row A, column 2 |
| SequentialPurchaser.AttemptsTotal | load_testing/locustfile.py:181 | the budget is the least integer `t` with `t ≥ seats·1.2` |
| SequentialPurchaser.DefaultAttemptsTotal | load_testing/locustfile.py:63-64 | with 78 seats per user and 20 % duplicates the budget is 94 |
| SequentialPurchaser.OnStart | load_testing/locustfile.py:172-185 | an empty queue stops the user; otherwise it pops the head, keeps a permutation of it, with no attempts yet and budget 94 |
| SequentialPurchaser.Replay | load_testing/locustfile.py:198-204 | a duplicate request is for an attempted seat and leaves the slice, the attempted list and the counters unchanged |
| SequentialPurchaser.SelectSeat | load_testing/locustfile.py:197-211 | under budget, no seat is chosen iff slice and attempted list are both empty; otherwise the pick is fresh (last slice seat moved to attempted) unless the roll asks for a duplicate or the slice is empty, and then an attempted seat is replayed |
| SequentialPurchaser.PurchaseTask | load_testing/locustfile.py:187-253 | the task stops iff the budget is spent or no seat remains; otherwise it sends one request, fresh or duplicate as `SelectSeat` chooses, and counts one attempt unless handling the response raised, in which case the count is unchanged |
| SequentialPurchaser.TaskPreservesConsistent | load_testing/locustfile.py:197-211 | slice plus attempted seats stay the same multiset as the received slice, and every request is for a seat of it |
| SequentialPurchaser.RunWithinBudget | load_testing/locustfile.py:193-253 | over any schedule a user sends at most its remaining budget of requests plus one per task whose response handling raised, all for seats of its slice, and stays consistent |
| SequentialPurchaser.RunStopsAfterBudget | load_testing/locustfile.py:193-253 | more scheduled tasks than the remaining budget plus the tasks whose response handling raised leave the user stopped |
| SequentialPurchaser.StoppedStaysStopped | load_testing/locustfile.py:189-191 | a stopped user sends nothing more |
| SequentialPurchaser.RaisingHandlerExceedsBudget | load_testing/locustfile.py:213-253 | a user with one attempt left whose response handling raises twice sends two requests, so the raising term in the bounds is needed |
| SequentialPurchaser.UserLifetime | load_testing/locustfile.py:172-253 | from start on, a user sends at most 94 requests plus one per task whose response handling raised, all for its dequeued slice, and none when the queue was empty |
| SequentialPurchaser.StartUsers | load_testing/locustfile.py:172-180 | users starting in turn take consecutive queue slices; only the first `|queue|` run |
| SequentialPurchaser.RunningUsersDisjoint | load_testing/locustfile.py:145-180 | two different running users never hold the same seat |
| FixedSeatQueue.BuildSeatQueue | load_testing/locustfile_event1_5requests.py:52-70 | the loop produces exactly the closed-form queue: `min(100, rows·cols − first)` consecutive row-major positions starting at row A column 6 (or row B column 1 if row A is narrower) |
| FixedSeatQueue.QueueSeatsInRange | load_testing/locustfile_event1_5requests.py:57-64 | every queued seat is in zone 1, row below the row count, column within the row, and on row A at column 6 or later |
| FixedSeatQueue.QueueWithoutColumns | load_testing/locustfile_event1_5requests.py:58-64 | with no positive column count each seat is column 1 of rows B, C, … below the row count |
| FixedSeatQueue.QueueStrictlyIncreasing | load_testing/locustfile_event1_5requests.py:58-65 | seats come in strictly increasing (row, column) order |
| FixedSeatQueue.QueueDistinct | load_testing/locustfile_event1_5requests.py:58-65 | no seat is queued twice |
| FixedSeatQueue.ShortQueueOnlyAtLastRow | load_testing/locustfile_event1_5requests.py:61-68 | fewer than 100 seats only when the next seat would lie at or past the last row |
| TwoSeatUser.OnStart | load_testing/locustfile_event1_5requests.py:85-104 | the runner is told to quit iff the layout failed to load or has a non-positive dimension; then the budget is 0, otherwise 2 |
| TwoSeatUser.SendPurchaseAndQuery | load_testing/locustfile_event1_5requests.py:108-158 | a purchase is sent iff budget remains and the queue is non-empty; it takes the queue head and spends one unit unless handling the response raised, which leaves the budget as it was; otherwise the user stops with queue and budget untouched |
| TwoSeatUser.Step | load_testing/locustfile_event1_5requests.py:108-158 | one task run changes only its own user and sends at most one request, on behalf of that user |
| TwoSeatUser.StepConservesQueue | load_testing/locustfile_event1_5requests.py:114-119 | one task run removes from the queue exactly the seat it sends |
| TwoSeatUser.StepWithinBudget | load_testing/locustfile_event1_5requests.py:108-158 | one task run spends one unit of the budget of the user that sent, unless handling its response raised |
| TwoSeatUser.StepWithoutBudget | load_testing/locustfile_event1_5requests.py:109-112 | a user with no budget left sends nothing in a task run and still has none |
| TwoSeatUser.ScheduleConservesQueue | load_testing/locustfile_event1_5requests.py:114-119 | under any interleaving, the seats sent in order followed by the remaining queue are the original queue, so no seat is dequeued twice |
| TwoSeatUser.ScheduleWithinBudget | load_testing/locustfile_event1_5requests.py:104-158 | under any interleaving a user sends at most its starting budget plus its turns whose response handling raised |
| TwoSeatUser.ScheduleWithoutBudget | load_testing/locustfile_event1_5requests.py:109-112 | under any interleaving a user whose budget is used up never sends again, whatever raises |
| TwoSeatUser.AtMostTwoRequestsPerUser | load_testing/locustfile_event1_5requests.py:85-158 | every user sends at most 2 purchases plus one per own turn whose response handling raised, and none if its layout was refused |
| TwoSeatUser.RaisingHandlerSendsThird | load_testing/locustfile_event1_5requests.py:129-158 | a user whose response handling raises on every turn sends a third purchase, so the raising term in the bounds is needed |
| EnvConfig.RStripSlash | load_testing/env.py:19 | `rstrip('/')` returns the longest prefix not ending in '/', dropping only slashes |
| EnvConfig.NormalizeHost | load_testing/env.py:16-19 | `None` exactly for a missing or empty host; otherwise a prefix that does not end in '/' and differs from the host only by trailing slashes |
| EnvConfig.NormalizeHostIdempotent | load_testing/env.py:16-19 | normalizing twice equals normalizing once for hosts with a non-'/' character |
| EnvConfig.NormalizeSlashesOnly | load_testing/env.py:16-19 | a host of only slashes normalizes to "" and then to `None` |
| EnvConfig.ServiceHost | load_testing/env.py:22-37 | a truthy override wins, else a truthy ALB host, else `None`, each normalized |
| EnvConfig.PurchaseHost | load_testing/env.py:22-28 | a truthy PURCHASE_SERVICE_HOST wins, normalized; otherwise the ALB host normalized, which is `None` when it is falsy |
| EnvConfig.QueryHost | load_testing/env.py:31-37 | a truthy QUERY_SERVICE_HOST wins, normalized; otherwise the ALB host normalized, which is `None` when it is falsy |
| EnvConfig.ServiceHostShape | load_testing/env.py:22-37 | the effective host is `None` iff neither override nor ALB host is truthy, and never ends in '/' |
| EnvConfig.QueryHostIgnoresPurchaseOverride | load_testing/env.py:31-37 | the purchase override has no influence on the query host |
| EnvConfig.DefaultHostsUseAlb | load_testing/env.py:10-37 | with the shipped settings both services use the ALB host unchanged |
| EnvConfig.LocustHosts | load_testing/locustfile.py:14-48 | for each of the purchase and the query host: the settings-module host wins when truthy, falling back to the service variable or the localhost default; without the module, a set service variable wins, then a stripped non-empty ALB_HOST, then localhost |
| EnvConfig.Join | load_testing/env.py:60-71 | `os.path.join` of a relative component: `a + "/" + b` when the base is non-empty without a trailing '/', otherwise `a + b` |
| EnvConfig.ConfigFile | load_testing/env.py:63-82 | a non-empty variable gives its absolute path; otherwise exactly `ResourcesRoot(repo_root, "PurchaseService") + "/" + file`, where `ResourcesRoot` is `resources_root` (env.py lines 51-60), the joined `<repo_root>/PurchaseService/src/main/resources` |
| EnvConfig.VenuesFile | load_testing/env.py:63-71 | a non-empty VENUES_FILE gives its absolute path; otherwise `<resources_root>/venues.yml` |
| EnvConfig.EventsFile | load_testing/env.py:74-82 | a non-empty EVENTS_FILE gives its absolute path; otherwise `<resources_root>/events.yml` |
| EnvConfig.LoadYamlFile | load_testing/env.py:85-103 | empty path, missing file and parse failure raise the matching `ConfigError` in that order; otherwise a truthy parse result is returned as it is and a falsy one becomes `{}` |
| EnvConfig.GetOrEmpty | load_testing/env.py:113-123 | `.get(key, {})` on a mapping returns the entry or `{}`, and fails on anything that is not a mapping |
| EnvConfig.LoadVenues | load_testing/env.py:106-113 | each `ConfigError` of the venues file is passed through, a falsy document gives `{}`, and the missing-`.get` error arises exactly when the loaded document or its `venues` entry is not a mapping |
| EnvConfig.LoadEvents | load_testing/env.py:116-123 | each `ConfigError` of the events file is passed through, a falsy document gives `{}`, and the missing-`.get` error occurs exactly when the loaded document is not a mapping |
| EnvConfig.LoadVenuesCases | load_testing/env.py:106-113 | the venue map when both levels exist, `{}` when either is missing, the `ConfigError` of a file that does not load |
| EnvConfig.EmptyDocumentNoVenues | load_testing/env.py:100-113 | an empty venues document yields the empty venue map |
| EnvConfig.LoadEventsCases | load_testing/env.py:116-123 | the events entry, `{}` when missing, the `ConfigError` of a file that does not load |
| SeatBootstrap.Trim | PurchaseService/src/main/java/org/java/purchaseservice/bootstrap/RedisSeatBootstrap.java:45 | `trim()` is empty iff every character is at most U+0020; otherwise it starts and ends with a kept character |
| SeatBootstrap.Run | PurchaseService/src/main/java/org/java/purchaseservice/bootstrap/RedisSeatBootstrap.java:23-65 | auto-initialization off or no events means no calls and count 0; otherwise the calls are those of the qualifying events in order, the existence checks those of the candidate events in order, and the count is at most the initializer calls |
| SeatBootstrap.InitializerCallsAreQualifyingEvents | PurchaseService/src/main/java/org/java/purchaseservice/bootstrap/RedisSeatBootstrap.java:36-62 | the initializer is called once per enabled event with a non-blank venue id whose venue exists, in list order, whatever fails |
| SeatBootstrap.ChecksAreCandidateEvents | PurchaseService/src/main/java/org/java/purchaseservice/bootstrap/RedisSeatBootstrap.java:37-53 | the venue service is asked once per enabled event with a non-blank venue id, in list order, and never for the others |
| SeatBootstrap.TallyBounds | PurchaseService/src/main/java/org/java/purchaseservice/bootstrap/RedisSeatBootstrap.java:35-64 | `initializedCount` is at most the initializer calls, which are at most the list length, with equality when no initialization fails |

## Left out

- HTTP requests, responses, success/failure marking, the 50 % query check, `gevent.sleep`, `wait_time` and `runner.quit` are harness I/O. A purchase is reduced to "a request for this seat was sent", and a quit to a flag or outcome.
- Which statement inside the response handling raises, and why, is not modelled. Each task run carries only a flag saying whether it raised. A raise is taken to happen after the request was sent, as for `response.json()` on a malformed body or a failing query request; Locust then logs the error and keeps the user running.
- `random.random()`, `random.choice` and `random.shuffle` are inputs. A `Pick` carries the roll and a choice index taken modulo the attempted list. The shuffle is any permutation of the slice.
- `DUPLICATE_RATIO` is the float 0.2. It is modelled as the exact fraction 2/10; for 78 seats the float computation gives the same 94.
- Row labels `chr(ord('A') + row_idx)` are kept as 0-based row indices, and columns as integers instead of `str(col)`. Labels past row Z are therefore not modelled.
- SeatSpace.IdxToSeat: returns a seat for every index, but the source's `chr` raises `ValueError` when `row_idx` lies outside `[-65, 1114046]`. That happens only for negative dimensions or more than 1114047 rows (`SeatSpace.RowLabelsDefined`, `SeatSpace.NegativeDimensionsBreakLabel`). The label is not part of the model.
- SeatSlicing.OnTestStart: on a layout where `chr` raises, the source aborts `on_test_start` with only the slices before the failing index enqueued. The model instead returns the full sliced queue. The abort is not modelled, because it needs negative dimensions or more than 1114047 rows.
- `load_venue_layout` (YAML navigation to `zone-count`/`row-count`/`col-count`) is not modelled. Its result enters as an optional layout, where `None` means it raised. For `_build_seat_queue`, a raise at import time simply leaves the queue empty.
- Thread safety of the shared `Queue` is not modelled: the queue is a sequence with an atomic pop.
- `os.getenv`, `os.path.abspath`, `os.path.exists`, `open` and `yaml.safe_load` are parameters of `EnvConfig.Environment`. Failures of `open` itself, such as a directory or missing permissions, are not modelled.
- YAML values cover null, booleans, integers, strings, lists and string-keyed mappings. Floats, dates and non-string keys are not modelled.
- `EnvConfig.LocustHosts` takes whether the settings module imported as an input; the import mechanism itself is not modelled.
- `EnvConfig.Join` models `os.path.join` only for relative components, which is how the code calls it.
- `SeatSlicing.BuildSlices` and `SeatSlicing.CollectSlice` are stated for any positive slice size. `on_test_start` uses 78.
- `SequentialPurchaser.PurchaseTask` does not state which attempted seat `random.choice` returns, only that it is one of them, because the choice is random in the source.
- Exceptions thrown by `isVenueExists` propagate out of `run` in the source. The model treats the existence check as a total predicate, so that path is not modelled.
- `SeatBootstrap.Run` counts with an unbounded natural. `initializedCount` is a Java `int`, but it cannot exceed the list size, which is itself an `int`, so no wrap-around is possible.
- `VenueConfigService`, `SeatOccupiedService`, logging, Spring configuration (`MessageSqsConfig.java`, `MessageSnsConfig.java`) and the architecture diagram (`config/Graphs/aws_arch.py`) have no behaviour to verify here.

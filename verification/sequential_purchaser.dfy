/** The randomized simulated user of load_testing/locustfile.py
    (`SequentialTicketPurchaser`).

    A user takes one slice off the shared queue when it starts, shuffles it,
    and then on every task either buys a fresh seat from the end of its slice
    or replays a seat it already tried. Each request counts as one attempt,
    and the user stops when its attempt budget is used up or it has no seat
    left to try. The random draws are inputs of the model: `Pick` carries the
    outcome of the duplicate roll and of `random.choice`, and the shuffled
    slice is supplied by the caller as any permutation of the dequeued one.

    The attempt is counted after the response has been handled. When that
    handling raises (a 201 whose body is not a JSON object, a failing
    query request, ...), Locust logs the error and schedules the task
    again: the seat has been consumed and the request sent, but the attempt
    is not counted. `Pick` says whether that happened, so every bound on the
    number of requests below carries the number of such tasks. */
module SequentialPurchaser {
  import opened Common
  import opened SeatSpace
  import opened SeatSlicing

  /** `DUPLICATE_RATIO = 0.2`, kept as the exact fraction 2/10. */
  const DUPLICATE_NUM: nat := 2
  const DUPLICATE_DEN: nat := 10

  /** `math.ceil(seats_per_user * (1 + DUPLICATE_RATIO))`: the least
      attempt count covering every seat plus 20 % duplicates. */
  function AttemptsTotal(seatsPerUser: nat): (t: nat)
    ensures t * DUPLICATE_DEN >= seatsPerUser * (DUPLICATE_DEN + DUPLICATE_NUM)
    ensures t == 0 || (t - 1) * DUPLICATE_DEN < seatsPerUser * (DUPLICATE_DEN + DUPLICATE_NUM)
  {
    CeilDiv(seatsPerUser * (DUPLICATE_DEN + DUPLICATE_NUM), DUPLICATE_DEN)
  }

  /** With 78 seats per user the budget is 94 attempts. It is computed from
      `SEATS_PER_USER`, not from the length of the slice actually received. */
  lemma DefaultAttemptsTotal()
    ensures AttemptsTotal(SEATS_PER_USER) == 94
  {
    DivModUnique(78 * 12 + 9, 10, 94, 5);
  }

  /** Per-user state: fresh seats still to try, seats already tried (in the
      order first tried), attempts made and the attempt budget. */
  datatype Purchaser = Purchaser(slice: Slice, attempted: seq<Seat>, attemptsDone: nat, attemptsTotal: nat)

  /** A user either runs with its state or has called `stop`. */
  datatype User = Stopped | Running(p: Purchaser)

  /** `on_start`: take the head of the queue (a user finding it empty stops
      at once); `shuffled` is the outcome of `random.shuffle` on that slice. */
  function OnStart(queue: seq<Slice>, shuffled: Slice): (r: (User, seq<Slice>))
    requires queue != [] ==> multiset(shuffled) == multiset(queue[0])
    ensures r.0.Running? <==> queue != []
    ensures queue == [] ==> r.1 == []
    ensures queue != [] ==> [queue[0]] + r.1 == queue
    ensures r.0.Running? ==> multiset(r.0.p.slice) == multiset(queue[0])
    ensures r.0.Running? ==> r.0.p.attempted == [] && r.0.p.attemptsDone == 0
    ensures r.0.Running? ==> r.0.p.attemptsTotal == AttemptsTotal(SEATS_PER_USER)
  {
    if queue == [] then (Stopped, [])
    else (Running(Purchaser(shuffled, [], 0, AttemptsTotal(SEATS_PER_USER))), queue[1..])
  }

  /** What one task run depends on beyond the user's state: whether
      `random.random()` fell under the duplicate ratio, which attempted seat
      `random.choice` returns (any index, taken modulo the number of
      attempted seats), and whether handling the response raised. */
  datatype Pick = Pick(duplicateRoll: bool, choice: nat, handlerRaises: bool)

  /** How many of the scheduled tasks had their response handling raise. */
  function Raises(picks: seq<Pick>): nat {
    if picks == [] then 0 else (if picks[0].handlerRaises then 1 else 0) + Raises(picks[1..])
  }

  /** A task either stops the user or sends one purchase request. */
  datatype TaskOutcome = Stop | Request(seat: Seat, next: Purchaser)

  /** A fresh pick moves the last seat of the slice to the end of the
      attempted list. */
  predicate FreshPick(p: Purchaser, seat: Seat, next: Purchaser) {
    && p.slice != []
    && next.slice + [seat] == p.slice
    && next.attempted == p.attempted + [seat]
  }

  /** A duplicate pick replays an attempted seat and changes neither list. */
  predicate DuplicatePick(p: Purchaser, seat: Seat, next: Purchaser) {
    && seat in p.attempted
    && next.slice == p.slice
    && next.attempted == p.attempted
  }

  /** `random.choice(self.attempted_seats)`; the counters are untouched. */
  function Replay(p: Purchaser, choice: nat): (o: TaskOutcome)
    requires p.attempted != []
    ensures o.Request? && DuplicatePick(p, o.seat, o.next)
    ensures o.next.attemptsDone == p.attemptsDone && o.next.attemptsTotal == p.attemptsTotal
  {
    var seat := p.attempted[choice % |p.attempted|];
    Request(seat, p)
  }

  /** The seat choice of a task under budget: a replay, the last fresh seat
      of the slice, or nothing when no seat is left at all. The counters
      are untouched. */
  function SelectSeat(p: Purchaser, pick: Pick): (o: TaskOutcome)
    ensures o.Stop? <==> p.slice == [] && p.attempted == []
    ensures o.Request? ==> o.next.attemptsDone == p.attemptsDone && o.next.attemptsTotal == p.attemptsTotal
    ensures o.Request? && p.slice != [] && !(pick.duplicateRoll && p.attempted != []) ==> FreshPick(p, o.seat, o.next)
    ensures o.Request? && (p.slice == [] || (pick.duplicateRoll && p.attempted != [])) ==> DuplicatePick(p, o.seat, o.next)
  {
    if pick.duplicateRoll && p.attempted != [] then Replay(p, pick.choice)
    else if p.slice == [] then
      if p.attempted != [] then Replay(p, pick.choice) else Stop
    else
      var seat := p.slice[|p.slice| - 1];
      Request(seat, p.(slice := p.slice[..|p.slice| - 1], attempted := p.attempted + [seat]))
  }

  /** `purchase_ticket_sequentially` on a running user: stop once the
      budget is used up or no seat is left, otherwise send one request and
      count the attempt, unless handling the response raised. */
  function PurchaseTask(p: Purchaser, pick: Pick): (o: TaskOutcome)
    ensures o.Stop? <==> p.attemptsDone >= p.attemptsTotal || (p.slice == [] && p.attempted == [])
    ensures o.Request? && !pick.handlerRaises ==> o.next.attemptsDone == p.attemptsDone + 1
    ensures o.Request? && pick.handlerRaises ==> o.next.attemptsDone == p.attemptsDone
    ensures o.Request? ==> o.next.attemptsTotal == p.attemptsTotal
    ensures o.Request? && p.slice != [] && !(pick.duplicateRoll && p.attempted != []) ==> FreshPick(p, o.seat, o.next)
    ensures o.Request? && (p.slice == [] || (pick.duplicateRoll && p.attempted != [])) ==> DuplicatePick(p, o.seat, o.next)
  {
    if p.attemptsDone >= p.attemptsTotal then Stop
    else
      match SelectSeat(p, pick)
      case Stop => Stop
      case Request(seat, next) =>
        Request(seat, if pick.handlerRaises then next else next.(attemptsDone := next.attemptsDone + 1))
  }

  /** One scheduling of the user's task: the user afterwards and the seat
      of the request it sent, if any. A stopped user runs no task. */
  function UserTask(u: User, pick: Pick): (r: (User, Option<Seat>))
  {
    match u
    case Stopped => (Stopped, None)
    case Running(p) =>
      match PurchaseTask(p, pick)
      case Stop => (Stopped, None)
      case Request(seat, next) => (Running(next), Some(seat))
  }

  /** Repeated scheduling: the final user and the seats of every request
      sent, in order. */
  function Run(u: User, picks: seq<Pick>): (r: (User, seq<Seat>))
    decreases |picks|
  {
    if picks == [] then (u, [])
    else
      var (u1, sent) := UserTask(u, picks[0]);
      var (u2, rest) := Run(u1, picks[1..]);
      (u2, (if sent.Some? then [sent.value] else []) + rest)
  }

  /** The seats held by a user are exactly the slice it received: the
      fresh ones plus the attempted ones, and it is within budget. */
  ghost predicate Consistent(orig: Slice, p: Purchaser) {
    && multiset(p.slice) + multiset(p.attempted) == multiset(orig)
    && p.attemptsDone <= p.attemptsTotal
  }

  ghost predicate UserConsistent(orig: Slice, u: User) {
    u.Running? ==> Consistent(orig, u.p)
  }

  /** Attempts the user may still make. */
  function Budget(u: User): nat {
    match u
    case Stopped => 0
    case Running(p) => if p.attemptsDone <= p.attemptsTotal then p.attemptsTotal - p.attemptsDone else 0
  }

  /** A task keeps `|slice| + |attempted_seats|` equal to the original slice
      length (indeed the same multiset of seats), and a request is always
      for a seat of the original slice. */
  lemma TaskPreservesConsistent(orig: Slice, p: Purchaser, pick: Pick)
    requires Consistent(orig, p)
    ensures var o := PurchaseTask(p, pick);
      o.Request? ==> Consistent(orig, o.next) && o.seat in multiset(orig)
  {
    var o := PurchaseTask(p, pick);
    if o.Request? {
      if FreshPick(p, o.seat, o.next) {
        assert multiset(p.slice) == multiset(o.next.slice) + multiset{o.seat};
      }
    }
  }

  /** Over any sequence of scheduled tasks a user sends at most its
      remaining budget of requests plus one per task whose response handling
      raised, only for seats of its slice, and stays consistent. */
  lemma {:induction false} RunWithinBudget(orig: Slice, u: User, picks: seq<Pick>)
    requires UserConsistent(orig, u)
    ensures var (u', sent) := Run(u, picks);
      && |sent| <= Budget(u) + Raises(picks)
      && UserConsistent(orig, u')
      && Budget(u') <= Budget(u)
      && forall s :: s in sent ==> s in multiset(orig)
    decreases |picks|
  {
    if picks != [] {
      var (u1, sent1) := UserTask(u, picks[0]);
      if u.Running? {
        TaskPreservesConsistent(orig, u.p, picks[0]);
      }
      assert UserConsistent(orig, u1);
      assert sent1.Some? && !picks[0].handlerRaises ==> Budget(u1) + 1 == Budget(u);
      assert sent1.Some? && picks[0].handlerRaises ==> Budget(u1) == Budget(u);
      assert sent1.Some? ==> sent1.value in multiset(orig);
      assert sent1.None? ==> u1 == Stopped || u1 == u;
      RunWithinBudget(orig, u1, picks[1..]);
    }
  }

  /** Once more tasks are scheduled than the remaining budget plus the
      tasks whose response handling raised, the user has stopped: counted
      attempts never run past `attempts_total`. */
  lemma {:induction false} RunStopsAfterBudget(u: User, picks: seq<Pick>)
    requires |picks| > Budget(u) + Raises(picks)
    ensures Run(u, picks).0 == Stopped
    decreases |picks|
  {
    var (u1, sent1) := UserTask(u, picks[0]);
    if u1 != Stopped {
      assert u.Running? && u1.Running?;
      if picks[0].handlerRaises {
        assert Budget(u1) == Budget(u);
      } else {
        assert u1.p.attemptsDone == u.p.attemptsDone + 1;
        assert Budget(u1) + 1 == Budget(u);
      }
      RunStopsAfterBudget(u1, picks[1..]);
    } else {
      StoppedStaysStopped(picks[1..]);
    }
  }

  lemma {:induction false} StoppedStaysStopped(picks: seq<Pick>)
    ensures Run(Stopped, picks) == (Stopped, [])
    decreases |picks|
  {
    if picks != [] {
      assert UserTask(Stopped, picks[0]) == (Stopped, None);
      StoppedStaysStopped(picks[1..]);
      assert Run(Stopped, picks).1 == [] + Run(Stopped, picks[1..]).1;
      assert Run(Stopped, picks).0 == Run(Stopped, picks[1..]).0;
    }
  }

  /** The raising term is needed: a user with one attempt left whose
      response handling raises twice sends two requests. */
  lemma RaisingHandlerExceedsBudget(s1: Seat, s2: Seat)
    ensures var u := Running(Purchaser([s1, s2], [], 0, 1));
      && Budget(u) == 1
      && Run(u, [Pick(false, 0, true), Pick(false, 0, true)]).1 == [s2, s1]
  {
    var u := Running(Purchaser([s1, s2], [], 0, 1));
    var pick := Pick(false, 0, true);
    var u1 := Running(Purchaser([s1], [s2], 0, 1));
    var u2 := Running(Purchaser([], [s2, s1], 0, 1));
    assert [s1, s2][..1] == [s1] && [s1][..0] == [];
    assert SelectSeat(u.p, pick) == Request(s2, u1.p);
    assert PurchaseTask(u.p, pick) == Request(s2, u1.p);
    assert UserTask(u, pick) == (u1, Some(s2));
    assert SelectSeat(u1.p, pick) == Request(s1, u2.p);
    assert PurchaseTask(u1.p, pick) == Request(s1, u2.p);
    assert UserTask(u1, pick) == (u2, Some(s1));
    assert Run(u1, [pick]).1 == [s1] + Run(u2, []).1;
    assert Run(u, [pick, pick]).1 == [s2] + Run(u1, [pick]).1;
  }

  /** A whole user lifetime: `on_start` followed by any number of tasks
      sends at most `attempts_total` (94) requests plus one per task whose
      response handling raised, every one for a seat of the slice it
      dequeued; a user that found the queue empty sends none. */
  lemma UserLifetime(queue: seq<Slice>, shuffled: Slice, picks: seq<Pick>)
    requires queue != [] ==> multiset(shuffled) == multiset(queue[0])
    ensures var sent := Run(OnStart(queue, shuffled).0, picks).1;
      && |sent| <= 94 + Raises(picks)
      && (queue == [] ==> sent == [])
      && (queue != [] ==> forall s :: s in sent ==> s in queue[0])
  {
    var (u, rest) := OnStart(queue, shuffled);
    DefaultAttemptsTotal();
    var orig := if queue == [] then [] else queue[0];
    assert UserConsistent(orig, u);
    RunWithinBudget(orig, u, picks);
    if queue == [] {
      StoppedStaysStopped(picks);
    }
  }

  /** Several users starting one after another, each with its own shuffle. */
  function StartUsers(queue: seq<Slice>, shuffles: seq<Slice>): (users: seq<User>)
    requires forall i :: 0 <= i < |shuffles| && i < |queue| ==> multiset(shuffles[i]) == multiset(queue[i])
    ensures |users| == |shuffles|
    ensures forall i :: 0 <= i < |users| ==> (users[i].Running? <==> i < |queue|)
    ensures forall i :: 0 <= i < |users| && users[i].Running? ==> multiset(users[i].p.slice) == multiset(queue[i])
    decreases |shuffles|
  {
    if shuffles == [] then []
    else
      var (u, rest) := OnStart(queue, shuffles[0]);
      assert forall i :: 0 <= i < |shuffles| - 1 && i < |rest| ==> rest[i] == queue[i + 1];
      [u] + StartUsers(rest, shuffles[1..])
  }

  /** No two users ever hold the same seat: started from the queue that
      `on_test_start` fills, the slices of two different running users are
      disjoint. */
  lemma RunningUsersDisjoint(l: Layout, queue: seq<Slice>, shuffles: seq<Slice>, i: nat, j: nat, s: Seat)
    requires SlicedQueue(l, SEATS_PER_USER, queue)
    requires forall k :: 0 <= k < |shuffles| && k < |queue| ==> multiset(shuffles[k]) == multiset(queue[k])
    requires i < |shuffles| && j < |shuffles| && i != j
    requires StartUsers(queue, shuffles)[i].Running? && StartUsers(queue, shuffles)[j].Running?
    ensures !(s in StartUsers(queue, shuffles)[i].p.slice && s in StartUsers(queue, shuffles)[j].p.slice)
  {
    var users := StartUsers(queue, shuffles);
    if s in users[i].p.slice && s in users[j].p.slice {
      assert s in multiset(users[i].p.slice) && s in multiset(users[j].p.slice);
      assert s in queue[i] && s in queue[j];
      var a :| 0 <= a < |queue[i]| && queue[i][a] == s;
      var b :| 0 <= b < |queue[j]| && queue[j][b] == s;
      SlicesDisjoint(l, SEATS_PER_USER, queue, i, j, a, b);
    }
  }
}

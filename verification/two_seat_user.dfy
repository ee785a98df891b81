/** The two-seat simulated user of load_testing/locustfile_event1_5requests.py
    (`FiveRequestsUser`).

    Every user validates the venue layout when it starts and, if the layout
    is usable, gets a budget of two seats. Each task run takes the next seat
    off the shared deterministic queue, sends one purchase for it and spends
    one unit of budget; a user with no budget left, or finding the queue
    empty, stops without sending anything. The queue is a sequence and a
    dequeue is atomic.

    The budget is spent after the response has been handled. When that
    handling raises (a 201 whose body is not a JSON object, a failing query
    request, ...), Locust logs the error and runs the task again later: the
    seat has been dequeued and its purchase sent, but no budget is spent.
    Each scheduled turn says whether that happened. */
module TwoSeatUser {
  import opened Common
  import opened SeatSpace

  /** Seats each user may take. */
  const SEAT_BUDGET: int := 2

  /** `seatsRemaining` is `None` while the attribute has never been set;
      `running` turns false once the user has called `stop`. */
  datatype FiveUser = FiveUser(seatsRemaining: Option<int>, running: bool)

  /** `getattr(self, "seats_remaining", 0)`, floored at zero: the seats the
      user may still take. */
  function Budget(u: FiveUser): nat {
    Max(0, u.seatsRemaining.GetOr(0))
  }

  /** `on_start`. `layout` is `None` when loading it raised. Returns the
      user and whether the runner was told to quit. */
  function OnStart(layout: Option<Layout>): (r: (FiveUser, bool))
    ensures r.0.running
    ensures r.1 <==> !(layout.Some? && layout.value.Positive())
    ensures r.1 ==> Budget(r.0) == 0
    ensures !r.1 ==> Budget(r.0) == SEAT_BUDGET
  {
    if layout.None? then (FiveUser(None, true), true)
    else if layout.value.zoneCount <= 0 || layout.value.rowCount <= 0 || layout.value.colCount <= 0 then
      (FiveUser(None, true), true)
    else (FiveUser(Some(SEAT_BUDGET), true), false)
  }

  /** The effect of one run of `send_purchase_and_query`. */
  datatype TaskResult = TaskResult(user: FiveUser, queue: seq<Seat>, sent: Option<Seat>)

  /** `send_purchase_and_query`: stop when out of budget or when the queue
      is empty; otherwise dequeue one seat, send its purchase and spend one
      unit of budget, whatever the status code, unless handling the
      response raised. */
  function SendPurchaseAndQuery(u: FiveUser, queue: seq<Seat>, handlerRaises: bool): (r: TaskResult)
    ensures r.sent.Some? <==> Budget(u) > 0 && queue != []
    ensures r.sent.Some? ==> [r.sent.value] + r.queue == queue && r.user.running == u.running
    ensures r.sent.Some? && !handlerRaises ==> Budget(r.user) == Budget(u) - 1
    ensures r.sent.Some? && handlerRaises ==> Budget(r.user) == Budget(u)
    ensures r.sent.None? ==> r.queue == queue && Budget(r.user) == Budget(u) && !r.user.running
  {
    if u.seatsRemaining.GetOr(0) <= 0 then TaskResult(u.(running := false), queue, None)
    else if queue == [] then TaskResult(u.(running := false), queue, None)
    else
      var seat := queue[0];
      var spent := if handlerRaises then u.seatsRemaining else Some(u.seatsRemaining.value - 1);
      TaskResult(u.(seatsRemaining := spent), queue[1..], Some(seat))
  }

  /** All users and the shared queue. */
  datatype World = World(users: seq<FiveUser>, queue: seq<Seat>)

  /** One request in the global order: which user sent it, for which seat. */
  datatype Sent = Sent(user: nat, seat: Seat)

  /** The world after some task runs and the requests sent, in order. */
  datatype Trace = Trace(world: World, log: seq<Sent>)

  /** One scheduled task run: whose task it is, and whether handling the
      response raised. */
  datatype Turn = Turn(user: nat, handlerRaises: bool)

  /** The harness runs the task of one user; a stopped user runs nothing. */
  function Step(w: World, t: Turn): (r: Trace)
    requires t.user < |w.users|
    ensures |r.world.users| == |w.users|
    ensures |r.log| <= 1
    ensures forall k :: 0 <= k < |w.users| && k != t.user ==> r.world.users[k] == w.users[k]
    ensures r.log != [] ==> r.log[0].user == t.user
  {
    var i := t.user;
    if !w.users[i].running then Trace(w, [])
    else
      var res := SendPurchaseAndQuery(w.users[i], w.queue, t.handlerRaises);
      Trace(World(w.users[i := res.user], res.queue), if res.sent.Some? then [Sent(i, res.sent.value)] else [])
  }

  /** Every scheduled turn names one of `n` users. */
  predicate ValidOrder(order: seq<Turn>, n: nat) {
    forall k :: 0 <= k < |order| ==> order[k].user < n
  }

  /** How many turns of user `j` had their response handling raise. */
  function RaisedTurns(order: seq<Turn>, j: nat): nat {
    if order == [] then 0
    else (if order[0].user == j && order[0].handlerRaises then 1 else 0) + RaisedTurns(order[1..], j)
  }

  /** Any interleaving of task runs, given as the sequence of users the
      harness schedules. */
  function Schedule(w: World, order: seq<Turn>): (r: Trace)
    requires ValidOrder(order, |w.users|)
    ensures |r.world.users| == |w.users|
    decreases |order|
  {
    if order == [] then Trace(w, [])
    else
      var first := Step(w, order[0]);
      var rest := Schedule(first.world, order[1..]);
      Trace(rest.world, first.log + rest.log)
  }

  /** The seats of a request log, in the same order. */
  function SeatsOf(log: seq<Sent>): (seats: seq<Seat>)
    ensures |seats| == |log|
    ensures forall k :: 0 <= k < |log| ==> seats[k] == log[k].seat
  {
    seq(|log|, k requires 0 <= k < |log| => log[k].seat)
  }

  function SentBy(log: seq<Sent>, j: nat): nat {
    if log == [] then 0 else (if log[0].user == j then 1 else 0) + SentBy(log[1..], j)
  }

  /** A single step dequeues exactly the seat it sends. */
  lemma StepConservesQueue(w: World, t: Turn)
    requires t.user < |w.users|
    ensures SeatsOf(Step(w, t).log) + Step(w, t).world.queue == w.queue
  {
    var st := Step(w, t);
    if st.log != [] {
      assert SeatsOf(st.log) == [st.log[0].seat];
    }
  }

  /** A single step spends one unit of budget of the user that sent,
      unless handling its response raised. */
  lemma StepWithinBudget(w: World, t: Turn, j: nat)
    requires t.user < |w.users| && j < |w.users|
    ensures SentBy(Step(w, t).log, j) + Budget(Step(w, t).world.users[j])
      <= Budget(w.users[j]) + (if t.user == j && t.handlerRaises then 1 else 0)
  {
    var st := Step(w, t);
    if st.log != [] {
      assert SentBy(st.log, j) == if t.user == j then 1 else 0;
    }
  }

  /** A user with no budget left sends nothing in a step and keeps none. */
  lemma StepWithoutBudget(w: World, t: Turn, j: nat)
    requires t.user < |w.users| && j < |w.users|
    requires Budget(w.users[j]) == 0
    ensures SentBy(Step(w, t).log, j) == 0
    ensures Budget(Step(w, t).world.users[j]) == 0
  {
    var st := Step(w, t);
    if st.log != [] {
      assert SentBy(st.log, j) == if t.user == j then 1 else 0;
    }
  }

  lemma SeatsOfAppend(a: seq<Sent>, b: seq<Sent>)
    ensures SeatsOf(a + b) == SeatsOf(a) + SeatsOf(b)
  {
    assert forall k :: 0 <= k < |a + b| ==> SeatsOf(a + b)[k] == (SeatsOf(a) + SeatsOf(b))[k];
  }

  /** `a + mid == whole` and `b + rest == mid` put `a + b` in front of `rest`. */
  lemma PrefixChain(a: seq<Seat>, b: seq<Seat>, rest: seq<Seat>, mid: seq<Seat>, whole: seq<Seat>)
    requires b + rest == mid
    requires a + mid == whole
    ensures (a + b) + rest == whole
  {
  }

  lemma {:induction false} SentByAppend(a: seq<Sent>, b: seq<Sent>, j: nat)
    ensures SentBy(a + b, j) == SentBy(a, j) + SentBy(b, j)
    decreases |a|
  {
    if a != [] {
      assert (a + b)[0] == a[0];
      assert (a + b)[1..] == a[1..] + b;
      SentByAppend(a[1..], b, j);
    } else {
      assert a + b == b;
    }
  }

  /** Each queued seat is dequeued by at most one task: the seats sent, in
      global order, followed by what is left in the queue, are exactly the
      original queue. This holds whether or not response handling raised. */
  lemma {:induction false} ScheduleConservesQueue(w: World, order: seq<Turn>)
    requires ValidOrder(order, |w.users|)
    ensures SeatsOf(Schedule(w, order).log) + Schedule(w, order).world.queue == w.queue
    decreases |order|
  {
    if order != [] {
      var first := Step(w, order[0]);
      var rest := Schedule(first.world, order[1..]);
      StepConservesQueue(w, order[0]);
      ScheduleConservesQueue(first.world, order[1..]);
      SeatsOfAppend(first.log, rest.log);
      PrefixChain(SeatsOf(first.log), SeatsOf(rest.log), rest.world.queue, first.world.queue, w.queue);
    } else {
      assert SeatsOf([]) + w.queue == w.queue;
    }
  }

  /** No user sends more requests than its budget at the start of the
      schedule plus its turns whose response handling raised. */
  lemma {:induction false} ScheduleWithinBudget(w: World, order: seq<Turn>, j: nat)
    requires ValidOrder(order, |w.users|)
    requires j < |w.users|
    ensures SentBy(Schedule(w, order).log, j) + Budget(Schedule(w, order).world.users[j])
      <= Budget(w.users[j]) + RaisedTurns(order, j)
    decreases |order|
  {
    if order != [] {
      var first := Step(w, order[0]);
      var rest := Schedule(first.world, order[1..]);
      assert Schedule(w, order) == Trace(rest.world, first.log + rest.log);
      StepWithinBudget(w, order[0], j);
      ScheduleWithinBudget(first.world, order[1..], j);
      SentByAppend(first.log, rest.log, j);
    }
  }

  /** A user whose budget is used up never sends again, whatever raises. */
  lemma {:induction false} ScheduleWithoutBudget(w: World, order: seq<Turn>, j: nat)
    requires ValidOrder(order, |w.users|)
    requires j < |w.users|
    requires Budget(w.users[j]) == 0
    ensures SentBy(Schedule(w, order).log, j) == 0
    decreases |order|
  {
    if order != [] {
      var first := Step(w, order[0]);
      var rest := Schedule(first.world, order[1..]);
      assert Schedule(w, order) == Trace(rest.world, first.log + rest.log);
      StepWithoutBudget(w, order[0], j);
      ScheduleWithoutBudget(first.world, order[1..], j);
      SentByAppend(first.log, rest.log, j);
    } else {
      assert Schedule(w, order).log == [];
    }
  }

  /** Users that all went through `on_start` send at most two purchase
      requests each plus one per own turn whose response handling raised,
      and none at all when the layout was unusable. */
  lemma AtMostTwoRequestsPerUser(layouts: seq<Option<Layout>>, queue: seq<Seat>, order: seq<Turn>, j: nat)
    requires ValidOrder(order, |layouts|)
    requires j < |layouts|
    ensures var w := World(seq(|layouts|, i requires 0 <= i < |layouts| => OnStart(layouts[i]).0), queue);
      && SentBy(Schedule(w, order).log, j) <= SEAT_BUDGET + RaisedTurns(order, j)
      && (OnStart(layouts[j]).1 ==> SentBy(Schedule(w, order).log, j) == 0)
  {
    var w := World(seq(|layouts|, i requires 0 <= i < |layouts| => OnStart(layouts[i]).0), queue);
    ScheduleWithinBudget(w, order, j);
    if OnStart(layouts[j]).1 {
      ScheduleWithoutBudget(w, order, j);
    }
  }

  /** The extra term is needed: a user whose response handling raises on
      every turn keeps its budget and sends a third purchase. */
  lemma RaisingHandlerSendsThird(a: Seat, b: Seat, c: Seat)
    ensures var w := World([OnStart(Some(Layout(1, 1, 1))).0], [a, b, c]);
      SentBy(Schedule(w, [Turn(0, true), Turn(0, true), Turn(0, true)]).log, 0) == 3
  {
    var w := World([OnStart(Some(Layout(1, 1, 1))).0], [a, b, c]);
    var t := Turn(0, true);
    var w1 := Step(w, t).world;
    var w2 := Step(w1, t).world;
    assert w1 == World(w.users, [b, c]);
    assert w2 == World(w.users, [c]);
    assert Schedule(w, [t, t, t]).log == [Sent(0, a), Sent(0, b), Sent(0, c)] by {
      assert Schedule(w2, [t]).log == [Sent(0, c)] + Schedule(Step(w2, t).world, []).log;
      assert Schedule(w1, [t, t]).log == [Sent(0, b)] + Schedule(w2, [t]).log;
      assert Schedule(w, [t, t, t]).log == [Sent(0, a)] + Schedule(w1, [t, t]).log;
    }
    var log := [Sent(0, a), Sent(0, b), Sent(0, c)];
    assert SentBy(log[2..], 0) == 1;
    assert SentBy(log[1..], 0) == 2;
  }
}

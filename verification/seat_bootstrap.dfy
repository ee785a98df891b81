/** The start-up seat initialization of the purchase service
    (`RedisSeatBootstrap.run`).

    The configured event list is walked in order. Disabled events and events
    whose venue id is missing or blank are skipped without asking anything;
    the remaining ones ask the venue service whether their venue exists, and
    those whose venue exists get their seats initialized. A failing
    initialization is logged and the walk goes on. The venue service and the
    seat service are not part of this model: the venue check is a predicate
    on the venue id and the failure of an initialization an input indexed by
    the event's position in the list. The model returns the calls made to
    the two services, in order, and the final count. */
module SeatBootstrap {
  import opened Common

  /** `Event`: Java strings may be null, hence `Option`. */
  datatype Event = Event(
    eventId: Option<string>,
    name: Option<string>,
    eventType: Option<string>,
    date: Option<string>,
    venueId: Option<string>,
    enabled: bool)

  /** `EventsProperties`: `list` is `None` when the property is unset. */
  datatype EventsProperties = EventsProperties(autoInitialize: bool, list: Option<seq<Event>>)

  /** A call to one of the two services. */
  datatype Call =
    | VenueExists(venueId: string)
    | InitializeAllZones(eventId: Option<string>, venueId: string)

  // ------------------------------------------------------------ trimming

  /** Every character is one Java's `String.trim` removes (code <= U+0020). */
  predicate Blank(s: string) {
    forall i :: 0 <= i < |s| ==> s[i] <= ' '
  }

  function TrimStart(s: string): (r: string)
    ensures |r| <= |s| && r == s[|s| - |r|..]
    ensures Blank(s[..|s| - |r|])
    ensures r == [] || r[0] > ' '
  {
    if s != [] && s[0] <= ' ' then
      var r := TrimStart(s[1..]);
      assert s[..|s| - |r|] == [s[0]] + s[1..][..|s| - 1 - |r|];
      r
    else s
  }

  function TrimEnd(s: string): (r: string)
    ensures r <= s
    ensures Blank(s[|r|..])
    ensures r == [] || r[|r| - 1] > ' '
  {
    if s != [] && s[|s| - 1] <= ' ' then
      var r := TrimEnd(s[..|s| - 1]);
      assert s[|r|..] == s[..|s| - 1][|r|..] + [s[|s| - 1]];
      r
    else s
  }

  /** `String.trim`: the result is empty exactly when the string is blank,
      and otherwise starts and ends with a character trim keeps. */
  function Trim(s: string): (r: string)
    ensures r == [] <==> Blank(s)
    ensures r != [] ==> r[0] > ' ' && r[|r| - 1] > ' '
  {
    var t := TrimStart(s);
    var r := TrimEnd(t);
    TrimmedEmptyOnlyIfBlank(s, t, r);
    r
  }

  /** Nothing trim keeps lies outside the kept infix `r` of `t`. */
  lemma TrimmedEmptyOnlyIfBlank(s: string, t: string, r: string)
    requires t == TrimStart(s) && r == TrimEnd(t)
    ensures r == [] ==> Blank(s)
    ensures r != [] ==> r[0] == s[|s| - |t|]
  {
    if r == [] {
      if t != [] {
        assert false;
      }
      assert s[..|s| - |t|] == s;
    } else {
      assert r[0] == t[0];
    }
  }

  // ------------------------------------------------- reference behaviour

  /** The venue id is present and not blank. */
  predicate HasVenue(e: Event) {
    e.venueId.Some? && Trim(e.venueId.value) != ""
  }

  /** The event reaches the venue-existence check. */
  predicate Candidate(e: Event) {
    e.enabled && HasVenue(e)
  }

  /** The event reaches the initializer. */
  predicate Qualifies(e: Event, venueExists: string -> bool) {
    Candidate(e) && venueExists(e.venueId.value)
  }

  /** The calls one event causes, in order. */
  function EventCalls(e: Event, venueExists: string -> bool): seq<Call> {
    if !Candidate(e) then []
    else if !venueExists(e.venueId.value) then [VenueExists(e.venueId.value)]
    else [VenueExists(e.venueId.value), InitializeAllZones(e.eventId, e.venueId.value)]
  }

  /** The calls a walk over `events` causes. */
  function Calls(events: seq<Event>, venueExists: string -> bool): seq<Call> {
    if events == [] then []
    else Calls(events[..|events| - 1], venueExists) + EventCalls(events[|events| - 1], venueExists)
  }

  /** The count after a walk over `events`; `initFails(i)` says whether the
      initializer throws for the event at position `i`. */
  function Tally(events: seq<Event>, venueExists: string -> bool, initFails: nat -> bool): nat {
    if events == [] then 0
    else
      var i := |events| - 1;
      Tally(events[..i], venueExists, initFails) + (if Qualifies(events[i], venueExists) && !initFails(i) then 1 else 0)
  }

  /** `run`: the loop of the source, verified against the reference walk. */
  method Run(props: EventsProperties, venueExists: string -> bool, initFails: nat -> bool)
    returns (calls: seq<Call>, initializedCount: nat)
    ensures !props.autoInitialize || props.list.None? || props.list.value == [] ==> calls == [] && initializedCount == 0
    ensures props.autoInitialize && props.list.Some? ==> calls == Calls(props.list.value, venueExists)
    ensures props.autoInitialize && props.list.Some? ==> initializedCount == Tally(props.list.value, venueExists, initFails)
    ensures Initializations(calls) == (if props.autoInitialize && props.list.Some? then QualifyingInits(props.list.value, venueExists) else [])
    ensures Checks(calls) == (if props.autoInitialize && props.list.Some? then CandidateChecks(props.list.value) else [])
    ensures initializedCount <= |Initializations(calls)|
  {
    if !props.autoInitialize {
      return [], 0;
    }
    if props.list.None? || props.list.value == [] {
      return [], 0;
    }
    var events := props.list.value;
    calls := [];
    initializedCount := 0;
    for i := 0 to |events|
      invariant calls == Calls(events[..i], venueExists)
      invariant initializedCount == Tally(events[..i], venueExists, initFails)
    {
      var event := events[i];
      WalkStep(events, i, venueExists, initFails);
      ghost var before := calls;
      if !event.enabled {
        continue;
      }
      var venueId := event.venueId;
      if venueId.None? || Trim(venueId.value) == "" {
        continue;
      }
      calls := calls + [VenueExists(venueId.value)];
      if !venueExists(venueId.value) {
        assert EventCalls(event, venueExists) == [VenueExists(venueId.value)];
        continue;
      }
      calls := calls + [InitializeAllZones(event.eventId, venueId.value)];
      assert EventCalls(event, venueExists) == [VenueExists(venueId.value), InitializeAllZones(event.eventId, venueId.value)];
      AppendTwo(before, VenueExists(venueId.value), InitializeAllZones(event.eventId, venueId.value));
      if !initFails(i) {
        initializedCount := initializedCount + 1;
      }
    }
    assert events[..|events|] == events;
    InitializerCallsAreQualifyingEvents(events, venueExists);
    ChecksAreCandidateEvents(events, venueExists);
    TallyBounds(events, venueExists, initFails);
  }

  lemma AppendTwo(s: seq<Call>, a: Call, b: Call)
    ensures s + [a] + [b] == s + [a, b]
  {
  }

  /** One more event extends the reference walk by that event's calls. */
  lemma WalkStep(events: seq<Event>, i: nat, venueExists: string -> bool, initFails: nat -> bool)
    requires i < |events|
    ensures Calls(events[..i + 1], venueExists) == Calls(events[..i], venueExists) + EventCalls(events[i], venueExists)
    ensures Tally(events[..i + 1], venueExists, initFails)
      == Tally(events[..i], venueExists, initFails) + (if Qualifies(events[i], venueExists) && !initFails(i) then 1 else 0)
  {
    assert events[..i + 1][..i] == events[..i];
  }

  // ---------------------------------------------------------- properties

  /** The initializer calls among `calls`, in order. */
  function Initializations(calls: seq<Call>): seq<Call> {
    if calls == [] then []
    else Initializations(calls[..|calls| - 1]) + (if calls[|calls| - 1].InitializeAllZones? then [calls[|calls| - 1]] else [])
  }

  /** The existence checks among `calls`, in order. */
  function Checks(calls: seq<Call>): seq<Call> {
    if calls == [] then []
    else Checks(calls[..|calls| - 1]) + (if calls[|calls| - 1].VenueExists? then [calls[|calls| - 1]] else [])
  }

  /** One initializer call per qualifying event, in list order. */
  function QualifyingInits(events: seq<Event>, venueExists: string -> bool): seq<Call> {
    if events == [] then []
    else
      var e := events[|events| - 1];
      QualifyingInits(events[..|events| - 1], venueExists)
        + (if Qualifies(e, venueExists) then [InitializeAllZones(e.eventId, e.venueId.value)] else [])
  }

  /** One existence check per enabled event with a non-blank venue id, in
      list order. */
  function CandidateChecks(events: seq<Event>): seq<Call> {
    if events == [] then []
    else
      var e := events[|events| - 1];
      CandidateChecks(events[..|events| - 1]) + (if Candidate(e) then [VenueExists(e.venueId.value)] else [])
  }

  lemma {:induction false} InitializationsAppend(a: seq<Call>, b: seq<Call>)
    ensures Initializations(a + b) == Initializations(a) + Initializations(b)
    decreases |b|
  {
    if b == [] {
      assert a + b == a;
    } else {
      var b' := b[..|b| - 1];
      assert (a + b)[..|a + b| - 1] == a + b';
      InitializationsAppend(a, b');
    }
  }

  lemma {:induction false} ChecksAppend(a: seq<Call>, b: seq<Call>)
    ensures Checks(a + b) == Checks(a) + Checks(b)
    decreases |b|
  {
    if b == [] {
      assert a + b == a;
    } else {
      var b' := b[..|b| - 1];
      assert (a + b)[..|a + b| - 1] == a + b';
      ChecksAppend(a, b');
    }
  }

  lemma EventInitializations(e: Event, venueExists: string -> bool)
    ensures Initializations(EventCalls(e, venueExists))
      == if Qualifies(e, venueExists) then [InitializeAllZones(e.eventId, e.venueId.value)] else []
  {
    var ec := EventCalls(e, venueExists);
    if |ec| == 2 {
      assert ec[..1] == [ec[0]];
      assert Initializations(ec[..1]) == Initializations([]) + [];
    } else if |ec| == 1 {
      assert Initializations(ec) == Initializations([]) + [];
    }
  }

  lemma EventChecks(e: Event, venueExists: string -> bool)
    ensures Checks(EventCalls(e, venueExists)) == if Candidate(e) then [VenueExists(e.venueId.value)] else []
  {
    var ec := EventCalls(e, venueExists);
    if |ec| == 2 {
      assert ec[..1] == [ec[0]];
      assert Checks(ec[..1]) == Checks([]) + [ec[0]];
    } else if |ec| == 1 {
      assert Checks(ec) == Checks([]) + [ec[0]];
    }
  }

  /** The initializer is called exactly for the events that are enabled,
      have a non-blank venue id and whose venue exists, once each and in
      list order. */
  lemma {:induction false} InitializerCallsAreQualifyingEvents(events: seq<Event>, venueExists: string -> bool)
    ensures Initializations(Calls(events, venueExists)) == QualifyingInits(events, venueExists)
    decreases |events|
  {
    if events != [] {
      var prefix := events[..|events| - 1];
      var e := events[|events| - 1];
      InitializerCallsAreQualifyingEvents(prefix, venueExists);
      InitializationsAppend(Calls(prefix, venueExists), EventCalls(e, venueExists));
      EventInitializations(e, venueExists);
    }
  }

  /** The venue service is asked only about, and about every, enabled event
      with a non-blank venue id, in list order: disabled events and blank
      venue ids never reach it. */
  lemma {:induction false} ChecksAreCandidateEvents(events: seq<Event>, venueExists: string -> bool)
    ensures Checks(Calls(events, venueExists)) == CandidateChecks(events)
    decreases |events|
  {
    if events != [] {
      var prefix := events[..|events| - 1];
      var e := events[|events| - 1];
      ChecksAreCandidateEvents(prefix, venueExists);
      ChecksAppend(Calls(prefix, venueExists), EventCalls(e, venueExists));
      EventChecks(e, venueExists);
    }
  }

  /** The count is at most the number of initializer calls, hence at most
      the length of the list, and equals it when no initialization fails. */
  lemma {:induction false} TallyBounds(events: seq<Event>, venueExists: string -> bool, initFails: nat -> bool)
    ensures Tally(events, venueExists, initFails) <= |QualifyingInits(events, venueExists)| <= |events|
    ensures (forall i: nat :: i < |events| ==> !initFails(i))
      ==> Tally(events, venueExists, initFails) == |QualifyingInits(events, venueExists)|
    decreases |events|
  {
    if events != [] {
      TallyBounds(events[..|events| - 1], venueExists, initFails);
    }
  }
}

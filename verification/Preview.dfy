/** The single-flight protocol of materializeApplicationPreview in internal/api/catalog.go, over
    every interleaving of concurrent calls. */
module Preview {
  import opened Text

  /** What a build produces: a preview or a failure. */
  datatype Result = Built(preview: string) | Failure(message: string)

  /** One build: its key, the call that runs it, when that call entered, and the result and
      time with which it was closed. */
  datatype Flight = Flight(key: string, leader: nat, since: nat, done: Option<(Result, nat)>)

  // ---- Interleavings ----

  /** A call: when it entered and with which key, the flight it leads or joined, and how it returned. */
  datatype Phase = Leading | Joined | Returned(result: Result) | CanceledCall

  datatype Call = Call(key: string, flight: nat, entered: nat, leads: bool, phase: Phase)

  datatype State = State(open: map<string, nat>, flights: map<nat, Flight>, calls: map<nat, Call>, clock: nat)

  datatype Event =
    | Enter(call: nat, key: string, number: nat)
    | Finish(call: nat, result: Result)
    | Wake(call: nat)
    | Cancel(call: nat)

  /** One locked section, or one turn of the select statement; calls and flights are new when they first occur. */
  predicate Next(s: State, s': State, e: Event) {
    match e
    case Enter(c, key, n) =>
      && c !in s.calls && n !in s.flights
      && s' == if key in s.open
               then s.(calls := s.calls[c := Call(key, s.open[key], s.clock, false, Joined)], clock := s.clock + 1)
               else s.(open := s.open[key := n], flights := s.flights[n := Flight(key, c, s.clock, None)],
                       calls := s.calls[c := Call(key, n, s.clock, true, Leading)], clock := s.clock + 1)
    case Finish(c, result) =>
      && c in s.calls && s.calls[c].phase == Leading && s.calls[c].flight in s.flights
      && var f := s.calls[c].flight;
         s' == s.(open := s.open - {s.flights[f].key}, flights := s.flights[f := s.flights[f].(done := Some((result, s.clock)))],
                  calls := s.calls[c := s.calls[c].(phase := Returned(result))], clock := s.clock + 1)
    case Wake(c) =>
      && c in s.calls && s.calls[c].phase == Joined && s.calls[c].flight in s.flights && s.flights[s.calls[c].flight].done.Some?
      && s' == s.(calls := s.calls[c := s.calls[c].(phase := Returned(s.flights[s.calls[c].flight].done.value.0))], clock := s.clock + 1)
    case Cancel(c) =>
      && c in s.calls && s.calls[c].phase == Joined
      && s' == s.(calls := s.calls[c := s.calls[c].(phase := CanceledCall)], clock := s.clock + 1)
  }

  // ---- Invariants ----

  /** The open entries are exactly the flights whose leader is still building. */
  predicate OpenAgree(s: State) {
    && (forall key :: key in s.open ==> s.open[key] in s.flights && s.flights[s.open[key]].key == key && s.flights[s.open[key]].done.None?)
    && (forall f :: f in s.flights && s.flights[f].done.None? ==> s.flights[f].key in s.open && s.open[s.flights[f].key] == f)
  }

  /** A flight has its one leader, which builds until the flight is done and returns its result. */
  predicate LeaderAgrees(s: State, f: nat) {
    && f in s.flights && s.flights[f].leader in s.calls
    && var l := s.calls[s.flights[f].leader];
       && l.flight == f && l.leads && l.key == s.flights[f].key && l.entered == s.flights[f].since < s.clock
       && match s.flights[f].done
          case None => l.phase == Leading
          case Some(d) => l.phase == Returned(d.0) && l.entered < d.1 < s.clock
  }

  /** A call leads or joined a flight of its key that was still open when it entered, and
      returns that flight's result, unless it is canceled. */
  predicate CallAgrees(s: State, c: nat) {
    && c in s.calls && s.calls[c].flight in s.flights
    && var x, f := s.calls[c], s.flights[s.calls[c].flight];
       && f.key == x.key && f.since <= x.entered < s.clock
       && (f.done.Some? ==> x.entered < f.done.value.1)
       && (x.leads <==> f.leader == c)
       && match x.phase
          case Leading => x.leads && f.done.None?
          case Joined => !x.leads
          case CanceledCall => !x.leads
          case Returned(result) => f.done.Some? && f.done.value.0 == result
  }

  predicate Agree(s: State) {
    && OpenAgree(s)
    && (forall f :: f in s.flights ==> LeaderAgrees(s, f))
    && (forall c :: c in s.calls ==> CallAgrees(s, c))
  }

  lemma CallKept(s: State, s': State, d: nat)
    requires CallAgrees(s, d) && d in s'.calls && s'.calls[d] == s.calls[d] && s.clock <= s'.clock
    requires s.calls[d].flight in s'.flights && s'.flights[s.calls[d].flight] == s.flights[s.calls[d].flight]
    ensures CallAgrees(s', d)
  {
  }

  lemma LeaderKept(s: State, s': State, f: nat)
    requires LeaderAgrees(s, f) && f in s'.flights && s'.flights[f] == s.flights[f] && s.clock <= s'.clock
    requires s.flights[f].leader in s'.calls && s'.calls[s.flights[f].leader] == s.calls[s.flights[f].leader]
    ensures LeaderAgrees(s', f)
  {
  }

  lemma EnterOpen(s: State, s': State, c: nat, key: string, n: nat)
    requires OpenAgree(s) && Next(s, s', Enter(c, key, n))
    ensures OpenAgree(s')
  {
  }

  lemma EnterCall(s: State, s': State, c: nat, key: string, n: nat)
    requires Agree(s) && Next(s, s', Enter(c, key, n))
    ensures CallAgrees(s', c) && (n in s'.flights ==> LeaderAgrees(s', n))
  {
    if key in s.open {
      assert LeaderAgrees(s, s.open[key]);
    }
  }

  lemma EnterAgrees(s: State, s': State, c: nat, key: string, n: nat)
    requires Agree(s) && Next(s, s', Enter(c, key, n))
    ensures Agree(s')
  {
    EnterOpen(s, s', c, key, n);
    EnterCall(s, s', c, key, n);
    forall f | f in s.flights ensures LeaderAgrees(s', f) {
      assert LeaderAgrees(s, f);
      LeaderKept(s, s', f);
    }
    forall d | d in s.calls ensures CallAgrees(s', d) {
      assert CallAgrees(s, d);
      CallKept(s, s', d);
    }
  }

  lemma FinishOpen(s: State, s': State, c: nat, result: Result)
    requires OpenAgree(s) && CallAgrees(s, c) && Next(s, s', Finish(c, result))
    ensures OpenAgree(s')
  {
    var f := s.calls[c].flight;
    assert s.open[s.flights[f].key] == f;
  }

  /** Calls of the finished flight now find its result; others are untouched. */
  lemma FinishCall(s: State, s': State, c: nat, result: Result, d: nat)
    requires CallAgrees(s, c) && CallAgrees(s, d) && Next(s, s', Finish(c, result))
    ensures CallAgrees(s', d)
  {
    if s.calls[d].flight != s.calls[c].flight {
      CallKept(s, s', d);
    }
  }

  lemma FinishLeader(s: State, s': State, c: nat, result: Result, f: nat)
    requires CallAgrees(s, c) && LeaderAgrees(s, f) && Next(s, s', Finish(c, result))
    ensures LeaderAgrees(s', f)
  {
    if f != s.calls[c].flight {
      LeaderKept(s, s', f);
    }
  }

  lemma FinishAgrees(s: State, s': State, c: nat, result: Result)
    requires Agree(s) && Next(s, s', Finish(c, result))
    ensures Agree(s')
  {
    assert CallAgrees(s, c);
    FinishOpen(s, s', c, result);
    forall f | f in s'.flights ensures LeaderAgrees(s', f) {
      assert LeaderAgrees(s, f);
      FinishLeader(s, s', c, result, f);
    }
    forall d | d in s'.calls ensures CallAgrees(s', d) {
      assert CallAgrees(s, d);
      FinishCall(s, s', c, result, d);
    }
  }

  lemma ReturnAgrees(s: State, s': State, c: nat, e: Event)
    requires Agree(s) && Next(s, s', e) && (e == Wake(c) || e == Cancel(c))
    ensures Agree(s')
  {
    assert CallAgrees(s, c);
    forall f | f in s'.flights ensures LeaderAgrees(s', f) {
      assert LeaderAgrees(s, f);
      LeaderKept(s, s', f);
    }
    forall d | d in s'.calls ensures CallAgrees(s', d) {
      assert CallAgrees(s, d);
      if d != c {
        CallKept(s, s', d);
      }
    }
  }

  lemma NextAgrees(s: State, s': State, e: Event)
    requires Agree(s) && Next(s, s', e)
    ensures Agree(s')
  {
    match e {
      case Enter(c, key, n) => EnterAgrees(s, s', c, key, n);
      case Finish(c, result) => FinishAgrees(s, s', c, result);
      case Wake(c) => ReturnAgrees(s, s', c, e);
      case Cancel(c) => ReturnAgrees(s, s', c, e);
    }
  }

  // ---- Every interleaving ----

  const START: State := State(map[], map[], map[], 0)

  predicate IsTrace(states: seq<State>, events: seq<Event>) {
    && |states| == |events| + 1 && states[0] == START
    && forall k :: 0 <= k < |events| ==> Next(states[k], states[k + 1], events[k])
  }

  lemma TraceAgrees(states: seq<State>, events: seq<Event>, k: nat)
    requires IsTrace(states, events) && k <= |events|
    ensures Agree(states[k])
  {
    var agree := (s: State) => Agree(s);
    var step := (s, s', e) => Next(s, s', e);
    forall s, s', e | agree(s) && step(s, s', e) ensures agree(s') {
      NextAgrees(s, s', e);
    }
    InvariantHolds(states, events, agree, step, k);
  }

  // ---- The code ----

  ghost predicate Reachable(s: State) {
    exists states, events :: IsTrace(states, events) && states[|events|] == s
  }

  lemma StartReachable()
    ensures Reachable(START)
  {
    var states, events: seq<Event> := [START], [];
    assert IsTrace(states, events) && states[|events|] == START;
  }

  lemma NextReachable(s: State, s': State, e: Event)
    requires Reachable(s) && Next(s, s', e)
    ensures Reachable(s')
  {
    var states, events :| IsTrace(states, events) && states[|events|] == s;
    var longer, more := states + [s'], events + [e];
    assert IsTrace(longer, more) && longer[|more|] == s';
  }

  /** A call has its flight, and its flight has its key. */
  lemma CallFlight(s: State, c: nat)
    requires Reachable(s) && c in s.calls
    ensures s.calls[c].flight in s.flights && s.flights[s.calls[c].flight].key == s.calls[c].key
  {
    var states, events :| IsTrace(states, events) && states[|events|] == s;
    TraceAgrees(states, events, |events|);
    assert CallAgrees(s, c);
  }

  /** The flights with a result are those that are done, and they have the result they are done with. */
  ghost predicate Published(results: map<nat, Result>, flights: map<nat, Flight>) {
    && (forall f :: f in results <==> f in flights && flights[f].done.Some?)
    && (forall f :: f in results ==> results[f] == flights[f].done.value.0)
  }

  /** The fields behind the lock. A flight is named by its number, and its channel is closed
      exactly when it has a result. What only the protocol talks about (the calls, when
      they entered and which flight they share) is ghost. */
  class Server {
    var previewFlights: map<string, nat>
    var results: map<nat, Result>
    ghost var flights: map<nat, Flight>
    ghost var calls: map<nat, Call>
    ghost var clock: nat

    ghost function Snapshot(): State
      reads this
    {
      State(previewFlights, flights, calls, clock)
    }

    ghost predicate Valid()
      reads this
    {
      Reachable(Snapshot()) && Published(results, flights)
    }

    constructor ()
      ensures Valid() && Snapshot() == START
    {
      previewFlights, results, flights, calls, clock := map[], map[], map[], map[], 0;
      StartReachable();
    }

    /** The first locked section: join the flight of the key, or start one. */
    method Enter(ghost call: nat, key: string, number: nat) returns (flight: nat, leads: bool)
      requires Valid() && call !in calls && number !in flights
      modifies this
      ensures Valid() && Next(old(Snapshot()), Snapshot(), Event.Enter(call, key, number))
      ensures flight == calls[call].flight && leads == calls[call].leads
    {
      if key in previewFlights {
        flight, leads := previewFlights[key], false;
        calls := calls[call := Call(key, flight, clock, false, Joined)];
      } else {
        previewFlights := previewFlights[key := number];
        flight, leads := number, true;
        flights := flights[number := Flight(key, call, clock, None)];
        calls := calls[call := Call(key, flight, clock, true, Leading)];
      }
      clock := clock + 1;
      NextReachable(old(Snapshot()), Snapshot(), Event.Enter(call, key, number));
    }

    /** The second locked section: publish the result, wake the waiters, forget the flight. */
    method Finish(ghost call: nat, key: string, flight: nat, result: Result)
      requires Valid() && call in calls && calls[call].phase == Leading && calls[call].key == key && calls[call].flight == flight
      modifies this
      ensures Valid() && Next(old(Snapshot()), Snapshot(), Event.Finish(call, result))
      ensures calls[call].phase == Returned(result)
    {
      CallFlight(Snapshot(), call);
      results := results[flight := result];
      previewFlights := previewFlights - {key};
      flights := flights[flight := flights[flight].(done := Some((result, clock)))];
      calls := calls[call := calls[call].(phase := Returned(result))];
      clock := clock + 1;
      NextReachable(old(Snapshot()), Snapshot(), Event.Finish(call, result));
    }

    /** The select statement of a joiner, once one of its channels is ready; when both are,
        either may be taken. */
    method Wait(ghost call: nat, flight: nat, canceled: bool, preferResult: bool) returns (result: Option<Result>)
      requires Valid() && call in calls && calls[call].phase == Joined && calls[call].flight == flight
      requires canceled || flight in results
      modifies this`calls, this`clock
      ensures Valid()
      ensures result.Some? ==> Next(old(Snapshot()), Snapshot(), Wake(call)) && calls[call].phase == Returned(result.value)
      ensures result.None? ==> canceled && Next(old(Snapshot()), Snapshot(), Cancel(call))
    {
      CallFlight(Snapshot(), call);
      if flight in results && (preferResult || !canceled) {
        result := Some(results[flight]);
        calls := calls[call := calls[call].(phase := Returned(results[flight]))];
        clock := clock + 1;
        NextReachable(old(Snapshot()), Snapshot(), Wake(call));
      } else {
        result := None;
        calls := calls[call := calls[call].(phase := CanceledCall)];
        clock := clock + 1;
        NextReachable(old(Snapshot()), Snapshot(), Cancel(call));
      }
    }
  }

  // ---- Guarantees ----

  predicate Building(s: State, c: nat) {
    c in s.calls && s.calls[c].phase == Leading
  }

  /** At most one build per key is in progress, and the entry of a key is its. */
  lemma OneBuildPerKey(states: seq<State>, events: seq<Event>, k: nat, c: nat, d: nat)
    requires IsTrace(states, events) && k <= |events|
    requires Building(states[k], c) && Building(states[k], d) && states[k].calls[c].key == states[k].calls[d].key
    ensures c == d && states[k].calls[c].key in states[k].open && states[k].open[states[k].calls[c].key] == states[k].calls[c].flight
  {
    TraceAgrees(states, events, k);
    var s := states[k];
    assert CallAgrees(s, c) && CallAgrees(s, d);
  }

  /** No entry survives its leader: a key has an entry exactly while a call builds it. */
  lemma EntriesHaveBuilders(states: seq<State>, events: seq<Event>, k: nat, key: string)
    requires IsTrace(states, events) && k <= |events|
    ensures key in states[k].open <==> exists c :: Building(states[k], c) && states[k].calls[c].key == key
  {
    TraceAgrees(states, events, k);
    var s := states[k];
    if key in s.open {
      assert LeaderAgrees(s, s.open[key]);
      var c := s.flights[s.open[key]].leader;
      assert Building(s, c) && s.calls[c].key == key;
    }
    if c :| Building(s, c) && s.calls[c].key == key {
      assert CallAgrees(s, c);
    }
  }

  /** A call that returned without being canceled returned exactly what its leader returned,
      from a build of its own key that overlapped the call: it was not finished when the call
      entered. */
  lemma JoinersGetTheirLeadersResult(states: seq<State>, events: seq<Event>, k: nat, c: nat)
    requires IsTrace(states, events) && k <= |events|
    requires c in states[k].calls && states[k].calls[c].phase.Returned?
    ensures var s := states[k];
      var x := s.calls[c];
      && x.flight in s.flights && s.flights[x.flight].leader in s.calls
      && var l := s.calls[s.flights[x.flight].leader];
         && l.phase == x.phase && l.key == x.key && l.entered <= x.entered
         && s.flights[x.flight].done.Some? && x.entered < s.flights[x.flight].done.value.1
  {
    TraceAgrees(states, events, k);
    assert CallAgrees(states[k], c) && LeaderAgrees(states[k], states[k].calls[c].flight);
  }
}

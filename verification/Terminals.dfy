/** The terminal tickets and session limits of internal/api/terminals.go, over every
    interleaving of the requests that create tickets, connect, open and close sessions. */
module Terminals {
  import opened Text

  const TOTAL_LIMIT: nat := 32
  const USER_LIMIT: nat := 4
  const TICKET_LIMIT: nat := 100
  const LIFETIME: int := 30

  datatype Ticket = Ticket(id: string, user: string, expiresAt: int)

  type Tickets = map<string, Ticket>

  type Counts = map<string, nat>

  // ---- Sums of counts ----

  ghost function Sum(counts: Counts): nat
    decreases |counts|
  {
    if counts == map[] then 0
    else
      var user :| user in counts;
      counts[user] + Sum(counts - {user})
  }

  lemma {:induction false} SumSplit(counts: Counts, user: string)
    requires user in counts
    ensures Sum(counts) == counts[user] + Sum(counts - {user})
    decreases |counts|
  {
    var first :| first in counts && Sum(counts) == counts[first] + Sum(counts - {first});
    if first != user {
      SumSplit(counts - {first}, user);
      SumSplit(counts - {user}, first);
      assert counts - {first} - {user} == counts - {user} - {first};
    }
  }

  lemma SumUpdate(counts: Counts, user: string, n: nat)
    ensures Sum(counts[user := n]) == Sum(counts - {user}) + n
  {
    SumSplit(counts[user := n], user);
    assert counts[user := n] - {user} == counts - {user};
  }

  function CountOf(counts: Counts, user: string): nat {
    if user in counts then counts[user] else 0
  }

  lemma SumWithout(counts: Counts, user: string)
    ensures Sum(counts) == CountOf(counts, user) + Sum(counts - {user})
  {
    if user in counts {
      SumSplit(counts, user);
    } else {
      assert counts - {user} == counts;
    }
  }

  // ---- The locked sections ----

  function Unexpired(tickets: Tickets, now: int): Tickets {
    map id | id in tickets && tickets[id].expiresAt >= now :: tickets[id]
  }

  function Acquired(counts: Counts, user: string): Counts {
    counts[user := CountOf(counts, user) + 1]
  }

  ghost predicate MayAcquire(counts: Counts, user: string) {
    Sum(counts) < TOTAL_LIMIT && CountOf(counts, user) < USER_LIMIT
  }

  function Released(counts: Counts, user: string): Counts {
    if CountOf(counts, user) <= 1 then counts - {user} else counts[user := CountOf(counts, user) - 1]
  }

  /** The loop of acquireTerminal. */
  method Total(counts: Counts) returns (total: nat)
    ensures total == Sum(counts)
  {
    total := 0;
    var todo := counts;
    while todo != map[]
      invariant total + Sum(todo) == Sum(counts)
      decreases |todo|
    {
      var user :| user in todo;
      SumSplit(todo, user);
      total := total + todo[user];
      todo := todo - {user};
    }
  }

  /** The server fields behind the lock. */
  class Server {
    var terminals: Tickets
    var active: Counts

    constructor ()
      ensures terminals == map[] && active == map[]
    {
      terminals, active := map[], map[];
    }

    /** The locked section of the ticket request. */
    method CreateTicket(id: string, user: string, now: int) returns (ok: bool)
      modifies this`terminals
      ensures ok <==> |Unexpired(old(terminals), now)| < TICKET_LIMIT
      ensures terminals == if ok then Unexpired(old(terminals), now)[id := Ticket(id, user, now + LIFETIME)] else Unexpired(old(terminals), now)
    {
      var todo := terminals.Keys;
      while todo != {}
        invariant todo <= old(terminals).Keys
        invariant terminals == map x | x in old(terminals) && (x in todo || old(terminals)[x].expiresAt >= now) :: old(terminals)[x]
        decreases |todo|
      {
        var ticketId :| ticketId in todo;
        if terminals[ticketId].expiresAt < now {
          terminals := terminals - {ticketId};
        }
        todo := todo - {ticketId};
      }
      assert terminals == Unexpired(old(terminals), now);
      if |terminals| >= TICKET_LIMIT {
        return false;
      }
      terminals := terminals[id := Ticket(id, user, now + LIFETIME)];
      return true;
    }

    /** The locked section of the connect request and the check behind it. */
    method TakeTicket(id: string, user: string, now: int) returns (ticket: Option<Ticket>)
      modifies this`terminals
      ensures terminals == old(terminals) - {id}
      ensures ticket == if id in old(terminals) && old(terminals)[id].expiresAt >= now && old(terminals)[id].user == user
                        then Some(old(terminals)[id]) else None
    {
      if id !in terminals {
        return None;
      }
      var found := terminals[id];
      terminals := terminals - {id};
      if found.expiresAt < now || found.user != user {
        return None;
      }
      return Some(found);
    }

    /** internal/api/terminals.go: acquireTerminal. */
    method AcquireTerminal(user: string) returns (ok: bool)
      modifies this`active
      ensures ok <==> MayAcquire(old(active), user)
      ensures active == if ok then Acquired(old(active), user) else old(active)
    {
      var total := Total(active);
      if total >= TOTAL_LIMIT || CountOf(active, user) >= USER_LIMIT {
        return false;
      }
      active := active[user := CountOf(active, user) + 1];
      return true;
    }

    /** internal/api/terminals.go: releaseTerminal. */
    method ReleaseTerminal(user: string)
      modifies this`active
      ensures active == Released(old(active), user)
    {
      if CountOf(active, user) <= 1 {
        active := active - {user};
        return;
      }
      active := active[user := CountOf(active, user) - 1];
    }
  }

  // ---- Interleavings ----

  /** A connect request of a user: it holds a ticket it took at some time, and then a session,
      until it ends. */
  datatype Connection =
    | Waiting(ticket: Ticket, user: string, at: int)
    | Open(ticket: Ticket, user: string, at: int)
    | Ended(ticket: Ticket, user: string, at: int)

  /** The server, all requests that took a ticket, and every ticket ever issued. */
  datatype State = State(tickets: Tickets, active: Counts, connections: map<nat, Connection>, issued: set<string>)

  datatype Event =
    | Create(id: string, user: string, now: int)
    | Take(connection: nat, id: string, user: string, now: int)
    | Acquire(connection: nat)
    | Release(connection: nat)

  /** One locked section runs. Ticket identifiers and requests are new when they first occur. */
  ghost predicate Next(s: State, s': State, e: Event) {
    match e
    case Create(id, user, now) =>
      var left := Unexpired(s.tickets, now);
      && id !in s.issued
      && s' == if |left| < TICKET_LIMIT
               then s.(tickets := left[id := Ticket(id, user, now + LIFETIME)], issued := s.issued + {id})
               else s.(tickets := left)
    case Take(c, id, user, now) =>
      && c !in s.connections
      && s' == if id in s.tickets && s.tickets[id].expiresAt >= now && s.tickets[id].user == user
               then s.(tickets := s.tickets - {id}, connections := s.connections[c := Waiting(s.tickets[id], user, now)])
               else s.(tickets := s.tickets - {id})
    case Acquire(c) =>
      && c in s.connections && s.connections[c].Waiting?
      && var x := s.connections[c];
         s' == if MayAcquire(s.active, x.user)
               then s.(active := Acquired(s.active, x.user), connections := s.connections[c := Open(x.ticket, x.user, x.at)])
               else s.(connections := s.connections[c := Ended(x.ticket, x.user, x.at)])
    case Release(c) =>
      && c in s.connections && s.connections[c].Open?
      && var x := s.connections[c];
         s' == s.(active := Released(s.active, x.user), connections := s.connections[c := Ended(x.ticket, x.user, x.at)])
  }

  // ---- Invariants ----

  /** The open sessions, and those of one user. */
  function OpenSessions(s: State): set<nat> {
    set c | c in s.connections && s.connections[c].Open?
  }

  function SessionsOf(s: State, user: string): set<nat> {
    set c | c in s.connections && s.connections[c].Open? && s.connections[c].user == user
  }

  /** The counts are those of the open sessions, positive and within the limits. */
  ghost predicate CountsAgree(s: State) {
    && Sum(s.active) == |OpenSessions(s)| && Sum(s.active) <= TOTAL_LIMIT
    && (forall user :: CountOf(s.active, user) == |SessionsOf(s, user)| && CountOf(s.active, user) <= USER_LIMIT)
    && (forall user :: user in s.active ==> s.active[user] >= 1)
  }

  /** A ticket waits or was taken by one request, of its owner and before it expired. */
  ghost predicate TicketsAgree(s: State) {
    && |s.tickets| <= TICKET_LIMIT
    && (forall id :: id in s.tickets ==> s.tickets[id].id == id && id in s.issued)
    && (forall c :: c in s.connections ==>
          && s.connections[c].ticket.id in s.issued && s.connections[c].ticket.id !in s.tickets
          && s.connections[c].user == s.connections[c].ticket.user && s.connections[c].at <= s.connections[c].ticket.expiresAt)
    && (forall c, d :: c in s.connections && d in s.connections && c != d ==> s.connections[c].ticket.id != s.connections[d].ticket.id)
  }

  lemma SameSessions(s: State, s': State)
    requires forall c :: c in s'.connections && s'.connections[c].Open? <==> c in s.connections && s.connections[c].Open?
    requires forall c :: c in s.connections && s.connections[c].Open? ==> s'.connections[c] == s.connections[c]
    ensures OpenSessions(s') == OpenSessions(s) && forall user :: SessionsOf(s', user) == SessionsOf(s, user)
  {
  }

  lemma OpenedSessions(s: State, s': State, c: nat, x: Connection)
    requires c in s.connections && !s.connections[c].Open? && x.Open? && s'.connections == s.connections[c := x]
    ensures OpenSessions(s') == OpenSessions(s) + {c} && c !in OpenSessions(s)
    ensures SessionsOf(s', x.user) == SessionsOf(s, x.user) + {c} && c !in SessionsOf(s, x.user)
    ensures forall user :: user != x.user ==> SessionsOf(s', user) == SessionsOf(s, user)
  {
  }

  lemma ClosedSessions(s: State, s': State, c: nat, x: Connection)
    requires c in s.connections && s.connections[c].Open? && !x.Open? && s'.connections == s.connections[c := x]
    ensures OpenSessions(s') == OpenSessions(s) - {c} && c in OpenSessions(s)
    ensures var user := s.connections[c].user; SessionsOf(s', user) == SessionsOf(s, user) - {c} && c in SessionsOf(s, user)
    ensures forall user :: user != s.connections[c].user ==> SessionsOf(s', user) == SessionsOf(s, user)
  {
  }

  lemma AcquireAgrees(s: State, s': State, c: nat)
    requires CountsAgree(s) && Next(s, s', Acquire(c))
    ensures CountsAgree(s')
  {
    var x := s.connections[c];
    var user := x.user;
    if MayAcquire(s.active, user) {
      OpenedSessions(s, s', c, Open(x.ticket, x.user, x.at));
      SumWithout(s.active, user);
      SumUpdate(s.active, user, CountOf(s.active, user) + 1);
    } else {
      SameSessions(s, s');
    }
  }

  lemma ReleaseAgrees(s: State, s': State, c: nat)
    requires CountsAgree(s) && Next(s, s', Release(c))
    ensures CountsAgree(s')
  {
    var x := s.connections[c];
    var user := x.user;
    ClosedSessions(s, s', c, Ended(x.ticket, x.user, x.at));
    SumWithout(s.active, user);
    assert CountOf(s.active, user) == |SessionsOf(s, user)| >= 1;
    if CountOf(s.active, user) > 1 {
      SumUpdate(s.active, user, CountOf(s.active, user) - 1);
    }
  }

  /** Every step keeps the counts those of the open sessions. */
  lemma NextCountsAgree(s: State, s': State, e: Event)
    requires CountsAgree(s) && Next(s, s', e)
    ensures CountsAgree(s')
  {
    match e {
      case Create(_, _, _) => SameSessions(s, s');
      case Take(_, _, _, _) => SameSessions(s, s');
      case Acquire(c) => AcquireAgrees(s, s', c);
      case Release(c) => ReleaseAgrees(s, s', c);
    }
  }

  lemma {:induction false} FewerKeys(a: Tickets, b: Tickets)
    requires a.Keys <= b.Keys
    ensures |a| <= |b|
    decreases |a|
  {
    if a != map[] {
      var id :| id in a;
      FewerKeys(a - {id}, b - {id});
    }
  }

  lemma CreateTickets(s: State, s': State, id: string, user: string, now: int)
    requires TicketsAgree(s) && Next(s, s', Create(id, user, now))
    ensures TicketsAgree(s')
  {
    FewerKeys(Unexpired(s.tickets, now), s.tickets);
  }

  lemma TakeTickets(s: State, s': State, c: nat, id: string, user: string, now: int)
    requires TicketsAgree(s) && Next(s, s', Take(c, id, user, now))
    ensures TicketsAgree(s')
  {
    FewerKeys(s.tickets - {id}, s.tickets);
  }

  /** Every step keeps tickets single-use, personal and timely. */
  lemma NextTicketsAgree(s: State, s': State, e: Event)
    requires TicketsAgree(s) && Next(s, s', e)
    ensures TicketsAgree(s')
  {
    match e {
      case Create(id, user, now) => CreateTickets(s, s', id, user, now);
      case Take(c, id, user, now) => TakeTickets(s, s', c, id, user, now);
      case Acquire(c) =>
      case Release(c) =>
    }
  }

  const START: State := State(map[], map[], map[], {})

  ghost predicate IsTrace(states: seq<State>, events: seq<Event>) {
    && |states| == |events| + 1 && states[0] == START
    && forall k :: 0 <= k < |events| ==> Next(states[k], states[k + 1], events[k])
  }

  /** In every interleaving: the sum of the per-user counts is the number of sessions between
      acquire and release, at most 32 in all and 4 per user, every stored count is positive,
      at most 100 tickets wait, and each ticket was taken by at most one request, of its
      owner and before it expired. */
  lemma TerminalGuarantees(states: seq<State>, events: seq<Event>, k: nat)
    requires IsTrace(states, events) && k <= |events|
    ensures CountsAgree(states[k]) && TicketsAgree(states[k])
  {
    var agree := (s: State) => CountsAgree(s) && TicketsAgree(s);
    var step := (s, s', e) => Next(s, s', e);
    forall s, s', e | agree(s) && step(s, s', e) ensures agree(s') {
      NextCountsAgree(s, s', e);
      NextTicketsAgree(s, s', e);
    }
    assert OpenSessions(START) == {} && forall user :: SessionsOf(START, user) == {};
    InvariantHolds(states, events, agree, step, k);
  }

  // ---- The limits, told by sessions and requests ----

  /** In every state a session is opened exactly if fewer than 32 sessions are open, and fewer
      than four of the same user. */
  lemma OpenedExactly(s: State, s': State, c: nat)
    requires CountsAgree(s) && Next(s, s', Acquire(c))
    ensures var user := s.connections[c].user;
      c in s'.connections && (s'.connections[c].Open? <==>
        |set d | d in s.connections && s.connections[d].Open?| < 32
        && |set d | d in s.connections && s.connections[d].Open? && s.connections[d].user == user| < 4)
  {
    assert OpenSessions(s) == set d | d in s.connections && s.connections[d].Open?;
    assert SessionsOf(s, s.connections[c].user) == set d | d in s.connections && s.connections[d].Open? && s.connections[d].user == s.connections[c].user;
  }

  /** A ticket is issued exactly if fewer than a hundred others have not expired. */
  lemma IssuedExactly(s: State, s': State, id: string, user: string, now: int)
    requires TicketsAgree(s) && Next(s, s', Create(id, user, now))
    ensures id in s'.tickets <==> |set x | x in s.tickets && s.tickets[x].expiresAt >= now| < 100
    ensures id in s'.tickets ==> s'.tickets[id] == Ticket(id, user, now + 30)
    ensures forall x :: x != id ==> (x in s'.tickets <==> x in s.tickets && s.tickets[x].expiresAt >= now)
  {
    var left := Unexpired(s.tickets, now);
    assert left.Keys == set x | x in s.tickets && s.tickets[x].expiresAt >= now;
  }

  /** The ticket was issued for its user by one of the first `k` events, thirty seconds before
      it expires. */
  predicate Requested(events: seq<Event>, k: nat, t: Ticket)
    requires k <= |events|
  {
    exists j :: 0 <= j < k && events[j] == Create(t.id, t.user, t.expiresAt - 30)
  }

  ghost predicate AllRequested(events: seq<Event>, k: nat, s: State)
    requires k <= |events|
  {
    && (forall id :: id in s.tickets ==> Requested(events, k, s.tickets[id]))
    && (forall c :: c in s.connections ==> Requested(events, k, s.connections[c].ticket))
  }

  lemma RequestedStep(events: seq<Event>, k: nat, s: State, s': State)
    requires k < |events| && AllRequested(events, k, s) && Next(s, s', events[k])
    ensures AllRequested(events, k + 1, s')
  {
    forall t: Ticket | Requested(events, k, t) ensures Requested(events, k + 1, t) {
      var j :| 0 <= j < k && events[j] == Create(t.id, t.user, t.expiresAt - 30);
    }
    if events[k].Create? {
      var t := Ticket(events[k].id, events[k].user, events[k].now + 30);
      assert events[k] == Create(t.id, t.user, t.expiresAt - 30);
      assert Requested(events, k + 1, t);
    }
  }

  /** What holds at first and is carried on by every step holds after as many steps. */
  lemma {:induction false} CarriedOn(states: seq<State>, events: seq<Event>, good: (nat, State) -> bool, next: (State, State, Event) -> bool, k: nat)
    requires |states| == |events| + 1 && k <= |events| && good(0, states[0])
    requires forall j: nat :: j < |events| ==> next(states[j], states[j + 1], events[j])
    requires forall j: nat, s, s' :: j < |events| && good(j, s) && next(s, s', events[j]) ==> good(j + 1, s')
    ensures good(k, states[k])
  {
    if k > 0 {
      CarriedOn(states, events, good, next, k - 1);
      assert next(states[k - 1], states[k - 1 + 1], events[k - 1]);
    }
  }

  lemma TraceRequested(states: seq<State>, events: seq<Event>, k: nat)
    requires IsTrace(states, events) && k <= |events|
    ensures AllRequested(events, k, states[k])
  {
    var good := (j: nat, s: State) => j <= |events| && AllRequested(events, j, s);
    var next := (s, s', e) => Next(s, s', e);
    forall j: nat, s, s' | j < |events| && good(j, s) && next(s, s', events[j]) ensures good(j + 1, s') {
      RequestedStep(events, j, s, s');
    }
    CarriedOn(states, events, good, next, k);
  }

  /** Whoever holds a session asked for its ticket before, under the same user, and came for it
      within thirty seconds. */
  lemma ConnectionsAsked(states: seq<State>, events: seq<Event>, k: nat, c: nat) returns (j: nat)
    requires IsTrace(states, events) && k <= |events| && c in states[k].connections
    ensures var x := states[k].connections[c];
      && j < k && events[j].Create? && events[j].id == x.ticket.id && events[j].user == x.user && x.at <= events[j].now + 30
  {
    TraceRequested(states, events, k);
    TerminalGuarantees(states, events, k);
    var t := states[k].connections[c].ticket;
    assert Requested(events, k, t);
    j :| j < k && events[j] == Create(t.id, t.user, t.expiresAt - 30);
  }
}

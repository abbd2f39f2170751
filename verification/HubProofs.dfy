/** Capacity is conserved: what a team, a zone or a rule has given out is what it started
    with plus what was granted, over every run. */
module HubProofs {
  import opened Common
  import opened Hub

  // ---------------------------------------------------------------- sums over reservations

  /** What an entry holds of a team's capacity. */
  function Held(a: Reservations, team: string, id: string): int {
    if IsActive(a, id) && a[id].team == team then a[id].count else 0
  }

  ghost function SumOver(ids: set<string>, a: Reservations, team: string): int {
    if ids == {} then 0
    else
      var id :| id in ids;
      Held(a, team, id) + SumOver(ids - {id}, a, team)
  }

  /** Measurements held by the unreleased reservations of a team. */
  ghost function HeldBy(a: Reservations, team: string): int {
    SumOver(a.Keys, a, team)
  }

  lemma {:induction false} SumSplits(ids: set<string>, a: Reservations, team: string, id: string)
    requires id in ids
    ensures SumOver(ids, a, team) == Held(a, team, id) + SumOver(ids - {id}, a, team)
    decreases ids
  {
    var first :| first in ids && SumOver(ids, a, team) == Held(a, team, first) + SumOver(ids - {first}, a, team);
    if first != id {
      SumSplits(ids - {first}, a, team, id);
      SumSplits(ids - {id}, a, team, first);
      assert ids - {first} - {id} == ids - {id} - {first};
    }
  }

  lemma {:induction false} SumAgrees(ids: set<string>, a: Reservations, b: Reservations, team: string)
    requires forall id :: id in ids ==> Held(a, team, id) == Held(b, team, id)
    ensures SumOver(ids, a, team) == SumOver(ids, b, team)
    decreases ids
  {
    if ids != {} {
      var id :| id in ids;
      SumSplits(ids, a, team, id);
      SumSplits(ids, b, team, id);
      SumAgrees(ids - {id}, a, b, team);
    }
  }

  /** Replacing one entry moves the sum by the difference of what the entry holds. */
  lemma HeldAfterUpdate(a: Reservations, id: string, r: Reservation, team: string)
    ensures HeldBy(a[id := r], team) == HeldBy(a, team) - Held(a, team, id) + Held(a[id := r], team, id)
  {
    var b := a[id := r];
    var others := b.Keys - {id};
    SumSplits(b.Keys, b, team, id);
    SumAgrees(others, a, b, team);
    if id in a {
      SumSplits(a.Keys, a, team, id);
      assert others == a.Keys - {id};
    } else {
      assert others == a.Keys;
    }
  }

  lemma {:induction false} SumNotNegative(ids: set<string>, a: Reservations, team: string)
    requires forall id :: id in ids ==> Held(a, team, id) >= 0
    ensures SumOver(ids, a, team) >= 0
    decreases ids
  {
    if ids != {} {
      var id :| id in ids;
      SumSplits(ids, a, team, id);
      SumNotNegative(ids - {id}, a, team);
    }
  }

  // ---------------------------------------------------------------- structure

  /** Teams are filed under their IDs and every reservation names a team and a positive count. */
  ghost predicate ReservationsKnown(s: State) {
    && (forall id :: id in s.teams ==> s.teams[id].id == id)
    && (forall id :: id in s.assessments ==> s.assessments[id].count > 0 && s.assessments[id].team in s.teams)
  }

  lemma StepKnowsReservations(s: State, op: Op)
    requires ReservationsKnown(s)
    ensures ReservationsKnown(Step(s, op))
  {
  }

  lemma {:induction false} RunKnowsReservations(ops: seq<Op>)
    ensures ReservationsKnown(Run(ops))
  {
    if ops != [] {
      RunKnowsReservations(ops[..|ops| - 1]);
      StepKnowsReservations(Run(ops[..|ops| - 1]), ops[|ops| - 1]);
    }
  }

  // ---------------------------------------------------------------- teams

  /** A team as it was registered. */
  function AsRegistered(ops: seq<Op>, team: string): Team
    requires team in Run(ops).teams
  {
    var before := ops[..|ops| - 1];
    if team in Run(before).teams then AsRegistered(before, team) else Run(ops).teams[team]
  }

  lemma ReserveConserves(s: State, id: string, team: string, count: int, now: int, t: string)
    requires t in s.teams
    ensures var s' := Reserve(s, id, team, count, now).0;
            t in s'.teams && s'.teams[t].capacity == s.teams[t].capacity
            && s'.teams[t].reserved - HeldBy(s'.assessments, t) == s.teams[t].reserved - HeldBy(s.assessments, t)
            && (s'.teams[t].reserved == s.teams[t].reserved || s'.teams[t].reserved <= s'.teams[t].capacity)
  {
    HeldAfterUpdate(s.assessments, id, Reservation(id, team, count, now, None), t);
  }

  lemma ReleaseConserves(s: State, id: string, now: int, t: string)
    requires ReservationsKnown(s) && t in s.teams
    ensures var s' := Release(s, id, now).0;
            t in s'.teams && s'.teams[t].capacity == s.teams[t].capacity
            && s'.teams[t].reserved - HeldBy(s'.assessments, t) == s.teams[t].reserved - HeldBy(s.assessments, t)
            && s'.teams[t].reserved <= s.teams[t].reserved
  {
    if IsActive(s.assessments, id) {
      HeldAfterUpdate(s.assessments, id, s.assessments[id].(releasedAt := Some(now)), t);
    }
  }

  lemma OtherStepsKeepTeams(s: State, op: Op, t: string)
    requires !op.OpReserve? && !op.OpRelease? && t in s.teams
    ensures t in Step(s, op).teams && Step(s, op).teams[t] == s.teams[t] && Step(s, op).assessments == s.assessments
  {
  }

  lemma NewTeamHoldsNothing(s: State, op: Op, t: string)
    requires ReservationsKnown(s) && t !in s.teams && t in Step(s, op).teams
    ensures op.OpAddTeam? && Step(s, op).assessments == s.assessments && HeldBy(s.assessments, t) == 0
  {
    forall id | id in s.assessments
      ensures Held(s.assessments, t, id) == 0
    {
    }
    SumAgrees(s.assessments.Keys, s.assessments, map[], t);
    SumOfNothing(s.assessments.Keys, t);
  }

  lemma {:induction false} SumOfNothing(ids: set<string>, team: string)
    ensures SumOver(ids, map[], team) == 0
    decreases ids
  {
    if ids != {} {
      var id :| id in ids;
      SumSplits(ids, map[], team, id);
      SumOfNothing(ids - {id}, team);
    }
  }

  /** A team has reserved what it was registered with plus what its unreleased reservations
      hold; its capacity never changes; and a team registered within its capacity stays
      within it. */
  lemma {:induction false} TeamCapacityIsConserved(ops: seq<Op>, team: string)
    requires team in Run(ops).teams
    ensures var t, first := Run(ops).teams[team], AsRegistered(ops, team);
            && t.reserved == first.reserved + HeldBy(Run(ops).assessments, team)
            && t.capacity == first.capacity
            && (first.reserved <= first.capacity ==> t.reserved <= t.capacity)
            && first.reserved <= t.reserved
    decreases |ops|
  {
    var n := |ops| - 1;
    var before, op := Run(ops[..n]), ops[n];
    RunKnowsReservations(ops[..n]);
    if team in before.teams {
      TeamCapacityIsConserved(ops[..n], team);
      match op
      case OpReserve(id, t, count, now) => ReserveConserves(before, id, t, count, now, team);
      case OpRelease(id, now) => ReleaseConserves(before, id, now, team);
      case _ => OtherStepsKeepTeams(before, op, team);
    } else {
      NewTeamHoldsNothing(before, op, team);
    }
    RunKnowsReservations(ops);
    HeldIsNotNegative(Run(ops), team);
  }

  lemma HeldIsNotNegative(s: State, team: string)
    requires ReservationsKnown(s)
    ensures HeldBy(s.assessments, team) >= 0
  {
    forall id | id in s.assessments
      ensures Held(s.assessments, team, id) >= 0
    {
    }
    SumNotNegative(s.assessments.Keys, s.assessments, team);
  }

  /** A release is refused for underflow exactly when the team's registered value and its
      other unreleased reservations sum to less than zero - never, for a team registered
      with a non-negative value. */
  lemma UnderflowExact(ops: seq<Op>, id: string, now: int)
    requires IsActive(Run(ops).assessments, id)
    ensures var s := Run(ops); var a := s.assessments[id];
            && a.team in s.teams
            && (Release(s, id, now).1 == Err(Conflict) <==>
                  AsRegistered(ops, a.team).reserved + (HeldBy(s.assessments, a.team) - a.count) < 0)
            && (AsRegistered(ops, a.team).reserved >= 0 ==> Release(s, id, now).1.Ok?)
  {
    RunKnowsReservations(ops);
    var s, a := Run(ops), Run(ops).assessments[id];
    TeamCapacityIsConserved(ops, a.team);
    SumSplits(s.assessments.Keys, s.assessments, a.team, id);
    forall x | x in s.assessments
      ensures Held(s.assessments, a.team, x) >= 0
    {
    }
    SumNotNegative(s.assessments.Keys - {id}, s.assessments, a.team);
  }

  lemma UnderflowStep(s: State, c: Complaint, now: int)
    requires "t" in s.teams && s.teams["t"] == Team("t", 10, -5, 0) && c.id !in s.complaints && !IsActive(s.assessments, c.id)
    requires ValidInput(c)
    ensures var t := Reserve(Submit(s, c, now).0, c.id, "t", 3, now).0;
            IsActive(t.assessments, c.id) && Release(t, c.id, now) == (t, Err(Conflict))
  {
  }

  /** A team registered with minus five reserved cannot take back a reservation of three,
      whatever complaint it is made for. */
  lemma UnderflowHappens(c: Complaint, now: int)
    requires ValidInput(c)
    ensures var s := Run([OpAddTeam(Team("t", 10, -5, 0)), OpSubmit(c, now), OpReserve(c.id, "t", 3, now)]);
            IsActive(s.assessments, c.id) && Release(s, c.id, now) == (s, Err(Conflict))
  {
    var add, submit, reserve := OpAddTeam(Team("t", 10, -5, 0)), OpSubmit(c, now), OpReserve(c.id, "t", 3, now);
    RunOneMore([], add);
    RunOneMore([add], submit);
    RunOneMore([add, submit], reserve);
    assert [] + [add] == [add] && [add] + [submit] == [add, submit] && [add, submit] + [reserve] == [add, submit, reserve];
    UnderflowStep(AddTeam(NEW, Team("t", 10, -5, 0)).0, c, now);
  }

  /** While a complaint holds a reservation, asking for another changes nothing: the answer is
      the reservation it holds, if the asked team could take the request, and an error otherwise. */
  lemma ReservationIsIdempotent(s: State, id: string, team: string, count: int, now: int)
    requires IsActive(s.assessments, id)
    ensures var r := Reserve(s, id, team, count, now);
            && r.0 == s
            && (r.1.Ok? ==> r.1.value == s.assessments[id])
            && (r.1.Ok? <==> count > 0 && id in s.complaints && team in s.teams && s.complaints[id].status in {Pending, Returned}
                             && s.teams[team].capacity - s.teams[team].reserved >= count)
  {
  }

  lemma RunOneMore(ops: seq<Op>, op: Op)
    ensures Run(ops + [op]) == Step(Run(ops), op)
  {
    assert (ops + [op])[..|ops|] == ops;
  }

  lemma StepKeepsReservation(s: State, op: Op, id: string)
    requires IsActive(s.assessments, id) && !(op.OpRelease? && op.id == id)
    ensures id in Step(s, op).assessments && Step(s, op).assessments[id] == s.assessments[id]
  {
  }

  /** A reservation stands until its own release, whatever else happens and is asked for. */
  lemma {:induction false} ReservationStands(ops: seq<Op>, more: seq<Op>, id: string)
    requires IsActive(Run(ops).assessments, id)
    requires forall op :: op in more ==> !(op.OpRelease? && op.id == id)
    ensures IsActive(Run(ops + more).assessments, id)
    ensures Run(ops + more).assessments[id] == Run(ops).assessments[id]
    decreases |more|
  {
    if more == [] {
      assert ops + more == ops;
    } else {
      var n := |more| - 1;
      assert more[n] in more && forall op :: op in more[..n] ==> op in more;
      ReservationStands(ops, more[..n], id);
      assert ops + more == (ops + more[..n]) + [more[n]];
      RunOneMore(ops + more[..n], more[n]);
      StepKeepsReservation(Run(ops + more[..n]), more[n], id);
    }
  }

  /** Releasing undoes a reservation: the team has what it had before. */
  lemma ReleaseUndoesReserve(s: State, id: string, team: string, count: int, now: int, later: int)
    requires ReservationsKnown(s) && !IsActive(s.assessments, id)
    requires Reserve(s, id, team, count, now).1.Ok? && s.teams[team].reserved >= 0
    ensures var undone := Release(Reserve(s, id, team, count, now).0, id, later);
            undone.1.Ok? && undone.0.teams[team].reserved == s.teams[team].reserved
            && forall t :: t in s.teams && t != team ==> undone.0.teams[t] == s.teams[t]
  {
  }

  // ---------------------------------------------------------------- zones and rules

  /** Fixtures granted by the successful assignments of a run to one zone. */
  function Granted(ops: seq<Op>, zone: string): int {
    if ops == [] then 0
    else
      var before, op := ops[..|ops| - 1], ops[|ops| - 1];
      Granted(before, zone)
      + if op.OpAssign? && op.zone == zone && AssignZone(Run(before), op.id, op.zone, op.count).1.Ok? then op.count else 0
  }

  function RegisteredZone(ops: seq<Op>, zone: string): Zone
    requires zone in Run(ops).zones
  {
    var before := ops[..|ops| - 1];
    if zone in Run(before).zones then RegisteredZone(before, zone) else Run(ops).zones[zone]
  }

  lemma ZoneStep(s: State, op: Op, zone: string)
    ensures zone in s.zones ==>
              var z, z' := s.zones[zone], Step(s, op).zones[zone];
              z'.capacity == z.capacity &&
              if op.OpAssign? && op.zone == zone && AssignZone(s, op.id, op.zone, op.count).1.Ok?
              then z'.used == z.used + op.count <= z'.capacity else z'.used == z.used
    ensures zone !in s.zones && op.OpAssign? && op.zone == zone ==> AssignZone(s, op.id, op.zone, op.count).1.Err?
    ensures zone !in s.zones && zone in Step(s, op).zones ==> op.OpAddZone?
    ensures zone in s.zones ==> zone in Step(s, op).zones
  {
  }

  /** A zone has given out what it was registered with plus what was granted since, and a
      zone registered within its capacity stays within it. */
  lemma {:induction false} ZoneCapacityIsConserved(ops: seq<Op>, zone: string)
    ensures zone !in Run(ops).zones ==> Granted(ops, zone) == 0
    ensures zone in Run(ops).zones ==>
              var z, first := Run(ops).zones[zone], RegisteredZone(ops, zone);
              && z.used == first.used + Granted(ops, zone)
              && z.capacity == first.capacity
              && (first.used <= first.capacity ==> z.used <= z.capacity)
  {
    if ops != [] {
      var n := |ops| - 1;
      ZoneCapacityIsConserved(ops[..n], zone);
      ZoneStep(Run(ops[..n]), ops[n], zone);
    }
  }

  /** Successful applications of one rule in a run. */
  function Applied(ops: seq<Op>, rule: string): int {
    if ops == [] then 0
    else
      var before, op := ops[..|ops| - 1], ops[|ops| - 1];
      Applied(before, rule)
      + if op.OpApply? && op.rule == rule && ApplyRule(Run(before), op.id, op.rule, op.now).1.Ok? then 1 else 0
  }

  function RegisteredRule(ops: seq<Op>, rule: string): Rule
    requires rule in Run(ops).rules
  {
    var before := ops[..|ops| - 1];
    if rule in Run(before).rules then RegisteredRule(before, rule) else Run(ops).rules[rule]
  }

  lemma RuleStep(s: State, op: Op, rule: string)
    ensures rule in s.rules ==>
              var r, r' := s.rules[rule], Step(s, op).rules[rule];
              r'.capacity == r.capacity &&
              if op.OpApply? && op.rule == rule && ApplyRule(s, op.id, op.rule, op.now).1.Ok?
              then r'.used == r.used + 1 <= r'.capacity else r'.used == r.used
    ensures rule !in s.rules && op.OpApply? && op.rule == rule ==> ApplyRule(s, op.id, op.rule, op.now).1.Err?
    ensures rule !in s.rules && rule in Step(s, op).rules ==> op.OpAddRule?
    ensures rule in s.rules ==> rule in Step(s, op).rules
  {
  }

  /** A rule was used as often as it was registered with plus the successful applications
      since, and a rule registered within its limit stays within it. */
  lemma {:induction false} RuleUseIsConserved(ops: seq<Op>, rule: string)
    ensures rule !in Run(ops).rules ==> Applied(ops, rule) == 0
    ensures rule in Run(ops).rules ==>
              var r, first := Run(ops).rules[rule], RegisteredRule(ops, rule);
              && r.used == first.used + Applied(ops, rule)
              && r.capacity == first.capacity
              && (first.used <= first.capacity ==> r.used <= r.capacity)
  {
    if ops != [] {
      var n := |ops| - 1;
      RuleUseIsConserved(ops[..n], rule);
      RuleStep(Run(ops[..n]), ops[n], rule);
    }
  }

  // ---------------------------------------------------------------- the event trail

  /** What the events say happened to a complaint, in order. */
  function Actions(events: seq<Event>, id: string): seq<string> {
    if events == [] then []
    else
      var last, before := events[|events| - 1], Actions(events[..|events| - 1], id);
      if last.entity == id then before + [last.action] else before
  }

  /** The events of a complaint are those its state calls for. */
  ghost predicate TrailFits(s: State, id: string) {
    if id !in s.complaints then Actions(s.events, id) == []
    else match s.complaints[id].status
      case Pending => Actions(s.events, id) == [SUBMITTED]
      case Accepted => Actions(s.events, id) == [SUBMITTED, ACCEPTED]
      case _ => false
  }

  lemma OneMoreEvent(events: seq<Event>, e: Event, id: string)
    ensures Actions(events + [e], id) == if e.entity == id then Actions(events, id) + [e.action] else Actions(events, id)
  {
    assert (events + [e])[..|events|] == events;
  }

  lemma StepFitsTrail(s: State, op: Op, id: string)
    requires TrailFits(s, id)
    ensures TrailFits(Step(s, op), id)
  {
    var t := Step(s, op);
    if t.events != s.events {
      OneMoreEvent(s.events, t.events[|s.events|], id);
    }
  }

  /** In every run the events tell of each complaint exactly that it was submitted, once, and
      whether it was accepted: never twice, and never before its submission. */
  lemma {:induction false} EventsTellTheStatus(ops: seq<Op>, id: string)
    ensures TrailFits(Run(ops), id)
  {
    if ops != [] {
      EventsTellTheStatus(ops[..|ops| - 1], id);
      StepFitsTrail(Run(ops[..|ops| - 1]), ops[|ops| - 1], id);
    }
  }

  // ---------------------------------------------------------------- acceptance and the reservation

  /** The last successful request about the complaint's reservation was to make one. */
  function LastReserved(ops: seq<Op>, id: string): bool {
    if ops == [] then false
    else
      var s, op, before := Run(ops[..|ops| - 1]), ops[|ops| - 1], LastReserved(ops[..|ops| - 1], id);
      if op.OpReserve? && op.id == id then before || Reserve(s, id, op.team, op.count, op.now).1.Ok?
      else if op.OpRelease? && op.id == id then before && Release(s, id, op.now).1.Err?
      else before
  }

  lemma StepReserves(s: State, op: Op, id: string)
    ensures IsActive(Step(s, op).assessments, id)
            <==> if op.OpReserve? && op.id == id then IsActive(s.assessments, id) || Reserve(s, id, op.team, op.count, op.now).1.Ok?
                 else if op.OpRelease? && op.id == id then IsActive(s.assessments, id) && Release(s, id, op.now).1.Err?
                 else IsActive(s.assessments, id)
    ensures id in s.assessments ==> id in Step(s, op).assessments
  {
  }

  lemma StepAccepts(s: State, op: Op, id: string)
    requires id in s.complaints && s.complaints[id].status == Accepted ==> id in s.assessments
    ensures var t := Step(s, op); id in t.complaints && t.complaints[id].status == Accepted ==> id in t.assessments
  {
    StepReserves(s, op, id);
  }

  /** An accepted complaint has a reservation on record, and holds capacity by it if and only if
      the last successful request about it was to make it. */
  lemma {:induction false} AcceptedHoldsExactly(ops: seq<Op>, id: string)
    ensures var s := Run(ops);
            && (id in s.complaints && s.complaints[id].status == Accepted ==> id in s.assessments)
            && (IsActive(s.assessments, id) <==> LastReserved(ops, id))
  {
    if ops != [] {
      AcceptedHoldsExactly(ops[..|ops| - 1], id);
      StepReserves(Run(ops[..|ops| - 1]), ops[|ops| - 1], id);
      StepAccepts(Run(ops[..|ops| - 1]), ops[|ops| - 1], id);
    }
  }

  function Preparation(c: Complaint, now: int): seq<Op> {
    [OpAddTeam(Team("t", 10, 0, 0)), OpAddZone(Zone("z", c.district, NormalizeVenue(c.venue), 1, 0, true, 0)), OpSubmit(c, now)]
  }

  /** A run that reserves, releases and accepts. */
  function ReleasedFirst(c: Complaint, now: int): seq<Op> {
    Preparation(c, now) + [OpReserve(c.id, "t", 1, now), OpRelease(c.id, now), OpAssign(c.id, "z", 1), OpAccept(c.id, "actor", now)]
  }

  lemma ReservedAndReleased(s: State, c: Complaint, now: int)
    requires "t" in s.teams && s.teams["t"] == Team("t", 10, 0, 0) && c.id in s.complaints && s.complaints[c.id].status == Pending
    requires c.id !in s.assessments
    ensures var t := Release(Reserve(s, c.id, "t", 1, now).0, c.id, now).0;
            && c.id in t.assessments && !IsActive(t.assessments, c.id) && t.zones == s.zones
            && c.id in t.complaints && t.complaints[c.id] == s.complaints[c.id].(updatedAt := now, version := s.complaints[c.id].version + 1)
  {
  }

  lemma AssignedAndAccepted(s: State, c: Complaint, zone: Zone, now: int)
    requires c.id in s.complaints && c.id in s.assessments && s.complaints[c.id].status == Pending
    requires "z" in s.zones && s.zones["z"] == zone && zone.district == s.complaints[c.id].district && zone.active && zone.capacity > zone.used
    requires NormalizeVenue(zone.venue) == NormalizeVenue(s.complaints[c.id].venue)
    ensures var t := AcceptComplaint(AssignZone(s, c.id, "z", 1).0, c.id, "actor", now).0;
            c.id in t.complaints && t.complaints[c.id].status == Accepted && t.assessments == s.assessments
  {
  }

  lemma Prepared(c: Complaint, now: int)
    requires ValidInput(c)
    ensures var s := Run(Preparation(c, now));
            && "t" in s.teams && s.teams["t"] == Team("t", 10, 0, 0) && s.assessments == map[]
            && "z" in s.zones && s.zones["z"] == Zone("z", c.district, NormalizeVenue(c.venue), 1, 0, true, 0)
            && c.id in s.complaints && s.complaints[c.id].status == Pending
            && s.complaints[c.id].district == c.district && s.complaints[c.id].venue == NormalizeVenue(c.venue)
  {
    var ops := Preparation(c, now);
    assert ops[..2][..1] == ops[..1] && ops[..1][..0] == [];
    assert Run(ops[..1]) == AddTeam(NEW, Team("t", 10, 0, 0)).0;
    assert Run(ops[..2]) == AddZone(Run(ops[..1]), ops[1].z).0;
    assert Run(ops) == Submit(Run(ops[..2]), c, now).0;
  }

  lemma RunFourMore(ops: seq<Op>, a: Op, b: Op, c: Op, d: Op)
    ensures Run(ops + [a, b, c, d]) == Step(Step(Step(Step(Run(ops), a), b), c), d)
  {
    RunOneMore(ops, a);
    RunOneMore(ops + [a], b);
    RunOneMore(ops + [a] + [b], c);
    RunOneMore(ops + [a] + [b] + [c], d);
    assert ops + [a] + [b] + [c] + [d] == ops + [a, b, c, d];
  }

  lemma LastFour(s: State, c: Complaint, now: int)
    requires "t" in s.teams && s.teams["t"] == Team("t", 10, 0, 0) && s.assessments == map[]
    requires c.id in s.complaints && s.complaints[c.id].status == Pending
    requires "z" in s.zones && s.zones["z"] == Zone("z", s.complaints[c.id].district, s.complaints[c.id].venue, 1, 0, true, 0)
    ensures var t := Step(Step(Step(Step(s, OpReserve(c.id, "t", 1, now)), OpRelease(c.id, now)), OpAssign(c.id, "z", 1)), OpAccept(c.id, "actor", now));
            c.id in t.complaints && t.complaints[c.id].status == Accepted && !IsActive(t.assessments, c.id)
  {
    ReservedAndReleased(s, c, now);
    AssignedAndAccepted(Release(Reserve(s, c.id, "t", 1, now).0, c.id, now).0, c, s.zones["z"], now);
  }

  /** Any valid complaint can be accepted although its reservation was released. */
  lemma AcceptedWithoutCapacity(c: Complaint, now: int)
    requires ValidInput(c)
    ensures var s := Run(ReleasedFirst(c, now));
            c.id in s.complaints && s.complaints[c.id].status == Accepted && !IsActive(s.assessments, c.id)
  {
    Prepared(c, now);
    LastFour(Run(Preparation(c, now)), c, now);
    RunFourMore(Preparation(c, now), OpReserve(c.id, "t", 1, now), OpRelease(c.id, now), OpAssign(c.id, "z", 1), OpAccept(c.id, "actor", now));
  }
}

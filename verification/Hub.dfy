/** The light-governance registry: complaints, assessment teams with measurement capacity,
    lighting zones with fixture capacity and operating rules with use limits. Every service
    method holds the registry's lock, so each is one step. */
module Hub {
  import opened Common

  datatype Status = Pending | Accepted | Active | Returned | Closed | Cancelled

  datatype Complaint = Complaint(
    id: string, district: string, residentId: string, residentName: string, venue: string, status: Status,
    evidence: seq<string>, requested: int, zone: string, rule: string, attempt: int, updatedAt: int, version: int)

  datatype Team = Team(id: string, capacity: int, reserved: int, version: int)

  datatype Reservation = Reservation(complaint: string, team: string, count: int, reservedAt: int, releasedAt: Option<int>)

  datatype Zone = Zone(id: string, district: string, venue: string, capacity: int, used: int, active: bool, version: int)

  datatype Rule = Rule(id: string, authority: string, venues: seq<string>, capacity: int, used: int, from: int, to: int, version: int)

  datatype Event = Event(id: string, district: string, entity: string, action: string, actor: string, at: int)

  datatype Error = ComplaintNotFound | TeamNotFound | ZoneNotFound | RuleNotFound | Conflict | InvalidState | Capacity | Unauthorized | Invalid

  type Complaints = map<string, Complaint>

  type Reservations = map<string, Reservation>

  datatype State = State(
    complaints: Complaints, teams: map<string, Team>, assessments: Reservations,
    zones: map<string, Zone>, rules: map<string, Rule>, events: seq<Event>)

  const NEW := State(map[], map[], map[], map[], map[], [])

  const SUBMITTED := "complaint.submitted"
  const ACCEPTED := "complaint.accepted"

  // ---------------------------------------------------------------- policy

  predicate IsSpace(c: char) {
    c == ' ' || c == '\t' || c == '\n' || c == '\r' || c as int == 11 || c as int == 12
  }

  function TrimLeft(s: string): string {
    if s != "" && IsSpace(s[0]) then TrimLeft(s[1..]) else s
  }

  function TrimRight(s: string): string {
    if s != "" && IsSpace(s[|s| - 1]) then TrimRight(s[..|s| - 1]) else s
  }

  function Upper(s: string): string {
    if s == "" then ""
    else [if 'a' <= s[0] <= 'z' then (s[0] as int - 32) as char else s[0]] + Upper(s[1..])
  }

  function NormalizeVenue(venue: string): string {
    Upper(TrimRight(TrimLeft(venue)))
  }

  const VENUES: set<string> := {"FOOTBALL_FIELD", "BASKETBALL_COURT", "TENNIS_COURT", "RUNNING_TRACK"}

  predicate ValidInput(c: Complaint) {
    && c.id != "" && c.district != "" && c.residentId != "" && TrimRight(TrimLeft(c.residentName)) != ""
    && NormalizeVenue(c.venue) in VENUES
    && 0 < c.requested <= 5000
    && c.evidence != []
  }

  predicate ValidTransition(from: Status, to: Status) {
    match from
    case Pending => to == Accepted || to == Returned || to == Cancelled
    case Returned => to == Pending || to == Cancelled
    case Accepted => to == Active || to == Cancelled
    case Active => to == Closed
    case Closed => false
    case Cancelled => false
  }

  predicate MeasurementCapacityAvailable(t: Team, requested: int) {
    requested > 0 && t.capacity - t.reserved >= requested
  }

  predicate RuleAvailable(r: Rule, venue: string, at: int) {
    && r.from <= at < r.to
    && r.used < r.capacity
    && exists v :: v in r.venues && NormalizeVenue(v) == NormalizeVenue(venue)
  }

  predicate IsActive(a: Reservations, id: string) {
    id in a && a[id].releasedAt.None?
  }

  // ---------------------------------------------------------------- operations

  function Submit(s: State, c: Complaint, now: int): (State, Result<Complaint, Error>) {
    if !ValidInput(c) then (s, Err(Invalid))
    else if c.id in s.complaints then (s, Err(Conflict))
    else
      var stored := c.(residentName := TrimRight(TrimLeft(c.residentName)), venue := NormalizeVenue(c.venue),
                       status := Pending, attempt := 1, updatedAt := now);
      (s.(complaints := s.complaints[c.id := stored],
          events := s.events + [Event(c.id + "-submitted", c.district, c.id, SUBMITTED, c.residentId, now)]), Ok(stored))
  }

  function AddTeam(s: State, t: Team): (State, Result<(), Error>) {
    if t.id == "" || t.capacity <= 0 then (s, Err(Invalid))
    else if t.id in s.teams then (s, Err(Conflict))
    else (s.(teams := s.teams[t.id := t]), Ok(()))
  }

  function AddZone(s: State, z: Zone): (State, Result<(), Error>) {
    if z.id == "" || z.district == "" || z.venue == "" || z.capacity <= 0 then (s, Err(Invalid))
    else if z.id in s.zones then (s, Err(Conflict))
    else (s.(zones := s.zones[z.id := z]), Ok(()))
  }

  function AddRule(s: State, r: Rule): (State, Result<(), Error>) {
    if r.id == "" || r.authority == "" || r.capacity <= 0 || r.from >= r.to then (s, Err(Invalid))
    else if r.id in s.rules then (s, Err(Conflict))
    else (s.(rules := s.rules[r.id := r]), Ok(()))
  }

  function Reserve(s: State, id: string, team: string, count: int, now: int): (State, Result<Reservation, Error>) {
    if count <= 0 then (s, Err(Invalid))
    else if id !in s.complaints then (s, Err(ComplaintNotFound))
    else if team !in s.teams then (s, Err(TeamNotFound))
    else if s.complaints[id].status != Pending && s.complaints[id].status != Returned then (s, Err(InvalidState))
    else if !MeasurementCapacityAvailable(s.teams[team], count) then (s, Err(Capacity))
    else if IsActive(s.assessments, id) then (s, Ok(s.assessments[id]))
    else
      var t, c, made := s.teams[team], s.complaints[id], Reservation(id, team, count, now, None);
      (s.(teams := s.teams[team := t.(reserved := t.reserved + count, version := t.version + 1)],
          assessments := s.assessments[id := made],
          complaints := s.complaints[id := c.(updatedAt := now, version := c.version + 1)]), Ok(made))
  }

  function Release(s: State, id: string, now: int): (State, Result<(), Error>) {
    if !IsActive(s.assessments, id) then (s, Ok(()))
    else
      var a := s.assessments[id];
      if a.team !in s.teams then (s, Err(TeamNotFound))
      else
        var t := s.teams[a.team];
        if t.reserved < a.count then (s, Err(Conflict))
        else
          (s.(teams := s.teams[t.id := t.(reserved := t.reserved - a.count, version := t.version + 1)],
              assessments := s.assessments[id := a.(releasedAt := Some(now))]), Ok(()))
  }

  function AcceptComplaint(s: State, id: string, actor: string, now: int): (State, Result<Complaint, Error>) {
    if id !in s.complaints then (s, Err(ComplaintNotFound))
    else
      var c := s.complaints[id];
      if actor == "" then (s, Err(Unauthorized))
      else if !ValidTransition(c.status, Accepted) then (s, Err(InvalidState))
      else if id !in s.assessments then (s, Err(Capacity))
      else if c.zone == "" || c.zone !in s.zones || !s.zones[c.zone].active then (s, Err(ZoneNotFound))
      else
        var stored := c.(status := Accepted, updatedAt := now, version := c.version + 1);
        (s.(complaints := s.complaints[id := stored],
            events := s.events + [Event(id + "-accepted", "", id, ACCEPTED, actor, now)]), Ok(stored))
  }

  function AssignZone(s: State, id: string, zone: string, count: int): (State, Result<(), Error>) {
    if count <= 0 then (s, Err(Invalid))
    else if id !in s.complaints then (s, Err(ComplaintNotFound))
    else if zone !in s.zones then (s, Err(ZoneNotFound))
    else
      var c, z := s.complaints[id], s.zones[zone];
      if z.district != c.district || NormalizeVenue(z.venue) != NormalizeVenue(c.venue) then (s, Err(Unauthorized))
      else if !z.active || z.capacity - z.used < count then (s, Err(Capacity))
      else
        (s.(zones := s.zones[zone := z.(used := z.used + count, version := z.version + 1)],
            complaints := s.complaints[id := c.(zone := zone, version := c.version + 1)]), Ok(()))
  }

  function ApplyRule(s: State, id: string, rule: string, now: int): (State, Result<(), Error>) {
    if id !in s.complaints then (s, Err(ComplaintNotFound))
    else if rule !in s.rules then (s, Err(RuleNotFound))
    else
      var c, r := s.complaints[id], s.rules[rule];
      if !RuleAvailable(r, c.venue, now) then (s, Err(Capacity))
      else
        (s.(rules := s.rules[rule := r.(used := r.used + 1, version := r.version + 1)],
            complaints := s.complaints[id := c.(rule := rule, version := c.version + 1)]), Ok(()))
  }

  datatype Op =
    | OpSubmit(c: Complaint, now: int)
    | OpAddTeam(t: Team)
    | OpAddZone(z: Zone)
    | OpAddRule(r: Rule)
    | OpReserve(id: string, team: string, count: int, now: int)
    | OpRelease(id: string, now: int)
    | OpAccept(id: string, actor: string, now: int)
    | OpAssign(id: string, zone: string, count: int)
    | OpApply(id: string, rule: string, now: int)

  function Step(s: State, op: Op): State {
    match op
    case OpSubmit(c, now) => Submit(s, c, now).0
    case OpAddTeam(t) => AddTeam(s, t).0
    case OpAddZone(z) => AddZone(s, z).0
    case OpAddRule(r) => AddRule(s, r).0
    case OpReserve(id, team, count, now) => Reserve(s, id, team, count, now).0
    case OpRelease(id, now) => Release(s, id, now).0
    case OpAccept(id, actor, now) => AcceptComplaint(s, id, actor, now).0
    case OpAssign(id, zone, count) => AssignZone(s, id, zone, count).0
    case OpApply(id, rule, now) => ApplyRule(s, id, rule, now).0
  }

  function Run(ops: seq<Op>): State {
    if ops == [] then NEW else Step(Run(ops[..|ops| - 1]), ops[|ops| - 1])
  }
}

/** The in-memory complaint operations: optimistic versions, request keys and injected
    storage faults. Every method holds the store's lock, so each is one step. */
module LightOps {
  import opened Common

  datatype Status = Blank | Pending | Accepted | Closed

  datatype PlanStatus = Unset | Submitted | Verified

  datatype Complaint = Complaint(
    id: string, district: string, resident: string, facility: string, status: Status, evidence: seq<string>,
    zone: string, assessment: string, plan: string, version: int)

  datatype Plan = Plan(id: string, district: string, complaint: string, crew: string, status: PlanStatus, steps: seq<string>, version: int)

  datatype Schedule = Schedule(id: string, district: string, rows: map<string, bool>, cutoff: int, version: int)

  datatype Assessment = Assessment(id: string, district: string, complaint: string, team: string, readings: seq<real>, released: bool, version: int)

  datatype Event = Event(id: string, district: string, entity: string, action: string, metadata: map<string, string>)

  datatype OperationResult = OperationResult(entity: string, version: int)

  datatype Error = NotFound | Conflict | Forbidden | InvalidState | Storage

  datatype State = State(
    complaints: map<string, Complaint>, plans: map<string, Plan>, schedules: map<string, Schedule>,
    assessments: map<string, Assessment>, events: seq<Event>, keys: map<string, OperationResult>,
    failEvent: bool, failPlan: bool)

  const NEW := State(map[], map[], map[], map[], [], map[], false, false)

  // What a lookup of a missing map entry yields.
  const NO_COMPLAINT := Complaint("", "", "", "", Blank, [], "", "", "", 0)
  const NO_PLAN := Plan("", "", "", "", Unset, [], 0)

  function ComplaintKey(district: string, key: string): string {
    district + ":complaint:" + key
  }

  function ActionKey(district: string, action: string, key: string): string {
    district + ":" + action + ":" + key
  }

  function ComplaintAt(s: State, id: string): Complaint {
    if id in s.complaints then s.complaints[id] else NO_COMPLAINT
  }

  function PlanAt(s: State, id: string): Plan {
    if id in s.plans then s.plans[id] else NO_PLAN
  }

  // The stored copy of an event has empty metadata: the copy is ranged over, not the original.
  function SubmissionEvent(c: Complaint): Event {
    Event(c.id + "-submitted", c.district, c.id, "complaint.submitted", map[])
  }

  // ---------------------------------------------------------------- operations

  function Put(s: State, c: Complaint): State {
    s.(complaints := s.complaints[c.id := c])
  }

  function Submit(s: State, c: Complaint, key: string): (State, Result<Complaint, Error>) {
    if c.id == "" || c.district == "" || c.evidence == [] then (s, Err(Conflict))
    else if ComplaintKey(c.district, key) in s.keys then (s, Ok(ComplaintAt(s, s.keys[ComplaintKey(c.district, key)].entity)))
    else if c.id in s.complaints then (s, Err(Conflict))
    else if s.failEvent then (s.(failEvent := false), Err(Storage))
    else
      var stored := c.(status := Pending, version := 1);
      (Put(s, stored).(events := s.events + [SubmissionEvent(c)],
                       keys := s.keys[ComplaintKey(c.district, key) := OperationResult(c.id, 1)]), Ok(stored))
  }

  function Publish(s: State, p: Plan, key: string): (State, Result<Plan, Error>) {
    if p.complaint !in s.complaints then (s, Err(NotFound))
    else if s.complaints[p.complaint].district != p.district then (s, Err(Forbidden))
    else if ActionKey(p.district, "plan", key) in s.keys then (s, Ok(PlanAt(s, s.keys[ActionKey(p.district, "plan", key)].entity)))
    else if s.failPlan then (s.(failPlan := false), Err(Storage))
    else
      var stored := p.(status := Submitted, version := 1);
      (s.(plans := s.plans[p.id := stored],
          keys := s.keys[ActionKey(p.district, "plan", key) := OperationResult(p.id, 1)]), Ok(stored))
  }

  function Retry(s: State, p: Plan, key: string): (State, Result<Plan, Error>) {
    var first := Publish(s, p, key);
    if first.1 == Err(Storage) then Publish(first.0, p, key) else first
  }

  function RegisterSchedule(s: State, x: Schedule): (State, Result<Schedule, Error>) {
    (s.(schedules := s.schedules[x.id := x.(version := 1)]), Ok(x.(version := 1)))
  }

  function SaveAssessment(s: State, a: Assessment): (State, Result<Assessment, Error>) {
    if a.complaint !in s.complaints then (s, Err(NotFound))
    else if s.complaints[a.complaint].district != a.district then (s, Err(Forbidden))
    else
      var c, stored := s.complaints[a.complaint], a.(version := 1);
      (Put(s, c.(assessment := a.id, version := c.version + 1)).(assessments := s.assessments[a.id := stored]), Ok(stored))
  }

  function AssignZone(s: State, district: string, id: string, zone: string): (State, Result<(), Error>) {
    if id !in s.complaints then (s, Err(NotFound))
    else if s.complaints[id].district != district then (s, Err(Forbidden))
    else
      var c := s.complaints[id];
      (Put(s, c.(zone := zone, version := c.version + 1)), Ok(()))
  }

  function Accept(s: State, district: string, id: string, expected: int): (State, Result<Complaint, Error>) {
    if id !in s.complaints then (s, Err(NotFound))
    else
      var c := s.complaints[id];
      if c.district != district then (s, Err(Forbidden))
      else if c.version != expected then (s, Err(Conflict))
      else if c.status != Pending || c.assessment == "" || c.zone == "" then (s, Err(InvalidState))
      else
        var stored := c.(status := Accepted, version := c.version + 1);
        (Put(s, stored), Ok(stored))
  }

  function Verify(s: State, district: string, id: string, expected: int): (State, Result<Plan, Error>) {
    if id !in s.plans then (s, Err(NotFound))
    else
      var p := s.plans[id];
      if p.district != district then (s, Err(Forbidden))
      else if p.version != expected then (s, Err(Conflict))
      else if p.status != Submitted then (s, Err(InvalidState))
      else
        var stored, c := p.(status := Verified, version := p.version + 1), ComplaintAt(s, p.complaint);
        (Put(s, c.(plan := p.id, version := c.version + 1)).(plans := s.plans[p.id := stored]), Ok(stored))
  }

  function Close(s: State, district: string, id: string): (State, Result<(), Error>) {
    if id !in s.complaints then (s, Err(NotFound))
    else
      var c := s.complaints[id];
      if c.district != district then (s, Err(Forbidden))
      else if c.status != Accepted || c.plan !in s.plans || s.plans[c.plan].status != Verified then (s, Err(InvalidState))
      else (Put(s, c.(status := Closed, version := c.version + 1)), Ok(()))
  }

  function Release(s: State, district: string, id: string): (State, Result<(), Error>) {
    if id !in s.assessments then (s, Err(NotFound))
    else
      var a := s.assessments[id];
      if a.district != district then (s, Err(Forbidden))
      else if a.released then (s, Err(Conflict))
      else (s.(assessments := s.assessments[a.id := a.(released := true, version := a.version + 1)]), Ok(()))
  }

  datatype Op =
    | OpSubmit(c: Complaint, key: string)
    | OpPublish(p: Plan, key: string)
    | OpRetry(p: Plan, key: string)
    | OpSchedule(x: Schedule)
    | OpAssess(a: Assessment)
    | OpZone(district: string, id: string, zone: string)
    | OpAccept(district: string, id: string, expected: int)
    | OpVerify(district: string, id: string, expected: int)
    | OpClose(district: string, id: string)
    | OpRelease(district: string, id: string)
    | OpFailNextEvent
    | OpFailNextPlan

  function Step(s: State, op: Op): State {
    match op
    case OpSubmit(c, key) => Submit(s, c, key).0
    case OpPublish(p, key) => Publish(s, p, key).0
    case OpRetry(p, key) => Retry(s, p, key).0
    case OpSchedule(x) => RegisterSchedule(s, x).0
    case OpAssess(a) => SaveAssessment(s, a).0
    case OpZone(district, id, zone) => AssignZone(s, district, id, zone).0
    case OpAccept(district, id, expected) => Accept(s, district, id, expected).0
    case OpVerify(district, id, expected) => Verify(s, district, id, expected).0
    case OpClose(district, id) => Close(s, district, id).0
    case OpRelease(district, id) => Release(s, district, id).0
    case OpFailNextEvent => s.(failEvent := true)
    case OpFailNextPlan => s.(failPlan := true)
  }

  /** The state after the operations, starting from an empty store. */
  function Run(ops: seq<Op>): State {
    if ops == [] then NEW else Step(Run(ops[..|ops| - 1]), ops[|ops| - 1])
  }
}

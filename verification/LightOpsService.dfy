/** The complaint service over its locked store. Each method does what the specification
    function of its operation says, including what it undoes after an injected fault. */
module LightOpsService {
  import opened Common
  import opened LightOps
  import opened LightOpsProofs

  class Service {
    var complaints: map<string, Complaint>
    var plans: map<string, Plan>
    var schedules: map<string, Schedule>
    var assessments: map<string, Assessment>
    var events: seq<Event>
    var keys: map<string, OperationResult>
    var failEvent: bool
    var failPlan: bool

    function View(): State
      reads this
    {
      State(complaints, plans, schedules, assessments, events, keys, failEvent, failPlan)
    }

    /** The store's entries are where the service looks them up. */
    ghost predicate Valid()
      reads this
    {
      Linked(View())
    }

    constructor ()
      ensures Valid() && View() == NEW
    {
      complaints, plans, schedules, assessments := map[], map[], map[], map[];
      events, keys, failEvent, failPlan := [], map[], false, false;
    }

    method FailNextEvent()
      requires Valid()
      modifies this
      ensures Valid() && View() == Step(old(View()), OpFailNextEvent)
    {
      failEvent := true;
    }

    method FailNextPlan()
      requires Valid()
      modifies this
      ensures Valid() && View() == Step(old(View()), OpFailNextPlan)
    {
      failPlan := true;
    }

    /** Appends a copy of the event; the copy's metadata comes out empty. */
    method AppendEventLocked(event: Event) returns (ok: bool)
      modifies this`events, this`failEvent
      ensures ok == !old(failEvent) && !failEvent
      ensures events == if ok then old(events) + [event.(metadata := map[])] else old(events)
    {
      if failEvent {
        failEvent := false;
        return false;
      }
      events := events + [event.(metadata := map[])];
      return true;
    }

    method SavePlanLocked(plan: Plan) returns (ok: bool)
      modifies this`plans, this`failPlan
      ensures ok == !old(failPlan) && !failPlan
      ensures plans == if ok then old(plans)[plan.id := plan] else old(plans)
    {
      if failPlan {
        failPlan := false;
        return false;
      }
      plans := plans[plan.id := plan];
      return true;
    }

    /** Stores the complaint first and takes it out again when its event cannot be appended. */
    method SubmitComplaint(complaint: Complaint, key: string) returns (r: Result<Complaint, Error>)
      requires Valid()
      modifies this
      ensures Valid() && (View(), r) == Submit(old(View()), complaint, key)
    {
      StaysLinked(View(), OpSubmit(complaint, key));
      if complaint.id == "" || complaint.district == "" || |complaint.evidence| == 0 {
        return Err(Conflict);
      }
      if ComplaintKey(complaint.district, key) in keys {
        return Ok(ComplaintAt(View(), keys[ComplaintKey(complaint.district, key)].entity));
      }
      if complaint.id in complaints {
        return Err(Conflict);
      }
      var stored := complaint.(status := Pending, version := 1);
      ghost var before := complaints;
      complaints := complaints[complaint.id := stored];
      var appended := AppendEventLocked(
        Event(complaint.id + "-submitted", complaint.district, complaint.id, "complaint.submitted", map["resident" := complaint.resident]));
      if !appended {
        complaints := complaints - {complaint.id};
        assert complaints == before;
        return Err(Storage);
      }
      keys := keys[ComplaintKey(complaint.district, key) := OperationResult(complaint.id, stored.version)];
      return Ok(stored);
    }

    method PublishPlan(plan: Plan, key: string) returns (r: Result<Plan, Error>)
      requires Valid()
      modifies this
      ensures Valid() && (View(), r) == Publish(old(View()), plan, key)
    {
      StaysLinked(View(), OpPublish(plan, key));
      if plan.complaint !in complaints {
        return Err(NotFound);
      }
      if complaints[plan.complaint].district != plan.district {
        return Err(Forbidden);
      }
      if ActionKey(plan.district, "plan", key) in keys {
        return Ok(PlanAt(View(), keys[ActionKey(plan.district, "plan", key)].entity));
      }
      var stored := plan.(status := Submitted, version := 1);
      var saved := SavePlanLocked(stored);
      if !saved {
        return Err(Storage);
      }
      keys := keys[ActionKey(plan.district, "plan", key) := OperationResult(plan.id, stored.version)];
      return Ok(stored);
    }

    method RetryPlanPublication(plan: Plan, key: string) returns (r: Result<Plan, Error>)
      requires Valid()
      modifies this
      ensures Valid() && (View(), r) == Retry(old(View()), plan, key)
    {
      r := PublishPlan(plan, key);
      if r.Ok? || r.error != Storage {
        return;
      }
      r := PublishPlan(plan, key);
    }

    method RegisterSchedule(schedule: Schedule) returns (r: Result<Schedule, Error>)
      requires Valid()
      modifies this
      ensures Valid() && (View(), r) == LightOps.RegisterSchedule(old(View()), schedule)
    {
      schedules := schedules[schedule.id := schedule.(version := 1)];
      return Ok(schedule.(version := 1));
    }

    method SaveAssessment(assessment: Assessment) returns (r: Result<Assessment, Error>)
      requires Valid()
      modifies this
      ensures Valid() && (View(), r) == LightOps.SaveAssessment(old(View()), assessment)
    {
      StaysLinked(View(), OpAssess(assessment));
      if assessment.complaint !in complaints {
        return Err(NotFound);
      }
      var complaint := complaints[assessment.complaint];
      if complaint.district != assessment.district {
        return Err(Forbidden);
      }
      var stored := assessment.(version := 1);
      assessments := assessments[assessment.id := stored];
      complaint := complaint.(assessment := assessment.id, version := complaint.version + 1);
      complaints := complaints[complaint.id := complaint];
      return Ok(stored);
    }

    method AssignZone(district: string, id: string, zone: string) returns (r: Result<(), Error>)
      requires Valid()
      modifies this
      ensures Valid() && (View(), r) == LightOps.AssignZone(old(View()), district, id, zone)
    {
      StaysLinked(View(), OpZone(district, id, zone));
      if id !in complaints {
        return Err(NotFound);
      }
      var complaint := complaints[id];
      if complaint.district != district {
        return Err(Forbidden);
      }
      complaint := complaint.(zone := zone, version := complaint.version + 1);
      complaints := complaints[complaint.id := complaint];
      return Ok(());
    }

    method AcceptComplaint(district: string, id: string, expected: int) returns (r: Result<Complaint, Error>)
      requires Valid()
      modifies this
      ensures Valid() && (View(), r) == Accept(old(View()), district, id, expected)
    {
      StaysLinked(View(), OpAccept(district, id, expected));
      if id !in complaints {
        return Err(NotFound);
      }
      var complaint := complaints[id];
      if complaint.district != district {
        return Err(Forbidden);
      }
      if complaint.version != expected {
        return Err(Conflict);
      }
      if complaint.status != Pending || complaint.assessment == "" || complaint.zone == "" {
        return Err(InvalidState);
      }
      complaint := complaint.(status := Accepted, version := complaint.version + 1);
      complaints := complaints[complaint.id := complaint];
      return Ok(complaint);
    }

    /** Writes the plan and then its complaint, which the store is known to hold. */
    method VerifyPlan(district: string, id: string, expected: int) returns (r: Result<Plan, Error>)
      requires Valid()
      modifies this
      ensures Valid() && (View(), r) == Verify(old(View()), district, id, expected)
    {
      StaysLinked(View(), OpVerify(district, id, expected));
      if id !in plans {
        return Err(NotFound);
      }
      var plan := plans[id];
      if plan.district != district {
        return Err(Forbidden);
      }
      if plan.version != expected {
        return Err(Conflict);
      }
      if plan.status != Submitted {
        return Err(InvalidState);
      }
      plan := plan.(status := Verified, version := plan.version + 1);
      plans := plans[plan.id := plan];
      var complaint := complaints[plan.complaint];
      complaint := complaint.(plan := plan.id, version := complaint.version + 1);
      complaints := complaints[complaint.id := complaint];
      return Ok(plan);
    }

    method CloseComplaint(district: string, id: string) returns (r: Result<(), Error>)
      requires Valid()
      modifies this
      ensures Valid() && (View(), r) == Close(old(View()), district, id)
    {
      StaysLinked(View(), OpClose(district, id));
      if id !in complaints {
        return Err(NotFound);
      }
      var complaint := complaints[id];
      if complaint.district != district {
        return Err(Forbidden);
      }
      if complaint.status != Accepted || complaint.plan !in plans || plans[complaint.plan].status != Verified {
        return Err(InvalidState);
      }
      complaint := complaint.(status := Closed, version := complaint.version + 1);
      complaints := complaints[complaint.id := complaint];
      return Ok(());
    }

    method ReleaseAssessment(district: string, id: string) returns (r: Result<(), Error>)
      requires Valid()
      modifies this
      ensures Valid() && (View(), r) == Release(old(View()), district, id)
    {
      StaysLinked(View(), OpRelease(district, id));
      if id !in assessments {
        return Err(NotFound);
      }
      var assessment := assessments[id];
      if assessment.district != district {
        return Err(Forbidden);
      }
      if assessment.released {
        return Err(Conflict);
      }
      assessment := assessment.(released := true, version := assessment.version + 1);
      assessments := assessments[assessment.id := assessment];
      return Ok(());
    }
  }
}

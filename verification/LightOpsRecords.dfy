/** Where the contents of complaints, plans, assessments and schedules come from, and which
    requests are refused, in every run. */
module LightOpsRecords {
  import opened Common
  import opened LightOps
  import opened LightOpsProofs

  // ---------------------------------------------------------------- complaints

  /** A complaint as the operations of the run have made it, its version aside: what was
      submitted, the zone and assessment last given in its district, the plan of it last
      verified, and how far it has come. */
  function Made(ops: seq<Op>, id: string): Complaint
    requires id in Run(ops).complaints
    decreases |ops|
  {
    var before, op := ops[..|ops| - 1], ops[|ops| - 1];
    var s := Run(before);
    if id !in s.complaints then
      if op.OpSubmit? then op.c.(status := Pending, version := 0) else NO_COMPLAINT
    else
      var c, live := Made(before, id), s.complaints[id];
      match op
      case OpZone(district, x, zone) => if x == id && district == live.district then c.(zone := zone) else c
      case OpAssess(a) => if a.complaint == id && a.district == live.district then c.(assessment := a.id) else c
      case OpVerify(district, plan, expected) =>
        if plan in s.plans && s.plans[plan].complaint == id && s.plans[plan].district == district
           && s.plans[plan].version == expected && s.plans[plan].status == Submitted
        then c.(plan := plan) else c
      case OpAccept(district, x, expected) =>
        if x == id && live.district == district && live.version == expected && live.status == Pending && live.assessment != "" && live.zone != ""
        then c.(status := Accepted) else c
      case OpClose(district, x) =>
        if x == id && live.district == district && live.status == Accepted && live.plan in s.plans && s.plans[live.plan].status == Verified
        then c.(status := Closed) else c
      case _ => c
  }

  lemma SubmitMakes(s: State, c: Complaint, key: string, id: string)
    requires id in Submit(s, c, key).0.complaints
    ensures Submit(s, c, key).0.complaints[id] == if id in s.complaints then s.complaints[id] else c.(status := Pending, version := 1)
    ensures id !in s.complaints ==> id == c.id
  {
  }

  lemma ZoneMakes(s: State, district: string, x: string, zone: string, id: string)
    requires ComplaintsFiled(s.complaints) && id in s.complaints
    ensures var c, cs := s.complaints[id], AssignZone(s, district, x, zone).0.complaints;
            id in cs && cs[id].(version := 0) == if x == id && district == c.district then c.(zone := zone, version := 0) else c.(version := 0)
  {
  }

  lemma AssessmentMakes(s: State, a: Assessment, id: string)
    requires ComplaintsFiled(s.complaints) && id in s.complaints
    ensures var c, cs := s.complaints[id], SaveAssessment(s, a).0.complaints;
            id in cs && cs[id].(version := 0) == if a.complaint == id && a.district == c.district then c.(assessment := a.id, version := 0) else c.(version := 0)
  {
  }

  lemma VerificationMakes(s: State, district: string, plan: string, expected: int, id: string)
    requires Linked(s) && id in s.complaints
    ensures var c, cs := s.complaints[id], Verify(s, district, plan, expected).0.complaints;
            id in cs && cs[id].(version := 0)
                        == if plan in s.plans && s.plans[plan].complaint == id && s.plans[plan].district == district
                              && s.plans[plan].version == expected && s.plans[plan].status == Submitted
                           then c.(plan := plan, version := 0) else c.(version := 0)
  {
  }

  lemma PutMakes(s: State, c: Complaint, id: string)
    requires c.id in s.complaints && id in s.complaints
    ensures Put(s, c).complaints[id] == if id == c.id then c else s.complaints[id]
  {
  }

  lemma AcceptanceMakes(s: State, district: string, x: string, expected: int, id: string)
    requires ComplaintsFiled(s.complaints) && id in s.complaints
    ensures var c, cs := s.complaints[id], Accept(s, district, x, expected).0.complaints;
            id in cs && cs[id].(version := 0)
                        == if x == id && c.district == district && c.version == expected && c.status == Pending && c.assessment != "" && c.zone != ""
                           then c.(status := Accepted, version := 0) else c.(version := 0)
  {
    if Accept(s, district, x, expected).1.Ok? {
      PutMakes(s, s.complaints[x].(status := Accepted, version := s.complaints[x].version + 1), id);
    }
  }

  lemma ClosureMakes(s: State, district: string, x: string, id: string)
    requires ComplaintsFiled(s.complaints) && id in s.complaints
    ensures var c, cs := s.complaints[id], Close(s, district, x).0.complaints;
            id in cs && cs[id].(version := 0)
                        == if x == id && c.district == district && c.status == Accepted && c.plan in s.plans && s.plans[c.plan].status == Verified
                           then c.(status := Closed, version := 0) else c.(version := 0)
  {
    if Close(s, district, x).1.Ok? {
      PutMakes(s, s.complaints[x].(status := Closed, version := s.complaints[x].version + 1), id);
    }
  }

  lemma QuietStepMakes(s: State, op: Op)
    requires op.OpPublish? || op.OpRetry? || op.OpSchedule? || op.OpRelease? || op.OpFailNextEvent? || op.OpFailNextPlan?
    ensures Step(s, op).complaints == s.complaints
  {
    if op.OpPublish? || op.OpRetry? {
      PublishChangesNone(s, op.p, op.key);
    }
  }

  /** In every run a complaint is what was submitted, changed by what was then asked for. */
  lemma {:induction false} ComplaintsAreAsMade(ops: seq<Op>, id: string)
    requires id in Run(ops).complaints
    ensures Run(ops).complaints[id].(version := 0) == Made(ops, id)
    decreases |ops|
  {
    var n := |ops| - 1;
    var s, op := Run(ops[..n]), ops[n];
    RunLinks(ops[..n]);
    if id in s.complaints {
      ComplaintsAreAsMade(ops[..n], id);
    }
    if !op.OpSubmit? {
      NoNewComplaintBut(s, op, id);
    }
    match op
    case OpSubmit(c, key) => SubmitMakes(s, c, key, id);
    case OpZone(district, x, zone) => ZoneMakes(s, district, x, zone, id);
    case OpAssess(a) => AssessmentMakes(s, a, id);
    case OpVerify(district, plan, expected) => VerificationMakes(s, district, plan, expected, id);
    case OpAccept(district, x, expected) => AcceptanceMakes(s, district, x, expected, id);
    case OpClose(district, x) => ClosureMakes(s, district, x, id);
    case _ => QuietStepMakes(s, op);
  }

  lemma NoNewComplaintBut(s: State, op: Op, id: string)
    requires Linked(s) && !op.OpSubmit? && id in Step(s, op).complaints
    ensures id in s.complaints
  {
    OnlySubmitCreates(s, op, id);
  }

  // ---------------------------------------------------------------- plans, assessments, schedules

  /** The plan is as some request published it, and verified if and only if its version says so,
      by a request for its district. */
  ghost predicate PlanRecorded(q: Plan, id: string, ops: seq<Op>) {
    && q.id == id
    && (exists p: Plan, key: string :: (OpPublish(p, key) in ops || OpRetry(p, key) in ops) && q == p.(status := q.status, version := q.version))
    && (q.status == Submitted ==> q.version == 1)
    && (q.status != Submitted ==> q.status == Verified && q.version == 2 && OpVerify(q.district, id, 1) in ops)
  }

  /** The assessment is as it was saved, or released since, once, by a request for its district. */
  ghost predicate AssessmentRecorded(b: Assessment, id: string, ops: seq<Op>) {
    && b.id == id
    && exists a: Assessment :: OpAssess(a) in ops
         && (b == a.(version := 1) || (!a.released && b == a.(version := 2, released := true) && OpRelease(b.district, id) in ops))
  }

  ghost predicate ScheduleRecorded(y: Schedule, id: string, ops: seq<Op>) {
    y.id == id && exists x: Schedule :: OpSchedule(x) in ops && y == x.(version := 1)
  }

  ghost predicate AllRecorded(s: State, ops: seq<Op>) {
    && (forall id :: id in s.plans ==> PlanRecorded(s.plans[id], id, ops))
    && (forall id :: id in s.assessments ==> AssessmentRecorded(s.assessments[id], id, ops))
    && (forall id :: id in s.schedules ==> ScheduleRecorded(s.schedules[id], id, ops))
  }

  lemma PlanStays(q: Plan, id: string, ops: seq<Op>, op: Op)
    requires PlanRecorded(q, id, ops)
    ensures PlanRecorded(q, id, ops + [op])
  {
    assert forall x :: x in ops ==> x in ops + [op];
  }

  lemma AssessmentStays(b: Assessment, id: string, ops: seq<Op>, op: Op)
    requires AssessmentRecorded(b, id, ops)
    ensures AssessmentRecorded(b, id, ops + [op])
  {
    assert forall x :: x in ops ==> x in ops + [op];
  }

  lemma ScheduleStays(y: Schedule, id: string, ops: seq<Op>, op: Op)
    requires ScheduleRecorded(y, id, ops)
    ensures ScheduleRecorded(y, id, ops + [op])
  {
    assert forall x :: x in ops ==> x in ops + [op];
  }

  lemma PublishedPlan(s: State, p: Plan, key: string, id: string)
    ensures forall t :: t == Publish(s, p, key).0 || t == Retry(s, p, key).0 ==>
              id in t.plans ==> (id in s.plans && t.plans[id] == s.plans[id]) || (id == p.id && t.plans[id] == p.(status := Submitted, version := 1))
  {
  }

  lemma VerifiedPlan(s: State, district: string, plan: string, expected: int, id: string)
    requires Linked(s)
    ensures var t := Verify(s, district, plan, expected).0;
            && (id in t.plans <==> id in s.plans)
            && (id in s.plans ==> t.plans[id] == s.plans[id]
                                  || (id == plan && s.plans[id].district == district && s.plans[id].version == expected && s.plans[id].status == Submitted
                                      && t.plans[id] == s.plans[id].(status := Verified, version := expected + 1)))
  {
  }

  lemma OthersKeepPlans(s: State, op: Op)
    requires !op.OpPublish? && !op.OpRetry? && !op.OpVerify?
    ensures Step(s, op).plans == s.plans
  {
  }

  lemma StepRecordsPlan(s: State, ops: seq<Op>, op: Op, id: string)
    requires Linked(s) && (id in s.plans ==> PlanRecorded(s.plans[id], id, ops)) && id in Step(s, op).plans
    ensures PlanRecorded(Step(s, op).plans[id], id, ops + [op])
  {
    var q := Step(s, op).plans[id];
    assert op in ops + [op];
    if op.OpPublish? || op.OpRetry? {
      PublishedPlan(s, op.p, op.key, id);
    } else if op.OpVerify? {
      VerifiedPlan(s, op.district, op.id, op.expected, id);
    } else {
      OthersKeepPlans(s, op);
    }
    if id in s.plans {
      PlanStays(s.plans[id], id, ops, op);
      if op.OpVerify? && q != s.plans[id] {
        VerifiedIsRecorded(s.plans[id], q, id, ops + [op], op);
      }
    }
    if (op.OpPublish? || op.OpRetry?) && (id !in s.plans || q != s.plans[id]) {
      assert q == op.p.(status := q.status, version := q.version);
    }
  }

  lemma VerifiedIsRecorded(before: Plan, after: Plan, id: string, ops: seq<Op>, op: Op)
    requires PlanRecorded(before, id, ops) && before.status == Submitted && op in ops
    requires op == OpVerify(before.district, id, before.version) && after == before.(status := Verified, version := before.version + 1)
    ensures PlanRecorded(after, id, ops)
  {
    var p: Plan, key: string :| (OpPublish(p, key) in ops || OpRetry(p, key) in ops) && before == p.(status := before.status, version := before.version);
    assert after == p.(status := after.status, version := after.version);
  }

  lemma ReleasedAssessment(s: State, district: string, x: string, id: string)
    requires Linked(s) && id in s.assessments
    ensures var t := Release(s, district, x).0;
            && id in t.assessments
            && (t.assessments[id] == s.assessments[id]
                || (id == x && s.assessments[id].district == district && !s.assessments[id].released
                    && t.assessments[id] == s.assessments[id].(released := true, version := s.assessments[id].version + 1)))
  {
  }

  lemma OthersKeepAssessments(s: State, op: Op, id: string)
    requires !op.OpRelease? && id in Step(s, op).assessments
    ensures (id in s.assessments && Step(s, op).assessments[id] == s.assessments[id])
            || (op.OpAssess? && op.a.id == id && Step(s, op).assessments[id] == op.a.(version := 1))
  {
  }

  lemma ReleasedIsRecorded(before: Assessment, after: Assessment, id: string, ops: seq<Op>, op: Op)
    requires AssessmentRecorded(before, id, ops) && !before.released && op in ops && op == OpRelease(before.district, id)
    requires after == before.(released := true, version := before.version + 1)
    ensures AssessmentRecorded(after, id, ops)
  {
    var a: Assessment :| OpAssess(a) in ops
      && (before == a.(version := 1) || (!a.released && before == a.(version := 2, released := true) && OpRelease(before.district, id) in ops));
    assert after == a.(version := 2, released := true);
  }

  lemma StepRecordsAssessment(s: State, ops: seq<Op>, op: Op, id: string)
    requires Linked(s) && (id in s.assessments ==> AssessmentRecorded(s.assessments[id], id, ops)) && id in Step(s, op).assessments
    ensures AssessmentRecorded(Step(s, op).assessments[id], id, ops + [op])
  {
    assert op in ops + [op];
    if id in s.assessments {
      AssessmentStays(s.assessments[id], id, ops, op);
    }
    if !op.OpRelease? {
      OthersKeepAssessments(s, op, id);
    } else {
      ReleasedAssessment(s, op.district, op.id, id);
      if Step(s, op).assessments[id] != s.assessments[id] {
        ReleasedIsRecorded(s.assessments[id], Step(s, op).assessments[id], id, ops + [op], op);
      }
    }
  }

  lemma StepRecordsSchedule(s: State, ops: seq<Op>, op: Op, id: string)
    requires (id in s.schedules ==> ScheduleRecorded(s.schedules[id], id, ops)) && id in Step(s, op).schedules
    ensures ScheduleRecorded(Step(s, op).schedules[id], id, ops + [op])
  {
    assert op in ops + [op];
    if id in s.schedules {
      ScheduleStays(s.schedules[id], id, ops, op);
    }
  }

  /** In every run plans, assessments and schedules are as some request made them, and plans
      verified and assessments released only by a request for their district. */
  lemma {:induction false} EverythingIsRecorded(ops: seq<Op>)
    ensures AllRecorded(Run(ops), ops)
  {
    if ops != [] {
      var n := |ops| - 1;
      var s, op := Run(ops[..n]), ops[n];
      RunLinks(ops[..n]);
      EverythingIsRecorded(ops[..n]);
      assert ops[..n] + [op] == ops;
      forall id
        ensures id in Run(ops).plans ==> PlanRecorded(Run(ops).plans[id], id, ops)
        ensures id in Run(ops).assessments ==> AssessmentRecorded(Run(ops).assessments[id], id, ops)
        ensures id in Run(ops).schedules ==> ScheduleRecorded(Run(ops).schedules[id], id, ops)
      {
        if id in Run(ops).plans {
          StepRecordsPlan(s, ops[..n], op, id);
        }
        if id in Run(ops).assessments {
          StepRecordsAssessment(s, ops[..n], op, id);
        }
        if id in Run(ops).schedules {
          StepRecordsSchedule(s, ops[..n], op, id);
        }
      }
    }
  }

  // ---------------------------------------------------------------- refusals

  /** Which requests about a complaint are refused, and why. */
  lemma ComplaintRefusals(s: State, c: Complaint, key: string, district: string, id: string, zone: string, expected: int)
    ensures var known, here := id in s.complaints, id in s.complaints && s.complaints[id].district == district;
            var stored := ComplaintAt(s, id);
            && (Submit(s, c, key).1 == Err(Conflict) <==>
                  c.id == "" || c.district == "" || c.evidence == [] || (ComplaintKey(c.district, key) !in s.keys && c.id in s.complaints))
            && (Submit(s, c, key).1 == Err(Storage) <==>
                  c.id != "" && c.district != "" && c.evidence != [] && ComplaintKey(c.district, key) !in s.keys && c.id !in s.complaints && s.failEvent)
            && (AssignZone(s, district, id, zone).1 == if !known then Err(NotFound) else if !here then Err(Forbidden) else Ok(()))
            && (Accept(s, district, id, expected).1 == Err(NotFound) <==> !known)
            && (Accept(s, district, id, expected).1 == Err(Forbidden) <==> known && !here)
            && (Accept(s, district, id, expected).1 == Err(Conflict) <==> here && stored.version != expected)
            && (Accept(s, district, id, expected).1 == Err(InvalidState) <==>
                  here && stored.version == expected && (stored.status != Pending || stored.assessment == "" || stored.zone == ""))
            && (Close(s, district, id).1 == Err(NotFound) <==> !known)
            && (Close(s, district, id).1 == Err(Forbidden) <==> known && !here)
            && (Close(s, district, id).1 == Err(InvalidState) <==>
                  here && (stored.status != Accepted || stored.plan !in s.plans || s.plans[stored.plan].status != Verified))
  {
  }

  /** Which requests about a plan or an assessment are refused, and why. */
  lemma PlanRefusals(s: State, p: Plan, key: string, a: Assessment, district: string, id: string, expected: int)
    ensures var at := ComplaintAt(s, p.complaint);
            && (Publish(s, p, key).1 == Err(NotFound) <==> p.complaint !in s.complaints)
            && (Publish(s, p, key).1 == Err(Forbidden) <==> p.complaint in s.complaints && at.district != p.district)
            && (Publish(s, p, key).1 == Err(Storage) <==>
                  p.complaint in s.complaints && at.district == p.district && ActionKey(p.district, "plan", key) !in s.keys && s.failPlan)
            && (SaveAssessment(s, a).1 == Err(NotFound) <==> a.complaint !in s.complaints)
            && (SaveAssessment(s, a).1 == Err(Forbidden) <==> a.complaint in s.complaints && s.complaints[a.complaint].district != a.district)
    ensures var known, q := id in s.plans, PlanAt(s, id);
            && (Verify(s, district, id, expected).1 == Err(NotFound) <==> !known)
            && (Verify(s, district, id, expected).1 == Err(Forbidden) <==> known && q.district != district)
            && (Verify(s, district, id, expected).1 == Err(Conflict) <==> known && q.district == district && q.version != expected)
            && (Verify(s, district, id, expected).1 == Err(InvalidState) <==>
                  known && q.district == district && q.version == expected && q.status != Submitted)
    ensures var known := id in s.assessments;
            && (Release(s, district, id).1 == Err(NotFound) <==> !known)
            && (Release(s, district, id).1 == Err(Forbidden) <==> known && s.assessments[id].district != district)
            && (Release(s, district, id).1 == Err(Conflict) <==> known && s.assessments[id].district == district && s.assessments[id].released)
  {
  }

  lemma RefusedLinksNothing(s: State, a: Assessment, district: string, id: string, zone: string, expected: int)
    ensures SaveAssessment(s, a).1.Err? ==> SaveAssessment(s, a).0 == s
    ensures AssignZone(s, district, id, zone).1.Err? ==> AssignZone(s, district, id, zone).0 == s
    ensures Verify(s, district, id, expected).1.Err? ==> Verify(s, district, id, expected).0 == s
    ensures Release(s, district, id).1.Err? ==> Release(s, district, id).0 == s
  {
  }

  lemma RefusedMovesNothing(s: State, c: Complaint, p: Plan, key: string, district: string, id: string, expected: int)
    ensures Submit(s, c, key).1.Err? ==> Submit(s, c, key).0 == if Submit(s, c, key).1 == Err(Storage) then s.(failEvent := false) else s
    ensures Publish(s, p, key).1.Err? ==> Publish(s, p, key).0 == if Publish(s, p, key).1 == Err(Storage) then s.(failPlan := false) else s
    ensures Accept(s, district, id, expected).1.Err? ==> Accept(s, district, id, expected).0 == s
    ensures Close(s, district, id).1.Err? ==> Close(s, district, id).0 == s
  {
  }

  /** A refused request leaves everything as it was, except that an injected fault is used up. */
  lemma RefusedChangesNothing(s: State, c: Complaint, p: Plan, a: Assessment, key: string, district: string, id: string, zone: string, expected: int)
    ensures Submit(s, c, key).1.Err? ==> Submit(s, c, key).0 == if Submit(s, c, key).1 == Err(Storage) then s.(failEvent := false) else s
    ensures Publish(s, p, key).1.Err? ==> Publish(s, p, key).0 == if Publish(s, p, key).1 == Err(Storage) then s.(failPlan := false) else s
    ensures SaveAssessment(s, a).1.Err? ==> SaveAssessment(s, a).0 == s
    ensures AssignZone(s, district, id, zone).1.Err? ==> AssignZone(s, district, id, zone).0 == s
    ensures Accept(s, district, id, expected).1.Err? ==> Accept(s, district, id, expected).0 == s
    ensures Verify(s, district, id, expected).1.Err? ==> Verify(s, district, id, expected).0 == s
    ensures Close(s, district, id).1.Err? ==> Close(s, district, id).0 == s
    ensures Release(s, district, id).1.Err? ==> Release(s, district, id).0 == s
  {
    RefusedLinksNothing(s, a, district, id, zone, expected);
    RefusedMovesNothing(s, c, p, key, district, id, expected);
  }

  /** What a granted request answers is what is now stored. */
  lemma AnswersAreStored(s: State, c: Complaint, p: Plan, a: Assessment, x: Schedule, key: string, district: string, id: string, expected: int)
    ensures ComplaintKey(c.district, key) !in s.keys && Submit(s, c, key).1.Ok? ==>
              var t := Submit(s, c, key); c.id in t.0.complaints && t.1 == Ok(t.0.complaints[c.id]) && t.0.keys[ComplaintKey(c.district, key)] == OperationResult(c.id, 1)
    ensures ActionKey(p.district, "plan", key) !in s.keys && Publish(s, p, key).1.Ok? ==>
              var t := Publish(s, p, key); p.id in t.0.plans && t.1 == Ok(t.0.plans[p.id]) && t.0.keys[ActionKey(p.district, "plan", key)] == OperationResult(p.id, 1)
    ensures var t := RegisterSchedule(s, x); x.id in t.0.schedules && t.1 == Ok(t.0.schedules[x.id])
    ensures SaveAssessment(s, a).1.Ok? ==>
              var t := SaveAssessment(s, a); a.id in t.0.assessments && t.1 == Ok(t.0.assessments[a.id])
    ensures Accept(s, district, id, expected).1.Ok? && s.complaints[id].id == id ==>
              var t := Accept(s, district, id, expected); id in t.0.complaints && t.1 == Ok(t.0.complaints[id])
    ensures Verify(s, district, id, expected).1.Ok? && s.plans[id].id == id ==>
              var t := Verify(s, district, id, expected); id in t.0.plans && t.1 == Ok(t.0.plans[id])
  {
  }

  // ---------------------------------------------------------------- events and faults

  /** The event is that of a submission of the run, without metadata. */
  ghost predicate EventRecorded(e: Event, ops: seq<Op>) {
    exists c: Complaint, key: string :: OpSubmit(c, key) in ops && e == Event(c.id + "-submitted", c.district, c.id, "complaint.submitted", map[])
  }

  lemma StepEvents(s: State, op: Op)
    ensures var t := Step(s, op);
            t.events == s.events
            || (op.OpSubmit? && t.events == s.events + [Event(op.c.id + "-submitted", op.c.district, op.c.id, "complaint.submitted", map[])])
  {
  }

  /** In every run every event tells of a submission of the run. */
  lemma {:induction false} EveryEventIsRecorded(ops: seq<Op>)
    ensures forall i :: 0 <= i < |Run(ops).events| ==> EventRecorded(Run(ops).events[i], ops)
  {
    if ops != [] {
      var n := |ops| - 1;
      var before, op := Run(ops[..n]).events, ops[n];
      EveryEventIsRecorded(ops[..n]);
      StepEvents(Run(ops[..n]), op);
      assert op in ops && forall x :: x in ops[..n] ==> x in ops;
      forall i | 0 <= i < |Run(ops).events|
        ensures EventRecorded(Run(ops).events[i], ops)
      {
        if i < |before| {
          assert EventRecorded(before[i], ops[..n]);
        }
      }
    }
  }

  /** A fault was asked for and no request has met it since. */
  function EventFaultPending(ops: seq<Op>): bool {
    if ops == [] then false
    else
      var s, op, pending := Run(ops[..|ops| - 1]), ops[|ops| - 1], EventFaultPending(ops[..|ops| - 1]);
      op.OpFailNextEvent? || (pending && !(op.OpSubmit? && Submit(s, op.c, op.key).1 == Err(Storage)))
  }

  function PlanFaultPending(ops: seq<Op>): bool {
    if ops == [] then false
    else
      var s, op, pending := Run(ops[..|ops| - 1]), ops[|ops| - 1], PlanFaultPending(ops[..|ops| - 1]);
      op.OpFailNextPlan? || (pending && !((op.OpPublish? || op.OpRetry?) && Publish(s, op.p, op.key).1 == Err(Storage)))
  }

  lemma RetryMeetsFault(s: State, p: Plan, key: string)
    ensures Retry(s, p, key).0.failPlan == (s.failPlan && Publish(s, p, key).1 != Err(Storage))
    ensures Publish(s, p, key).0.failPlan == (s.failPlan && Publish(s, p, key).1 != Err(Storage))
  {
  }

  lemma StepEventFault(s: State, op: Op)
    ensures Step(s, op).failEvent <==> op.OpFailNextEvent? || (s.failEvent && !(op.OpSubmit? && Submit(s, op.c, op.key).1 == Err(Storage)))
  {
  }

  lemma StepPlanFault(s: State, op: Op)
    ensures Step(s, op).failPlan <==> op.OpFailNextPlan? || (s.failPlan && !((op.OpPublish? || op.OpRetry?) && Publish(s, op.p, op.key).1 == Err(Storage)))
  {
    if op.OpPublish? || op.OpRetry? {
      RetryMeetsFault(s, op.p, op.key);
    }
  }

  /** In every run an injected fault is there from the request for it until one request meets it. */
  lemma {:induction false} FaultsStrikeOnce(ops: seq<Op>)
    ensures Run(ops).failEvent == EventFaultPending(ops) && Run(ops).failPlan == PlanFaultPending(ops)
  {
    if ops != [] {
      FaultsStrikeOnce(ops[..|ops| - 1]);
      StepEventFault(Run(ops[..|ops| - 1]), ops[|ops| - 1]);
      StepPlanFault(Run(ops[..|ops| - 1]), ops[|ops| - 1]);
    }
  }
}

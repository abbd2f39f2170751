/** A complaint is closed only after a review: when the complaint store keeps this promise,
    and a run in which it does not. */
module LightOpsClosure {
  import opened Common
  import opened LightOps
  import opened LightOpsProofs

  /** Step i of the run verified a plan of the complaint. */
  ghost predicate VerifiedAt(ops: seq<Op>, i: nat, id: string) {
    && i < |ops| && ops[i].OpVerify?
    && var s := Run(ops[..i]);
       && Verify(s, ops[i].district, ops[i].id, ops[i].expected).1.Ok?
       && s.plans[ops[i].id].complaint == id
  }

  type Names = string -> bool

  /** Submissions fill their plan field, and publications name their plans, as allowed. */
  predicate Obeys(op: Op, field: Names, name: Names) {
    match op
    case OpSubmit(c, _) => field(c.plan)
    case OpPublish(p, _) => name(p.id)
    case OpRetry(p, _) => name(p.id)
    case _ => true
  }

  ghost predicate AllObey(ops: seq<Op>, field: Names, name: Names) {
    forall op :: op in ops ==> Obeys(op, field, name)
  }

  /** Every closed complaint had a plan of its own verified earlier in the run. */
  ghost predicate ClosedAfterReview(ops: seq<Op>) {
    forall id :: id in Run(ops).complaints && Run(ops).complaints[id].status == Closed ==> exists i: nat :: VerifiedAt(ops, i, id)
  }

  /** No plan may be named as a submission may fill its plan field. */
  ghost predicate Apart(field: Names, name: Names) {
    forall p :: !(field(p) && name(p))
  }

  lemma SubmitPlanField(s: State, c: Complaint, key: string, id: string)
    requires id in Submit(s, c, key).0.complaints
    ensures var d := Submit(s, c, key).0.complaints[id];
            if id in s.complaints then d == s.complaints[id] else d.plan == c.plan && d.status == Pending
  {
  }

  lemma VerifyPlanField(s: State, district: string, plan: string, expected: int, id: string)
    requires Linked(s) && id in Verify(s, district, plan, expected).0.complaints
    ensures id in s.complaints
    ensures var d := Verify(s, district, plan, expected).0.complaints[id];
            || d == s.complaints[id]
            || (Verify(s, district, plan, expected).1.Ok? && s.plans[plan].complaint == id
                && d.plan == plan && d.status == s.complaints[id].status)
  {
  }

  /** The complaints after a step that leaves plan fields alone. */
  ghost predicate SamePlanFields(cs: Complaints, cs': Complaints) {
    cs'.Keys == cs.Keys && forall id :: id in cs ==> cs'[id].plan == cs[id].plan
  }

  lemma AssessKeepsPlanFields(s: State, a: Assessment)
    requires ComplaintsFiled(s.complaints)
    ensures SamePlanFields(s.complaints, SaveAssessment(s, a).0.complaints)
  {
  }

  lemma ZoneKeepsPlanFields(s: State, district: string, id: string, zone: string)
    requires ComplaintsFiled(s.complaints)
    ensures SamePlanFields(s.complaints, AssignZone(s, district, id, zone).0.complaints)
  {
  }

  lemma PutKeepsPlanFields(s: State, c: Complaint)
    requires c.id in s.complaints && s.complaints[c.id].plan == c.plan
    ensures SamePlanFields(s.complaints, Put(s, c).complaints)
  {
  }

  lemma AcceptKeepsPlanFields(s: State, district: string, id: string, expected: int)
    requires ComplaintsFiled(s.complaints)
    ensures SamePlanFields(s.complaints, Accept(s, district, id, expected).0.complaints)
  {
    if Accept(s, district, id, expected).1.Ok? {
      PutKeepsPlanFields(s, s.complaints[id].(status := Accepted, version := s.complaints[id].version + 1));
    }
  }

  lemma CloseKeepsPlanFields(s: State, district: string, id: string)
    requires ComplaintsFiled(s.complaints)
    ensures SamePlanFields(s.complaints, Close(s, district, id).0.complaints)
  {
  }

  lemma QuietKeepsComplaints(s: State, op: Op)
    requires op.OpPublish? || op.OpRetry? || op.OpSchedule? || op.OpRelease? || op.OpFailNextEvent? || op.OpFailNextPlan?
    ensures Step(s, op).complaints == s.complaints
  {
    if op.OpPublish? || op.OpRetry? {
      PublishChangesNone(s, op.p, op.key);
    }
  }

  lemma WritesKeepPlanFields(s: State, op: Op)
    requires op.OpAssess? || op.OpZone? || op.OpAccept? || op.OpClose?
    requires ComplaintsFiled(s.complaints)
    ensures SamePlanFields(s.complaints, Step(s, op).complaints)
  {
    match op
    case OpAssess(a) => AssessKeepsPlanFields(s, a);
    case OpZone(district, x, zone) => ZoneKeepsPlanFields(s, district, x, zone);
    case OpAccept(district, x, expected) => AcceptKeepsPlanFields(s, district, x, expected);
    case OpClose(district, x) => CloseKeepsPlanFields(s, district, x);
  }

  lemma OthersKeepPlanField(s: State, op: Op, id: string)
    requires !op.OpSubmit? && !op.OpVerify? && ComplaintsFiled(s.complaints) && id in Step(s, op).complaints
    ensures id in s.complaints && Step(s, op).complaints[id].plan == s.complaints[id].plan
  {
    if op.OpAssess? || op.OpZone? || op.OpAccept? || op.OpClose? {
      WritesKeepPlanFields(s, op);
    } else {
      QuietKeepsComplaints(s, op);
    }
  }

  lemma PublishPlanIDs(s: State, p: Plan, key: string)
    ensures Publish(s, p, key).0.plans.Keys <= s.plans.Keys + {p.id}
    ensures Retry(s, p, key).0.plans.Keys <= s.plans.Keys + {p.id}
  {
  }

  lemma NewlyClosed(s: State, op: Op, id: string)
    requires ComplaintsFiled(s.complaints) && id in s.complaints && s.complaints[id].status != Closed
    requires !op.OpSubmit? && !op.OpVerify?
    requires id in Step(s, op).complaints && Step(s, op).complaints[id].status == Closed
    ensures s.complaints[id].plan in s.plans
  {
  }

  /** The complaint had its review, or is open with its plan field as it was submitted. */
  ghost predicate Reviewed(ops: seq<Op>, id: string, field: Names)
    requires id in Run(ops).complaints
  {
    var c := Run(ops).complaints[id];
    (exists i: nat :: VerifiedAt(ops, i, id)) || (c.status != Closed && field(c.plan))
  }

  lemma ReviewStays(ops: seq<Op>, op: Op, id: string)
    requires exists i: nat :: VerifiedAt(ops, i, id)
    ensures exists i: nat :: VerifiedAt(ops + [op], i, id)
  {
    var i: nat :| VerifiedAt(ops, i, id);
    assert (ops + [op])[..i] == ops[..i];
    assert VerifiedAt(ops + [op], i, id);
  }

  /** One step keeps the promise for one complaint. */
  lemma StepFollowsReview(ops: seq<Op>, op: Op, id: string, field: Names, name: Names)
    requires Obeys(op, field, name) && Apart(field, name)
    requires forall p :: p in Run(ops).plans ==> name(p)
    requires id in Run(ops + [op]).complaints
    requires id in Run(ops).complaints ==> Reviewed(ops, id, field)
    ensures Reviewed(ops + [op], id, field)
  {
    var s, t := Run(ops), Run(ops + [op]);
    RunLinks(ops);
    assert (ops + [op])[..|ops|] == ops;
    if exists i: nat :: VerifiedAt(ops, i, id) {
      ReviewStays(ops, op, id);
    } else if op.OpSubmit? {
      SubmitPlanField(s, op.c, op.key, id);
    } else if op.OpVerify? {
      VerifyPlanField(s, op.district, op.id, op.expected, id);
      if t.complaints[id] != s.complaints[id] {
        assert VerifiedAt(ops + [op], |ops|, id);
      }
    } else {
      OthersKeepPlanField(s, op, id);
      if t.complaints[id].status == Closed {
        NewlyClosed(s, op, id);
      }
    }
  }

  lemma StepNamesPlans(s: State, op: Op, field: Names, name: Names)
    requires Linked(s) && Obeys(op, field, name)
    requires forall p :: p in s.plans ==> name(p)
    ensures forall p :: p in Step(s, op).plans ==> name(p)
  {
    if op.OpPublish? || op.OpRetry? {
      PublishPlanIDs(s, op.p, op.key);
    }
  }

  lemma {:induction false} PlansNamed(ops: seq<Op>, field: Names, name: Names)
    requires AllObey(ops, field, name)
    ensures forall p :: p in Run(ops).plans ==> name(p)
  {
    if ops != [] {
      var n := |ops| - 1;
      assert ops[n] in ops;
      assert forall x :: x in ops[..n] ==> x in ops;
      PlansNamed(ops[..n], field, name);
      RunLinks(ops[..n]);
      StepNamesPlans(Run(ops[..n]), ops[n], field, name);
    }
  }

  lemma {:induction false} ClosureFollowsReview(ops: seq<Op>, id: string, field: Names, name: Names)
    requires AllObey(ops, field, name) && Apart(field, name)
    requires id in Run(ops).complaints
    ensures Reviewed(ops, id, field)
    decreases |ops|
  {
    var n := |ops| - 1;
    assert ops[n] in ops;
    assert forall x :: x in ops[..n] ==> x in ops;
    PlansNamed(ops[..n], field, name);
    if id in Run(ops[..n]).complaints {
      ClosureFollowsReview(ops[..n], id, field, name);
    }
    assert ops == ops[..n] + [ops[n]];
    StepFollowsReview(ops[..n], ops[n], id, field, name);
  }

  /** Step j of the run created the complaint. */
  ghost predicate CreatedAt(ops: seq<Op>, j: nat, id: string) {
    j < |ops| && ops[j].OpSubmit? && id !in Run(ops[..j]).complaints && id in Run(ops[..j + 1]).complaints
  }

  lemma {:induction false} UnreviewedPlanField(ops: seq<Op>, j: nat, id: string)
    requires CreatedAt(ops, j, id)
    ensures id in Run(ops).complaints
    ensures Run(ops).complaints[id].plan == ops[j].c.plan || exists i: nat :: VerifiedAt(ops, i, id)
    decreases |ops|
  {
    var n := |ops| - 1;
    var s, op := Run(ops[..n]), ops[n];
    assert ops[..n] + [op] == ops;
    RunLinks(ops[..n]);
    if j == n {
      assert ops[..j + 1] == ops;
      SubmitPlanField(s, op.c, op.key, id);
    } else {
      assert ops[..n][..j] == ops[..j] && ops[..n][..j + 1] == ops[..j + 1];
      UnreviewedPlanField(ops[..n], j, id);
      StepKeepsComplaints(s, op, id);
      if exists i: nat :: VerifiedAt(ops[..n], i, id) {
        ReviewStays(ops[..n], op, id);
      } else if op.OpSubmit? {
        SubmitPlanField(s, op.c, op.key, id);
      } else if op.OpVerify? {
        VerifyPlanField(s, op.district, op.id, op.expected, id);
        if Run(ops).complaints[id] != s.complaints[id] {
          assert VerifiedAt(ops, n, id);
        }
      } else {
        OthersKeepPlanField(s, op, id);
      }
    }
  }

  lemma StepKeepsComplaints(s: State, op: Op, id: string)
    requires Linked(s) && id in s.complaints
    ensures id in Step(s, op).complaints
  {
    StepLinks(s, op);
  }

  /** An accepted complaint that had no plan of its own verified can be closed if and only if
      its submission named a plan that is stored and verified - whosever it is. */
  lemma UnreviewedClosureExact(ops: seq<Op>, j: nat, id: string)
    requires CreatedAt(ops, j, id) && !exists i: nat :: VerifiedAt(ops, i, id)
    ensures var s, plan := Run(ops), ops[j].c.plan;
            && id in s.complaints
            && (s.complaints[id].status == Accepted ==>
                  (Close(s, s.complaints[id].district, id).1.Ok? <==> plan in s.plans && s.plans[plan].status == Verified))
  {
    UnreviewedPlanField(ops, j, id);
  }

  // ---------------------------------------------------------------- a borrowed plan

  // Complaints A and B, both submitted with the plan field filled in, and a plan of that name for A.
  function CaseA(p: string): Complaint {
    Complaint("A", "d", "r", "f", Blank, ["e"], "", "", p, 0)
  }

  function CaseB(p: string): Complaint {
    Complaint("B", "d", "r", "f", Blank, ["e"], "z", "m", p, 0)
  }

  function PlanForA(p: string): Plan {
    Plan(p, "d", "A", "c", Unset, [], 0)
  }

  function Borrowed(p: string): seq<Op> {
    [OpSubmit(CaseA(p), "1"), OpPublish(PlanForA(p), "2"), OpVerify("d", p, 1),
     OpSubmit(CaseB(p), "3"), OpAccept("d", "B", 1), OpClose("d", "B")]
  }

  /** In a state with the plan verified, complaint B goes from submission to closure. */
  lemma BorrowedPlanCloses(s: State, p: string)
    requires p in s.plans && s.plans[p].status == Verified && "B" !in s.complaints
    requires ComplaintKey("d", "3") !in s.keys && !s.failEvent
    ensures var t := Step(Step(Step(s, OpSubmit(CaseB(p), "3")), OpAccept("d", "B", 1)), OpClose("d", "B"));
            "B" in t.complaints && t.complaints["B"].status == Closed
  {
    var s4 := Step(s, OpSubmit(CaseB(p), "3"));
    assert s4 == Put(s, CaseB(p).(status := Pending, version := 1)).(events := s4.events, keys := s4.keys);
    var s5 := Step(s4, OpAccept("d", "B", 1));
    assert s5 == Put(s4, CaseB(p).(status := Accepted, version := 2));
  }

  lemma PlanOfAIsVerified(p: string)
    ensures var s := Step(Step(Step(NEW, OpSubmit(CaseA(p), "1")), OpPublish(PlanForA(p), "2")), OpVerify("d", p, 1));
            && p in s.plans && s.plans[p].status == Verified && "B" !in s.complaints
            && ComplaintKey("d", "3") !in s.keys && !s.failEvent
    ensures var s := Step(Step(NEW, OpSubmit(CaseA(p), "1")), OpPublish(PlanForA(p), "2"));
            p in s.plans && s.plans[p].complaint == "A"
  {
    KeysAreInjectiveAndDisjoint("d", "1", "d", "3");
    KeysAreInjectiveAndDisjoint("d", "1", "d", "2");
    KeysAreInjectiveAndDisjoint("d", "3", "d", "2");
    var s1 := Step(NEW, OpSubmit(CaseA(p), "1"));
    assert s1 == Put(NEW, CaseA(p).(status := Pending, version := 1)).(events := s1.events, keys := map[ComplaintKey("d", "1") := OperationResult("A", 1)]);
    var s2 := Step(s1, OpPublish(PlanForA(p), "2"));
    assert s2.plans == map[p := PlanForA(p).(status := Submitted, version := 1)];
    assert s2.keys == s1.keys[ActionKey("d", "plan", "2") := OperationResult(p, 1)];
  }

  /** Whatever the plan field says, also nothing, a plan of that name for another complaint
      closes the complaint although no plan of its own was ever verified. */
  lemma ClosureOnABorrowedPlan(p: string)
    ensures var s := Run(Borrowed(p)); "B" in s.complaints && s.complaints["B"].status == Closed
    ensures !exists i: nat :: VerifiedAt(Borrowed(p), i, "B")
  {
    var ops := Borrowed(p);
    forall i | 0 <= i < 6
      ensures Run(ops[..i + 1]) == Step(Run(ops[..i]), ops[i])
    {
      assert ops[..i + 1][..i] == ops[..i];
    }
    assert ops[..6] == ops && ops[..0] == [];
    var s1 := Step(NEW, ops[0]);
    var s2 := Step(s1, ops[1]);
    var s3 := Step(s2, ops[2]);
    assert Run(ops[..1]) == s1;
    assert Run(ops[..2]) == s2;
    assert Run(ops[..3]) == s3;
    assert Run(ops[..4]) == Step(s3, ops[3]);
    assert Run(ops[..5]) == Step(Step(s3, ops[3]), ops[4]);
    assert Run(ops[..6]) == Step(Step(Step(s3, ops[3]), ops[4]), ops[5]);
    PlanOfAIsVerified(p);
    BorrowedPlanCloses(s3, p);
    assert !VerifiedAt(ops, 2, "B");
  }

  /** Whatever callers may write into the plan fields of submissions and use as plan names:
      all runs close only what was reviewed if and only if the two have no string in common. */
  lemma ReviewBeforeClosureExact(field: Names, name: Names)
    ensures (forall ops :: AllObey(ops, field, name) ==> ClosedAfterReview(ops)) <==> Apart(field, name)
  {
    if Apart(field, name) {
      forall ops, id | AllObey(ops, field, name) && id in Run(ops).complaints && Run(ops).complaints[id].status == Closed
        ensures exists i: nat :: VerifiedAt(ops, i, id)
      {
        ClosureFollowsReview(ops, id, field, name);
      }
    } else {
      var p :| field(p) && name(p);
      assert AllObey(Borrowed(p), field, name);
      ClosureOnABorrowedPlan(p);
    }
  }
}

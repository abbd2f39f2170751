/** What holds of the complaint store over every run of operations. */
module LightOpsProofs {
  import opened Common
  import opened LightOps

  // ---------------------------------------------------------------- links between the maps

  type Complaints = map<string, Complaint>

  type Keys = map<string, OperationResult>

  ghost predicate ComplaintsFiled(cs: Complaints) {
    forall id :: id in cs ==> cs[id].id == id && cs[id].version >= 1
  }

  ghost predicate PlansLinked(cs: Complaints, ps: map<string, Plan>) {
    forall id :: id in ps ==> ps[id].id == id && ps[id].complaint in cs && cs[ps[id].complaint].district == ps[id].district
  }

  /** Entries are filed under their own IDs, and every plan belongs to a complaint of its district. */
  ghost predicate Linked(s: State) {
    && ComplaintsFiled(s.complaints)
    && PlansLinked(s.complaints, s.plans)
    && forall id :: id in s.assessments ==> s.assessments[id].id == id
  }

  function Rank(x: Status): nat {
    match x
    case Blank => 0
    case Pending => 1
    case Accepted => 2
    case Closed => 3
  }

  /** One write of a complaint: the version goes up by one, the status by at most one rank,
      and what the resident submitted stays. */
  predicate Write(before: Complaint, after: Complaint) {
    && after.version == before.version + 1
    && Rank(before.status) <= Rank(after.status) <= Rank(before.status) + 1
    && after.id == before.id && after.district == before.district && after.resident == before.resident
    && after.facility == before.facility && after.evidence == before.evidence
  }

  predicate KeptOrWritten(before: Complaint, after: Complaint) {
    after == before || Write(before, after)
  }

  ghost predicate ComplaintsEvolve(cs: Complaints, cs': Complaints) {
    && (forall id :: id in cs ==> id in cs' && KeptOrWritten(cs[id], cs'[id]))
    && (forall id :: id in cs' && id !in cs ==> cs'[id].status == Pending && cs'[id].version == 1)
  }

  ghost predicate KeysGrow(ks: Keys, ks': Keys) {
    forall k :: k in ks ==> k in ks' && ks'[k] == ks[k]
  }

  ghost predicate Evolves(s: State, t: State) {
    ComplaintsEvolve(s.complaints, t.complaints) && KeysGrow(s.keys, t.keys)
  }

  function DistrictOf(op: Op): Option<string> {
    match op
    case OpSubmit(c, _) => Some(c.district)
    case OpPublish(p, _) => Some(p.district)
    case OpRetry(p, _) => Some(p.district)
    case OpSchedule(_) => None
    case OpAssess(a) => Some(a.district)
    case OpZone(district, _, _) => Some(district)
    case OpAccept(district, _, _) => Some(district)
    case OpVerify(district, _, _) => Some(district)
    case OpClose(district, _) => Some(district)
    case OpRelease(district, _) => Some(district)
    case OpFailNextEvent => None
    case OpFailNextPlan => None
  }

  /** What a step for a district does to the complaints: nothing, or one new pending complaint
      or one write in that district. */
  ghost predicate OneChange(cs: Complaints, cs': Complaints, district: Option<string>) {
    || cs' == cs
    || exists c: Complaint :: cs' == cs[c.id := c] && IsChange(cs, c) && Some(c.district) == district
  }

  predicate IsChange(cs: Complaints, c: Complaint) {
    if c.id in cs then Write(cs[c.id], c) else c.status == Pending && c.version == 1
  }

  lemma ChangeLinks(cs: Complaints, cs': Complaints, ps: map<string, Plan>, district: Option<string>)
    requires ComplaintsFiled(cs) && PlansLinked(cs, ps) && OneChange(cs, cs', district)
    ensures ComplaintsFiled(cs') && PlansLinked(cs', ps) && ComplaintsEvolve(cs, cs')
  {
  }

  lemma PutIsOneChange(s: State, c: Complaint)
    requires IsChange(s.complaints, c)
    ensures OneChange(s.complaints, Put(s, c).complaints, Some(c.district))
  {
  }

  lemma SubmitChangesOne(s: State, c: Complaint, key: string)
    ensures OneChange(s.complaints, Submit(s, c, key).0.complaints, Some(c.district))
  {
    if c.id !in s.complaints {
      PutIsOneChange(s, c.(status := Pending, version := 1));
    }
  }

  lemma PublishChangesNone(s: State, p: Plan, key: string)
    ensures Publish(s, p, key).0.complaints == s.complaints
    ensures Retry(s, p, key).0.complaints == s.complaints
  {
  }

  lemma AssessChangesOne(s: State, a: Assessment)
    requires ComplaintsFiled(s.complaints)
    ensures OneChange(s.complaints, SaveAssessment(s, a).0.complaints, Some(a.district))
  {
  }

  lemma ZoneChangesOne(s: State, district: string, id: string, zone: string)
    requires ComplaintsFiled(s.complaints)
    ensures OneChange(s.complaints, AssignZone(s, district, id, zone).0.complaints, Some(district))
  {
  }

  lemma AcceptChangesOne(s: State, district: string, id: string, expected: int)
    requires ComplaintsFiled(s.complaints)
    ensures OneChange(s.complaints, Accept(s, district, id, expected).0.complaints, Some(district))
  {
    if Accept(s, district, id, expected).1.Ok? {
      PutIsOneChange(s, s.complaints[id].(status := Accepted, version := s.complaints[id].version + 1));
    }
  }

  lemma VerifyChangesOne(s: State, district: string, id: string, expected: int)
    requires Linked(s)
    ensures OneChange(s.complaints, Verify(s, district, id, expected).0.complaints, Some(district))
  {
    if id in s.plans && Verify(s, district, id, expected).1.Ok? {
      var p := s.plans[id];
      var c := s.complaints[p.complaint];
      var after := c.(plan := p.id, version := c.version + 1);
      assert Verify(s, district, id, expected).0.complaints == Put(s, after).complaints;
      assert IsChange(s.complaints, after) by {
        assert c.id == p.complaint;
      }
      PutIsOneChange(s, after);
    }
  }

  lemma CloseChangesOne(s: State, district: string, id: string)
    requires ComplaintsFiled(s.complaints)
    ensures OneChange(s.complaints, Close(s, district, id).0.complaints, Some(district))
  {
  }

  lemma StepChangesOne(s: State, op: Op)
    requires Linked(s)
    ensures OneChange(s.complaints, Step(s, op).complaints, DistrictOf(op))
  {
    match op
    case OpSubmit(c, key) => SubmitChangesOne(s, c, key);
    case OpPublish(p, key) => PublishChangesNone(s, p, key);
    case OpRetry(p, key) => PublishChangesNone(s, p, key);
    case OpAssess(a) => AssessChangesOne(s, a);
    case OpZone(district, id, zone) => ZoneChangesOne(s, district, id, zone);
    case OpAccept(district, id, expected) => AcceptChangesOne(s, district, id, expected);
    case OpVerify(district, id, expected) => VerifyChangesOne(s, district, id, expected);
    case OpClose(district, id) => CloseChangesOne(s, district, id);
    case OpRelease(_, _) =>
    case OpSchedule(_) =>
    case OpFailNextEvent =>
    case OpFailNextPlan =>
  }

  lemma PublishLinksPlans(s: State, p: Plan, key: string)
    requires PlansLinked(s.complaints, s.plans)
    ensures PlansLinked(s.complaints, Publish(s, p, key).0.plans)
    ensures PlansLinked(s.complaints, Retry(s, p, key).0.plans)
  {
  }

  lemma PlansStayLinked(s: State, op: Op)
    requires Linked(s)
    ensures PlansLinked(s.complaints, Step(s, op).plans)
  {
    if op.OpPublish? || op.OpRetry? {
      PublishLinksPlans(s, op.p, op.key);
    }
  }

  lemma AssessmentsStayFiled(s: State, op: Op)
    requires Linked(s)
    ensures forall id :: id in Step(s, op).assessments ==> Step(s, op).assessments[id].id == id
  {
  }

  lemma SubmitGrowsKeys(s: State, c: Complaint, key: string)
    ensures KeysGrow(s.keys, Submit(s, c, key).0.keys)
  {
  }

  lemma PublishGrowsKeys(s: State, p: Plan, key: string)
    ensures KeysGrow(s.keys, Publish(s, p, key).0.keys)
    ensures KeysGrow(s.keys, Retry(s, p, key).0.keys)
  {
  }

  lemma StepGrowsKeys(s: State, op: Op)
    ensures KeysGrow(s.keys, Step(s, op).keys)
  {
    match op
    case OpSubmit(c, key) => SubmitGrowsKeys(s, c, key);
    case OpPublish(p, key) => PublishGrowsKeys(s, p, key);
    case OpRetry(p, key) => PublishGrowsKeys(s, p, key);
    case _ =>
  }

  lemma StepLinks(s: State, op: Op)
    requires Linked(s)
    ensures Linked(Step(s, op)) && Evolves(s, Step(s, op))
  {
    StepChangesOne(s, op);
    PlansStayLinked(s, op);
    AssessmentsStayFiled(s, op);
    StepGrowsKeys(s, op);
    ChangeLinks(s.complaints, Step(s, op).complaints, Step(s, op).plans, DistrictOf(op));
  }

  lemma StaysLinked(s: State, op: Op)
    requires Linked(s)
    ensures Linked(Step(s, op))
  {
    StepLinks(s, op);
  }

  lemma {:induction false} RunLinks(ops: seq<Op>)
    ensures Linked(Run(ops))
  {
    if ops != [] {
      RunLinks(ops[..|ops| - 1]);
      StepLinks(Run(ops[..|ops| - 1]), ops[|ops| - 1]);
    }
  }

  // ---------------------------------------------------------------- optimistic versions

  /** What stays of a complaint from one state of a run to any later one. */
  ghost predicate Later(c: Complaint, d: Complaint) {
    && d.version >= c.version && (d.version == c.version ==> d == c)
    && Rank(d.status) >= Rank(c.status)
    && d.id == c.id && d.district == c.district && d.resident == c.resident && d.facility == c.facility && d.evidence == c.evidence
  }

  lemma {:induction false} RunEvolves(ops: seq<Op>, i: nat, id: string)
    requires i <= |ops| && id in Run(ops[..i]).complaints
    ensures id in Run(ops).complaints && Later(Run(ops[..i]).complaints[id], Run(ops).complaints[id])
    decreases |ops|
  {
    if i == |ops| {
      assert ops[..i] == ops;
    } else {
      var n := |ops| - 1;
      assert ops[..n][..i] == ops[..i];
      RunEvolves(ops[..n], i, id);
      RunLinks(ops[..n]);
      StepLinks(Run(ops[..n]), ops[n]);
    }
  }

  /** An ID and a version determine the whole complaint, anywhere in a run. */
  lemma VersionDeterminesContent(ops: seq<Op>, i: nat, j: nat, id: string)
    requires i <= j <= |ops|
    requires id in Run(ops[..i]).complaints && id in Run(ops[..j]).complaints
    ensures Run(ops[..i]).complaints[id].version == Run(ops[..j]).complaints[id].version <==>
            Run(ops[..i]).complaints[id] == Run(ops[..j]).complaints[id]
  {
    assert ops[..j][..i] == ops[..i];
    RunEvolves(ops[..j], i, id);
  }

  /** Steps of the run that changed an existing complaint. */
  function Writes(ops: seq<Op>, id: string): nat {
    if ops == [] then 0
    else
      var before, after := Run(ops[..|ops| - 1]), Run(ops);
      Writes(ops[..|ops| - 1], id)
      + if id in before.complaints && id in after.complaints && after.complaints[id] != before.complaints[id] then 1 else 0
  }

  /** A version is one more than the number of writes since the submission. */
  lemma {:induction false} VersionCountsWrites(ops: seq<Op>, id: string)
    ensures id in Run(ops).complaints ==> Run(ops).complaints[id].version == 1 + Writes(ops, id)
    ensures id !in Run(ops).complaints ==> Writes(ops, id) == 0
  {
    if ops != [] {
      var n := |ops| - 1;
      VersionCountsWrites(ops[..n], id);
      RunLinks(ops[..n]);
      StepLinks(Run(ops[..n]), ops[n]);
    }
  }

  /** A successful acceptance with a version acts on exactly the complaint that was read with
      that version, and that complaint was pending, assessed and zoned. */
  lemma AcceptActsOnWhatWasRead(ops: seq<Op>, i: nat, district: string, id: string)
    requires i <= |ops| && id in Run(ops[..i]).complaints
    ensures var read := Run(ops[..i]).complaints[id];
            Accept(Run(ops), district, id, read.version).1.Ok? <==>
            && id in Run(ops).complaints && Run(ops).complaints[id] == read
            && read.district == district && read.status == Pending && read.assessment != "" && read.zone != ""
  {
    RunEvolves(ops, i, id);
  }

  // ---------------------------------------------------------------- districts

  /** No operation for one district touches or creates a complaint of another. */
  lemma DistrictsAreIsolated(ops: seq<Op>, op: Op, id: string)
    ensures var s, t := Run(ops), Run(ops + [op]);
            && (id in s.complaints && Some(s.complaints[id].district) != DistrictOf(op) ==> id in t.complaints && t.complaints[id] == s.complaints[id])
            && (id in t.complaints && Some(t.complaints[id].district) != DistrictOf(op) ==> id in s.complaints)
  {
    RunLinks(ops);
    assert (ops + [op])[..|ops|] == ops;
    StepChangesOne(Run(ops), op);
  }

  // ---------------------------------------------------------------- request keys

  predicate ColonFree(district: string) {
    ':' !in district
  }

  /** Position of the first colon. */
  function FirstColon(k: string): (i: nat)
    ensures i <= |k| && ':' !in k[..i]
    ensures i < |k| ==> k[i] == ':'
  {
    if k == "" || k[0] == ':' then 0 else 1 + FirstColon(k[1..])
  }

  lemma {:induction false} FirstColonAfter(district: string, rest: string)
    requires ColonFree(district)
    ensures FirstColon(district + (":" + rest)) == |district|
    ensures (district + (":" + rest))[..|district|] == district && (district + (":" + rest))[|district|..] == ":" + rest
  {
    var k := district + (":" + rest);
    if district != "" {
      assert k[1..] == district[1..] + (":" + rest);
      assert ':' !in district[1..] by {
        assert forall c :: c in district[1..] ==> c in district;
      }
      FirstColonAfter(district[1..], rest);
    }
  }

  predicate StartsWith(s: string, p: string) {
    |p| <= |s| && s[..|p|] == p
  }

  /** Keys written by submissions, told by what follows the first colon. */
  predicate IsSubmissionKey(k: string) {
    StartsWith(k[FirstColon(k)..], ":complaint:")
  }

  function KeyDistrict(k: string): string {
    k[..FirstColon(k)]
  }

  lemma SubmissionKeyParts(district: string, key: string)
    requires ColonFree(district)
    ensures IsSubmissionKey(ComplaintKey(district, key)) && KeyDistrict(ComplaintKey(district, key)) == district
    ensures ComplaintKey(district, key)[|district| + 11..] == key
  {
    var k := ComplaintKey(district, key);
    assert k == district + (":" + ("complaint:" + key));
    FirstColonAfter(district, "complaint:" + key);
    assert k[|district|..][..11] == ":complaint:";
  }

  lemma PlanKeyParts(district: string, key: string)
    requires ColonFree(district)
    ensures !IsSubmissionKey(ActionKey(district, "plan", key))
  {
    var k := ActionKey(district, "plan", key);
    assert k == district + (":" + ("plan:" + key));
    FirstColonAfter(district, "plan:" + key);
    var tail := k[|district|..];
    assert tail[1] == 'p';
    assert |tail| >= 11 ==> tail[..11][1] == tail[1] != ":complaint:"[1];
  }

  /** For districts without colons the keys of submissions tell district and request key
      apart, and never meet the key of a plan. */
  lemma KeysAreInjectiveAndDisjoint(d: string, k: string, d': string, k': string)
    requires ColonFree(d) && ColonFree(d')
    ensures ComplaintKey(d, k) == ComplaintKey(d', k') <==> d == d' && k == k'
    ensures ComplaintKey(d, k) != ActionKey(d', "plan", k')
  {
    SubmissionKeyParts(d, k);
    SubmissionKeyParts(d', k');
    PlanKeyParts(d', k');
  }

  predicate Comparable(a: string, b: string) {
    StartsWith(a, b) || StartsWith(b, a)
  }

  /** Two strings can be extended to the same one exactly if one begins with the other. */
  lemma ExtensionsMeet(p: string, q: string)
    ensures (exists k, k' :: p + k == q + k') <==> Comparable(p, q)
  {
    if k, k' :| p + k == q + k' {
      assert p == (p + k)[..|p|] && q == (q + k')[..|q|];
      if |p| <= |q| {
        assert q[..|p|] == (q + k')[..|p|];
      } else {
        assert p[..|q|] == (p + k)[..|q|];
      }
    }
    if StartsWith(p, q) {
      assert p + "" == q + p[|q|..];
    } else if StartsWith(q, p) {
      assert p + q[|p|..] == q + "";
    }
  }

  /** In general two districts can share a request key exactly when one of their key prefixes
      begins with the other. */
  lemma KeyCollisionExact(d: string, d': string)
    ensures (exists k, k' :: ComplaintKey(d, k) == ComplaintKey(d', k')) <==> Comparable(d + ":complaint:", d' + ":complaint:")
  {
    var p, q := d + ":complaint:", d' + ":complaint:";
    assert forall k :: ComplaintKey(d, k) == p + k;
    assert forall k' :: ComplaintKey(d', k') == q + k';
    ExtensionsMeet(p, q);
  }

  /** The same holds of a submission of one district and a publication of another. */
  lemma PlanKeyCollisionExact(d: string, d': string)
    ensures (exists k, k' :: ComplaintKey(d, k) == ActionKey(d', "plan", k')) <==> Comparable(d + ":complaint:", d' + ":plan:")
  {
    var p, q := d + ":complaint:", d' + ":plan:";
    assert forall k :: ComplaintKey(d, k) == p + k;
    assert forall k' :: ActionKey(d', "plan", k') == q + k';
    ExtensionsMeet(p, q);
  }

  // ---------------------------------------------------------------- exactly-once submission

  ghost predicate KeyOf(ks: Keys, sub: string -> bool, id: string, k: string) {
    k in ks && sub(k) && ks[k].entity == id
  }

  /** The keys told by sub and the complaints correspond one to one, each in its key's district. */
  ghost predicate OneToOne(cs: Complaints, ks: Keys, sub: string -> bool, district: string -> string) {
    && (forall k :: k in ks && sub(k) ==> ks[k].entity in cs && cs[ks[k].entity].district == district(k))
    && (forall k, k' :: k in ks && k' in ks && sub(k) && sub(k') && k != k' ==> ks[k].entity != ks[k'].entity)
    && (forall id :: id in cs ==> exists k :: KeyOf(ks, sub, id, k))
  }

  ghost predicate KeysMatchComplaints(s: State) {
    OneToOne(s.complaints, s.keys, IsSubmissionKey, KeyDistrict)
  }

  lemma NewComplaintAndKey(cs: Complaints, ks: Keys, sub: string -> bool, district: string -> string, c: Complaint, k: string)
    requires OneToOne(cs, ks, sub, district)
    requires c.id !in cs && k !in ks && sub(k) && district(k) == c.district
    ensures OneToOne(cs[c.id := c], ks[k := OperationResult(c.id, 1)], sub, district)
  {
    var after := ks[k := OperationResult(c.id, 1)];
    var all := cs[c.id := c];
    forall id | id in all
      ensures exists x :: KeyOf(after, sub, id, x)
    {
      if id == c.id {
        assert KeyOf(after, sub, id, k);
      } else {
        var x :| KeyOf(ks, sub, id, x);
        assert KeyOf(after, sub, id, x);
      }
    }
  }

  /** Neither new values of the same complaints nor a key of another kind disturb it. */
  lemma SameKeysAndDistricts(cs: Complaints, ks: Keys, cs': Complaints, sub: string -> bool, district: string -> string, k: string, r: OperationResult)
    requires OneToOne(cs, ks, sub, district)
    requires cs'.Keys == cs.Keys && forall id :: id in cs ==> cs'[id].district == cs[id].district
    requires !sub(k)
    ensures OneToOne(cs', ks, sub, district)
    ensures OneToOne(cs', ks[k := r], sub, district)
  {
    var more := ks[k := r];
    forall id | id in cs'
      ensures exists x :: KeyOf(ks, sub, id, x)
      ensures exists x :: KeyOf(more, sub, id, x)
    {
      var x :| KeyOf(ks, sub, id, x);
      assert KeyOf(more, sub, id, x);
    }
  }

  /** So do submission events and complaints. */
  ghost predicate EventPerComplaint(cs: Complaints, events: seq<Event>) {
    && (forall i :: 0 <= i < |events| ==> events[i].entity in cs && events[i] == SubmissionEvent(cs[events[i].entity]))
    && (forall i, j :: 0 <= i < j < |events| ==> events[i].entity != events[j].entity)
    && (forall id :: id in cs ==> exists i :: 0 <= i < |events| && events[i].entity == id)
  }

  ghost predicate EventsMatchComplaints(s: State) {
    EventPerComplaint(s.complaints, s.events)
  }

  predicate PlainDistrict(op: Op) {
    match op
    case OpSubmit(c, _) => ColonFree(c.district)
    case OpPublish(p, _) => ColonFree(p.district)
    case OpRetry(p, _) => ColonFree(p.district)
    case _ => true
  }

  /** A submission that stores something. */
  predicate Submits(s: State, op: Op) {
    op.OpSubmit? && Step(s, op).complaints != s.complaints
  }

  lemma SubmitParts(s: State, op: Op)
    requires Submits(s, op) && ComplaintsFiled(s.complaints)
    ensures var t, c, k := Step(s, op), op.c.(status := Pending, version := 1), ComplaintKey(op.c.district, op.key);
            && c.id !in s.complaints && t.complaints == s.complaints[c.id := c]
            && k !in s.keys && t.keys == s.keys[k := OperationResult(c.id, 1)]
            && t.events == s.events + [SubmissionEvent(c)]
  {
  }

  lemma PublishParts(s: State, p: Plan, key: string, t: State)
    requires t == Publish(s, p, key).0 || t == Retry(s, p, key).0
    ensures t.complaints == s.complaints && t.events == s.events
    ensures t.keys == s.keys || t.keys == s.keys[ActionKey(p.district, "plan", key) := OperationResult(p.id, 1)]
  {
  }

  lemma IdleSubmit(s: State, c: Complaint, key: string)
    requires Submit(s, c, key).0.complaints == s.complaints
    ensures Submit(s, c, key).0.events == s.events && Submit(s, c, key).0.keys == s.keys
  {
  }

  lemma QuietOps(s: State, op: Op)
    requires !op.OpSubmit? && !op.OpPublish? && !op.OpRetry?
    ensures Step(s, op).events == s.events && Step(s, op).keys == s.keys
  {
  }

  /** Any other step adds at most the key of a plan, and no event. */
  lemma OtherParts(s: State, op: Op)
    requires !Submits(s, op)
    ensures var t := Step(s, op);
            && t.events == s.events
            && (t.keys == s.keys
                || ((op.OpPublish? || op.OpRetry?)
                    && t.keys == s.keys[ActionKey(op.p.district, "plan", op.key) := OperationResult(op.p.id, 1)]))
  {
    if op.OpPublish? || op.OpRetry? {
      PublishParts(s, op.p, op.key, Step(s, op));
    } else if op.OpSubmit? {
      IdleSubmit(s, op.c, op.key);
    } else {
      QuietOps(s, op);
    }
  }

  lemma NoNewComplaint(s: State, op: Op)
    requires !Submits(s, op) && Linked(s)
    ensures Step(s, op).complaints.Keys == s.complaints.Keys
  {
    StepChangesOne(s, op);
    if !op.OpSubmit? && Step(s, op).complaints != s.complaints {
      var c: Complaint :| Step(s, op).complaints == s.complaints[c.id := c] && IsChange(s.complaints, c);
      OnlySubmitCreates(s, op, c.id);
    }
  }

  lemma OnlySubmitCreates(s: State, op: Op, id: string)
    requires !op.OpSubmit? && Linked(s) && id in Step(s, op).complaints
    ensures id in s.complaints
  {
  }

  lemma EvolvedDistricts(cs: Complaints, cs': Complaints)
    requires ComplaintsEvolve(cs, cs')
    ensures forall id :: id in cs ==> id in cs' && cs'[id].district == cs[id].district && cs'[id].id == cs[id].id
  {
  }

  lemma StepKeepsKeys(s: State, op: Op)
    requires Linked(s) && PlainDistrict(op) && KeysMatchComplaints(s)
    ensures KeysMatchComplaints(Step(s, op))
  {
    if Submits(s, op) {
      SubmitParts(s, op);
      SubmissionKeyParts(op.c.district, op.key);
      NewComplaintAndKey(s.complaints, s.keys, IsSubmissionKey, KeyDistrict, op.c.(status := Pending, version := 1), ComplaintKey(op.c.district, op.key));
    } else {
      OtherStepKeepsKeys(s, op, Step(s, op));
    }
  }

  lemma OtherStepKeepsKeys(s: State, op: Op, t: State)
    requires Linked(s) && PlainDistrict(op) && KeysMatchComplaints(s)
    requires !Submits(s, op) && t == Step(s, op)
    ensures KeysMatchComplaints(t)
  {
    OtherParts(s, op);
    NoNewComplaint(s, op);
    StepLinks(s, op);
    EvolvedDistricts(s.complaints, t.complaints);
    if op.OpPublish? || op.OpRetry? {
      PlanKeyParts(op.p.district, op.key);
      SameKeysAndDistricts(s.complaints, s.keys, t.complaints, IsSubmissionKey, KeyDistrict,
                           ActionKey(op.p.district, "plan", op.key), OperationResult(op.p.id, 1));
    } else {
      PlanKeyParts("", "");
      SameKeysAndDistricts(s.complaints, s.keys, t.complaints, IsSubmissionKey, KeyDistrict,
                           ActionKey("", "plan", ""), OperationResult("", 1));
    }
  }

  lemma StepKeepsEvents(s: State, op: Op)
    requires Linked(s) && EventsMatchComplaints(s)
    ensures EventsMatchComplaints(Step(s, op))
  {
    StepLinks(s, op);
    EvolvedDistricts(s.complaints, Step(s, op).complaints);
    if Submits(s, op) {
      SubmitParts(s, op);
      EventAdded(s.complaints, s.events, op.c.(status := Pending, version := 1));
    } else {
      OtherParts(s, op);
      NoNewComplaint(s, op);
      EventsKept(s.complaints, s.events, Step(s, op).complaints);
    }
  }

  lemma EventAdded(cs: Complaints, events: seq<Event>, c: Complaint)
    requires EventPerComplaint(cs, events) && c.id !in cs
    ensures EventPerComplaint(cs[c.id := c], events + [SubmissionEvent(c)])
  {
    var all, after := cs[c.id := c], events + [SubmissionEvent(c)];
    assert after[|events|].entity == c.id;
    forall id | id in all
      ensures exists i :: 0 <= i < |after| && after[i].entity == id
    {
      if id != c.id {
        var i :| 0 <= i < |events| && events[i].entity == id;
        assert after[i].entity == id;
      }
    }
  }

  lemma EventsKept(cs: Complaints, events: seq<Event>, cs': Complaints)
    requires EventPerComplaint(cs, events) && cs'.Keys == cs.Keys
    requires forall id :: id in cs ==> cs'[id].district == cs[id].district && cs'[id].id == cs[id].id
    ensures EventPerComplaint(cs', events)
  {
  }

  /** Whatever faults are injected, complaints, request keys and submission events stay in
      one-to-one correspondence. */
  lemma {:induction false} SubmissionIsExactlyOnce(ops: seq<Op>)
    requires forall op :: op in ops ==> PlainDistrict(op)
    ensures KeysMatchComplaints(Run(ops)) && EventsMatchComplaints(Run(ops))
  {
    if ops != [] {
      var n := |ops| - 1;
      assert forall op :: op in ops[..n] ==> op in ops;
      SubmissionIsExactlyOnce(ops[..n]);
      RunLinks(ops[..n]);
      assert ops[n] in ops;
      StepKeepsKeys(Run(ops[..n]), ops[n]);
      StepKeepsEvents(Run(ops[..n]), ops[n]);
    }
  }

  lemma {:induction false} KeysPersist(ops: seq<Op>, i: nat, k: string)
    requires i <= |ops| && k in Run(ops[..i]).keys
    ensures k in Run(ops).keys && Run(ops).keys[k] == Run(ops[..i]).keys[k]
    decreases |ops|
  {
    if i == |ops| {
      assert ops[..i] == ops;
    } else {
      var n := |ops| - 1;
      assert ops[..n][..i] == ops[..i];
      KeysPersist(ops[..n], i, k);
      RunLinks(ops[..n]);
      StepLinks(Run(ops[..n]), ops[n]);
    }
  }

  /** A request key once used successfully answers every later submission of its district
      with the complaint it created, and creates nothing. */
  lemma ResubmissionFindsTheComplaint(ops: seq<Op>, i: nat, c: Complaint, key: string, again: Complaint)
    requires i < |ops| && ops[i] == OpSubmit(c, key)
    requires Submit(Run(ops[..i]), c, key).1.Ok? && ComplaintKey(c.district, key) !in Run(ops[..i]).keys
    requires again.district == c.district && again.id != "" && again.evidence != []
    ensures c.id in Run(ops).complaints
    ensures Submit(Run(ops), again, key) == (Run(ops), Ok(Run(ops).complaints[c.id]))
  {
    assert ops[..i + 1][..i] == ops[..i];
    assert Run(ops[..i + 1]) == Submit(Run(ops[..i]), c, key).0;
    KeysPersist(ops, i + 1, ComplaintKey(c.district, key));
    RunEvolves(ops, i + 1, c.id);
  }

  /** A submission whose key a publication has used is answered without an error by whatever
      complaint bears the plan's ID, or by an empty one, and it is not stored. */
  lemma SubmissionAnsweredFromPlan(ops: seq<Op>, i: nat, p: Plan, planKey: string, c: Complaint, key: string)
    requires i < |ops| && ops[i] == OpPublish(p, planKey)
    requires Publish(Run(ops[..i]), p, planKey).1.Ok? && ActionKey(p.district, "plan", planKey) !in Run(ops[..i]).keys
    requires c.id != "" && c.district != "" && c.evidence != []
    requires ComplaintKey(c.district, key) == ActionKey(p.district, "plan", planKey)
    ensures Submit(Run(ops), c, key) == (Run(ops), Ok(ComplaintAt(Run(ops), p.id)))
  {
    assert ops[..i + 1][..i] == ops[..i];
    assert Run(ops[..i + 1]) == Publish(Run(ops[..i]), p, planKey).0;
    KeysPersist(ops, i + 1, ComplaintKey(c.district, key));
  }

  /** Such a pair of requests exists: the plan "P" of district "x" and a complaint "B" of
      district "x:plan:y", which gets an empty answer and is lost. */
  lemma SubmissionIsLost()
    ensures var a, b := Complaint("A", "x", "r", "f", Blank, ["e"], "", "", "", 0), Complaint("B", "x:plan:y", "r", "f", Blank, ["e"], "", "", "", 0);
            var s := Run([OpSubmit(a, "1"), OpPublish(Plan("P", "x", "A", "c", Unset, [], 0), "y:complaint:k")]);
            Submit(s, b, "k") == (s, Ok(Complaint("", "", "", "", Blank, [], "", "", "", 0))) && "B" !in s.complaints
  {
    var a, b := Complaint("A", "x", "r", "f", Blank, ["e"], "", "", "", 0), Complaint("B", "x:plan:y", "r", "f", Blank, ["e"], "", "", "", 0);
    var p := Plan("P", "x", "A", "c", Unset, [], 0);
    var ops := [OpSubmit(a, "1"), OpPublish(p, "y:complaint:k")];
    var s := Submit(NEW, a, "1").0;
    assert Run(ops[..1]) == s by {
      assert ops[..1][..0] == [];
    }
    assert s.complaints == map["A" := a.(status := Pending, version := 1)];
    KeysAreInjectiveAndDisjoint("x", "1", "x", "y:complaint:k");
    assert ComplaintKey("x:plan:y", "k") == ActionKey("x", "plan", "y:complaint:k");
    SubmissionAnsweredFromPlan(ops, 1, p, "y:complaint:k", b, "k");
  }

  lemma UsedKeyAnswers(s: State, p: Plan, planKey: string)
    requires p.complaint in s.complaints && s.complaints[p.complaint].district == p.district
    requires ActionKey(p.district, "plan", planKey) in s.keys
    ensures Publish(s, p, planKey) == (s, Ok(PlanAt(s, s.keys[ActionKey(p.district, "plan", planKey)].entity)))
  {
  }

  lemma SubmissionUsesKey(s: State, c: Complaint, key: string)
    requires Submit(s, c, key).1.Ok? && ComplaintKey(c.district, key) !in s.keys
    ensures var t := Submit(s, c, key).0; ComplaintKey(c.district, key) in t.keys && t.keys[ComplaintKey(c.district, key)].entity == c.id
  {
  }

  /** The other way round: a publication whose key a submission has used is answered without an
      error by whatever plan bears the complaint's ID, or by an empty one, and it is not stored. */
  lemma PublicationAnsweredFromSubmission(ops: seq<Op>, i: nat, c: Complaint, key: string, p: Plan, planKey: string)
    requires i < |ops| && ops[i] == OpSubmit(c, key)
    requires Submit(Run(ops[..i]), c, key).1.Ok? && ComplaintKey(c.district, key) !in Run(ops[..i]).keys
    requires p.complaint in Run(ops).complaints && Run(ops).complaints[p.complaint].district == p.district
    requires ComplaintKey(c.district, key) == ActionKey(p.district, "plan", planKey)
    ensures Publish(Run(ops), p, planKey) == (Run(ops), Ok(PlanAt(Run(ops), c.id)))
  {
    assert ops[..i + 1][..i] == ops[..i];
    SubmissionUsesKey(Run(ops[..i]), c, key);
    KeysPersist(ops, i + 1, ComplaintKey(c.district, key));
    UsedKeyAnswers(Run(ops), p, planKey);
  }

  /** The same two requests in the other order: now the plan is lost. */
  lemma PublicationIsLost()
    ensures var a, b := Complaint("A", "x", "r", "f", Blank, ["e"], "", "", "", 0), Complaint("B", "x:plan:y", "r", "f", Blank, ["e"], "", "", "", 0);
            var s := Run([OpSubmit(a, "1"), OpSubmit(b, "k")]);
            Publish(s, Plan("P", "x", "A", "c", Unset, [], 0), "y:complaint:k") == (s, Ok(Plan("", "", "", "", Unset, [], 0))) && "P" !in s.plans
  {
    var a, b := Complaint("A", "x", "r", "f", Blank, ["e"], "", "", "", 0), Complaint("B", "x:plan:y", "r", "f", Blank, ["e"], "", "", "", 0);
    var p := Plan("P", "x", "A", "c", Unset, [], 0);
    var ops := [OpSubmit(a, "1"), OpSubmit(b, "k")];
    var s := Submit(NEW, a, "1").0;
    assert Run(ops[..1]) == s by {
      assert ops[..1][..0] == [];
    }
    assert s.complaints == map["A" := a.(status := Pending, version := 1)] && s.keys.Keys == {ComplaintKey("x", "1")};
    assert ComplaintKey("x", "1")[2] == 'c' && ComplaintKey("x:plan:y", "k")[2] == 'p';
    var t := Submit(s, b, "k").0;
    assert Run(ops) == t;
    assert t.complaints == s.complaints["B" := b.(status := Pending, version := 1)];
    assert ComplaintKey("x:plan:y", "k") == ActionKey("x", "plan", "y:complaint:k");
    PublicationAnsweredFromSubmission(ops, 1, b, "k", p, "y:complaint:k");
  }

  /** A failed submission leaves no trace but the cleared fault, and its key stays usable. */
  lemma FaultLeavesNoTrace(s: State, c: Complaint, key: string)
    requires Submit(s, c, key).1 == Err(Storage)
    ensures Submit(s, c, key).0 == s.(failEvent := false)
    ensures Submit(Submit(s, c, key).0, c, key).1 == Ok(c.(status := Pending, version := 1))
  {
  }

  /** Retrying a publication hides one storage fault completely. */
  lemma RetryHidesTheFault(s: State, p: Plan, key: string)
    ensures Retry(s, p, key).1 != Err(Storage)
    ensures Publish(s, p, key).1 == Err(Storage) ==> Retry(s, p, key) == Publish(s.(failPlan := false), p, key)
    ensures Publish(s, p, key).1 != Err(Storage) ==> Retry(s, p, key) == Publish(s, p, key)
  {
  }
}

/** Where the contents of the registry come from, which requests are refused, and what the
    normalisation of names and venues does. */
module HubRecords {
  import opened Common
  import opened Hub
  import opened HubProofs

  // ---------------------------------------------------------------- normalisation

  /** Trimming takes spaces off both ends and nothing else. */
  lemma {:induction false} TrimmedLeft(s: string) returns (k: nat)
    ensures k <= |s| && TrimLeft(s) == s[k..] && (forall i :: 0 <= i < k ==> IsSpace(s[i]))
    ensures k < |s| ==> !IsSpace(s[k])
  {
    k := 0;
    if s != "" && IsSpace(s[0]) {
      var rest := TrimmedLeft(s[1..]);
      k := rest + 1;
      assert forall i :: 0 < i < k ==> s[i] == s[1..][i - 1];
    }
  }

  lemma {:induction false} TrimmedRight(s: string) returns (k: nat)
    ensures k <= |s| && TrimRight(s) == s[..k] && (forall i :: k <= i < |s| ==> IsSpace(s[i]))
    ensures k > 0 ==> !IsSpace(s[k - 1])
  {
    k := |s|;
    if s != "" && IsSpace(s[|s| - 1]) {
      k := TrimmedRight(s[..|s| - 1]);
    }
  }

  lemma {:induction false} UpperOf(s: string)
    ensures |Upper(s)| == |s|
    ensures forall i :: 0 <= i < |s| ==> Upper(s)[i] == if 'a' <= s[i] <= 'z' then (s[i] as int - 'a' as int + 'A' as int) as char else s[i]
  {
    if s != "" {
      UpperOf(s[1..]);
    }
  }

  lemma {:induction false} UpperStays(s: string)
    requires forall i :: 0 <= i < |s| ==> !('a' <= s[i] <= 'z')
    ensures Upper(s) == s
  {
    UpperOf(s);
  }

  lemma TrimStays(s: string)
    requires s == "" || (!IsSpace(s[0]) && !IsSpace(s[|s| - 1]))
    ensures TrimRight(TrimLeft(s)) == s
  {
  }

  /** A trimmed name begins and ends without a space, and is empty only if it was all spaces. */
  lemma TrimmedEnds(s: string)
    ensures var t := TrimRight(TrimLeft(s));
            && (t != "" ==> !IsSpace(t[0]) && !IsSpace(t[|t| - 1]))
            && (t == "" <==> forall i :: 0 <= i < |s| ==> IsSpace(s[i]))
  {
    var l := TrimLeft(s);
    var k := TrimmedLeft(s);
    var m := TrimmedRight(l);
    if m > 0 {
      assert TrimRight(l)[0] == l[0] == s[k];
    }
  }

  /** Normalising a venue twice is normalising it once, so venues compare as they are stored. */
  lemma NormalisingTwice(venue: string)
    ensures NormalizeVenue(NormalizeVenue(venue)) == NormalizeVenue(venue)
  {
    var t, n := TrimRight(TrimLeft(venue)), NormalizeVenue(venue);
    TrimmedEnds(venue);
    UpperOf(t);
    assert forall i :: 0 <= i < |n| ==> !('a' <= n[i] <= 'z') && (IsSpace(n[i]) <==> IsSpace(t[i]));
    TrimStays(n);
    UpperStays(n);
  }

  // ---------------------------------------------------------------- refusals

  /** Which complaints are refused, and why. */
  lemma SubmissionRefusals(s: State, c: Complaint, now: int)
    ensures var r := Submit(s, c, now);
            var valid := && c.id != "" && c.district != "" && c.residentId != "" && c.evidence != []
                         && (exists i :: 0 <= i < |c.residentName| && !IsSpace(c.residentName[i]))
                         && NormalizeVenue(c.venue) in {"FOOTBALL_FIELD", "BASKETBALL_COURT", "TENNIS_COURT", "RUNNING_TRACK"}
                         && 1 <= c.requested <= 5000;
            && (r.1 == Err(Invalid) <==> !valid)
            && (r.1 == Err(Conflict) <==> valid && c.id in s.complaints)
            && (r.1.Ok? <==> valid && c.id !in s.complaints)
            && (r.1.Err? ==> r.0 == s)
            && (r.1.Ok? ==> c.id in r.0.complaints && r.1 == Ok(r.0.complaints[c.id]))
  {
    TrimmedEnds(c.residentName);
  }

  /** Which registrations are refused, and why; a granted one files what was given as it is. */
  lemma RegistrationRefusals(s: State, t: Team, z: Zone, r: Rule)
    ensures (AddTeam(s, t).1 == Err(Invalid) <==> t.id == "" || t.capacity <= 0)
            && (AddTeam(s, t).1 == Err(Conflict) <==> t.id != "" && t.capacity > 0 && t.id in s.teams)
            && AddTeam(s, t).0 == if AddTeam(s, t).1.Ok? then s.(teams := s.teams[t.id := t]) else s
    ensures (AddZone(s, z).1 == Err(Invalid) <==> z.id == "" || z.district == "" || z.venue == "" || z.capacity <= 0)
            && (AddZone(s, z).1 == Err(Conflict) <==> z.id != "" && z.district != "" && z.venue != "" && z.capacity > 0 && z.id in s.zones)
            && AddZone(s, z).0 == if AddZone(s, z).1.Ok? then s.(zones := s.zones[z.id := z]) else s
    ensures (AddRule(s, r).1 == Err(Invalid) <==> r.id == "" || r.authority == "" || r.capacity <= 0 || r.from >= r.to)
            && (AddRule(s, r).1 == Err(Conflict) <==> r.id != "" && r.authority != "" && r.capacity > 0 && r.from < r.to && r.id in s.rules)
            && AddRule(s, r).0 == if AddRule(s, r).1.Ok? then s.(rules := s.rules[r.id := r]) else s
  {
  }

  /** Which reservations and acceptances are refused, and why, and what granted ones answer. */
  lemma ReservationRefusals(s: State, id: string, team: string, actor: string, count: int, now: int)
    ensures var e, known, open := Reserve(s, id, team, count, now).1, count > 0 && id in s.complaints && team in s.teams,
                                  id in s.complaints && s.complaints[id].status in {Pending, Returned};
            && (e == Err(Invalid) <==> count <= 0)
            && (e == Err(ComplaintNotFound) <==> count > 0 && id !in s.complaints)
            && (e == Err(TeamNotFound) <==> count > 0 && id in s.complaints && team !in s.teams)
            && (e == Err(InvalidState) <==> known && !open)
            && (e == Err(Capacity) <==> known && open && s.teams[team].reserved + count > s.teams[team].capacity)
            && (e.Err? ==> Reserve(s, id, team, count, now).0 == s)
            && (e.Ok? ==> var t := Reserve(s, id, team, count, now).0; id in t.assessments && e == Ok(t.assessments[id]))
    ensures var e, known := AcceptComplaint(s, id, actor, now).1, id in s.complaints && actor != "";
            && (e == Err(ComplaintNotFound) <==> id !in s.complaints)
            && (e == Err(Unauthorized) <==> id in s.complaints && actor == "")
            && (e == Err(InvalidState) <==> known && s.complaints[id].status != Pending)
            && (e == Err(Capacity) <==> known && s.complaints[id].status == Pending && id !in s.assessments)
            && (e == Err(ZoneNotFound) <==> known && s.complaints[id].status == Pending && id in s.assessments
                                            && (var z := s.complaints[id].zone; z == "" || z !in s.zones || !s.zones[z].active))
            && (e.Err? ==> AcceptComplaint(s, id, actor, now).0 == s)
            && (e.Ok? ==> var t := AcceptComplaint(s, id, actor, now).0; id in t.complaints && e == Ok(t.complaints[id]))
  {
  }

  /** Which assignments of zones and applications of rules are refused, and why. */
  lemma AllotmentRefusals(s: State, id: string, zone: string, rule: string, count: int, now: int)
    ensures var e, known := AssignZone(s, id, zone, count).1, count > 0 && id in s.complaints && zone in s.zones;
            var fits := known && s.zones[zone].district == s.complaints[id].district
                        && NormalizeVenue(s.zones[zone].venue) == NormalizeVenue(s.complaints[id].venue);
            && (e == Err(Invalid) <==> count <= 0)
            && (e == Err(ComplaintNotFound) <==> count > 0 && id !in s.complaints)
            && (e == Err(ZoneNotFound) <==> count > 0 && id in s.complaints && zone !in s.zones)
            && (e == Err(Unauthorized) <==> known && !fits)
            && (e == Err(Capacity) <==> fits && (!s.zones[zone].active || s.zones[zone].used + count > s.zones[zone].capacity))
            && (e.Err? ==> AssignZone(s, id, zone, count).0 == s)
    ensures var e, known := ApplyRule(s, id, rule, now).1, id in s.complaints && rule in s.rules;
            && (e == Err(ComplaintNotFound) <==> id !in s.complaints)
            && (e == Err(RuleNotFound) <==> id in s.complaints && rule !in s.rules)
            && (e == Err(Capacity) <==> known && (var r := s.rules[rule];
                  now < r.from || r.to <= now || r.used >= r.capacity
                  || forall v :: v in r.venues ==> NormalizeVenue(v) != NormalizeVenue(s.complaints[id].venue)))
            && (e.Err? ==> ApplyRule(s, id, rule, now).0 == s)
  {
  }

  // ---------------------------------------------------------------- complaints

  const NO_CASE := Complaint("", "", "", "", "", Pending, [], 0, "", "", 0, 0, 0)

  /** A complaint as the granted requests of the run have made it. */
  function Made(ops: seq<Op>, id: string): Complaint
    requires id in Run(ops).complaints
    decreases |ops|
  {
    var before, op := ops[..|ops| - 1], ops[|ops| - 1];
    var s := Run(before);
    if id !in s.complaints then
      if op.OpSubmit? then
        op.c.(residentName := TrimRight(TrimLeft(op.c.residentName)), venue := NormalizeVenue(op.c.venue), status := Pending, attempt := 1, updatedAt := op.now)
      else NO_CASE
    else
      var c := Made(before, id);
      match op
      case OpReserve(x, team, count, now) =>
        if x == id && Reserve(s, id, team, count, now).1.Ok? && !IsActive(s.assessments, id) then c.(updatedAt := now, version := c.version + 1) else c
      case OpAccept(x, actor, now) =>
        if x == id && AcceptComplaint(s, id, actor, now).1.Ok? then c.(status := Accepted, updatedAt := now, version := c.version + 1) else c
      case OpAssign(x, zone, count) =>
        if x == id && AssignZone(s, id, zone, count).1.Ok? then c.(zone := zone, version := c.version + 1) else c
      case OpApply(x, rule, now) =>
        if x == id && ApplyRule(s, id, rule, now).1.Ok? then c.(rule := rule, version := c.version + 1) else c
      case _ => c
  }

  lemma SubmissionMakes(s: State, c: Complaint, now: int, id: string)
    requires id in Submit(s, c, now).0.complaints
    ensures Submit(s, c, now).0.complaints[id]
            == if id in s.complaints then s.complaints[id]
               else c.(residentName := TrimRight(TrimLeft(c.residentName)), venue := NormalizeVenue(c.venue), status := Pending, attempt := 1, updatedAt := now)
    ensures id !in s.complaints ==> c.id == id
  {
  }

  lemma ReservationMakes(s: State, x: string, team: string, count: int, now: int, id: string)
    requires id in s.complaints
    ensures var c, cs := s.complaints[id], Reserve(s, x, team, count, now).0.complaints;
            cs.Keys == s.complaints.Keys
            && cs[id] == if x == id && Reserve(s, id, team, count, now).1.Ok? && !IsActive(s.assessments, id) then c.(updatedAt := now, version := c.version + 1) else c
  {
  }

  lemma AcceptanceMakes(s: State, x: string, actor: string, now: int, id: string)
    requires id in s.complaints
    ensures var c, cs := s.complaints[id], AcceptComplaint(s, x, actor, now).0.complaints;
            cs.Keys == s.complaints.Keys
            && cs[id] == if x == id && AcceptComplaint(s, id, actor, now).1.Ok? then c.(status := Accepted, updatedAt := now, version := c.version + 1) else c
  {
  }

  lemma AssignmentMakes(s: State, x: string, zone: string, count: int, id: string)
    requires id in s.complaints
    ensures var c, cs := s.complaints[id], AssignZone(s, x, zone, count).0.complaints;
            cs.Keys == s.complaints.Keys
            && cs[id] == if x == id && AssignZone(s, id, zone, count).1.Ok? then c.(zone := zone, version := c.version + 1) else c
  {
  }

  lemma ApplicationMakes(s: State, x: string, rule: string, now: int, id: string)
    requires id in s.complaints
    ensures var c, cs := s.complaints[id], ApplyRule(s, x, rule, now).0.complaints;
            cs.Keys == s.complaints.Keys
            && cs[id] == if x == id && ApplyRule(s, id, rule, now).1.Ok? then c.(rule := rule, version := c.version + 1) else c
  {
  }

  lemma OnlySubmitCreates(s: State, op: Op)
    requires !op.OpSubmit?
    ensures Step(s, op).complaints.Keys == s.complaints.Keys
  {
  }

  lemma OthersMakeNothing(s: State, op: Op)
    requires op.OpAddTeam? || op.OpAddZone? || op.OpAddRule? || op.OpRelease?
    ensures Step(s, op).complaints == s.complaints
  {
  }

  /** In every run a complaint is what was submitted, normalised, as the granted requests since
      have changed it, and its version counts them. */
  lemma {:induction false} ComplaintsAreAsMade(ops: seq<Op>, id: string)
    requires id in Run(ops).complaints
    ensures Run(ops).complaints[id] == Made(ops, id)
    decreases |ops|
  {
    var n := |ops| - 1;
    var s, op := Run(ops[..n]), ops[n];
    if !op.OpSubmit? {
      OnlySubmitCreates(s, op);
    }
    if id in s.complaints {
      ComplaintsAreAsMade(ops[..n], id);
    }
    match op
    case OpSubmit(c, now) => SubmissionMakes(s, c, now, id);
    case OpReserve(x, team, count, now) => ReservationMakes(s, x, team, count, now, id);
    case OpAccept(x, actor, now) => AcceptanceMakes(s, x, actor, now, id);
    case OpAssign(x, zone, count) => AssignmentMakes(s, x, zone, count, id);
    case OpApply(x, rule, now) => ApplicationMakes(s, x, rule, now, id);
    case _ => OthersMakeNothing(s, op);
  }

  // ---------------------------------------------------------------- teams, zones, rules, reservations

  ghost predicate TeamRecorded(t: Team, id: string, ops: seq<Op>) {
    t.id == id && id != "" && t.capacity > 0 && exists first: Team :: OpAddTeam(first) in ops && t == first.(reserved := t.reserved, version := t.version)
  }

  ghost predicate ZoneRecorded(z: Zone, id: string, ops: seq<Op>) {
    z.id == id && id != "" && z.district != "" && z.capacity > 0
    && exists first: Zone :: OpAddZone(first) in ops && z == first.(used := z.used, version := z.version)
  }

  ghost predicate RuleRecorded(r: Rule, id: string, ops: seq<Op>) {
    r.id == id && id != "" && r.from < r.to && r.capacity > 0
    && exists first: Rule :: OpAddRule(first) in ops && r == first.(used := r.used, version := first.version + (r.used - first.used))
  }

  /** A reservation is as it was asked for, and released when a request asked to. */
  ghost predicate ReservationRecorded(a: Reservation, id: string, ops: seq<Op>) {
    && a.complaint == id && a.count > 0
    && OpReserve(id, a.team, a.count, a.reservedAt) in ops
    && (a.releasedAt.Some? ==> OpRelease(id, a.releasedAt.value) in ops)
  }

  ghost predicate AllRecorded(s: State, ops: seq<Op>) {
    && (forall id :: id in s.teams ==> TeamRecorded(s.teams[id], id, ops))
    && (forall id :: id in s.zones ==> ZoneRecorded(s.zones[id], id, ops))
    && (forall id :: id in s.rules ==> RuleRecorded(s.rules[id], id, ops))
    && (forall id :: id in s.assessments ==> ReservationRecorded(s.assessments[id], id, ops))
  }

  lemma StepRecordsTeam(s: State, ops: seq<Op>, op: Op, id: string)
    requires ReservationsKnown(s) && id in Step(s, op).teams
    requires id in s.teams ==> TeamRecorded(s.teams[id], id, ops)
    ensures TeamRecorded(Step(s, op).teams[id], id, ops + [op])
    ensures id in s.teams && Step(s, op).teams[id] != s.teams[id] ==> Step(s, op).teams[id].version == s.teams[id].version + 1
  {
    var t := Step(s, op).teams[id];
    assert op in ops + [op];
    if id in s.teams {
      var first: Team :| OpAddTeam(first) in ops && s.teams[id] == first.(reserved := s.teams[id].reserved, version := s.teams[id].version);
      assert OpAddTeam(first) in ops + [op] && t == first.(reserved := t.reserved, version := t.version);
    } else {
      assert t == op.t.(reserved := t.reserved, version := t.version);
    }
  }

  lemma StepRecordsZone(s: State, ops: seq<Op>, op: Op, id: string)
    requires id in Step(s, op).zones
    requires id in s.zones ==> ZoneRecorded(s.zones[id], id, ops)
    ensures ZoneRecorded(Step(s, op).zones[id], id, ops + [op])
    ensures id in s.zones && Step(s, op).zones[id] != s.zones[id] ==> Step(s, op).zones[id].version == s.zones[id].version + 1
  {
    var z := Step(s, op).zones[id];
    assert op in ops + [op];
    if id in s.zones {
      var first: Zone :| OpAddZone(first) in ops && s.zones[id] == first.(used := s.zones[id].used, version := s.zones[id].version);
      assert OpAddZone(first) in ops + [op] && z == first.(used := z.used, version := z.version);
    } else {
      assert z == op.z.(used := z.used, version := z.version);
    }
  }

  lemma StepRecordsRule(s: State, ops: seq<Op>, op: Op, id: string)
    requires id in Step(s, op).rules
    requires id in s.rules ==> RuleRecorded(s.rules[id], id, ops)
    ensures RuleRecorded(Step(s, op).rules[id], id, ops + [op])
  {
    var r := Step(s, op).rules[id];
    assert op in ops + [op];
    if id in s.rules {
      var first: Rule :| OpAddRule(first) in ops && s.rules[id] == first.(used := s.rules[id].used, version := first.version + (s.rules[id].used - first.used));
      assert OpAddRule(first) in ops + [op] && r == first.(used := r.used, version := first.version + (r.used - first.used));
    } else {
      assert r == op.r.(used := r.used, version := op.r.version + (r.used - op.r.used));
    }
  }

  lemma StepRecordsReservation(s: State, ops: seq<Op>, op: Op, id: string)
    requires id in Step(s, op).assessments
    requires id in s.assessments ==> ReservationRecorded(s.assessments[id], id, ops)
    ensures ReservationRecorded(Step(s, op).assessments[id], id, ops + [op])
  {
    assert op in ops + [op];
  }

  /** In every run teams, zones and rules are as they were registered but for what was given out
      of them, a rule's version counts its uses, and reservations are as they were asked for. */
  lemma {:induction false} EverythingIsRecorded(ops: seq<Op>)
    ensures AllRecorded(Run(ops), ops)
  {
    if ops != [] {
      var n := |ops| - 1;
      var s, op := Run(ops[..n]), ops[n];
      RunKnowsReservations(ops[..n]);
      EverythingIsRecorded(ops[..n]);
      assert ops[..n] + [op] == ops;
      forall id
        ensures id in Run(ops).teams ==> TeamRecorded(Run(ops).teams[id], id, ops)
        ensures id in Run(ops).zones ==> ZoneRecorded(Run(ops).zones[id], id, ops)
        ensures id in Run(ops).rules ==> RuleRecorded(Run(ops).rules[id], id, ops)
        ensures id in Run(ops).assessments ==> ReservationRecorded(Run(ops).assessments[id], id, ops)
      {
        if id in Run(ops).teams {
          StepRecordsTeam(s, ops[..n], op, id);
        }
        if id in Run(ops).zones {
          StepRecordsZone(s, ops[..n], op, id);
        }
        if id in Run(ops).rules {
          StepRecordsRule(s, ops[..n], op, id);
        }
        if id in Run(ops).assessments {
          StepRecordsReservation(s, ops[..n], op, id);
        }
      }
    }
  }

  // ---------------------------------------------------------------- events

  /** The event is that of a submission or an acceptance of the run, at its time and by its actor. */
  ghost predicate EventRecorded(e: Event, ops: seq<Op>) {
    || (exists c: Complaint, now: int :: OpSubmit(c, now) in ops && e == Event(c.id + "-submitted", c.district, c.id, "complaint.submitted", c.residentId, now))
    || (exists id: string, actor: string, now: int :: OpAccept(id, actor, now) in ops && e == Event(id + "-accepted", "", id, "complaint.accepted", actor, now))
  }

  lemma StepEvents(s: State, op: Op)
    ensures var t := Step(s, op);
            || t.events == s.events
            || (op.OpSubmit? && t.events == s.events + [Event(op.c.id + "-submitted", op.c.district, op.c.id, "complaint.submitted", op.c.residentId, op.now)])
            || (op.OpAccept? && t.events == s.events + [Event(op.id + "-accepted", "", op.id, "complaint.accepted", op.actor, op.now)])
  {
  }

  /** In every run every event tells of a submission or an acceptance of the run. */
  lemma {:induction false} EveryEventIsRecorded(ops: seq<Op>)
    ensures forall i :: 0 <= i < |Run(ops).events| ==> EventRecorded(Run(ops).events[i], ops)
  {
    if ops != [] {
      var n := |ops| - 1;
      var before, op := Run(ops[..n]).events, ops[n];
      EveryEventIsRecorded(ops[..n]);
      StepEvents(Run(ops[..n]), op);
      assert op in ops && forall x :: x in ops[..n] ==> x in ops;
      forall i | 0 <= i < |Run(ops).events|
        ensures EventRecorded(Run(ops).events[i], ops)
      {
        if i < |before| {
          assert EventRecorded(before[i], ops[..n]);
        }
      }
    }
  }
}

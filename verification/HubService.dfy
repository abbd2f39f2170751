/** The governance service over its registry of mutable maps. */
module HubService {
  import opened Common
  import opened Hub
  import opened HubProofs

  class Registry {
    var complaints: Complaints
    var teams: map<string, Team>
    var assessments: Reservations
    var zones: map<string, Zone>
    var rules: map<string, Rule>
    var events: seq<Event>

    function View(): State
      reads this
    {
      State(complaints, teams, assessments, zones, rules, events)
    }

    ghost predicate Valid()
      reads this
    {
      ReservationsKnown(View())
    }

    constructor ()
      ensures Valid() && View() == NEW
    {
      complaints, teams, assessments, zones, rules, events := map[], map[], map[], map[], map[], [];
    }

    method AddAssessmentTeam(team: Team) returns (r: Result<(), Error>)
      requires Valid()
      modifies this
      ensures Valid() && (View(), r) == AddTeam(old(View()), team)
    {
      StepKnowsReservations(View(), OpAddTeam(team));
      if team.id == "" || team.capacity <= 0 {
        return Err(Invalid);
      }
      if team.id in teams {
        return Err(Conflict);
      }
      teams := teams[team.id := team];
      return Ok(());
    }

    method AddZone(zone: Zone) returns (r: Result<(), Error>)
      requires Valid()
      modifies this
      ensures Valid() && (View(), r) == Hub.AddZone(old(View()), zone)
    {
      if zone.id == "" || zone.district == "" || zone.venue == "" || zone.capacity <= 0 {
        return Err(Invalid);
      }
      if zone.id in zones {
        return Err(Conflict);
      }
      zones := zones[zone.id := zone];
      return Ok(());
    }

    method AddRule(rule: Rule) returns (r: Result<(), Error>)
      requires Valid()
      modifies this
      ensures Valid() && (View(), r) == Hub.AddRule(old(View()), rule)
    {
      if rule.id == "" || rule.authority == "" || rule.capacity <= 0 || rule.from >= rule.to {
        return Err(Invalid);
      }
      if rule.id in rules {
        return Err(Conflict);
      }
      rules := rules[rule.id := rule];
      return Ok(());
    }

    method SubmitComplaint(complaint: Complaint, now: int) returns (r: Result<Complaint, Error>)
      requires Valid()
      modifies this
      ensures Valid() && (View(), r) == Submit(old(View()), complaint, now)
    {
      if !ValidInput(complaint) {
        return Err(Invalid);
      }
      var stored := complaint;
      stored := stored.(residentName := TrimRight(TrimLeft(stored.residentName)));
      stored := stored.(venue := NormalizeVenue(stored.venue));
      stored := stored.(status := Pending);
      stored := stored.(attempt := 1, updatedAt := now);
      if complaint.id in complaints {
        return Err(Conflict);
      }
      complaints := complaints[complaint.id := stored];
      events := events + [Event(complaint.id + "-submitted", complaint.district, complaint.id, SUBMITTED, complaint.residentId, now)];
      return Ok(stored);
    }

    /** Checks capacity before it looks for a reservation already made. */
    method ReserveAssessment(id: string, teamId: string, count: int, now: int) returns (r: Result<Reservation, Error>)
      requires Valid()
      modifies this
      ensures Valid() && (View(), r) == Reserve(old(View()), id, teamId, count, now)
    {
      StepKnowsReservations(View(), OpReserve(id, teamId, count, now));
      if count <= 0 {
        return Err(Invalid);
      }
      if id !in complaints {
        return Err(ComplaintNotFound);
      }
      var complaint := complaints[id];
      if teamId !in teams {
        return Err(TeamNotFound);
      }
      var team := teams[teamId];
      if complaint.status != Pending && complaint.status != Returned {
        return Err(InvalidState);
      }
      if !MeasurementCapacityAvailable(team, count) {
        return Err(Capacity);
      }
      if id in assessments && assessments[id].releasedAt.None? {
        return Ok(assessments[id]);
      }
      team := team.(reserved := team.reserved + count, version := team.version + 1);
      var assessment := Reservation(id, teamId, count, now, None);
      teams := teams[teamId := team];
      assessments := assessments[id := assessment];
      complaint := complaint.(updatedAt := now, version := complaint.version + 1);
      complaints := complaints[id := complaint];
      return Ok(assessment);
    }

    method ReleaseAssessment(id: string, now: int) returns (r: Result<(), Error>)
      requires Valid()
      modifies this
      ensures Valid() && (View(), r) == Release(old(View()), id, now)
    {
      StepKnowsReservations(View(), OpRelease(id, now));
      if id !in assessments || assessments[id].releasedAt.Some? {
        return Ok(());
      }
      var assessment := assessments[id];
      if assessment.team !in teams {
        return Err(TeamNotFound);
      }
      var team := teams[assessment.team];
      if team.reserved < assessment.count {
        return Err(Conflict);
      }
      team := team.(reserved := team.reserved - assessment.count, version := team.version + 1);
      assessment := assessment.(releasedAt := Some(now));
      teams := teams[team.id := team];
      assessments := assessments[id := assessment];
      return Ok(());
    }

    method AcceptComplaint(id: string, actor: string, now: int) returns (r: Result<Complaint, Error>)
      requires Valid()
      modifies this
      ensures Valid() && (View(), r) == Hub.AcceptComplaint(old(View()), id, actor, now)
    {
      if id !in complaints {
        return Err(ComplaintNotFound);
      }
      var complaint := complaints[id];
      if actor == "" {
        return Err(Unauthorized);
      }
      if !ValidTransition(complaint.status, Accepted) {
        return Err(InvalidState);
      }
      if id !in assessments {
        return Err(Capacity);
      }
      if complaint.zone == "" {
        return Err(ZoneNotFound);
      }
      if complaint.zone !in zones || !zones[complaint.zone].active {
        return Err(ZoneNotFound);
      }
      complaint := complaint.(status := Accepted, updatedAt := now, version := complaint.version + 1);
      complaints := complaints[id := complaint];
      events := events + [Event(id + "-accepted", "", id, ACCEPTED, actor, now)];
      return Ok(complaint);
    }

    method AssignZone(id: string, zoneId: string, count: int) returns (r: Result<(), Error>)
      requires Valid()
      modifies this
      ensures Valid() && (View(), r) == Hub.AssignZone(old(View()), id, zoneId, count)
    {
      if count <= 0 {
        return Err(Invalid);
      }
      if id !in complaints {
        return Err(ComplaintNotFound);
      }
      if zoneId !in zones {
        return Err(ZoneNotFound);
      }
      var complaint, zone := complaints[id], zones[zoneId];
      if zone.district != complaint.district || NormalizeVenue(zone.venue) != NormalizeVenue(complaint.venue) {
        return Err(Unauthorized);
      }
      if !zone.active || zone.capacity - zone.used < count {
        return Err(Capacity);
      }
      zone := zone.(used := zone.used + count, version := zone.version + 1);
      complaint := complaint.(zone := zoneId, version := complaint.version + 1);
      zones, complaints := zones[zoneId := zone], complaints[id := complaint];
      return Ok(());
    }

    method IsRuleAvailable(rule: Rule, venue: string, at: int) returns (available: bool)
      ensures available == RuleAvailable(rule, venue, at)
    {
      if at < rule.from || at >= rule.to {
        return false;
      }
      if rule.used >= rule.capacity {
        return false;
      }
      for i := 0 to |rule.venues|
        invariant forall k :: 0 <= k < i ==> NormalizeVenue(rule.venues[k]) != NormalizeVenue(venue)
      {
        if NormalizeVenue(rule.venues[i]) == NormalizeVenue(venue) {
          assert rule.venues[i] in rule.venues;
          return true;
        }
      }
      return false;
    }

    method ApplyRule(id: string, ruleId: string, now: int) returns (r: Result<(), Error>)
      requires Valid()
      modifies this
      ensures Valid() && (View(), r) == Hub.ApplyRule(old(View()), id, ruleId, now)
    {
      if id !in complaints {
        return Err(ComplaintNotFound);
      }
      var complaint := complaints[id];
      if ruleId !in rules {
        return Err(RuleNotFound);
      }
      var rule := rules[ruleId];
      var available := IsRuleAvailable(rule, complaint.venue, now);
      if !available {
        return Err(Capacity);
      }
      rule := rule.(used := rule.used + 1, version := rule.version + 1);
      complaint := complaint.(rule := ruleId, version := complaint.version + 1);
      rules, complaints := rules[ruleId := rule], complaints[id := complaint];
      return Ok(());
    }
  }
}

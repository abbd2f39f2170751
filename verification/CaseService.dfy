/** The case, escalation and re-evaluation services over the case tables. */
module CaseService {
  import opened Common
  import opened Dispatch
  import opened Cases
  import opened CaseInvariants
  import opened CaseTheorems

  const SWEEP_PAGE_SIZE := 200
  const MAX_PAGE_SIZE := 200

  /** Rows of one status, as the list query returns them without a limit. */
  ghost predicate IsSelection(rows: seq<string>, cases: map<string, Case>, status: Status) {
    Distinct(rows) && forall id :: id in rows <==> id in cases && cases[id].status == status
  }

  /** The listed cases routed under an older rule version. */
  function StaleOf(rows: seq<string>, cases: map<string, Case>, current: int): seq<string> {
    if rows == [] then []
    else
      var id, before := rows[|rows| - 1], StaleOf(rows[..|rows| - 1], cases, current);
      if id in cases && cases[id].ruleVersion < current then before + [id] else before
  }

  lemma {:induction false} StaleOfExact(rows: seq<string>, cases: map<string, Case>, current: int)
    requires Distinct(rows)
    ensures Distinct(StaleOf(rows, cases, current))
    ensures forall id :: id in StaleOf(rows, cases, current) <==> id in rows && id in cases && cases[id].ruleVersion < current
  {
    if rows != [] {
      var n := |rows| - 1;
      StaleOfExact(rows[..n], cases, current);
      assert rows == rows[..n] + [rows[n]];
      assert rows[n] !in rows[..n];
    }
  }

  /** The listed cases whose transaction is stored. */
  function Stored(ids: seq<string>, failing: set<string>): seq<string> {
    if ids == [] then []
    else
      var id, before := ids[|ids| - 1], Stored(ids[..|ids| - 1], failing);
      if id in failing then before else before + [id]
  }

  // ---------------------------------------------------------------- what a sweep counts

  /** A rule applies to the case that a sweep would move it to. */
  predicate Moves(db: Db, active: seq<Rule>, current: int, id: string) {
    id in db.cases && NewRouting(db.cases[id], active, current).Some?
  }

  function Among(ids: seq<string>, p: string -> bool): set<string> {
    set id | id in ids && p(id)
  }

  datatype Tally = Tally(reevaled: nat, failed: nat, skipped: nat)

  /** The counters after the listed cases, one turn after the other. */
  function Counted(t: Tally, db: Db, ids: seq<string>, active: seq<Rule>, current: int, failing: set<string>): Tally {
    if ids == [] then t
    else
      var id, before := ids[|ids| - 1], Counted(t, db, ids[..|ids| - 1], active, current, failing);
      if !Moves(db, active, current, id) then before.(skipped := before.skipped + 1)
      else if id in failing then before.(failed := before.failed + 1)
      else before.(reevaled := before.reevaled + 1)
  }

  lemma OneMoreAmong(ids: seq<string>, id: string, p: string -> bool)
    requires id !in ids
    ensures |Among(ids + [id], p)| == |Among(ids, p)| + if p(id) then 1 else 0
  {
    assert Among(ids + [id], p) == if p(id) then Among(ids, p) + {id} else Among(ids, p);
  }

  /** Each counter has grown by the number of cases of its kind. */
  lemma {:induction false} CountedAre(t: Tally, db: Db, ids: seq<string>, active: seq<Rule>, current: int, failing: set<string>)
    requires Distinct(ids)
    ensures Counted(t, db, ids, active, current, failing)
            == Tally(t.reevaled + |Among(ids, id => Moves(db, active, current, id) && id !in failing)|,
                     t.failed + |Among(ids, id => Moves(db, active, current, id) && id in failing)|,
                     t.skipped + |Among(ids, id => !Moves(db, active, current, id))|)
  {
    if ids != [] {
      var n := |ids| - 1;
      CountedAre(t, db, ids[..n], active, current, failing);
      assert ids == ids[..n] + [ids[n]] && ids[n] !in ids[..n];
      OneMoreAmong(ids[..n], ids[n], id => Moves(db, active, current, id) && id !in failing);
      OneMoreAmong(ids[..n], ids[n], id => Moves(db, active, current, id) && id in failing);
      OneMoreAmong(ids[..n], ids[n], id => !Moves(db, active, current, id));
    }
  }

  lemma {:induction false} StoredAreListed(ids: seq<string>, failing: set<string>)
    requires Distinct(ids)
    ensures Distinct(Stored(ids, failing)) && forall id :: id in Stored(ids, failing) ==> id in ids
  {
    if ids != [] {
      var n := |ids| - 1;
      StoredAreListed(ids[..n], failing);
      assert ids == ids[..n] + [ids[n]] && ids[n] !in ids[..n];
    }
  }

  /** When its turn comes a case is still as it was when the sweep began. */
  lemma SweepTurn(start: Db, found: seq<string>, i: nat, active: seq<Rule>, current: int, now: int, failing: set<string>)
    requires i < |found| && Distinct(found) && found[i] in start.cases
    ensures var before, after := Stored(found[..i], failing), Stored(found[..i + 1], failing);
            && after == (if found[i] in failing then before else before + [found[i]])
            && (before + [found[i]])[..|before|] == before
            && ReevaluateAll(start, before, active, current, now).cases[found[i]] == start.cases[found[i]]
    ensures found[..i + 1][..i] == found[..i]
  {
    assert found[..i + 1][..i] == found[..i];
    StoredAreListed(found[..i], failing);
    SweepIsPointwise(start, Stored(found[..i], failing), active, current, now, found[i]);
  }

  class Service {
    var cases: map<string, Case>
    var referrals: seq<Referral>
    var escalations: seq<Escalation>
    var rules: seq<Rule>
    var reevaled: nat
    var skipped: nat
    var failed: nat
    const cfg: Config

    function View(): Db
      reads this
    {
      Db(cases, referrals, escalations, rules)
    }

    /** What the services themselves rely on. The whole invariant holds of every table state
        they produce because each of their transactions is one operation of a run. */
    ghost predicate Valid()
      reads this
    {
      Versioned(rules)
    }

    constructor (cfg: Config)
      ensures Valid() && View() == EMPTY && this.cfg == cfg
    {
      cases, referrals, escalations, rules := map[], [], [], [];
      reevaled, skipped, failed := 0, 0, 0;
      this.cfg := cfg;
    }

    /** Ends a transaction: without success the tables are what they were. */
    method Finish(before: Db, stored: bool)
      modifies this`cases, this`referrals, this`escalations, this`rules
      ensures View() == if stored then old(View()) else before
    {
      if !stored {
        cases, referrals, escalations, rules := before.cases, before.referrals, before.escalations, before.rules;
      }
    }

    /** The active rules in the order of the query: priority, then version, both descending. */
    method GetActiveRules(at: int) returns (listed: seq<Rule>)
      ensures Ordered(listed) && multiset(listed) == multiset(ActiveRules(rules, at))
    {
      var adjudicator := new Adjudicator();
      listed := adjudicator.SortByPrecedence(ActiveRules(rules, at));
    }

    method Choose(listed: seq<Rule>, at: int, s: Subject) returns (choice: Option<Rule>)
      requires Valid() && multiset(listed) == multiset(ActiveRules(rules, at))
      ensures choice == Best(ActiveRules(rules, at), s)
    {
      var adjudicator := new Adjudicator();
      VersionedFacts(rules, at);
      ChoiceIgnoresOrder(ActiveRules(rules, at), listed, s);
      choice := adjudicator.Adjudicate(false, s, listed);
      forall r
        ensures r in listed <==> r in ActiveRules(rules, at)
      {
        assert r in multiset(listed) <==> r in multiset(ActiveRules(rules, at));
      }
      ChoiceIsUnique(ActiveRules(rules, at), s, choice, Best(ActiveRules(rules, at), s));
    }

    method Register(id: string, req: Request, now: int, stored: bool) returns (r: Result<string, Error>)
      requires Valid()
      modifies this`cases, this`referrals, this`escalations, this`rules
      ensures Valid()
      ensures View() == Apply(old(View()), cfg, Op.Register(id, req, now, stored))
      ensures r.Err? ==> RegisterError(old(View()), id, req, now, stored) == Some(r.error)
      ensures r.Ok? ==> RegisterError(old(View()), id, req, now, stored) == None
                        && r.value in cases && cases[r.value].externalRef == req.externalRef
    {
      if req.externalRef == "" || req.title == "" || req.reportedBy == "" {
        return Err(Invalid);
      }
      if HasRef(View(), req.externalRef) {
        var existing :| existing in cases && cases[existing].externalRef == req.externalRef;
        return Ok(existing);
      }
      var listed := GetActiveRules(now);
      var choice := Choose(listed, now, Subject(req.category, req.keywords, now));
      if choice.None? {
        return Err(NoMatchingRule);
      }
      var item := NewCase(cfg, req, choice.value, now);
      if id in cases {
        return Err(Storage);
      }
      var before := View();
      cases := cases[id := item];
      referrals := referrals + [ReferralFor(id, item, now, "system")];
      Finish(before, stored);
      return if stored then Ok(id) else Err(Storage);
    }

    /** The five lifecycle services: load, check the transition, set the action's fields, store. */
    method Act(id: string, action: Action, now: int, stored: bool) returns (r: Result<Case, Error>)
      requires Valid()
      modifies this`cases, this`referrals, this`escalations, this`rules
      ensures Valid()
      ensures View() == Apply(old(View()), cfg, Op.Act(id, action, now, stored))
      ensures r.Err? ==> ActError(old(View()), id, action, stored) == Some(r.error)
      ensures r.Ok? ==> ActError(old(View()), id, action, stored) == None && id in cases && cases[id] == r.value
    {
      if id !in cases {
        return Err(NotFound);
      }
      var item := cases[id];
      if action.Resubmit? {
        if !ValidTransition(item.status, Registered) {
          return Err(BadTransition);
        }
        item := item.(status := Registered);
      }
      if !ValidTransition(item.status, Target(action)) {
        return Err(BadTransition);
      }
      item := item.(status := Target(action));
      match action {
        case Cancel(reason) => item := item.(cancelledAt := Some(now), cancelReason := reason);
        case Complete => item := item.(completedAt := Some(now));
        case _ =>
      }
      item := item.(updatedAt := now);
      var before := View();
      cases := cases[id := item];
      Finish(before, stored);
      return if stored then Ok(item) else Err(Storage);
    }

    method Modify(id: string, changes: Changes, now: int, stored: bool) returns (r: Result<Case, Error>)
      requires Valid()
      modifies this`cases, this`referrals, this`escalations, this`rules
      ensures Valid()
      ensures View() == Apply(old(View()), cfg, Op.Modify(id, changes, now, stored))
      ensures r.Err? ==> ModifyError(old(View()), id, stored) == Some(r.error)
      ensures r.Ok? ==> ModifyError(old(View()), id, stored) == None && id in cases && cases[id] == r.value
    {
      if id !in cases {
        return Err(NotFound);
      }
      var item := cases[id];
      if IsTerminal(item.status) {
        return Err(AlreadyCompleted);
      }
      if changes.details != "" {
        item := item.(details := changes.details);
      }
      if changes.category != "" {
        item := item.(category := changes.category);
      }
      if changes.keywords.Some? {
        item := item.(keywords := changes.keywords.value);
      }
      item := item.(updatedAt := now);
      var before := View();
      cases := cases[id := item];
      Finish(before, stored);
      return if stored then Ok(item) else Err(Storage);
    }

    method CreateRule(req: RuleRequest, now: int, wallTime: int, stored: bool) returns (r: Result<int, Error>)
      requires Valid()
      modifies this`cases, this`referrals, this`escalations, this`rules
      ensures Valid()
      ensures View() == Apply(old(View()), cfg, Op.CreateRule(req, now, wallTime, stored))
      ensures r == if !ValidRule(req) then Err(Invalid) else if !stored then Err(Storage) else Ok(CurrentVersion(old(rules)) + 1)
    {
      VersionedFacts(rules, now);
      SupersedeKeeps(rules, req.supersedeVersion, wallTime);
      if req.name == "" || req.lead == "" || req.createdBy == "" {
        return Err(Invalid);
      }
      var rule := NewRule(rules, req, now);
      var before := View();
      if req.supersedeVersion > 0 {
        rules := SupersedeIn(rules, req.supersedeVersion, wallTime);
      }
      rules := rules + [rule];
      Finish(before, stored);
      return if stored then Ok(rule.version) else Err(Storage);
    }

    method EscalateItem(id: string, item: Case, now: int, stored: bool) returns (r: Result<Escalation, Error>)
      requires Valid() && id in cases && cases[id] == item
      requires Selected(item, cfg, now)
      modifies this`cases, this`referrals, this`escalations, this`rules
      ensures Valid()
      ensures Admits(item) && stored ==> r == Ok(EscalationOf(id, item, cfg, now)) && View() == AfterEscalation(old(View()), cfg, id, now)
      ensures !(Admits(item) && stored) ==> r.Err? && r.error != MaxEscalation && View() == old(View())
    {
      var newLevel := item.level + 1;
      if newLevel > cfg.maxLevel {
        return Err(MaxEscalation);
      }
      var newLead, newDeadline := EscalationDepartmentName(item.lead, newLevel), now + cfg.extension;
      var esc := Escalation(id, item.level, newLevel, item.lead, newLead, now, newDeadline);
      var referral := Referral(id, newLead, item.co, item.ruleVersion, now, "system_escalation", true);
      var moved := item.(lead := newLead, level := newLevel, deadline := newDeadline);
      if !ValidTransition(moved.status, Escalated) {
        return Err(BadTransition);
      }
      moved := moved.(status := Escalated, updatedAt := now);
      var before := View();
      escalations := escalations + [esc];
      referrals := MarkSuperseded(referrals, id);
      referrals := referrals + [referral];
      cases := cases[id := moved];
      Finish(before, stored);
      return if stored then Ok(esc) else Err(Storage);
    }

    method EscalateNext(ghost start: Db, overdue: seq<string>, i: nat, now: int, failing: set<string>) returns (r: Result<Escalation, Error>)
      requires Valid() && IsOverdueList(start, cfg, now, overdue)
      requires i < |overdue| && i <= Reached(start, overdue, failing)
      requires View() == EscalateAll(start, cfg, overdue[..i], now)
      modifies this`cases, this`referrals, this`escalations, this`rules
      ensures Valid()
      ensures r.Ok? <==> i < Reached(start, overdue, failing)
      ensures r.Ok? ==>
                View() == EscalateAll(start, cfg, overdue[..i + 1], now)
                && RecordsOf(start, cfg, overdue[..i + 1], now) == RecordsOf(start, cfg, overdue[..i], now) + [r.value]
      ensures r.Err? ==> r.error != MaxEscalation && View() == old(View())
    {
      NextToEscalate(start, cfg, overdue, now, i);
      assert Passes(start, overdue[i], failing) <==> i < Reached(start, overdue, failing);
      r := EscalateItem(overdue[i], cases[overdue[i]], now, overdue[i] !in failing);
    }

    /** Escalates the cases of the overdue query in order until one cannot be escalated. The
        branch that would record a permanent failure is dead: the query excludes cases at the
        highest level. */
    method CheckAndEscalate(now: int, overdue: seq<string>, failing: set<string>) returns (done: seq<Escalation>, error: Option<Error>)
      requires Valid() && IsOverdueList(View(), cfg, now, overdue)
      modifies this
      ensures Valid()
      ensures View() == Swept(old(View()), cfg, overdue, failing, now)
      ensures |done| == Reached(old(View()), overdue, failing)
      ensures done == RecordsOf(old(View()), cfg, overdue[..|done|], now)
      ensures error.None? <==> |done| == |overdue|
    {
      ghost var start := View();
      ghost var n := Reached(start, overdue, failing);
      done, error := [], None;
      for i := 0 to |overdue|
        invariant i <= n && |done| == i
        invariant Valid()
        invariant View() == EscalateAll(start, cfg, overdue[..i], now)
        invariant done == RecordsOf(start, cfg, overdue[..i], now)
      {
        var esc := EscalateNext(start, overdue, i, now, failing);
        if esc.Err? {
          if esc.error == MaxEscalation {
            assert false;
          }
          return done, Some(esc.error);
        }
        done := done + [esc.value];
      }
      assert overdue[..|overdue|] == overdue;
    }

    /** One page of a selection, with the limits of the list query. */
    method ListItems(rows: seq<string>, pageSize: int, pageOffset: int) returns (page: seq<string>)
      ensures 1 <= pageSize <= MAX_PAGE_SIZE && 0 <= pageOffset <= |rows| ==>
                page == rows[pageOffset..if pageOffset + pageSize < |rows| then pageOffset + pageSize else |rows|]
      ensures |page| <= MAX_PAGE_SIZE
    {
      var size := if pageSize <= 0 then 20 else if pageSize > MAX_PAGE_SIZE then MAX_PAGE_SIZE else pageSize;
      var offset := if pageOffset < 0 then 0 else if pageOffset > |rows| then |rows| else pageOffset;
      page := rows[offset..if offset + size < |rows| then offset + size else |rows|];
    }

    /** Pages through the cases of one status. The loop ends because no page but the last is
        shorter than asked for. */
    method CollectStaleOf(current: int, rows: seq<string>) returns (stale: seq<string>)
      requires forall id :: id in rows ==> id in cases
      ensures stale == StaleOf(rows, cases, current)
    {
      stale := [];
      var offset := 0;
      while true
        invariant 0 <= offset <= |rows|
        invariant stale == StaleOf(rows[..offset], cases, current)
        decreases |rows| - offset
      {
        var items := ListItems(rows, SWEEP_PAGE_SIZE, offset);
        for k := 0 to |items|
          invariant stale == StaleOf(rows[..offset + k], cases, current)
        {
          assert rows[..offset + k + 1][..offset + k] == rows[..offset + k];
          assert rows[offset + k] in rows;
          if cases[items[k]].ruleVersion < current {
            stale := stale + [items[k]];
          }
        }
        if |items| < SWEEP_PAGE_SIZE {
          assert rows[..offset + |items|] == rows;
          return;
        }
        offset := offset + SWEEP_PAGE_SIZE;
      }
    }

    method CollectStaleItems(current: int, registered: seq<string>, adjudicated: seq<string>) returns (stale: seq<string>)
      requires IsSelection(registered, cases, Registered) && IsSelection(adjudicated, cases, Adjudicated)
      ensures IsStaleList(View(), current, stale)
    {
      var first := CollectStaleOf(current, registered);
      var second := CollectStaleOf(current, adjudicated);
      stale := first + second;
      StaleOfExact(registered, cases, current);
      StaleOfExact(adjudicated, cases, current);
      forall i, j | 0 <= i < j < |stale|
        ensures stale[i] != stale[j]
      {
        assert i < |first| <= j ==> stale[i] in first && stale[j] in second;
      }
    }

    /** Reloads one listed case and routes it anew if it is still stale and a rule applies;
        every call is counted as re-evaluated or skipped, or returns an error. */
    method ReevaluateItem(id: string, listed: seq<Rule>, current: int, now: int, stored: bool) returns (error: Option<Error>)
      requires Valid() && multiset(listed) == multiset(ActiveRules(rules, now))
      modifies this
      ensures rules == old(rules) && failed == old(failed)
      ensures error == if id !in old(cases) then Some(NotFound)
                       else if NewRouting(old(cases)[id], ActiveRules(rules, now), current).Some? && !stored then Some(Storage)
                       else None
      ensures error.Some? ==> reevaled == old(reevaled) && skipped == old(skipped)
      ensures error.None? ==>
                if NewRouting(old(cases)[id], ActiveRules(rules, now), current).Some?
                then reevaled == old(reevaled) + 1 && skipped == old(skipped)
                else reevaled == old(reevaled) && skipped == old(skipped) + 1
      ensures View() == if id in old(cases) && stored then AfterReevaluation(old(View()), id, ActiveRules(rules, now), current, now) else old(View())
    {
      if id !in cases {
        return Some(NotFound);
      }
      var item := cases[id];
      ghost var routing := NewRouting(item, ActiveRules(rules, now), current);
      if item.ruleVersion >= current || IsTerminal(item.status) || !Reevaluable(item.status) {
        assert routing.None?;
        skipped := skipped + 1;
        return None;
      }
      var choice := Choose(listed, now, SubjectOf(item));
      assert choice == routing;
      if choice.None? {
        skipped := skipped + 1;
        return None;
      }
      var moved := item;
      if item.status == Registered {
        moved := moved.(status := Adjudicated);
      }
      moved := moved.(lead := choice.value.lead, co := choice.value.co, ruleVersion := choice.value.version, updatedAt := now);
      assert moved == Rerouted(item, choice.value, now);
      StoreRouting(id, moved, now, stored);
      if !stored {
        return Some(Storage);
      }
      reevaled := reevaled + 1;
      return None;
    }

    method StoreRouting(id: string, moved: Case, now: int, stored: bool)
      modifies this`cases, this`referrals, this`escalations, this`rules
      ensures View() == if stored then Route(old(View()), id, moved, now, "system") else old(View())
    {
      var before := View();
      referrals := MarkSuperseded(referrals, id);
      referrals := referrals + [ReferralFor(id, moved, now, "system")];
      cases := cases[id := moved];
      Finish(before, stored);
    }

    /** One sweep: every stale case is re-evaluated by itself and counted exactly once, unless
        the context is found cancelled before the turn numbered cancelledAt. */
    method Sweep(now: int, registered: seq<string>, adjudicated: seq<string>, failing: set<string>, cancelledAt: nat)
      returns (ghost stale: seq<string>, complete: bool)
      requires Valid()
      requires IsSelection(registered, cases, Registered) && IsSelection(adjudicated, cases, Adjudicated)
      modifies this
      ensures Valid()
      ensures IsStaleList(old(View()), CurrentVersion(old(rules)), stale)
      ensures complete <==> |stale| <= cancelledAt
      ensures var reached, before := if complete then stale else stale[..cancelledAt], old(View());
              var active, current := ActiveRules(before.rules, now), CurrentVersion(before.rules);
              && View() == ReevaluateAll(before, Stored(reached, failing), active, current, now)
              && reevaled == old(reevaled) + |Among(reached, id => Moves(before, active, current, id) && id !in failing)|
              && failed == old(failed) + |Among(reached, id => Moves(before, active, current, id) && id in failing)|
              && skipped == old(skipped) + |Among(reached, id => !Moves(before, active, current, id))|
    {
      var current := CurrentVersion(rules);
      var listed := GetActiveRules(now);
      var found := CollectStaleItems(current, registered, adjudicated);
      stale := found;
      complete := SweepAll(found, listed, current, now, failing, cancelledAt);
      ghost var reached := if complete then found else found[..cancelledAt];
      CountedAre(Tally(old(reevaled), old(failed), old(skipped)), old(View()), reached, ActiveRules(old(rules), now), current, failing);
    }

    /** The sweep's loop over the collected cases. */
    method SweepAll(found: seq<string>, listed: seq<Rule>, current: int, now: int, failing: set<string>, cancelledAt: nat) returns (complete: bool)
      requires Valid() && multiset(listed) == multiset(ActiveRules(rules, now)) && current == CurrentVersion(rules)
      requires Distinct(found) && forall id :: id in found ==> id in cases
      modifies this
      ensures Valid() && (complete <==> |found| <= cancelledAt)
      ensures var reached, active := if complete then found else found[..cancelledAt], ActiveRules(old(rules), now);
              && View() == ReevaluateAll(old(View()), Stored(reached, failing), active, current, now)
              && Tally(reevaled, failed, skipped)
                 == Counted(Tally(old(reevaled), old(failed), old(skipped)), old(View()), reached, active, current, failing)
    {
      ghost var start, active := View(), ActiveRules(rules, now);
      ghost var counts := Tally(reevaled, failed, skipped);
      for i := 0 to |found|
        invariant Valid() && rules == start.rules && i <= cancelledAt
        invariant View() == ReevaluateAll(start, Stored(found[..i], failing), active, current, now)
        invariant Tally(reevaled, failed, skipped) == Counted(counts, start, found[..i], active, current, failing)
      {
        if i == cancelledAt {
          return false;
        }
        SweepTurn(start, found, i, active, current, now, failing);
        var error := ReevaluateItem(found[i], listed, current, now, found[i] !in failing);
        if error.Some? {
          failed := failed + 1;
        }
      }
      assert found[..|found|] == found;
      return true;
    }
  }
}

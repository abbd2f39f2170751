/** What the operations on the case tables do to a case, said without the functions that do it,
    and what a case then is in every run: routed by its rule, with the contents last given,
    closed as it was asked to be. */
module CaseLaws {
  import opened Common
  import opened Dispatch
  import opened Cases
  import opened CaseInvariants
  import opened CaseTheorems

  // ---------------------------------------------------------------- single operations

  /** Which error a registration meets, if any. */
  lemma RegistrationErrors(db: Db, cfg: Config, id: string, req: Request, now: int, stored: bool)
    ensures var e, s := RegisterError(db, id, req, now, stored), Subject(req.category, req.keywords, now);
            var valid := req.externalRef != "" && req.title != "" && req.reportedBy != "";
            var taken := exists x :: x in db.cases && db.cases[x].externalRef == req.externalRef;
            var matched := exists r :: r in ActiveRules(db.rules, now) && Applies(r, s);
            && (e == Some(Invalid) <==> !valid)
            && (e == Some(NoMatchingRule) <==> valid && !taken && !matched)
            && (e == Some(Storage) <==> valid && !taken && matched && (!stored || id in db.cases))
            && (e == None <==> valid && (taken || (matched && stored && id !in db.cases)))
            && (e != None || taken ==> AfterRegister(db, cfg, id, req, now, stored) == db)
  {
  }

  /** A new registration stores a case with the contents of the request, routed as the chosen
      rule says, and one referral that says the same. */
  lemma RegistrationRoutes(db: Db, cfg: Config, id: string, req: Request, now: int)
    requires RegisterError(db, id, req, now, true).None? && !HasRef(db, req.externalRef)
    ensures var after := AfterRegister(db, cfg, id, req, now, true);
            && after.rules == db.rules && after.escalations == db.escalations
            && id in after.cases && after.cases - {id} == db.cases
            && (exists r :: && IsChoice(ActiveRules(db.rules, now), Subject(req.category, req.keywords, now), Some(r))
                            && after.cases[id].lead == r.lead && after.cases[id].co == r.co && after.cases[id].ruleVersion == r.version
                            && after.referrals == db.referrals + [Referral(id, r.lead, r.co, r.version, now, "system", true)])
            && var c := after.cases[id];
            && c.externalRef == req.externalRef && c.details == req.details && c.category == req.category && c.keywords == req.keywords
            && c.registeredAt == now && c.updatedAt == now && c.deadline == now + cfg.deadline
            && c.status == Adjudicated && c.level == 0 && c.completedAt == None && c.cancelledAt == None && c.cancelReason == ""
  {
    var rules, s := ActiveRules(db.rules, now), Subject(req.category, req.keywords, now);
    assert IsChoice(rules, s, Best(rules, s));
    var after := AfterRegister(db, cfg, id, req, now, true);
    assert after.cases - {id} == db.cases;
  }

  /** Re-evaluation moves a stale waiting case with an applicable rule to the department of the
      chosen one, keeps everything else of it, and replaces its current referral; any other case
      it leaves alone. */
  lemma ReevaluationRoutes(db: Db, id: string, rules: seq<Rule>, current: int, now: int)
    requires id in db.cases
    ensures var c, after := db.cases[id], AfterReevaluation(db, id, rules, current, now);
            if c.ruleVersion < current && c.status in {Registered, Adjudicated} && (exists r :: r in rules && Applies(r, SubjectOf(c))) then
              exists r :: && IsChoice(rules, Subject(c.category, c.keywords, c.registeredAt), Some(r))
                          && after.cases == db.cases[id := c.(status := Adjudicated, lead := r.lead, co := r.co, ruleVersion := r.version, updatedAt := now)]
                          && Current(after.referrals, id) == [Referral(id, r.lead, r.co, r.version, now, "system", true)]
                          && after.rules == db.rules && after.escalations == db.escalations
            else after == db
  {
    var c := db.cases[id];
    var choice := Best(rules, SubjectOf(c));
    assert IsChoice(rules, SubjectOf(c), choice);
    if NewRouting(c, rules, current).Some? {
      RoutedCurrent(db, id, Rerouted(c, choice.value, now), now, "system", id);
    }
  }

  /** After a sweep every listed case to which a rule applies is with the department of the
      chosen one; nothing else of it has changed, and nothing of any other case. */
  lemma SweepRoutes(db: Db, ids: seq<string>, rules: seq<Rule>, current: int, now: int, id: string)
    requires Distinct(ids) && id in db.cases
    ensures var c, d := db.cases[id], ReevaluateAll(db, ids, rules, current, now).cases[id];
            if id in ids && c.ruleVersion < current && c.status in {Registered, Adjudicated} && (exists r :: r in rules && Applies(r, SubjectOf(c))) then
              exists r :: && IsChoice(rules, Subject(c.category, c.keywords, c.registeredAt), Some(r))
                          && d == c.(status := Adjudicated, lead := r.lead, co := r.co, ruleVersion := r.version, updatedAt := now)
            else d == c
  {
    SweepIsPointwise(db, ids, rules, current, now, id);
    ReevaluationRoutes(db, id, rules, current, now);
  }

  lemma SupervisorName(base: string, level: int)
    requires level > 0
    ensures EscalationDepartmentName(base, level) == base + "-supervisor-l" + Decimal(level)
  {
  }

  lemma RaisedCase(db: Db, cfg: Config, id: string, now: int)
    requires id in db.cases
    ensures var c, after := db.cases[id], AfterEscalation(db, cfg, id, now);
            var lead := EscalationDepartmentName(c.lead, c.level + 1);
            && after.cases == db.cases[id := c.(lead := lead, level := c.level + 1, deadline := now + cfg.extension, status := Escalated, updatedAt := now)]
            && after.escalations == db.escalations + [Escalation(id, c.level, c.level + 1, c.lead, lead, now, now + cfg.extension)]
            && after.rules == db.rules
  {
  }

  lemma RaisedReferral(db: Db, cfg: Config, id: string, now: int)
    requires id in db.cases
    ensures var c := db.cases[id];
            Current(AfterEscalation(db, cfg, id, now).referrals, id)
            == [Referral(id, EscalationDepartmentName(c.lead, c.level + 1), c.co, c.ruleVersion, now, "system_escalation", true)]
  {
    RoutedCurrent(db, id, EscalatedCase(db.cases[id], cfg, now), now, "system_escalation", id);
  }

  /** An escalation raises the level by one, names the supervisor of that level, extends the
      deadline from now, and keeps everything else of the case, its co-departments included. */
  lemma EscalationRaises(db: Db, cfg: Config, id: string, now: int)
    requires id in db.cases && db.cases[id].level >= 0
    ensures var c, after := db.cases[id], AfterEscalation(db, cfg, id, now);
            var lead := c.lead + "-supervisor-l" + Decimal(c.level + 1);
            && after.cases == db.cases[id := c.(lead := lead, level := c.level + 1, deadline := now + cfg.extension, status := Escalated, updatedAt := now)]
            && Current(after.referrals, id) == [Referral(id, lead, c.co, c.ruleVersion, now, "system_escalation", true)]
            && after.escalations == db.escalations + [Escalation(id, c.level, c.level + 1, c.lead, lead, now, now + cfg.extension)]
            && after.rules == db.rules
  {
    var c := db.cases[id];
    SupervisorName(c.lead, c.level + 1);
    RaisedCase(db, cfg, id, now);
    RaisedReferral(db, cfg, id, now);
  }

  /** Which other requests are refused, and why; a refused one changes nothing. */
  lemma Refusals(db: Db, cfg: Config, id: string, action: Action, changes: Changes, rule: RuleRequest, now: int, wallTime: int, stored: bool)
    ensures var e, known := ActError(db, id, action, stored), id in db.cases;
            && (e == Some(NotFound) <==> !known)
            && (e == Some(BadTransition) <==> known && !Allowed(db.cases[id], action))
            && (e == Some(Storage) <==> known && Allowed(db.cases[id], action) && !stored)
            && (e != None ==> Apply(db, cfg, Act(id, action, now, stored)) == db)
    ensures var e, known := ModifyError(db, id, stored), id in db.cases;
            && (e == Some(NotFound) <==> !known)
            && (e == Some(AlreadyCompleted) <==> known && db.cases[id].status in {Completed, Cancelled})
            && (e == Some(Storage) <==> known && db.cases[id].status !in {Completed, Cancelled} && !stored)
            && (e != None ==> Apply(db, cfg, Modify(id, changes, now, stored)) == db)
    ensures Apply(db, cfg, CreateRule(rule, now, wallTime, stored)) == db <==> rule.name == "" || rule.lead == "" || rule.createdBy == "" || !stored
  {
    SupersededRoutingKept(db.rules, rule.supersedeVersion, wallTime);
  }

  /** Which cases an escalation takes: those overdue, below the highest level, and adjudicated,
      in progress or escalated. */
  lemma EscalatesExactly(db: Db, cfg: Config, id: string, now: int, stored: bool)
    requires id in db.cases && db.cases[id].level >= 0
    ensures var c := db.cases[id];
            Apply(db, cfg, Escalate(id, now, stored)) != db
            <==> stored && c.status in {Adjudicated, InProgress, Escalated} && now > c.deadline && c.level < cfg.maxLevel
  {
    var after := AfterEscalation(db, cfg, id, now);
    EscalationRaises(db, cfg, id, now);
    assert after.escalations != db.escalations;
  }

  /** Where an overdue sweep stops: at the first case that is not adjudicated, in progress or
      escalated, or whose transaction fails, and nowhere before. */
  lemma SweepStopsExactly(db: Db, ids: seq<string>, failing: set<string>, n: nat)
    requires n <= |ids| && forall id :: id in ids ==> id in db.cases
    ensures Reached(db, ids, failing) == n
            <==> && (forall i :: 0 <= i < n ==> db.cases[ids[i]].status in {Adjudicated, InProgress, Escalated} && ids[i] !in failing)
                 && (n < |ids| ==> db.cases[ids[n]].status !in {Adjudicated, InProgress, Escalated} || ids[n] in failing)
  {
    forall i | 0 <= i < |ids|
      ensures ids[i] in db.cases && (Passes(db, ids[i], failing) <==> db.cases[ids[i]].status in {Adjudicated, InProgress, Escalated} && ids[i] !in failing)
    {
      assert ids[i] in ids;
    }
  }

  /** A step touches at most the case it names, and stamps it with its time. */
  lemma StepTouchesOne(db: Db, cfg: Config, op: Op, id: string)
    ensures var after := Apply(db, cfg, op);
            && (id in db.cases ==> id in after.cases)
            && (id in after.cases && (id !in db.cases || after.cases[id] != db.cases[id]) ==>
                  !op.CreateRule? && op.id == id && op.stored && after.cases[id].updatedAt == op.now)
  {
  }

  // ---------------------------------------------------------------- routed by its rule

  /** The lead of a case at a level, from the lead of the rule. */
  function LeadAt(base: string, level: int): string
    decreases level
  {
    if level <= 0 then base else EscalationDepartmentName(LeadAt(base, level - 1), level)
  }

  /** The case is where its rule sends a case of its level. */
  ghost predicate RoutedBy(c: Case, rules: seq<Rule>) {
    && 1 <= c.ruleVersion <= |rules|
    && c.co == rules[c.ruleVersion - 1].co
    && c.lead == LeadAt(rules[c.ruleVersion - 1].lead, c.level)
  }

  /** Rules only grow in number, and what they say of the routing never changes. */
  ghost predicate RoutingKept(rules: seq<Rule>, after: seq<Rule>) {
    |rules| <= |after| && forall i :: 0 <= i < |rules| ==> after[i].lead == rules[i].lead && after[i].co == rules[i].co
  }

  lemma {:induction false} SupersededRoutingKept(rules: seq<Rule>, version: int, wallTime: int)
    ensures |SupersedeIn(rules, version, wallTime)| == |rules| && RoutingKept(rules, SupersedeIn(rules, version, wallTime))
  {
    if rules != [] {
      SupersededRoutingKept(rules[..|rules| - 1], version, wallTime);
    }
  }

  lemma StepRoutingKept(db: Db, cfg: Config, op: Op)
    ensures RoutingKept(db.rules, Apply(db, cfg, op).rules)
  {
    if op.CreateRule? {
      SupersededRoutingKept(db.rules, op.rule.supersedeVersion, op.wallTime);
    }
  }

  lemma ChosenRoutes(db: Db, at: int, s: Subject, c: Case)
    requires Versioned(db.rules) && c.level == 0 && Best(ActiveRules(db.rules, at), s).Some?
    requires var r := Best(ActiveRules(db.rules, at), s).value; c.lead == r.lead && c.co == r.co && c.ruleVersion == r.version
    ensures RoutedBy(c, db.rules)
  {
    ChoiceIsFromTheStart(db.rules, at, s);
  }

  lemma RegisteredIsRouted(db: Db, cfg: Config, id: string, req: Request, now: int, stored: bool)
    requires Versioned(db.rules) && id !in db.cases && id in AfterRegister(db, cfg, id, req, now, stored).cases
    ensures RoutedBy(AfterRegister(db, cfg, id, req, now, stored).cases[id], db.rules)
  {
    ChosenRoutes(db, now, Subject(req.category, req.keywords, now), AfterRegister(db, cfg, id, req, now, stored).cases[id]);
  }

  lemma ReevaluatedIsRouted(db: Db, cfg: Config, id: string, at: int, now: int)
    requires Invariant(db, cfg) && id in db.cases && RoutedBy(db.cases[id], db.rules)
    ensures RoutedBy(AfterReevaluation(db, id, ActiveRules(db.rules, at), CurrentVersion(db.rules), now).cases[id], db.rules)
  {
    assert Sound(db.cases[id], Current(db.referrals, id), HistoryOf(db.escalations, id), db.rules, cfg);
    if NewRouting(db.cases[id], ActiveRules(db.rules, at), CurrentVersion(db.rules)).Some? {
      ChosenRoutes(db, at, SubjectOf(db.cases[id]), AfterReevaluation(db, id, ActiveRules(db.rules, at), CurrentVersion(db.rules), now).cases[id]);
    }
  }

  lemma EscalatedIsRouted(db: Db, cfg: Config, id: string, now: int)
    requires Invariant(db, cfg) && id in db.cases && RoutedBy(db.cases[id], db.rules)
    ensures RoutedBy(AfterEscalation(db, cfg, id, now).cases[id], db.rules)
  {
    assert Sound(db.cases[id], Current(db.referrals, id), HistoryOf(db.escalations, id), db.rules, cfg);
    var c := db.cases[id];
    LeadOneUp(db.rules[c.ruleVersion - 1].lead, c.level);
  }

  lemma LeadOneUp(base: string, level: int)
    requires level >= 0
    ensures LeadAt(base, level + 1) == EscalationDepartmentName(LeadAt(base, level), level + 1)
  {
  }

  lemma UpdatedIsRouted(db: Db, cfg: Config, op: Op)
    requires (op.Act? || op.Modify?) && op.id in db.cases && RoutedBy(db.cases[op.id], db.rules)
    ensures RoutedBy(Apply(db, cfg, op).cases[op.id], db.rules)
  {
  }

  /** An operation on the case itself. */
  lemma OwnStepRoutedBy(db: Db, cfg: Config, op: Op, id: string)
    requires Invariant(db, cfg) && !op.CreateRule? && op.id == id && id in Apply(db, cfg, op).cases
    requires id in db.cases ==> RoutedBy(db.cases[id], db.rules)
    ensures RoutedBy(Apply(db, cfg, op).cases[id], db.rules)
  {
    match op
    case Register(_, req, now, stored) =>
      if id !in db.cases {
        RegisteredIsRouted(db, cfg, id, req, now, stored);
      }
    case Act(_, _, _, _) => UpdatedIsRouted(db, cfg, op);
    case Modify(_, _, _, _) => UpdatedIsRouted(db, cfg, op);
    case Escalate(_, now, _) => EscalatedIsRouted(db, cfg, id, now);
    case Reevaluate(_, at, now, _) => ReevaluatedIsRouted(db, cfg, id, at, now);
  }

  lemma StepRoutedBy(db: Db, cfg: Config, op: Op, id: string)
    requires Invariant(db, cfg) && id in Apply(db, cfg, op).cases
    requires id in db.cases ==> RoutedBy(db.cases[id], db.rules)
    ensures RoutedBy(Apply(db, cfg, op).cases[id], Apply(db, cfg, op).rules)
  {
    StepRoutingKept(db, cfg, op);
    StepTouchesOne(db, cfg, op, id);
    if !op.CreateRule? && op.id == id {
      OwnStepRoutedBy(db, cfg, op, id);
    }
    StaysRouted(Apply(db, cfg, op).cases[id], db.rules, Apply(db, cfg, op).rules);
  }

  lemma StaysRouted(c: Case, rules: seq<Rule>, after: seq<Rule>)
    requires RoutedBy(c, rules) && RoutingKept(rules, after)
    ensures RoutedBy(c, after)
  {
  }

  lemma {:induction false} RunRoutedBy(cfg: Config, ops: seq<Op>, id: string)
    requires id in Run(cfg, ops).cases
    ensures RoutedBy(Run(cfg, ops).cases[id], Run(cfg, ops).rules)
    decreases |ops|
  {
    var n := |ops| - 1;
    RunKeeps(cfg, ops[..n]);
    if id in Run(cfg, ops[..n]).cases {
      RunRoutedBy(cfg, ops[..n], id);
    }
    StepRoutedBy(Run(cfg, ops[..n]), cfg, ops[n], id);
  }

  /** The co-departments are those of the rule, the lead is the rule's lead, one supervisor up
      for every level, and the first escalation took the case from the rule's lead. */
  ghost predicate AsItsRuleSays(c: Case, h: seq<Escalation>, rules: seq<Rule>) {
    && 1 <= c.ruleVersion <= |rules|
    && var r := rules[c.ruleVersion - 1];
    && c.co == r.co && c.lead == LeadAt(r.lead, c.level)
    && (c.level == 0 ==> c.lead == r.lead)
    && (c.level > 0 ==> |h| == c.level && h[0].oldLead == r.lead)
  }

  /** In every run, at every level, a case is where its rule sends it. */
  lemma EveryCaseIsRoutedByItsRule(cfg: Config, ops: seq<Op>, id: string)
    requires id in Run(cfg, ops).cases
    ensures var db := Run(cfg, ops);
            AsItsRuleSays(db.cases[id], HistoryOf(db.escalations, id), db.rules)
  {
    RunKeeps(cfg, ops);
    RunRoutedBy(cfg, ops, id);
    FirstStep(Run(cfg, ops), cfg, id);
  }

  lemma FirstStep(db: Db, cfg: Config, id: string)
    requires Invariant(db, cfg) && id in db.cases && RoutedBy(db.cases[id], db.rules)
    ensures AsItsRuleSays(db.cases[id], HistoryOf(db.escalations, id), db.rules)
  {
    var c, h := db.cases[id], HistoryOf(db.escalations, id);
    assert Sound(c, Current(db.referrals, id), h, db.rules, cfg);
    FirstLead(h, c, db.rules[c.ruleVersion - 1].lead, cfg);
  }

  lemma NameTells(a: string, b: string, level: nat)
    requires level > 0 && EscalationDepartmentName(a, level) == EscalationDepartmentName(b, level)
    ensures a == b
  {
    var z := "-supervisor-l" + Decimal(level);
    assert a + "-supervisor-l" + Decimal(level) == a + z && b + "-supervisor-l" + Decimal(level) == b + z;
    assert |a| == |b| && a == (a + z)[..|a|] && b == (b + z)[..|b|];
  }

  /** The escalations of a case start from the lead that its own lead was built on. */
  lemma {:induction false} FirstLead(h: seq<Escalation>, c: Case, base: string, cfg: Config)
    requires HistoryChained(h, c, cfg) && c.lead == LeadAt(base, c.level)
    ensures h != [] ==> h[0].oldLead == base
  {
    if h != [] {
      LeadsDown(h, c, base, cfg, |h| - 1);
    }
  }

  lemma {:induction false} LeadsDown(h: seq<Escalation>, c: Case, base: string, cfg: Config, k: nat)
    requires HistoryChained(h, c, cfg) && k < |h| && h[k].newLead == LeadAt(base, k + 1)
    ensures h[0].oldLead == base
    decreases k
  {
    assert Link(h, k, c, cfg);
    NameTells(h[k].oldLead, LeadAt(base, k), k + 1);
    if k > 0 {
      LeadsDown(h, c, base, cfg, k - 1);
    }
  }
}

/** What every sequence of operations keeps: one current referral that agrees with its
    case, a gapless escalation history, a lifecycle that never goes back, and routing
    by rules that were already in force when the case was registered. */
module CaseInvariants {
  import opened Common
  import opened Dispatch
  import opened Cases

  // ---------------------------------------------------------------- referrals

  lemma {:induction false} SupersededCurrent(referrals: seq<Referral>, id: string, other: string)
    ensures Current(MarkSuperseded(referrals, id), other) == if other == id then [] else Current(referrals, other)
  {
    if referrals != [] {
      var n := |referrals| - 1;
      SupersededCurrent(referrals[..n], id, other);
      var before := MarkSuperseded(referrals[..n], id);
      assert MarkSuperseded(referrals, id)[..|before|] == before;
    }
  }

  lemma CurrentOfAppend(referrals: seq<Referral>, r: Referral, id: string)
    ensures Current(referrals + [r], id) == if r.caseId == id && r.current then Current(referrals, id) + [r] else Current(referrals, id)
  {
  }

  predicate Agrees(r: Referral, c: Case) {
    r.lead == c.lead && r.co == c.co && r.ruleVersion == c.ruleVersion
  }

  /** Exactly one current referral, and it says what the case says. */
  ghost predicate RoutingAgrees(current: seq<Referral>, c: Case) {
    |current| == 1 && Agrees(current[0], c)
  }

  lemma RoutedCurrent(db: Db, id: string, c: Case, at: int, author: string, x: string)
    ensures Current(Route(db, id, c, at, author).referrals, x)
            == if x == id then [ReferralFor(id, c, at, author)] else Current(db.referrals, x)
  {
    SupersededCurrent(db.referrals, id, x);
    CurrentOfAppend(MarkSuperseded(db.referrals, id), ReferralFor(id, c, at, author), x);
  }

  // ---------------------------------------------------------------- escalation history

  lemma HistoryOfAppend(escalations: seq<Escalation>, e: Escalation, id: string)
    ensures HistoryOf(escalations + [e], id) == if e.caseId == id then HistoryOf(escalations, id) + [e] else HistoryOf(escalations, id)
  {
  }

  /** The k-th escalation of a case leads from level k to k+1, starts from the lead the one
      before it ended with, and came after the deadline that one had set. */
  ghost predicate Link(h: seq<Escalation>, k: nat, c: Case, cfg: Config)
    requires k < |h|
  {
    && h[k].fromLevel == k && h[k].toLevel == k + 1
    && h[k].newLead == EscalationDepartmentName(h[k].oldLead, k + 1)
    && h[k].newDeadline == h[k].at + cfg.extension
    && (k > 0 ==> h[k].oldLead == h[k - 1].newLead && h[k].at > h[k - 1].newDeadline)
    && (k == 0 ==> h[k].at > c.registeredAt + cfg.deadline)
  }

  ghost predicate HistoryChained(h: seq<Escalation>, c: Case, cfg: Config) {
    && |h| == c.level
    && (forall k: nat :: k < |h| ==> Link(h, k, c, cfg))
    && c.deadline == (if h == [] then c.registeredAt + cfg.deadline else h[|h| - 1].newDeadline)
    && (h != [] ==> c.lead == h[|h| - 1].newLead)
  }

  lemma EscalationExtendsChain(h: seq<Escalation>, id: string, c: Case, cfg: Config, now: int)
    requires HistoryChained(h, c, cfg) && now > c.deadline
    ensures HistoryChained(h + [EscalationOf(id, c, cfg, now)], EscalatedCase(c, cfg, now), cfg)
  {
    var e := EscalationOf(id, c, cfg, now);
    forall k: nat | k < |h| + 1
      ensures Link(h + [e], k, EscalatedCase(c, cfg, now), cfg)
    {
      if k < |h| {
        assert Link(h, k, c, cfg);
      }
    }
  }

  // ---------------------------------------------------------------- lifecycle

  function Phase(s: Status): nat {
    match s
    case Registered => 0
    case Adjudicated => 0
    case Returned => 0
    case InProgress => 1
    case Escalated => 1
    case Completed => 2
    case Cancelled => 2
  }

  ghost predicate LifecycleSound(c: Case, cfg: Config) {
    && c.status != Registered
    && (c.level > 0 ==> Phase(c.status) > 0)
    && (c.completedAt.Some? <==> c.status == Completed)
    && (c.cancelledAt.Some? <==> c.status == Cancelled)
    && 0 <= c.level && (c.level > 0 ==> c.level <= cfg.maxLevel)
  }

  // ---------------------------------------------------------------- rules

  /** Versions count up from one in the order of creation. */
  ghost predicate Versioned(rules: seq<Rule>) {
    forall i :: 0 <= i < |rules| ==> rules[i].version == i + 1
  }

  lemma {:induction false} VersionsCountUp(rules: seq<Rule>)
    requires Versioned(rules)
    ensures CurrentVersion(rules) == |rules|
  {
    if rules != [] {
      VersionsCountUp(rules[..|rules| - 1]);
    }
  }

  lemma {:induction false} ActiveAreListed(rules: seq<Rule>, at: int)
    ensures forall r :: r in ActiveRules(rules, at) <==> r in rules && IsActiveAt(r, at)
  {
    if rules != [] {
      var n := |rules| - 1;
      ActiveAreListed(rules[..n], at);
      assert rules == rules[..n] + [rules[n]];
    }
  }

  lemma {:induction false} ActiveAreDistinct(rules: seq<Rule>, at: int)
    requires Versioned(rules)
    ensures DistinctVersions(ActiveRules(rules, at))
  {
    if rules != [] {
      var n := |rules| - 1;
      ActiveAreDistinct(rules[..n], at);
      ActiveAreListed(rules[..n], at);
      var before := ActiveRules(rules[..n], at);
      forall i | 0 <= i < |before|
        ensures before[i].version <= n
      {
        assert before[i] in rules[..n];
      }
    }
  }

  lemma VersionedFacts(rules: seq<Rule>, at: int)
    requires Versioned(rules)
    ensures CurrentVersion(rules) == |rules|
    ensures DistinctVersions(ActiveRules(rules, at))
    ensures forall r :: r in ActiveRules(rules, at) <==> r in rules && IsActiveAt(r, at)
  {
    VersionsCountUp(rules);
    ActiveAreDistinct(rules, at);
    ActiveAreListed(rules, at);
  }

  lemma {:induction false} SupersedeKeeps(rules: seq<Rule>, version: int, wallTime: int)
    ensures |SupersedeIn(rules, version, wallTime)| == |rules|
    ensures forall i :: 0 <= i < |rules| ==>
              var r := SupersedeIn(rules, version, wallTime)[i];
              r.version == rules[i].version && r.effectiveFrom == rules[i].effectiveFrom
  {
    if rules != [] {
      SupersedeKeeps(rules[..|rules| - 1], version, wallTime);
    }
  }

  /** The rule that routes a case existed and was in force from the registration on. */
  ghost predicate RuledFromTheStart(c: Case, rules: seq<Rule>) {
    1 <= c.ruleVersion <= |rules| && rules[c.ruleVersion - 1].effectiveFrom <= c.registeredAt
  }

  lemma ChoiceIsFromTheStart(rules: seq<Rule>, at: int, s: Subject)
    requires Versioned(rules) && Best(ActiveRules(rules, at), s).Some?
    ensures var v := Best(ActiveRules(rules, at), s).value.version;
            1 <= v <= |rules| && rules[v - 1] == Best(ActiveRules(rules, at), s).value && rules[v - 1].effectiveFrom <= s.registeredAt
  {
  }

  // ---------------------------------------------------------------- all together

  ghost predicate DistinctReferences(db: Db) {
    forall a, b :: a in db.cases && b in db.cases && db.cases[a].externalRef == db.cases[b].externalRef ==> a == b
  }

  /** All that holds of one case, given its current referrals and its escalations. */
  ghost predicate Sound(c: Case, current: seq<Referral>, h: seq<Escalation>, rules: seq<Rule>, cfg: Config) {
    && RoutingAgrees(current, c)
    && HistoryChained(h, c, cfg)
    && LifecycleSound(c, cfg)
    && RuledFromTheStart(c, rules)
  }

  ghost predicate CasesSound(db: Db, cfg: Config) {
    forall id :: id in db.cases ==> Sound(db.cases[id], Current(db.referrals, id), HistoryOf(db.escalations, id), db.rules, cfg)
  }

  ghost predicate NothingStray(db: Db) {
    forall id :: id !in db.cases ==> Current(db.referrals, id) == [] && HistoryOf(db.escalations, id) == []
  }

  ghost predicate Invariant(db: Db, cfg: Config) {
    CasesSound(db, cfg) && NothingStray(db) && Versioned(db.rules) && DistinctReferences(db)
  }

  /** An operation that stores one case and touches no other keeps the invariant if it
      leaves that case sound and its reference free of others. */
  lemma OneCaseChanged(db: Db, after: Db, cfg: Config, id: string)
    requires Invariant(db, cfg)
    requires id in after.cases && after.cases == db.cases[id := after.cases[id]] && after.rules == db.rules
    requires forall x :: x != id ==> Current(after.referrals, x) == Current(db.referrals, x)
    requires forall x :: x != id ==> HistoryOf(after.escalations, x) == HistoryOf(db.escalations, x)
    requires Sound(after.cases[id], Current(after.referrals, id), HistoryOf(after.escalations, id), db.rules, cfg)
    requires forall x :: x in db.cases && x != id ==> db.cases[x].externalRef != after.cases[id].externalRef
    ensures Invariant(after, cfg)
  {
  }

  lemma RegisterKeeps(db: Db, cfg: Config, id: string, req: Request, now: int, stored: bool)
    requires Invariant(db, cfg)
    ensures Invariant(AfterRegister(db, cfg, id, req, now, stored), cfg)
  {
    var after := AfterRegister(db, cfg, id, req, now, stored);
    if after != db {
      ChoiceIsFromTheStart(db.rules, now, Subject(req.category, req.keywords, now));
      forall x
        ensures Current(after.referrals, x) == if x == id then [ReferralFor(id, after.cases[id], now, "system")] else Current(db.referrals, x)
      {
        CurrentOfAppend(db.referrals, ReferralFor(id, after.cases[id], now, "system"), x);
      }
      OneCaseChanged(db, after, cfg, id);
    }
  }

  predicate SameStanding(b: Case, c: Case) {
    && c.externalRef == b.externalRef && c.lead == b.lead && c.co == b.co && c.ruleVersion == b.ruleVersion
    && c.registeredAt == b.registeredAt && c.deadline == b.deadline && c.level == b.level
  }

  lemma StandingKeepsSound(b: Case, c: Case, current: seq<Referral>, h: seq<Escalation>, rules: seq<Rule>, cfg: Config)
    requires Sound(b, current, h, rules, cfg) && SameStanding(b, c) && LifecycleSound(c, cfg)
    ensures Sound(c, current, h, rules, cfg)
  {
    assert forall k: nat :: k < |h| && Link(h, k, b, cfg) ==> Link(h, k, c, cfg);
  }

  lemma UpdateKeeps(db: Db, cfg: Config, id: string, c: Case)
    requires Invariant(db, cfg) && id in db.cases
    requires SameStanding(db.cases[id], c) && LifecycleSound(c, cfg)
    ensures Invariant(db.(cases := db.cases[id := c]), cfg)
  {
    StandingKeepsSound(db.cases[id], c, Current(db.referrals, id), HistoryOf(db.escalations, id), db.rules, cfg);
    OneCaseChanged(db, db.(cases := db.cases[id := c]), cfg, id);
  }

  lemma ActKeeps(db: Db, cfg: Config, id: string, action: Action, now: int)
    requires Invariant(db, cfg) && id in db.cases && Allowed(db.cases[id], action)
    ensures Invariant(db.(cases := db.cases[id := Acted(db.cases[id], action, now)]), cfg)
  {
    assert Sound(db.cases[id], Current(db.referrals, id), HistoryOf(db.escalations, id), db.rules, cfg);
    UpdateKeeps(db, cfg, id, Acted(db.cases[id], action, now));
  }

  lemma ModifyKeeps(db: Db, cfg: Config, id: string, changes: Changes, now: int)
    requires Invariant(db, cfg) && id in db.cases
    ensures Invariant(db.(cases := db.cases[id := Modified(db.cases[id], changes, now)]), cfg)
  {
    assert Sound(db.cases[id], Current(db.referrals, id), HistoryOf(db.escalations, id), db.rules, cfg);
    UpdateKeeps(db, cfg, id, Modified(db.cases[id], changes, now));
  }

  lemma CreateRuleKeeps(db: Db, cfg: Config, req: RuleRequest, now: int, wallTime: int)
    requires Invariant(db, cfg)
    ensures Invariant(db.(rules := WithRule(db.rules, req, now, wallTime)), cfg)
  {
    VersionedFacts(db.rules, now);
    SupersedeKeeps(db.rules, req.supersedeVersion, wallTime);
    var after := db.(rules := WithRule(db.rules, req, now, wallTime));
    forall id | id in after.cases
      ensures Sound(after.cases[id], Current(after.referrals, id), HistoryOf(after.escalations, id), after.rules, cfg)
    {
      assert Sound(db.cases[id], Current(db.referrals, id), HistoryOf(db.escalations, id), db.rules, cfg);
    }
  }

  lemma EscalatedSound(id: string, c: Case, current: seq<Referral>, h: seq<Escalation>, rules: seq<Rule>, cfg: Config, now: int)
    requires Sound(c, current, h, rules, cfg) && Selected(c, cfg, now) && Admits(c)
    ensures var e := EscalatedCase(c, cfg, now);
            Sound(e, [ReferralFor(id, e, now, "system_escalation")], h + [EscalationOf(id, c, cfg, now)], rules, cfg)
  {
    EscalationExtendsChain(h, id, c, cfg, now);
  }

  lemma ReroutedSound(id: string, c: Case, current: seq<Referral>, h: seq<Escalation>, rules: seq<Rule>, cfg: Config, at: int, now: int)
    requires Sound(c, current, h, rules, cfg) && Versioned(rules)
    requires NewRouting(c, ActiveRules(rules, at), CurrentVersion(rules)).Some?
    ensures var r := Rerouted(c, NewRouting(c, ActiveRules(rules, at), CurrentVersion(rules)).value, now);
            Sound(r, [ReferralFor(id, r, now, "system")], h, rules, cfg)
  {
    ChoiceIsFromTheStart(rules, at, SubjectOf(c));
    assert c.level == 0 && h == [];
  }

  /** Routing a case anew, with or without an escalation record, keeps the invariant if the
      new case is sound. */
  lemma RouteKeeps(db: Db, cfg: Config, id: string, c: Case, now: int, author: string, escalations: seq<Escalation>)
    requires Invariant(db, cfg) && id in db.cases && c.externalRef == db.cases[id].externalRef
    requires forall x :: x != id ==> HistoryOf(escalations, x) == HistoryOf(db.escalations, x)
    requires Sound(c, [ReferralFor(id, c, now, author)], HistoryOf(escalations, id), db.rules, cfg)
    ensures Invariant(Route(db, id, c, now, author).(escalations := escalations), cfg)
  {
    var after := Route(db, id, c, now, author).(escalations := escalations);
    forall x
      ensures Current(after.referrals, x) == if x == id then [ReferralFor(id, c, now, author)] else Current(db.referrals, x)
    {
      RoutedCurrent(db, id, c, now, author, x);
    }
    OneCaseChanged(db, after, cfg, id);
  }

  lemma EscalateKeeps(db: Db, cfg: Config, id: string, now: int)
    requires Invariant(db, cfg) && id in db.cases
    requires Selected(db.cases[id], cfg, now) && Admits(db.cases[id])
    ensures Invariant(AfterEscalation(db, cfg, id, now), cfg)
  {
    var c := db.cases[id];
    var e := EscalationOf(id, c, cfg, now);
    forall x
      ensures HistoryOf(db.escalations + [e], x) == if x == id then HistoryOf(db.escalations, x) + [e] else HistoryOf(db.escalations, x)
    {
      HistoryOfAppend(db.escalations, e, x);
    }
    EscalatedSound(id, c, Current(db.referrals, id), HistoryOf(db.escalations, id), db.rules, cfg, now);
    RouteKeeps(db, cfg, id, EscalatedCase(c, cfg, now), now, "system_escalation", db.escalations + [e]);
  }

  lemma ReevaluateKeeps(db: Db, cfg: Config, id: string, at: int, now: int)
    requires Invariant(db, cfg) && id in db.cases
    ensures Invariant(AfterReevaluation(db, id, ActiveRules(db.rules, at), CurrentVersion(db.rules), now), cfg)
  {
    var c := db.cases[id];
    var r := NewRouting(c, ActiveRules(db.rules, at), CurrentVersion(db.rules));
    if r.Some? {
      ReroutedSound(id, c, Current(db.referrals, id), HistoryOf(db.escalations, id), db.rules, cfg, at, now);
      RouteKeeps(db, cfg, id, Rerouted(c, r.value, now), now, "system", db.escalations);
    }
  }

  lemma ApplyKeeps(db: Db, cfg: Config, op: Op)
    requires Invariant(db, cfg)
    ensures Invariant(Apply(db, cfg, op), cfg)
  {
    match op
    case Register(id, req, now, stored) => RegisterKeeps(db, cfg, id, req, now, stored);
    case Act(id, action, now, stored) =>
      if ActError(db, id, action, stored).None? {
        ActKeeps(db, cfg, id, action, now);
      }
    case Modify(id, changes, now, stored) =>
      if ModifyError(db, id, stored).None? {
        ModifyKeeps(db, cfg, id, changes, now);
      }
    case CreateRule(req, now, wallTime, _) => CreateRuleKeeps(db, cfg, req, now, wallTime);
    case Escalate(id, now, _) =>
      if id in db.cases && Selected(db.cases[id], cfg, now) && Admits(db.cases[id]) {
        EscalateKeeps(db, cfg, id, now);
      }
    case Reevaluate(id, at, now, _) =>
      if id in db.cases {
        ReevaluateKeeps(db, cfg, id, at, now);
      }
  }

  /** The invariant holds after any sequence of operations, stored or rolled back. */
  lemma {:induction false} RunKeeps(cfg: Config, ops: seq<Op>)
    ensures Invariant(Run(cfg, ops), cfg)
  {
    if ops != [] {
      RunKeeps(cfg, ops[..|ops| - 1]);
      ApplyKeeps(Run(cfg, ops[..|ops| - 1]), cfg, ops[|ops| - 1]);
    }
  }
}

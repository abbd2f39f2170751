/** The main results about the case tables, over every run of operations. */
module CaseTheorems {
  import opened Common
  import opened Dispatch
  import opened Cases
  import opened CaseInvariants

  // ---------------------------------------------------------------- routing and history

  /** Exactly one current referral per case, and it repeats the case's lead, co-departments
      and rule version. */
  lemma RoutingIsAlwaysConsistent(cfg: Config, ops: seq<Op>, id: string)
    requires id in Run(cfg, ops).cases
    ensures var db := Run(cfg, ops);
            |Current(db.referrals, id)| == 1 && Agrees(Current(db.referrals, id)[0], db.cases[id])
  {
    RunKeeps(cfg, ops);
  }

  lemma {:induction false} ChainTakesTime(h: seq<Escalation>, c: Case, cfg: Config, k: nat)
    requires HistoryChained(h, c, cfg) && k < |h|
    ensures h[k].at > c.registeredAt + cfg.deadline + k * cfg.extension
  {
    assert Link(h, k, c, cfg);
    if k > 0 {
      ChainTakesTime(h, c, cfg, k - 1);
      assert Link(h, k - 1, c, cfg);
      assert k * cfg.extension == (k - 1) * cfg.extension + cfg.extension;
    }
  }

  lemma EverySoundCase(cfg: Config, ops: seq<Op>, id: string)
    requires id in Run(cfg, ops).cases
    ensures var db := Run(cfg, ops);
            Sound(db.cases[id], Current(db.referrals, id), HistoryOf(db.escalations, id), db.rules, cfg)
  {
    RunKeeps(cfg, ops);
  }

  /** Escalations that lead level by level from 0 to the case's level, each from the lead the
      last one ended with, the last to the case's own lead and deadline; level k took at
      least the initial deadline and k - 1 extensions. */
  ghost predicate LevelByLevel(h: seq<Escalation>, c: Case, cfg: Config) {
    && |h| == c.level
    && (forall k :: 0 <= k < |h| ==> h[k].fromLevel == k && h[k].toLevel == k + 1
                                     && h[k].newLead == EscalationDepartmentName(h[k].oldLead, k + 1))
    && (forall k :: 0 < k < |h| ==> h[k].oldLead == h[k - 1].newLead && h[k].at > h[k - 1].newDeadline)
    && (c.level > 0 ==> h[c.level - 1].newLead == c.lead && h[c.level - 1].newDeadline == c.deadline
                        && h[c.level - 1].at > c.registeredAt + cfg.deadline + (c.level - 1) * cfg.extension)
  }

  lemma ChainIsLevelByLevel(h: seq<Escalation>, c: Case, cfg: Config)
    requires HistoryChained(h, c, cfg)
    ensures LevelByLevel(h, c, cfg)
  {
    forall k | 0 <= k < |h|
      ensures h[k].fromLevel == k && h[k].toLevel == k + 1 && h[k].newLead == EscalationDepartmentName(h[k].oldLead, k + 1)
      ensures k > 0 ==> h[k].oldLead == h[k - 1].newLead && h[k].at > h[k - 1].newDeadline
    {
      assert Link(h, k, c, cfg);
    }
    if c.level > 0 {
      ChainTakesTime(h, c, cfg, |h| - 1);
    }
  }

  lemma EscalationHistoryIsAChain(cfg: Config, ops: seq<Op>, id: string)
    requires id in Run(cfg, ops).cases
    ensures LevelByLevel(HistoryOf(Run(cfg, ops).escalations, id), Run(cfg, ops).cases[id], cfg)
  {
    EverySoundCase(cfg, ops, id);
    ChainIsLevelByLevel(HistoryOf(Run(cfg, ops).escalations, id), Run(cfg, ops).cases[id], cfg);
  }

  /** The name of an escalated lead tells the level: no two levels of a department share one,
      and none is the department's own name. */
  lemma LeadNamesTellTheLevel(base: string, m: int, n: int)
    ensures EscalationDepartmentName(base, m) == EscalationDepartmentName(base, n) <==> m == n || (m <= 0 && n <= 0)
  {
    if m > 0 && n > 0 {
      DecimalDenotes(m);
      DecimalDenotes(n);
      var k := |base + "-supervisor-l"|;
      assert EscalationDepartmentName(base, m)[k..] == Decimal(m) && EscalationDepartmentName(base, n)[k..] == Decimal(n);
    } else {
      assert m > 0 ==> |EscalationDepartmentName(base, m)| > |base|;
      assert n > 0 ==> |EscalationDepartmentName(base, n)| > |base|;
    }
  }

  // ---------------------------------------------------------------- lifecycle

  /** No stored case is ever registered; a positive level means it left the first phase;
      completion and cancellation times are set exactly in their own status; and levels
      stay within the limit. */
  lemma LifecycleIsAlwaysSound(cfg: Config, ops: seq<Op>, id: string)
    requires id in Run(cfg, ops).cases
    ensures var c := Run(cfg, ops).cases[id];
            && c.status != Registered
            && (c.level > 0 ==> Phase(c.status) > 0 && c.level <= cfg.maxLevel)
            && (c.completedAt.Some? <==> c.status == Completed)
            && (c.cancelledAt.Some? <==> c.status == Cancelled)
  {
    RunKeeps(cfg, ops);
  }

  /** When each lifecycle service succeeds, and the status it leaves. */
  lemma ActionsExact(c: Case, action: Action, now: int)
    ensures Allowed(c, action) <==>
            match action
            case StartProcessing => c.status in {Adjudicated, Escalated, InProgress}
            case ReturnForCorrection => c.status in {Registered, Adjudicated, Returned}
            case Resubmit => c.status in {Registered, Returned}
            case Cancel(_) => c.status != Completed
            case Complete => c.status in {InProgress, Escalated, Completed}
    ensures Acted(c, action, now).status in
            (match action
             case StartProcessing => {InProgress}
             case ReturnForCorrection => {Returned}
             case Resubmit => {Adjudicated}
             case Cancel(_) => {Cancelled}
             case Complete => {Completed})
  {
  }

  /** What any later state of a case keeps of an earlier one. */
  ghost predicate Follows(earlier: Case, later: Case) {
    && later.externalRef == earlier.externalRef && later.registeredAt == earlier.registeredAt
    && Phase(later.status) >= Phase(earlier.status)
    && later.level >= earlier.level
    && (IsTerminal(earlier.status) ==>
          && later.status == earlier.status && later.lead == earlier.lead && later.co == earlier.co
          && later.ruleVersion == earlier.ruleVersion && later.deadline == earlier.deadline && later.level == earlier.level
          && later.category == earlier.category && later.keywords == earlier.keywords && later.details == earlier.details)
  }

  lemma ActionFollows(c: Case, action: Action, now: int)
    requires Allowed(c, action)
    ensures Follows(c, Acted(c, action, now))
  {
  }

  lemma StepFollows(db: Db, cfg: Config, op: Op, id: string)
    requires id in db.cases
    ensures id in Apply(db, cfg, op).cases && Follows(db.cases[id], Apply(db, cfg, op).cases[id])
  {
    match op
    case Register(_, _, _, _) =>
    case CreateRule(_, _, _, _) =>
    case Act(x, action, now, _) =>
      if x == id && Allowed(db.cases[id], action) {
        ActionFollows(db.cases[id], action, now);
      }
    case Modify(_, _, _, _) =>
    case Escalate(_, _, _) =>
    case Reevaluate(_, _, _, _) =>
  }

  lemma FollowsOn(a: Case, b: Case, c: Case)
    requires Follows(a, b) && Follows(b, c)
    ensures Follows(a, c)
  {
  }

  lemma OneStepOn(a: Case, db: Db, cfg: Config, op: Op, id: string)
    requires id in db.cases && Follows(a, db.cases[id])
    ensures id in Apply(db, cfg, op).cases && Follows(a, Apply(db, cfg, op).cases[id])
  {
    StepFollows(db, cfg, op, id);
    FollowsOn(a, db.cases[id], Apply(db, cfg, op).cases[id]);
  }

  /** Cases are never lost, phases never go back, and a terminal case keeps its status, its
      routing, its level, its deadline and its contents. */
  lemma {:induction false} CasesMoveForward(cfg: Config, ops: seq<Op>, n: nat, id: string)
    requires n <= |ops| && id in Run(cfg, ops[..n]).cases
    ensures id in Run(cfg, ops).cases && Follows(Run(cfg, ops[..n]).cases[id], Run(cfg, ops).cases[id])
    decreases |ops|
  {
    if n == |ops| {
      assert ops[..n] == ops;
    } else {
      var m := |ops| - 1;
      assert ops[..m][..n] == ops[..n];
      CasesMoveForward(cfg, ops[..m], n, id);
      OneStepOn(Run(cfg, ops[..n]).cases[id], Run(cfg, ops[..m]), cfg, ops[m], id);
    }
  }

  /** A reference is registered once: a second registration, whatever it says, changes nothing. */
  lemma RegistrationIsIdempotent(db: Db, cfg: Config, id: string, req: Request, now: int, id': string, req': Request, now': int, stored: bool)
    requires RegisterError(db, id, req, now, true).None?
    requires req'.externalRef == req.externalRef
    ensures var once := AfterRegister(db, cfg, id, req, now, true);
            HasRef(once, req.externalRef) && AfterRegister(once, cfg, id', req', now', stored) == once
  {
    var once := AfterRegister(db, cfg, id, req, now, true);
    if !HasRef(db, req.externalRef) {
      assert once.cases[id].externalRef == req.externalRef;
    }
  }

  // ---------------------------------------------------------------- rules and re-evaluation

  /** No run ever routes a case by a rule that came into force after its registration. */
  lemma LaterRulesNeverRoute(cfg: Config, ops: seq<Op>, id: string, v: int)
    requires id in Run(cfg, ops).cases
    requires 1 <= v <= |Run(cfg, ops).rules|
    requires Run(cfg, ops).rules[v - 1].effectiveFrom > Run(cfg, ops).cases[id].registeredAt
    ensures Run(cfg, ops).cases[id].ruleVersion != v
  {
    EverySoundCase(cfg, ops, id);
  }

  /** Re-evaluation is meant to bring waiting cases to the newest rule. For a stale case that
      may be re-evaluated it does so exactly when that rule is in force now, was in force at
      the registration, matches, and is preceded by no other rule of which this is true. */
  lemma MigrationExact(db: Db, cfg: Config, id: string, now: int)
    requires Invariant(db, cfg) && id in db.cases
    requires Reevaluable(db.cases[id].status) && db.cases[id].ruleVersion < |db.rules|
    ensures var c, newest := db.cases[id], db.rules[|db.rules| - 1];
            var after := AfterReevaluation(db, id, ActiveRules(db.rules, now), CurrentVersion(db.rules), now);
            after.cases[id].ruleVersion == |db.rules| <==>
            && IsActiveAt(newest, now) && Applies(newest, SubjectOf(c))
            && forall r :: r in db.rules && IsActiveAt(r, now) && Applies(r, SubjectOf(c)) ==> !Precedes(r, newest)
  {
    var c, rules, newest := db.cases[id], ActiveRules(db.rules, now), db.rules[|db.rules| - 1];
    VersionedFacts(db.rules, now);
    assert newest in db.rules;
    var best := Best(rules, SubjectOf(c));
    if best.Some? {
      ChoiceIsFromTheStart(db.rules, now, SubjectOf(c));
    }
    if IsChoice(rules, SubjectOf(c), Some(newest)) {
      ChoiceIsUnique(rules, SubjectOf(c), best, Some(newest));
    }
  }

  /** The stale cases a sweep collects, in any order. */
  ghost predicate IsStaleList(db: Db, current: int, ids: seq<string>) {
    && Distinct(ids)
    && forall id :: id in ids <==> id in db.cases && Reevaluable(db.cases[id].status) && db.cases[id].ruleVersion < current
  }

  ghost predicate Distinct(ids: seq<string>) {
    forall i, j :: 0 <= i < j < |ids| ==> ids[i] != ids[j]
  }

  /** Re-evaluates the listed cases one after the other. */
  function ReevaluateAll(db: Db, ids: seq<string>, rules: seq<Rule>, current: int, now: int): (after: Db)
    ensures after.cases.Keys == db.cases.Keys && after.rules == db.rules
  {
    if ids == [] then db
    else
      var last, before := ids[|ids| - 1], ReevaluateAll(db, ids[..|ids| - 1], rules, current, now);
      if last in before.cases then AfterReevaluation(before, last, rules, current, now) else before
  }

  function CaseAfter(c: Case, rules: seq<Rule>, current: int, now: int): Case {
    var r := NewRouting(c, rules, current);
    if r.None? then c else Rerouted(c, r.value, now)
  }

  /** A sweep treats every listed case by itself. */
  lemma {:induction false} SweepIsPointwise(db: Db, ids: seq<string>, rules: seq<Rule>, current: int, now: int, id: string)
    requires Distinct(ids) && id in db.cases
    ensures ReevaluateAll(db, ids, rules, current, now).cases[id]
            == if id in ids then CaseAfter(db.cases[id], rules, current, now) else db.cases[id]
    decreases |ids|
  {
    if ids != [] {
      var n := |ids| - 1;
      SweepIsPointwise(db, ids[..n], rules, current, now, id);
      assert ids == ids[..n] + [ids[n]];
      assert id in ids[..n] ==> id != ids[n];
    }
  }

  predicate SameRouting(a: Case, b: Case) {
    a.lead == b.lead && a.co == b.co && a.ruleVersion == b.ruleVersion && a.status == b.status
  }

  /** A rule in force has no end yet. */
  ghost predicate OpenEnded(rules: seq<Rule>) {
    forall i :: 0 <= i < |rules| && rules[i].status == RuleStatus.Active ==> rules[i].effectiveTo == None
  }

  lemma {:induction false} SupersedeKeepsOpenEnded(rules: seq<Rule>, version: int, wallTime: int)
    requires OpenEnded(rules)
    ensures OpenEnded(SupersedeIn(rules, version, wallTime))
  {
    if rules != [] {
      assert OpenEnded(rules[..|rules| - 1]);
      SupersedeKeepsOpenEnded(rules[..|rules| - 1], version, wallTime);
    }
  }

  lemma {:induction false} RulesAreOpenEnded(cfg: Config, ops: seq<Op>)
    ensures OpenEnded(Run(cfg, ops).rules)
  {
    if ops != [] {
      RulesAreOpenEnded(cfg, ops[..|ops| - 1]);
      var op := ops[|ops| - 1];
      if op.CreateRule? {
        SupersedeKeepsOpenEnded(Run(cfg, ops[..|ops| - 1]).rules, op.rule.supersedeVersion, op.wallTime);
      }
    }
  }

  /** From its registration on, a case gets the same choice whenever it is asked for. */
  lemma ChoiceStays(rules: seq<Rule>, s: Subject, at: int, at': int)
    requires Versioned(rules) && OpenEnded(rules) && s.registeredAt <= at && s.registeredAt <= at'
    ensures Best(ActiveRules(rules, at), s) == Best(ActiveRules(rules, at'), s)
  {
    VersionedFacts(rules, at);
    VersionedFacts(rules, at');
    forall r
      ensures r in ActiveRules(rules, at) && Applies(r, s) <==> r in ActiveRules(rules, at') && Applies(r, s)
    {
      if r in rules {
        var i :| 0 <= i < |rules| && rules[i] == r;
      }
    }
    ChoiceIsUnique(ActiveRules(rules, at), s, Best(ActiveRules(rules, at), s), Best(ActiveRules(rules, at'), s));
  }

  /** A second sweep, at whatever later time, moves no case any more unless a rule was created
      in between. */
  lemma SecondSweepChangesNoRouting(cfg: Config, ops: seq<Op>, ids: seq<string>, ids': seq<string>, at: int, at': int, now: int, now': int, id: string)
    requires id in Run(cfg, ops).cases
    requires Run(cfg, ops).cases[id].registeredAt <= at && Run(cfg, ops).cases[id].registeredAt <= at'
    requires var db := Run(cfg, ops);
             var current := CurrentVersion(db.rules);
             IsStaleList(db, current, ids) && IsStaleList(ReevaluateAll(db, ids, ActiveRules(db.rules, at), current, now), current, ids')
    ensures var db := Run(cfg, ops);
            var current := CurrentVersion(db.rules);
            var once := ReevaluateAll(db, ids, ActiveRules(db.rules, at), current, now);
            SameRouting(ReevaluateAll(once, ids', ActiveRules(once.rules, at'), current, now').cases[id], once.cases[id])
  {
    var db := Run(cfg, ops);
    var current, rules, rules' := CurrentVersion(db.rules), ActiveRules(db.rules, at), ActiveRules(db.rules, at');
    var once := ReevaluateAll(db, ids, rules, current, now);
    RunKeeps(cfg, ops);
    RulesAreOpenEnded(cfg, ops);
    ChoiceStays(db.rules, SubjectOf(db.cases[id]), at, at');
    SweepIsPointwise(db, ids, rules, current, now, id);
    SweepIsPointwise(once, ids', rules', current, now', id);
    SecondIsSame(db.cases[id], rules, rules', current, now, now');
  }

  lemma SecondIsSame(c: Case, rules: seq<Rule>, rules': seq<Rule>, current: int, now: int, now': int)
    requires Best(rules, SubjectOf(c)) == Best(rules', SubjectOf(c))
    ensures var once := CaseAfter(c, rules, current, now);
            SameRouting(CaseAfter(once, rules', current, now'), once)
  {
    var once := CaseAfter(c, rules, current, now);
    assert SubjectOf(once) == SubjectOf(c);
  }

  lemma {:induction false} SweepAddsReferrals(db: Db, ids: seq<string>, rules: seq<Rule>, current: int, now: int)
    requires forall x :: x in ids ==> x in db.cases
    requires Distinct(ids)
    ensures |ReevaluateAll(db, ids, rules, current, now).referrals| >= |db.referrals|
    ensures ReevaluateAll(db, ids, rules, current, now) == db <==> forall x :: x in ids ==> NewRouting(db.cases[x], rules, current).None?
    ensures ReevaluateAll(db, ids, rules, current, now) != db ==>
              |ReevaluateAll(db, ids, rules, current, now).referrals| > |db.referrals|
    decreases |ids|
  {
    if ids != [] {
      var n := |ids| - 1;
      SweepAddsReferrals(db, ids[..n], rules, current, now);
      SweepIsPointwise(db, ids[..n], rules, current, now, ids[n]);
      assert ids == ids[..n] + [ids[n]];
      SupersededLength(ReevaluateAll(db, ids[..n], rules, current, now).referrals, ids[n]);
    }
  }

  lemma {:induction false} SupersededLength(referrals: seq<Referral>, id: string)
    ensures |MarkSuperseded(referrals, id)| == |referrals|
  {
    if referrals != [] {
      SupersededLength(referrals[..|referrals| - 1], id);
    }
  }

  // ---------------------------------------------------------------- the overdue sweep

  /** A result of the overdue query: every selected case once, in order of deadline. */
  ghost predicate IsOverdueList(db: Db, cfg: Config, now: int, ids: seq<string>) {
    && Distinct(ids)
    && (forall id :: id in ids <==> id in db.cases && Selected(db.cases[id], cfg, now))
    && forall i, j :: 0 <= i < j < |ids| ==> ids[i] in db.cases && ids[j] in db.cases && db.cases[ids[i]].deadline <= db.cases[ids[j]].deadline
  }

  /** Escalates the listed cases one after the other. */
  function EscalateAll(db: Db, cfg: Config, ids: seq<string>, now: int): (after: Db)
    ensures after.cases.Keys == db.cases.Keys && after.rules == db.rules
  {
    if ids == [] then db
    else
      var last, before := ids[|ids| - 1], EscalateAll(db, cfg, ids[..|ids| - 1], now);
      if last in before.cases then AfterEscalation(before, cfg, last, now) else before
  }

  lemma {:induction false} EscalationIsPointwise(db: Db, cfg: Config, ids: seq<string>, now: int, id: string)
    requires Distinct(ids) && id in db.cases
    ensures EscalateAll(db, cfg, ids, now).cases[id] == if id in ids then EscalatedCase(db.cases[id], cfg, now) else db.cases[id]
    decreases |ids|
  {
    if ids != [] {
      var n := |ids| - 1;
      EscalationIsPointwise(db, cfg, ids[..n], now, id);
      assert ids == ids[..n] + [ids[n]];
      assert id in ids[..n] ==> id != ids[n];
    }
  }

  /** The next case of an overdue list is still as the query saw it when its turn comes. */
  lemma NextToEscalate(db: Db, cfg: Config, ids: seq<string>, now: int, i: nat)
    requires IsOverdueList(db, cfg, now, ids) && i < |ids|
    ensures ids[i] in db.cases && Selected(db.cases[ids[i]], cfg, now)
    ensures var before := EscalateAll(db, cfg, ids[..i], now);
            ids[i] in before.cases && before.cases[ids[i]] == db.cases[ids[i]]
            && EscalateAll(db, cfg, ids[..i + 1], now) == AfterEscalation(before, cfg, ids[i], now)
            && RecordsOf(db, cfg, ids[..i + 1], now) == RecordsOf(db, cfg, ids[..i], now) + [EscalationOf(ids[i], db.cases[ids[i]], cfg, now)]
  {
    assert ids[i] in ids && ids[i] !in ids[..i];
    assert ids[..i + 1][..i] == ids[..i];
    EscalationIsPointwise(db, cfg, ids[..i], now, ids[i]);
  }

  /** The escalation records of the listed cases, made from what the query saw. */
  function RecordsOf(db: Db, cfg: Config, ids: seq<string>, now: int): seq<Escalation> {
    if ids == [] then []
    else
      var id, before := ids[|ids| - 1], RecordsOf(db, cfg, ids[..|ids| - 1], now);
      if id in db.cases then before + [EscalationOf(id, db.cases[id], cfg, now)] else before
  }

  /** Number of leading cases a sweep gets through: it stops at the first whose status does
      not admit escalation or whose transaction fails. */
  function Reached(db: Db, ids: seq<string>, failing: set<string>): (n: nat)
    ensures n <= |ids|
    ensures forall i :: 0 <= i < n ==> Passes(db, ids[i], failing)
    ensures n < |ids| ==> !Passes(db, ids[n], failing)
  {
    if ids == [] || !Passes(db, ids[0], failing) then 0 else 1 + Reached(db, ids[1..], failing)
  }

  predicate Passes(db: Db, id: string, failing: set<string>) {
    id in db.cases && Admits(db.cases[id]) && id !in failing
  }

  function Swept(db: Db, cfg: Config, ids: seq<string>, failing: set<string>, now: int): Db {
    EscalateAll(db, cfg, ids[..Reached(db, ids, failing)], now)
  }

  /** A sweep escalates exactly the cases it reaches, by one level, and no case it reached is
      overdue any more at that instant. */
  lemma SweepEscalatesWhatItReaches(db: Db, cfg: Config, ids: seq<string>, failing: set<string>, now: int, id: string)
    requires IsOverdueList(db, cfg, now, ids) && id in db.cases && cfg.extension >= 0
    ensures id in Swept(db, cfg, ids, failing, now).cases
    ensures var reached := id in ids[..Reached(db, ids, failing)];
            var c := Swept(db, cfg, ids, failing, now).cases[id];
            && (reached ==> c.level == db.cases[id].level + 1 <= cfg.maxLevel && c.deadline == now + cfg.extension && !IsOverdue(c, now))
            && (!reached ==> c == db.cases[id])
  {
    var n := Reached(db, ids, failing);
    assert id in ids[..n] ==> id in ids;
    EscalationIsPointwise(db, cfg, ids[..n], now, id);
  }

  /** With storage working, a sweep leaves no selected case overdue if and only if every
      selected case is in a status that admits escalation. */
  lemma SweepIsCompleteExactly(db: Db, cfg: Config, ids: seq<string>, now: int)
    requires IsOverdueList(db, cfg, now, ids) && cfg.extension >= 0
    ensures Swept(db, cfg, ids, {}, now).cases.Keys == db.cases.Keys
    ensures (forall id :: id in ids ==> !IsOverdue(Swept(db, cfg, ids, {}, now).cases[id], now))
            <==> (forall id :: id in ids ==> Admits(db.cases[id]))
  {
    var n, after := Reached(db, ids, {}), Swept(db, cfg, ids, {}, now);
    forall id | id in ids
      ensures !IsOverdue(after.cases[id], now) <==> id in ids[..n]
    {
      SweepEscalatesWhatItReaches(db, cfg, ids, {}, now, id);
    }
    if n == |ids| {
      assert ids[..n] == ids;
    } else {
      assert ids[n] in ids && ids[n] !in ids[..n];
    }
  }

  // ---------------------------------------------------------------- sweeps keep the invariant

  /** The overdue sweep is a run of escalation operations. */
  function Escalations(ids: seq<string>, now: int): seq<Op> {
    if ids == [] then [] else Escalations(ids[..|ids| - 1], now) + [Op.Escalate(ids[|ids| - 1], now, true)]
  }

  function ApplyAll(db: Db, cfg: Config, ops: seq<Op>): Db {
    if ops == [] then db else Apply(ApplyAll(db, cfg, ops[..|ops| - 1]), cfg, ops[|ops| - 1])
  }

  lemma {:induction false} ApplyAllKeeps(db: Db, cfg: Config, ops: seq<Op>)
    requires Invariant(db, cfg)
    ensures Invariant(ApplyAll(db, cfg, ops), cfg)
  {
    if ops != [] {
      ApplyAllKeeps(db, cfg, ops[..|ops| - 1]);
      ApplyKeeps(ApplyAll(db, cfg, ops[..|ops| - 1]), cfg, ops[|ops| - 1]);
    }
  }

  lemma EscalateOp(db: Db, cfg: Config, id: string, now: int)
    requires id in db.cases && Selected(db.cases[id], cfg, now) && Admits(db.cases[id])
    ensures Apply(db, cfg, Op.Escalate(id, now, true)) == AfterEscalation(db, cfg, id, now)
  {
  }

  lemma ApplyOneMore(db: Db, cfg: Config, ids: seq<string>, now: int, id: string)
    ensures ApplyAll(db, cfg, Escalations(ids + [id], now)) == Apply(ApplyAll(db, cfg, Escalations(ids, now)), cfg, Op.Escalate(id, now, true))
  {
  }

  /** The i-th case of the list can be escalated when its turn comes. */
  ghost predicate Escalable(db: Db, cfg: Config, ids: seq<string>, now: int, i: nat)
    requires i < |ids|
  {
    var before := EscalateAll(db, cfg, ids[..i], now);
    ids[i] in before.cases && Selected(before.cases[ids[i]], cfg, now) && Admits(before.cases[ids[i]])
  }

  lemma {:induction false} SweepIsARun(db: Db, cfg: Config, ids: seq<string>, now: int)
    requires forall i: nat :: i < |ids| ==> Escalable(db, cfg, ids, now, i)
    ensures EscalateAll(db, cfg, ids, now) == ApplyAll(db, cfg, Escalations(ids, now))
  {
    if ids != [] {
      var n := |ids| - 1;
      forall i: nat | i < n
        ensures Escalable(db, cfg, ids[..n], now, i)
      {
        assert Escalable(db, cfg, ids, now, i) && ids[..n][..i] == ids[..i];
      }
      SweepIsARun(db, cfg, ids[..n], now);
      assert Escalable(db, cfg, ids, now, n);
      EscalateOp(EscalateAll(db, cfg, ids[..n], now), cfg, ids[n], now);
      ApplyOneMore(db, cfg, ids[..n], now, ids[n]);
      assert ids == ids[..n] + [ids[n]];
    }
  }

  lemma ReachedAreEscalable(db: Db, cfg: Config, ids: seq<string>, failing: set<string>, now: int, i: nat)
    requires IsOverdueList(db, cfg, now, ids) && i < Reached(db, ids, failing)
    ensures Escalable(db, cfg, ids[..Reached(db, ids, failing)], now, i)
  {
    var n := Reached(db, ids, failing);
    NextToEscalate(db, cfg, ids, now, i);
    assert Passes(db, ids[i], failing);
    assert ids[..n][..i] == ids[..i];
  }

  lemma OverdueSweepKeeps(db: Db, cfg: Config, ids: seq<string>, failing: set<string>, now: int)
    requires Invariant(db, cfg) && IsOverdueList(db, cfg, now, ids)
    ensures Invariant(Swept(db, cfg, ids, failing, now), cfg)
  {
    var n := Reached(db, ids, failing);
    forall i: nat | i < n
      ensures Escalable(db, cfg, ids[..n], now, i)
    {
      ReachedAreEscalable(db, cfg, ids, failing, now, i);
    }
    SweepIsARun(db, cfg, ids[..n], now);
    ApplyAllKeeps(db, cfg, Escalations(ids[..n], now));
  }

  lemma {:induction false} ReevaluationSweepKeeps(db: Db, cfg: Config, ids: seq<string>, at: int, now: int)
    requires Invariant(db, cfg)
    ensures Invariant(ReevaluateAll(db, ids, ActiveRules(db.rules, at), CurrentVersion(db.rules), now), cfg)
  {
    if ids != [] {
      var n := |ids| - 1;
      ReevaluationSweepKeeps(db, cfg, ids[..n], at, now);
      var before := ReevaluateAll(db, ids[..n], ActiveRules(db.rules, at), CurrentVersion(db.rules), now);
      if ids[n] in before.cases {
        ReevaluateKeeps(before, cfg, ids[n], at, now);
      }
    }
  }
}

/** Short runs in which a case service does not do what it is for. */
module CaseRuns {
  import opened Common
  import opened Dispatch
  import opened Cases
  import opened CaseTheorems
  import opened CaseLog
  import opened CaseRebuild
  import opened RebuildTheorems

  const CFG := Config(10, 5, 3)

  lemma RunOfFour(cfg: Config, a: Op, b: Op, c: Op, d: Op)
    ensures Run(cfg, [a, b, c, d]) == Apply(Apply(Apply(Apply(EMPTY, cfg, a), cfg, b), cfg, c), cfg, d)
  {
    var ops := [a, b, c, d];
    assert ops[..3][..2] == ops[..2] && ops[..2][..1] == ops[..1] && ops[..1][..0] == [];
    assert Run(cfg, ops[..1]) == Apply(EMPTY, cfg, a);
    assert Run(cfg, ops[..2]) == Apply(Run(cfg, ops[..1]), cfg, b);
    assert Run(cfg, ops[..3]) == Apply(Run(cfg, ops[..2]), cfg, c);
  }

  lemma RunOfTwo(cfg: Config, a: Op, b: Op)
    ensures Run(cfg, [a, b]) == Apply(Apply(EMPTY, cfg, a), cfg, b)
  {
    var ops := [a, b];
    assert ops[..1][..0] == [];
    assert Run(cfg, ops[..1]) == Apply(EMPTY, cfg, a);
  }

  function DefaultRule(supersedes: int): RuleRequest {
    RuleRequest("rule", "author", "", [], "lead", [], 0, true, supersedes)
  }

  function Asked(ref: string): Request {
    Request(ref, "title", "reporter", "", "", [])
  }

  function FirstRule(): Rule {
    Rule(1, "", [], "lead", [], 0, true, 1, None, RuleStatus.Active)
  }

  lemma FirstRuleCreated(cfg: Config)
    ensures Apply(EMPTY, cfg, CreateRule(DefaultRule(0), 1, 1, true)) == EMPTY.(rules := [FirstRule()])
  {
  }

  function Fresh(ref: string, now: int): Case {
    NewCase(CFG, Asked(ref), FirstRule(), now)
  }

  /** Under the first rule a registration is routed by it. */
  lemma RoutedByFirstRule(db: Db, id: string, ref: string, now: int)
    requires db.rules == [FirstRule()] && now >= 1 && ref != "" && id !in db.cases && !HasRef(db, ref)
    ensures Apply(db, CFG, Op.Register(id, Asked(ref), now, true))
            == db.(cases := db.cases[id := Fresh(ref, now)], referrals := db.referrals + [ReferralFor(id, Fresh(ref, now), now, "system")])
  {
    assert ActiveRules(db.rules, now) == [FirstRule()];
    assert FirstRule() in ActiveRules(db.rules, now);
    assert Applies(FirstRule(), Subject("", [], now));
  }

  // ---------------------------------------------------------------- a newest rule that is never reached

  /** A default rule, a case under it, a rule that supersedes it, and a re-evaluation. */
  function Migration(): seq<Op> {
    [CreateRule(DefaultRule(0), 1, 1, true), Op.Register("c", Asked("ref"), 2, true), CreateRule(DefaultRule(1), 3, 3, true), Reevaluate("c", 4, 4, true)]
  }

  lemma SupersededRules(cases: map<string, Case>, referrals: seq<Referral>)
    ensures var second := FirstRule().(version := 2, effectiveFrom := 3);
            Apply(Db(cases, referrals, [], [FirstRule()]), CFG, CreateRule(DefaultRule(1), 3, 3, true))
            == Db(cases, referrals, [], [FirstRule().(status := RuleStatus.Superseded, effectiveTo := Some(3)), second])
  {
    assert SupersedeIn([FirstRule()], 1, 3) == [FirstRule().(status := RuleStatus.Superseded, effectiveTo := Some(3))];
  }

  lemma TwoRules(a: Rule, b: Rule, at: int)
    requires 0 < a.version < b.version && !IsActiveAt(a, at) && IsActiveAt(b, at)
    ensures CurrentVersion([a, b]) == b.version && ActiveRules([a, b], at) == [b]
  {
    assert [a, b][..1] == [a] && [a][..0] == [];
    assert CurrentVersion([a]) == a.version && ActiveRules([a], at) == [];
  }

  lemma NotRouted(db: Db, id: string)
    requires id in db.cases && db.cases[id].registeredAt == 2
    requires db.rules == [FirstRule().(status := RuleStatus.Superseded, effectiveTo := Some(3)), FirstRule().(version := 2, effectiveFrom := 3)]
    ensures Apply(db, CFG, Reevaluate(id, 4, 4, true)) == db
    ensures CurrentVersion(db.rules) == 2 && ActiveRules(db.rules, 4) == [db.rules[1]]
  {
    TwoRules(db.rules[0], db.rules[1], 4);
    assert !Applies(db.rules[1], SubjectOf(db.cases[id]));
    assert forall r :: r in [db.rules[1]] ==> r == db.rules[1];
  }

  /** After a rule is replaced, re-evaluation leaves the waiting case under the old version. */
  lemma ReplacedRuleKeepsItsCases()
    ensures var db := Run(CFG, Migration());
            && db.cases == map["c" := Fresh("ref", 2)] && Reevaluable(db.cases["c"].status) && db.cases["c"].ruleVersion == 1
            && CurrentVersion(db.rules) == 2 && ActiveRules(db.rules, 4) == [db.rules[1]]
  {
    var ops := Migration();
    RunOfFour(CFG, ops[0], ops[1], ops[2], ops[3]);
    FirstRuleCreated(CFG);
    var one := Apply(EMPTY, CFG, ops[0]);
    RoutedByFirstRule(one, "c", "ref", 2);
    var two := Apply(one, CFG, ops[1]);
    SupersededRules(two.cases, two.referrals);
    NotRouted(Apply(two, CFG, ops[2]), "c");
  }

  // ---------------------------------------------------------------- a sweep that stops early

  /** Two cases of which the first is returned. */
  function ReturnedFirst(): seq<Op> {
    [CreateRule(DefaultRule(0), 1, 1, true), Op.Register("a", Asked("one"), 2, true), Op.Register("b", Asked("two"), 2, true),
     Act("a", ReturnForCorrection, 3, true)]
  }

  lemma StopsAtTheFirst(db: Db)
    requires db.cases == map["a" := Fresh("one", 2).(status := Returned, updatedAt := 3), "b" := Fresh("two", 2)]
    ensures "b" in db.cases && Admits(db.cases["b"])
    ensures IsOverdueList(db, CFG, 20, ["a", "b"]) && Swept(db, CFG, ["a", "b"], {}, 20) == db
  {
    assert Reached(db, ["a", "b"], {}) == 0;
  }

  lemma ReturnsFirst(db: Db)
    requires db.cases == map["a" := Fresh("one", 2), "b" := Fresh("two", 2)]
    ensures Apply(db, CFG, Act("a", ReturnForCorrection, 3, true)).cases
            == map["a" := Fresh("one", 2).(status := Returned, updatedAt := 3), "b" := Fresh("two", 2)]
  {
  }

  lemma FirstIsReturned()
    ensures Run(CFG, ReturnedFirst()).cases == map["a" := Fresh("one", 2).(status := Returned, updatedAt := 3), "b" := Fresh("two", 2)]
  {
    var ops := ReturnedFirst();
    RunOfFour(CFG, ops[0], ops[1], ops[2], ops[3]);
    FirstRuleCreated(CFG);
    var one := Apply(EMPTY, CFG, ops[0]);
    RoutedByFirstRule(one, "a", "one", 2);
    var two := Apply(one, CFG, ops[1]);
    assert two.cases == map["a" := Fresh("one", 2)];
    RoutedByFirstRule(two, "b", "two", 2);
    ReturnsFirst(Apply(two, CFG, ops[2]));
  }

  /** Both cases are overdue and the sweep, stopped by the first, escalates neither. */
  lemma ReturnedCaseStopsTheSweep()
    ensures var db := Run(CFG, ReturnedFirst());
            && "b" in db.cases && Admits(db.cases["b"])
            && IsOverdueList(db, CFG, 20, ["a", "b"]) && Swept(db, CFG, ["a", "b"], {}, 20) == db
  {
    FirstIsReturned();
    StopsAtTheFirst(Run(CFG, ReturnedFirst()));
  }

  // ---------------------------------------------------------------- a referral that a rebuild loses

  /** One case, escalated and taken up again. */
  function EscalatedOnce(): seq<Op> {
    [CreateRule(DefaultRule(0), 1, 1, true), Op.Register("a", Asked("one"), 2, true), Escalate("a", 20, true), Act("a", StartProcessing, 21, true)]
  }

  lemma EscalatesOverdue(db: Db)
    requires db.cases == map["a" := Fresh("one", 2)]
    ensures var escalated := Apply(db, CFG, Escalate("a", 20, true));
            escalated.cases == map["a" := EscalatedCase(Fresh("one", 2), CFG, 20)]
  {
  }

  lemma LevelIsOne()
    ensures var cases := Run(CFG, EscalatedOnce()).cases; "a" in cases && cases["a"].level == 1
  {
    var ops := EscalatedOnce();
    RunOfFour(CFG, ops[0], ops[1], ops[2], ops[3]);
    FirstRuleCreated(CFG);
    RoutedByFirstRule(Apply(EMPTY, CFG, ops[0]), "a", "one", 2);
    EscalatesOverdue(Apply(Apply(EMPTY, CFG, ops[0]), CFG, ops[1]));
  }

  /** The case has a current referral, and after a rebuild it has none. */
  lemma RebuildLosesTheReferral(reached: nat -> nat)
    ensures "a" in Run(CFG, EscalatedOnce()).cases
    ensures |Current(Run(CFG, EscalatedOnce()).referrals, "a")| == 1 && Current(Rebuilt(CFG, EscalatedOnce(), reached).referrals, "a") == []
  {
    LevelIsOne();
    EscalatedCaseLosesReferral(CFG, EscalatedOnce(), reached, "a");
  }

  // ---------------------------------------------------------------- lines of a rolled-back transaction

  /** One case whose escalation is rolled back. */
  function EscalationRolledBack(): seq<Op> {
    [CreateRule(DefaultRule(0), 1, 1, true), Op.Register("a", Asked("one"), 2, true), Escalate("a", 20, false), Act("a", StartProcessing, 21, true)]
  }

  lemma NotEscalated()
    ensures var ops := EscalationRolledBack();
            && Run(CFG, ops[..2]).cases == map["a" := Fresh("one", 2)]
            && Run(CFG, ops).cases == map["a" := Acted(Fresh("one", 2), StartProcessing, 21)]
  {
    var ops := EscalationRolledBack();
    RunOfFour(CFG, ops[0], ops[1], ops[2], ops[3]);
    RunOfTwo(CFG, ops[0], ops[1]);
    assert ops[..2] == [ops[0], ops[1]];
    FirstRuleCreated(CFG);
    var one := Apply(EMPTY, CFG, ops[0]);
    RoutedByFirstRule(one, "a", "one", 2);
    TakenUp(Apply(one, CFG, ops[1]));
  }

  lemma TakenUp(db: Db)
    requires db.cases == map["a" := Fresh("one", 2)]
    ensures Apply(Apply(db, CFG, Escalate("a", 20, false)), CFG, Act("a", StartProcessing, 21, true)).cases
            == map["a" := Acted(Fresh("one", 2), StartProcessing, 21)]
  {
  }

  lemma EscalationLineReached(db: Db, reached: nat)
    requires db.cases == map["a" := Fresh("one", 2)] && reached > 0
    ensures EscalationLine(EscalationOf("a", Fresh("one", 2), CFG, 20)) in Written(db, CFG, Escalate("a", 20, false), reached)
  {
    var lines := Written(db, CFG, Escalate("a", 20, false), reached);
    assert lines[0] == EscalationLine(EscalationOf("a", Fresh("one", 2), CFG, 20));
  }

  /** The case was never escalated, but its escalation wrote a line before it was rolled back,
      and after a rebuild it has no current referral. */
  lemma RolledBackEscalationLosesReferral(reached: nat -> nat)
    requires reached(2) > 0
    ensures var db := Run(CFG, EscalationRolledBack());
            && "a" in db.cases && db.cases["a"].level == 0 && |Current(db.referrals, "a")| == 1
            && Current(Rebuilt(CFG, EscalationRolledBack(), reached).referrals, "a") == []
  {
    var ops := EscalationRolledBack();
    NotEscalated();
    RoutingIsAlwaysConsistent(CFG, ops, "a");
    EscalationLineReached(Run(CFG, ops[..2]), reached(2));
    WrittenIsOnDisk(CFG, ops, reached, 2, EscalationLine(EscalationOf("a", Fresh("one", 2), CFG, 20)));
    EscalationLineCounts(Disk(CFG, ops, reached), EscalationOf("a", Fresh("one", 2), CFG, 20));
    RebuiltCaseExact(CFG, ops, reached, "a");
  }

  lemma SupersessionReached(db: Db, version: int, now: int, stored: bool, reached: nat)
    requires version > 0 && (stored || reached > 0)
    ensures SupersessionLine(version) in Written(db, CFG, CreateRule(DefaultRule(version), now, now, stored), reached)
  {
    var lines := Written(db, CFG, CreateRule(DefaultRule(version), now, now, stored), reached);
    assert lines[0] == SupersessionLine(version);
  }

  /** The only rule, and a request to replace it that is rolled back. */
  function ReplacementRolledBack(): seq<Op> {
    [CreateRule(DefaultRule(0), 1, 1, true), CreateRule(DefaultRule(1), 3, 3, false)]
  }

  lemma NamedRuleEnds(ops: seq<Op>, reached: nat -> nat, v: int, t: int)
    requires 1 <= v <= |Run(CFG, ops).rules| && SupersessionLine(v) in Disk(CFG, ops, reached)
    ensures v <= |Rebuilt(CFG, ops, reached).rules| && !IsActiveAt(Rebuilt(CFG, ops, reached).rules[v - 1], t)
  {
    RebuiltRuleExact(CFG, ops, reached, v);
  }

  /** The rule is in force, and after a rebuild it never is. */
  lemma RolledBackReplacementEndsRule(reached: nat -> nat, t: int)
    requires reached(1) > 0 && t >= 1
    ensures Run(CFG, ReplacementRolledBack()).rules == [FirstRule()] && IsActiveAt(FirstRule(), t)
    ensures var back := Rebuilt(CFG, ReplacementRolledBack(), reached).rules; |back| >= 1 && !IsActiveAt(back[0], t)
  {
    var ops := ReplacementRolledBack();
    RunOfTwo(CFG, ops[0], ops[1]);
    FirstRuleCreated(CFG);
    SupersessionReached(Run(CFG, ops[..1]), 1, 3, false, reached(1));
    WrittenIsOnDisk(CFG, ops, reached, 1, SupersessionLine(1));
    NamedRuleEnds(ops, reached, 1, t);
  }

  /** A request that names a version not yet given, and a second one that gets it. */
  function NamedTooEarly(): seq<Op> {
    [CreateRule(DefaultRule(2), 1, 1, true), CreateRule(DefaultRule(0), 2, 2, true)]
  }

  lemma NamesNobody(cfg: Config)
    ensures Apply(EMPTY, cfg, CreateRule(DefaultRule(2), 1, 1, true)) == EMPTY.(rules := [FirstRule()])
  {
  }

  lemma SecondRuleCreated(cfg: Config)
    ensures Apply(EMPTY.(rules := [FirstRule()]), cfg, CreateRule(DefaultRule(0), 2, 2, true)).rules
            == [FirstRule(), FirstRule().(version := 2, effectiveFrom := 2)]
  {
    assert [FirstRule()][..0] == [];
    assert CurrentVersion([FirstRule()]) == 1;
  }

  lemma SecondIsInForce()
    ensures Run(CFG, NamedTooEarly()).rules == [FirstRule(), FirstRule().(version := 2, effectiveFrom := 2)]
  {
    RunOfTwo(CFG, NamedTooEarly()[0], NamedTooEarly()[1]);
    NamesNobody(CFG);
    SecondRuleCreated(CFG);
  }

  /** Nothing is rolled back, the second rule is in force, and after a rebuild it never is. */
  lemma RuleNamedTooEarlyEnds(reached: nat -> nat, t: int)
    requires t >= 2
    ensures var rules := Run(CFG, NamedTooEarly()).rules; |rules| == 2 && IsActiveAt(rules[1], t)
    ensures var back := Rebuilt(CFG, NamedTooEarly(), reached).rules; |back| >= 2 && !IsActiveAt(back[1], t)
  {
    var ops := NamedTooEarly();
    SecondIsInForce();
    SupersessionReached(Run(CFG, ops[..0]), 2, 1, true, reached(0));
    WrittenIsOnDisk(CFG, ops, reached, 0, SupersessionLine(2));
    NamedRuleEnds(ops, reached, 2, t);
  }
}

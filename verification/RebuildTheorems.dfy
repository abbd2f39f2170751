/** What a rebuild makes of the rules, and when the rebuilt tables satisfy what every operation
    keeps. */
module RebuildTheorems {
  import opened Common
  import opened Dispatch
  import opened Cases
  import opened CaseInvariants
  import opened CaseTheorems
  import opened CaseLog
  import opened CaseRebuild

  // ---------------------------------------------------------------- the rules

  lemma {:induction false} FiledMore(lines: seq<Line>, more: seq<Line>, r: Rule)
    requires forall l :: l in more && l.RuleLine? ==> l.rule == r
    requires 1 <= r.version <= |RulesOn(lines)| + 1
    ensures RulesOn(lines + more) == if RuleLine(r) in more then Filed(RulesOn(lines), r) else RulesOn(lines)
  {
    if more == [] {
      assert lines + more == lines;
    } else {
      var n := |more| - 1;
      assert more == more[..n] + [more[n]];
      assert (lines + more)[..|lines + more| - 1] == lines + more[..n];
      FiledMore(lines, more[..n], r);
    }
  }

  lemma {:induction false} SupersededAreMarked(rules: seq<Rule>, version: int, wallTime: int)
    ensures |SupersedeIn(rules, version, wallTime)| == |rules|
    ensures forall i :: 0 <= i < |rules| ==>
              SupersedeIn(rules, version, wallTime)[i]
              == if rules[i].version == version then rules[i].(status := RuleStatus.Superseded, effectiveTo := Some(wallTime)) else rules[i]
  {
    if rules != [] {
      SupersededAreMarked(rules[..|rules| - 1], version, wallTime);
    }
  }

  lemma {:induction false} NamedAreMarked(rules: seq<Rule>, lines: seq<Line>)
    ensures |MarkNamed(rules, lines)| == |rules|
    ensures forall i :: 0 <= i < |rules| ==>
              MarkNamed(rules, lines)[i]
              == if SupersessionLine(rules[i].version) in lines then rules[i].(status := RuleStatus.Superseded) else rules[i]
  {
    if rules != [] {
      NamedAreMarked(rules[..|rules| - 1], lines);
    }
  }

  /** A live rule is its creation line, or that line superseded, and then an audit line names it. */
  predicate LiveOf(live: Rule, created: Rule, lines: seq<Line>) {
    || live == created
    || (&& live == created.(status := RuleStatus.Superseded, effectiveTo := live.effectiveTo)
        && SupersessionLine(live.version) in lines)
  }

  /** The filed creation lines: one a version, none of them superseded. */
  ghost predicate Created(filed: seq<Rule>, lines: seq<Line>) {
    && Versioned(filed)
    && (forall i :: 0 <= i < |filed| ==> filed[i].status == RuleStatus.Active && filed[i].effectiveTo == None && RuleLine(filed[i]) in lines)
    && (forall l :: l in lines && l.RuleLine? ==> l.rule.version <= |filed|)
  }

  /** How the rule lines relate to the rule table: every version is there, and at most one
      more, created by a transaction that was rolled back. */
  ghost predicate RulesAccount(filed: seq<Rule>, lines: seq<Line>, live: seq<Rule>) {
    && |live| <= |filed| <= |live| + 1
    && Created(filed, lines)
    && (forall i :: 0 <= i < |live| ==> LiveOf(live[i], filed[i], lines))
  }

  lemma {:induction false} NoMoreRules(lines: seq<Line>, more: seq<Line>)
    requires forall l :: l in more ==> !l.RuleLine?
    ensures RulesOn(lines + more) == RulesOn(lines)
  {
    if more == [] {
      assert lines + more == lines;
    } else {
      var n := |more| - 1;
      assert more == more[..n] + [more[n]];
      assert (lines + more)[..|lines + more| - 1] == lines + more[..n];
      NoMoreRules(lines, more[..n]);
    }
  }

  lemma MoreLines(filed: seq<Rule>, lines: seq<Line>, more: seq<Line>, live: seq<Rule>)
    requires RulesAccount(filed, lines, live) && forall l :: l in more ==> !l.RuleLine?
    ensures RulesAccount(filed, lines + more, live)
  {
    assert forall i :: 0 <= i < |filed| ==> RuleLine(filed[i]) in lines + more;
  }

  lemma OneMoreCreated(filed: seq<Rule>, lines: seq<Line>, more: seq<Line>, r: Rule)
    requires Created(filed, lines) && RuleLine(r) in more && forall l :: l in more && l.RuleLine? ==> l.rule == r
    requires |filed| <= r.version <= |filed| + 1 && r.version >= 1 && r.status == RuleStatus.Active && r.effectiveTo == None
    ensures Created(Filed(filed, r), lines + more) && |Filed(filed, r)| == r.version
    ensures Filed(filed, r)[..r.version - 1] == filed[..r.version - 1] && Filed(filed, r)[r.version - 1] == r
  {
    assert forall i :: 0 <= i < |filed| ==> RuleLine(filed[i]) in lines + more;
  }

  /** The rule line of a transaction is written, but the transaction is rolled back. */
  lemma RolledBackRule(filed: seq<Rule>, lines: seq<Line>, more: seq<Line>, live: seq<Rule>, r: Rule)
    requires RulesAccount(filed, lines, live) && RuleLine(r) in more && forall l :: l in more && l.RuleLine? ==> l.rule == r
    requires r.version == |live| + 1 && r.status == RuleStatus.Active && r.effectiveTo == None
    ensures RulesAccount(Filed(filed, r), lines + more, live)
  {
    OneMoreCreated(filed, lines, more, r);
    forall i | 0 <= i < |live|
      ensures LiveOf(live[i], Filed(filed, r)[i], lines + more)
    {
      assert LiveOf(live[i], filed[i], lines);
      assert Filed(filed, r)[..|live|][i] == filed[..|live|][i];
    }
  }

  /** The transaction is stored. */
  lemma StoredRule(filed: seq<Rule>, lines: seq<Line>, more: seq<Line>, live: seq<Rule>, r: Rule, req: RuleRequest, wallTime: int)
    requires RulesAccount(filed, lines, live) && RuleLine(r) in more && forall l :: l in more && l.RuleLine? ==> l.rule == r
    requires r.version == |live| + 1 && r.status == RuleStatus.Active && r.effectiveTo == None
    requires req.supersedeVersion > 0 ==> SupersessionLine(req.supersedeVersion) in more
    ensures RulesAccount(Filed(filed, r), lines + more, (if req.supersedeVersion > 0 then SupersedeIn(live, req.supersedeVersion, wallTime) else live) + [r])
  {
    var after := (if req.supersedeVersion > 0 then SupersedeIn(live, req.supersedeVersion, wallTime) else live) + [r];
    SupersededAreMarked(live, req.supersedeVersion, wallTime);
    OneMoreCreated(filed, lines, more, r);
    forall i | 0 <= i < |after|
      ensures LiveOf(after[i], Filed(filed, r)[i], lines + more)
    {
      if i < |live| {
        assert LiveOf(live[i], filed[i], lines) && filed[i].version == live[i].version;
        assert Filed(filed, r)[..|live|][i] == filed[..|live|][i];
      }
    }
  }

  lemma StepRulesAccount(lines: seq<Line>, db: Db, cfg: Config, op: Op, reached: nat)
    requires RulesAccount(RulesOn(lines), lines, db.rules) && Versioned(db.rules)
    ensures var more := Written(db, cfg, op, reached);
            RulesAccount(RulesOn(lines + more), lines + more, Apply(db, cfg, op).rules)
  {
    var more := Written(db, cfg, op, reached);
    assert forall l :: l in more ==> l in Lines(db, cfg, op);
    if !op.CreateRule? || !ValidRule(op.rule) {
      NoMoreRules(lines, more);
      MoreLines(RulesOn(lines), lines, more, db.rules);
    } else {
      VersionsCountUp(db.rules);
      CreationStep(lines, db, op.rule, op.now, op.wallTime, op.stored, more);
    }
  }

  lemma CreationStep(lines: seq<Line>, db: Db, req: RuleRequest, now: int, wallTime: int, stored: bool, more: seq<Line>)
    requires RulesAccount(RulesOn(lines), lines, db.rules) && CurrentVersion(db.rules) == |db.rules|
    requires forall l :: l in more && l.RuleLine? ==> l.rule == NewRule(db.rules, req, now)
    requires stored ==> RuleLine(NewRule(db.rules, req, now)) in more && (req.supersedeVersion > 0 ==> SupersessionLine(req.supersedeVersion) in more)
    ensures RulesAccount(RulesOn(lines + more), lines + more, if stored then WithRule(db.rules, req, now, wallTime) else db.rules)
  {
    var r := NewRule(db.rules, req, now);
    FiledMore(lines, more, r);
    if stored {
      StoredRule(RulesOn(lines), lines, more, db.rules, r, req, wallTime);
    } else if RuleLine(r) in more {
      RolledBackRule(RulesOn(lines), lines, more, db.rules, r);
    } else {
      MoreLines(RulesOn(lines), lines, more, db.rules);
    }
  }

  lemma {:induction false} DiskRulesAccount(cfg: Config, ops: seq<Op>, reached: nat -> nat)
    ensures RulesAccount(RulesOn(Disk(cfg, ops, reached)), Disk(cfg, ops, reached), Run(cfg, ops).rules)
  {
    if ops != [] {
      var n := |ops| - 1;
      DiskRulesAccount(cfg, ops[..n], reached);
      RunKeeps(cfg, ops[..n]);
      StepRulesAccount(Disk(cfg, ops[..n], reached), Run(cfg, ops[..n]), cfg, ops[n], reached(n));
    }
  }

  lemma SameForce(live: Rule, back: Rule)
    requires back == live.(status := back.status, effectiveTo := None)
    requires back.status in {RuleStatus.Active, RuleStatus.Superseded} && live.status in {RuleStatus.Active, RuleStatus.Superseded}
    requires live.status == RuleStatus.Active ==> live.effectiveTo == None
    ensures (forall t :: IsActiveAt(back, t) <==> IsActiveAt(live, t)) <==> back.status == live.status
  {
    assert IsActiveAt(back, live.effectiveFrom) <==> back.status == RuleStatus.Active;
    assert IsActiveAt(live, live.effectiveFrom) <==> live.status == RuleStatus.Active;
  }

  /** A rebuilt rule has the contents of the live one but for the end of its validity, which is
      lost. It has the live status, and is in force at the same times, if and only if it is
      superseded or no audit line - stored or rolled back, before or after its creation - names
      its version. */
  lemma RebuiltRuleExact(cfg: Config, ops: seq<Op>, reached: nat -> nat, v: int)
    requires 1 <= v <= |Run(cfg, ops).rules|
    ensures v <= |Rebuilt(cfg, ops, reached).rules|
    ensures var live, back := Run(cfg, ops).rules[v - 1], Rebuilt(cfg, ops, reached).rules[v - 1];
            var named := SupersessionLine(v) in Disk(cfg, ops, reached);
            && back == live.(status := if named then RuleStatus.Superseded else RuleStatus.Active, effectiveTo := None)
            && (back.status == live.status <==> live.status == RuleStatus.Superseded || !named)
            && ((forall t :: IsActiveAt(back, t) <==> IsActiveAt(live, t)) <==> back.status == live.status)
  {
    var lines := Disk(cfg, ops, reached);
    var filed, live := RulesOn(lines), Run(cfg, ops).rules[v - 1];
    DiskRulesAccount(cfg, ops, reached);
    NamedAreMarked(filed, lines);
    assert filed[v - 1].version == v && LiveOf(live, filed[v - 1], lines);
    SameForce(live, Rebuilt(cfg, ops, reached).rules[v - 1]);
  }

  /** Step i of the run superseded rule v: it was stored, and the rule existed. */
  ghost predicate SupersededAt(cfg: Config, ops: seq<Op>, i: nat, v: int) {
    i < |ops| && Supersedes(ops[i], v) && v <= |Run(cfg, ops[..i]).rules|
  }

  predicate Supersedes(op: Op, v: int) {
    op.CreateRule? && ValidRule(op.rule) && op.stored && op.rule.supersedeVersion == v
  }

  lemma StepSupersedes(db: Db, cfg: Config, op: Op, v: int)
    requires Versioned(db.rules) && 1 <= v <= |Apply(db, cfg, op).rules|
    ensures Apply(db, cfg, op).rules[v - 1].status == RuleStatus.Superseded
            <==> v <= |db.rules| && (db.rules[v - 1].status == RuleStatus.Superseded || Supersedes(op, v))
  {
    if op.CreateRule? {
      SupersededAreMarked(db.rules, op.rule.supersedeVersion, op.wallTime);
    }
  }

  /** A live rule is superseded if and only if a stored request named it after its creation. */
  lemma {:induction false} SupersededExactly(cfg: Config, ops: seq<Op>, v: int)
    requires 1 <= v <= |Run(cfg, ops).rules|
    ensures Run(cfg, ops).rules[v - 1].status == RuleStatus.Superseded <==> exists i: nat :: SupersededAt(cfg, ops, i, v)
    decreases |ops|
  {
    var n := |ops| - 1;
    RunKeeps(cfg, ops[..n]);
    StepSupersedes(Run(cfg, ops[..n]), cfg, ops[n], v);
    forall i: nat
      ensures SupersededAt(cfg, ops, i, v)
              <==> if i < n then SupersededAt(cfg, ops[..n], i, v) else i == n && Supersedes(ops[n], v) && v <= |Run(cfg, ops[..n]).rules|
    {
      if i < n {
        assert ops[..n][..i] == ops[..i];
      }
    }
    assert SupersededAt(cfg, ops, n, v) <==> Supersedes(ops[n], v) && v <= |Run(cfg, ops[..n]).rules|;
    if v <= |Run(cfg, ops[..n]).rules| {
      SupersededExactly(cfg, ops[..n], v);
    } else {
      NeverSuperseded(cfg, ops[..n], v);
    }
  }

  lemma NeverSuperseded(cfg: Config, ops: seq<Op>, v: int)
    requires v > |Run(cfg, ops).rules|
    ensures forall i: nat :: !SupersededAt(cfg, ops, i, v)
  {
    forall i: nat | i < |ops|
      ensures !SupersededAt(cfg, ops, i, v)
    {
      RulesNeverShrink(cfg, ops, i);
    }
  }

  lemma StepNeverShrinks(db: Db, cfg: Config, op: Op)
    ensures |db.rules| <= |Apply(db, cfg, op).rules|
  {
    if op.CreateRule? {
      SupersededAreMarked(db.rules, op.rule.supersedeVersion, op.wallTime);
    }
  }

  lemma LastNeverShrinks(cfg: Config, ops: seq<Op>)
    requires ops != []
    ensures |Run(cfg, ops[..|ops| - 1]).rules| <= |Run(cfg, ops).rules|
  {
    StepNeverShrinks(Run(cfg, ops[..|ops| - 1]), cfg, ops[|ops| - 1]);
  }

  lemma {:induction false} RulesNeverShrink(cfg: Config, ops: seq<Op>, i: nat)
    requires i <= |ops|
    ensures |Run(cfg, ops[..i]).rules| <= |Run(cfg, ops).rules|
    decreases |ops|
  {
    if i == |ops| {
      assert ops[..i] == ops;
    } else {
      assert ops[..|ops| - 1][..i] == ops[..i];
      RulesNeverShrink(cfg, ops[..|ops| - 1], i);
      LastNeverShrinks(cfg, ops);
    }
  }

  /** A rebuild adds a rule that never was if and only if the creation line of a rolled-back
      transaction has the version that is next. */
  lemma StrayRuleExact(cfg: Config, ops: seq<Op>, reached: nat -> nat)
    ensures var live, back := Run(cfg, ops).rules, Rebuilt(cfg, ops, reached).rules;
            && |live| <= |back| <= |live| + 1
            && (|back| > |live| <==> exists r :: RuleLine(r) in Disk(cfg, ops, reached) && r.version == |live| + 1)
  {
    var lines := Disk(cfg, ops, reached);
    DiskRulesAccount(cfg, ops, reached);
    NamedAreMarked(RulesOn(lines), lines);
    var filed, n := RulesOn(lines), |Run(cfg, ops).rules|;
    if |filed| > n {
      assert RuleLine(filed[n]) in lines && filed[n].version == n + 1;
    }
    if r :| RuleLine(r) in lines && r.version == n + 1 {
      assert RuleLine(r).RuleLine?;
    }
  }

  // ---------------------------------------------------------------- the invariant

  lemma RebuiltRuleStarts(cfg: Config, ops: seq<Op>, reached: nat -> nat, i: nat)
    requires i < |Run(cfg, ops).rules|
    ensures i < |Rebuilt(cfg, ops, reached).rules| && Rebuilt(cfg, ops, reached).rules[i].effectiveFrom == Run(cfg, ops).rules[i].effectiveFrom
  {
    RebuiltRuleExact(cfg, ops, reached, i + 1);
  }

  lemma RebuiltRulesStart(cfg: Config, ops: seq<Op>, reached: nat -> nat)
    ensures var live, back := Run(cfg, ops).rules, Rebuilt(cfg, ops, reached).rules;
            |live| <= |back| && forall i :: 0 <= i < |live| ==> back[i].effectiveFrom == live[i].effectiveFrom
  {
    var live, back := Run(cfg, ops).rules, Rebuilt(cfg, ops, reached).rules;
    StrayRuleExact(cfg, ops, reached);
    forall i: nat | i < |live|
      ensures i < |back| && back[i].effectiveFrom == live[i].effectiveFrom
    {
      RebuiltRuleStarts(cfg, ops, reached, i);
    }
  }

  lemma RoutingRuleStays(c: Case, live: seq<Rule>, back: seq<Rule>)
    requires RuledFromTheStart(c, live)
    requires |live| <= |back| && forall i :: 0 <= i < |live| ==> back[i].effectiveFrom == live[i].effectiveFrom
    ensures RuledFromTheStart(c, back)
  {
  }

  lemma RebuiltCaseSound(cfg: Config, ops: seq<Op>, reached: nat -> nat, id: string)
    requires NewIDs(ops) && id in Rebuilt(cfg, ops, reached).cases
    ensures var after := Rebuilt(cfg, ops, reached);
            Sound(after.cases[id], Current(after.referrals, id), HistoryOf(after.escalations, id), after.rules, cfg)
            <==> RoutedOnce(Disk(cfg, ops, reached), id)
  {
    DiskAccounts(cfg, ops, reached, id);
    TrailOfTables(Disk(cfg, ops, reached), id);
    RebuiltRows(cfg, ops, reached, id);
    if RoutedOnce(Disk(cfg, ops, reached), id) {
      RebuiltRulesStart(cfg, ops, reached);
      RoutingRuleStays(Rebuilt(cfg, ops, reached).cases[id], Run(cfg, ops).rules, Rebuilt(cfg, ops, reached).rules);
    }
  }

  lemma NothingStrayRebuilt(cfg: Config, ops: seq<Op>, reached: nat -> nat)
    ensures NothingStray(Rebuilt(cfg, ops, reached)) && Versioned(Rebuilt(cfg, ops, reached).rules)
  {
    var after := Rebuilt(cfg, ops, reached);
    forall id | id !in after.cases
      ensures Current(after.referrals, id) == [] && HistoryOf(after.escalations, id) == []
    {
      DiskAccounts(cfg, ops, reached, id);
      RebuiltRows(cfg, ops, reached, id);
    }
    DiskRulesAccount(cfg, ops, reached);
    NamedAreMarked(RulesOn(Disk(cfg, ops, reached)), Disk(cfg, ops, reached));
  }

  /** The rebuilt tables satisfy what every operation keeps if and only if they are accepted, no
      reference being used twice, and the shard files hold one referral line and no escalation
      line of every case they hold, registered or not. */
  lemma RebuildKeepsExactly(cfg: Config, ops: seq<Op>, reached: nat -> nat)
    requires NewIDs(ops)
    ensures var after := Rebuilt(cfg, ops, reached);
            Invariant(after, cfg)
            <==> DistinctReferences(after) && forall id :: id in after.cases ==> RoutedOnce(Disk(cfg, ops, reached), id)
  {
    var after := Rebuilt(cfg, ops, reached);
    NothingStrayRebuilt(cfg, ops, reached);
    forall id | id in after.cases
      ensures Sound(after.cases[id], Current(after.referrals, id), HistoryOf(after.escalations, id), after.rules, cfg)
              <==> RoutedOnce(Disk(cfg, ops, reached), id)
    {
      RebuiltCaseSound(cfg, ops, reached, id);
    }
  }
}

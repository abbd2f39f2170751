/** Where the columns of a case and of a rule come from: in every run each is what the
    operation that set it last was given. */
module CaseRecords {
  import opened Common
  import opened Dispatch
  import opened Cases
  import opened CaseInvariants
  import opened CaseTheorems
  import opened CaseLaws

  // ---------------------------------------------------------------- contents

  datatype Contents = Contents(externalRef: string, details: string, category: string, keywords: seq<string>, registeredAt: int)

  function ContentsOf(c: Case): Contents {
    Contents(c.externalRef, c.details, c.category, c.keywords, c.registeredAt)
  }

  /** What a modification leaves of the contents: a field that is not given stays. */
  function Amended(before: Contents, changes: Changes): Contents {
    var Contents(ref, details, category, keywords, at) := before;
    Contents(ref, if changes.details == "" then details else changes.details,
             if changes.category == "" then category else changes.category,
             if changes.keywords.None? then keywords else changes.keywords.value, at)
  }

  /** The contents of a stored case, from its registration and the modifications since that were
      stored while it was not closed. */
  function Given(cfg: Config, ops: seq<Op>, id: string): Contents
    requires id in Run(cfg, ops).cases
    decreases |ops|
  {
    var before, op := ops[..|ops| - 1], ops[|ops| - 1];
    if id !in Run(cfg, before).cases then
      if op.Register? then Contents(op.req.externalRef, op.req.details, op.req.category, op.req.keywords, op.now) else Contents("", "", "", [], 0)
    else if op.Modify? && op.id == id && op.stored && Run(cfg, before).cases[id].status !in {Completed, Cancelled} then
      Amended(Given(cfg, before, id), op.changes)
    else Given(cfg, before, id)
  }

  lemma StepContents(db: Db, cfg: Config, op: Op, id: string)
    requires id in Apply(db, cfg, op).cases
    ensures var c := ContentsOf(Apply(db, cfg, op).cases[id]);
            if id !in db.cases then op.Register? && c == Contents(op.req.externalRef, op.req.details, op.req.category, op.req.keywords, op.now)
            else if op.Modify? && op.id == id && op.stored && db.cases[id].status !in {Completed, Cancelled} then
              c == Amended(ContentsOf(db.cases[id]), op.changes)
            else c == ContentsOf(db.cases[id])
  {
  }

  /** In every run the contents of a case are those of its request, as amended since. */
  lemma {:induction false} ContentsAreLastGiven(cfg: Config, ops: seq<Op>, id: string)
    requires id in Run(cfg, ops).cases
    ensures ContentsOf(Run(cfg, ops).cases[id]) == Given(cfg, ops, id)
    decreases |ops|
  {
    var n := |ops| - 1;
    StepContents(Run(cfg, ops[..n]), cfg, ops[n], id);
    if id in Run(cfg, ops[..n]).cases {
      ContentsAreLastGiven(cfg, ops[..n], id);
    }
  }

  // ---------------------------------------------------------------- closing

  /** The closing columns of a case agree with its status. */
  ghost predicate ClosedBy(c: Case, ops: seq<Op>, id: string) {
    match c.status
    case Completed => c.cancelledAt == None && c.cancelReason == "" && exists now :: c.completedAt == Some(now) && Act(id, Complete, now, true) in ops
    case Cancelled =>
      c.completedAt == None && exists now :: c.cancelledAt == Some(now) && Act(id, Cancel(c.cancelReason), now, true) in ops
    case _ => c.completedAt == None && c.cancelledAt == None && c.cancelReason == ""
  }

  lemma StepClosing(db: Db, cfg: Config, before: seq<Op>, op: Op, id: string)
    requires id in Apply(db, cfg, op).cases
    requires id in db.cases ==> ClosedBy(db.cases[id], before, id)
    ensures ClosedBy(Apply(db, cfg, op).cases[id], before + [op], id)
  {
    var c := Apply(db, cfg, op).cases[id];
    if id in db.cases && c == db.cases[id] {
      MoreOps(c, before, op, id);
    } else {
      StepTouchesOne(db, cfg, op, id);
      assert op in before + [op];
      if op.Modify? {
        ModifiedStaysOpen(db, cfg, op);
      }
    }
  }

  lemma ModifiedStaysOpen(db: Db, cfg: Config, op: Op)
    requires op.Modify? && op.id in db.cases && Apply(db, cfg, op).cases[op.id] != db.cases[op.id]
    ensures db.cases[op.id].status !in {Completed, Cancelled}
  {
  }

  lemma MoreOps(c: Case, before: seq<Op>, op: Op, id: string)
    requires ClosedBy(c, before, id)
    ensures ClosedBy(c, before + [op], id)
  {
    assert forall x :: x in before ==> x in before + [op];
  }

  /** In every run a completed case carries the time of a request that completed it, a cancelled
      one the time and reason of a request that cancelled it, and an open one neither. */
  lemma {:induction false} ClosingIsAsRequested(cfg: Config, ops: seq<Op>, id: string)
    requires id in Run(cfg, ops).cases
    ensures ClosedBy(Run(cfg, ops).cases[id], ops, id)
    decreases |ops|
  {
    var n := |ops| - 1;
    if id in Run(cfg, ops[..n]).cases {
      ClosingIsAsRequested(cfg, ops[..n], id);
    }
    StepClosing(Run(cfg, ops[..n]), cfg, ops[..n], ops[n], id);
    assert ops[..n] + [ops[n]] == ops;
  }

  // ---------------------------------------------------------------- rules

  /** The rule says what the request that created it said, and was in force from then on. */
  ghost predicate CreatedFrom(r: Rule, req: RuleRequest, now: int) {
    && r.category == req.category && r.keywords == req.keywords && r.lead == req.lead && r.co == req.co
    && r.priority == req.priority && r.isDefault == req.isDefault && r.effectiveFrom == now
  }

  /** What a rule says of its end: none while it is in force, else the time of a request that
      superseded it. */
  ghost predicate EndedBy(r: Rule, ops: seq<Op>) {
    match r.status
    case Active => r.effectiveTo == None
    case Superseded => exists req: RuleRequest, now: int, wallTime: int :: r.effectiveTo == Some(wallTime) && req.supersedeVersion == r.version && CreateRule(req, now, wallTime, true) in ops
    case Draft => false
  }

  /** A stored request created the rule as it is, and its end is as it was ended. */
  ghost predicate Recorded(r: Rule, ops: seq<Op>) {
    && (exists req: RuleRequest, now: int, wallTime: int :: CreatedFrom(r, req, now) && CreateRule(req, now, wallTime, true) in ops)
    && EndedBy(r, ops)
  }

  lemma StillRecorded(r: Rule, before: seq<Op>, op: Op)
    requires Recorded(r, before)
    ensures Recorded(r, before + [op])
  {
    assert forall x :: x in before ==> x in before + [op];
  }

  lemma NowSuperseded(r: Rule, after: Rule, before: seq<Op>, op: Op)
    requires Recorded(r, before) && op.CreateRule? && op.stored && op.rule.supersedeVersion == r.version
    requires after == r.(status := RuleStatus.Superseded, effectiveTo := Some(op.wallTime))
    ensures Recorded(after, before + [op])
  {
    StillRecorded(r, before, op);
    var req: RuleRequest, now: int, wallTime: int :| CreatedFrom(r, req, now) && CreateRule(req, now, wallTime, true) in before + [op];
    assert CreatedFrom(after, req, now);
    assert op in before + [op] && op == CreateRule(op.rule, op.now, op.wallTime, true);
  }

  lemma {:induction false} SupersededRows(rules: seq<Rule>, version: int, wallTime: int)
    ensures |SupersedeIn(rules, version, wallTime)| == |rules|
    ensures forall i :: 0 <= i < |rules| ==>
              SupersedeIn(rules, version, wallTime)[i]
              == if rules[i].version == version then rules[i].(status := RuleStatus.Superseded, effectiveTo := Some(wallTime)) else rules[i]
  {
    if rules != [] {
      SupersededRows(rules[..|rules| - 1], version, wallTime);
    }
  }

  lemma StepRecords(db: Db, cfg: Config, before: seq<Op>, op: Op, i: nat)
    requires forall k :: 0 <= k < |db.rules| ==> Recorded(db.rules[k], before)
    requires i < |Apply(db, cfg, op).rules|
    ensures Recorded(Apply(db, cfg, op).rules[i], before + [op])
  {
    if !op.CreateRule? || !ValidRule(op.rule) || !op.stored {
      StillRecorded(db.rules[i], before, op);
    } else {
      SupersededRows(db.rules, op.rule.supersedeVersion, op.wallTime);
      if i == |db.rules| {
        var r := Apply(db, cfg, op).rules[i];
        assert op in before + [op] && op == CreateRule(op.rule, op.now, op.wallTime, true);
        assert CreatedFrom(r, op.rule, op.now);
      } else if op.rule.supersedeVersion > 0 && db.rules[i].version == op.rule.supersedeVersion {
        NowSuperseded(db.rules[i], Apply(db, cfg, op).rules[i], before, op);
      } else {
        StillRecorded(db.rules[i], before, op);
      }
    }
  }

  lemma {:induction false} EveryRuleIsRecorded(cfg: Config, ops: seq<Op>)
    ensures forall i :: 0 <= i < |Run(cfg, ops).rules| ==> Recorded(Run(cfg, ops).rules[i], ops)
  {
    if ops != [] {
      var n := |ops| - 1;
      EveryRuleIsRecorded(cfg, ops[..n]);
      assert ops[..n] + [ops[n]] == ops;
      forall i: nat | i < |Run(cfg, ops).rules|
        ensures Recorded(Run(cfg, ops).rules[i], ops)
      {
        StepRecords(Run(cfg, ops[..n]), cfg, ops[..n], ops[n], i);
      }
    }
  }
}

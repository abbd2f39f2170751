/** What a rebuild of the index makes of the case tables: it inserts every line found, whether
    its transaction was stored or rolled back, and then clears the current flags of escalated
    cases and marks the rules that a supersession names. */
module CaseRebuild {
  import opened Common
  import opened Dispatch
  import opened Cases
  import opened CaseInvariants
  import opened CaseTheorems
  import opened CaseLog

  // ---------------------------------------------------------------- the rebuilt tables

  /** The collector: the last line of a case wins. */
  function ItemsOn(lines: seq<Line>): map<string, Case> {
    if lines == [] then map[]
    else
      var before, l := ItemsOn(lines[..|lines| - 1]), lines[|lines| - 1];
      if l.ItemLine? then before[l.id := l.c] else before
  }

  function ReferralsOn(lines: seq<Line>): seq<Referral> {
    if lines == [] then []
    else
      var before, l := ReferralsOn(lines[..|lines| - 1]), lines[|lines| - 1];
      if l.ReferralLine? then before + [l.r] else before
  }

  function EscalationsOn(lines: seq<Line>): seq<Escalation> {
    if lines == [] then []
    else
      var before, l := EscalationsOn(lines[..|lines| - 1]), lines[|lines| - 1];
      if l.EscalationLine? then before + [l.e] else before
  }

  /** The rule table in the order of versions, in which a line replaces the one of its version. */
  function Filed(rules: seq<Rule>, r: Rule): seq<Rule> {
    if 1 <= r.version <= |rules| then rules[r.version - 1 := r] else rules + [r]
  }

  function RulesOn(lines: seq<Line>): seq<Rule> {
    if lines == [] then []
    else
      var before, l := RulesOn(lines[..|lines| - 1]), lines[|lines| - 1];
      if l.RuleLine? then Filed(before, l.rule) else before
  }

  /** Clears the flags of the cases that have an escalation. */
  function ClearEscalated(referrals: seq<Referral>, escalations: seq<Escalation>): seq<Referral> {
    if referrals == [] then []
    else
      var r := referrals[|referrals| - 1];
      ClearEscalated(referrals[..|referrals| - 1], escalations)
      + [if HistoryOf(escalations, r.caseId) != [] then r.(current := false) else r]
  }

  /** Marks the rules that some audit line names as superseded. */
  function MarkNamed(rules: seq<Rule>, lines: seq<Line>): seq<Rule> {
    if rules == [] then []
    else
      var r := rules[|rules| - 1];
      MarkNamed(rules[..|rules| - 1], lines)
      + [if SupersessionLine(r.version) in lines then r.(status := RuleStatus.Superseded) else r]
  }

  function RebuiltFrom(lines: seq<Line>): Db {
    Db(ItemsOn(lines), ClearEscalated(ReferralsOn(lines), EscalationsOn(lines)), EscalationsOn(lines), MarkNamed(RulesOn(lines), lines))
  }

  function Rebuilt(cfg: Config, ops: seq<Op>, reached: nat -> nat): Db {
    RebuiltFrom(Disk(cfg, ops, reached))
  }

  // ---------------------------------------------------------------- one case

  /** All referrals of a case, current or not. */
  function ReferralsOf(referrals: seq<Referral>, id: string): seq<Referral> {
    if referrals == [] then []
    else
      var r, before := referrals[|referrals| - 1], ReferralsOf(referrals[..|referrals| - 1], id);
      if r.caseId == id then before + [r] else before
  }

  lemma {:induction false} TrailOfTables(lines: seq<Line>, id: string)
    ensures TrailOf(lines, id).referrals == ReferralsOf(ReferralsOn(lines), id)
    ensures TrailOf(lines, id).escalations == HistoryOf(EscalationsOn(lines), id)
    ensures TrailOf(lines, id).item == if id in ItemsOn(lines) then Some(ItemsOn(lines)[id]) else None
  {
    if lines != [] {
      TrailOfTables(lines[..|lines| - 1], id);
    }
  }

  lemma {:induction false} RebuiltCurrent(referrals: seq<Referral>, escalations: seq<Escalation>, id: string)
    requires forall r :: r in ReferralsOf(referrals, id) ==> r.current
    ensures Current(ClearEscalated(referrals, escalations), id)
            == if HistoryOf(escalations, id) == [] then ReferralsOf(referrals, id) else []
  {
    if referrals != [] {
      var n := |referrals| - 1;
      var before := ReferralsOf(referrals[..n], id);
      assert referrals[n].caseId == id ==> ReferralsOf(referrals, id) == before + [referrals[n]];
      RebuiltCurrent(referrals[..n], escalations, id);
      var cleared := ClearEscalated(referrals[..n], escalations);
      assert ClearEscalated(referrals, escalations)[..|cleared|] == cleared;
    }
  }

  /** The rows of a case after a rebuild, read off its lines. */
  lemma RebuiltRows(cfg: Config, ops: seq<Op>, reached: nat -> nat, id: string)
    ensures var t, after := TrailOf(Disk(cfg, ops, reached), id), Rebuilt(cfg, ops, reached);
            && Current(after.referrals, id) == (if t.escalations == [] then t.referrals else [])
            && HistoryOf(after.escalations, id) == t.escalations
            && (if id in after.cases then t.item == Some(after.cases[id]) else t.item == None)
  {
    var lines := Disk(cfg, ops, reached);
    DiskAccounts(cfg, ops, reached, id);
    TrailOfTables(lines, id);
    RebuiltCurrent(ReferralsOn(lines), EscalationsOn(lines), id);
  }

  /** The shard files hold one referral line of the case and no escalation line. */
  ghost predicate RoutedOnce(lines: seq<Line>, id: string) {
    |ReferralsOf(ReferralsOn(lines), id)| == 1 && HistoryOf(EscalationsOn(lines), id) == []
  }

  /** After a rebuild a case has its live current referral if and only if one referral line and
      no escalation line of it is on disk, stored or rolled back; it has one current referral in
      no other case; and it has none if and only if there is an escalation line. */
  lemma RebuiltCaseExact(cfg: Config, ops: seq<Op>, reached: nat -> nat, id: string)
    requires id in Run(cfg, ops).cases
    ensures var db, lines, current := Run(cfg, ops), Disk(cfg, ops, reached), Current(Rebuilt(cfg, ops, reached).referrals, id);
            && (current == Current(db.referrals, id) <==> RoutedOnce(lines, id))
            && (|current| == 1 <==> RoutedOnce(lines, id))
            && (current == [] <==> HistoryOf(EscalationsOn(lines), id) != [])
  {
    EverySoundCase(cfg, ops, id);
    DiskAccounts(cfg, ops, reached, id);
    TrailOfTables(Disk(cfg, ops, reached), id);
    RebuiltRows(cfg, ops, reached, id);
  }

  /** Step i began to route the case anew: it wrote a line, and was stored or rolled back. */
  ghost predicate ReroutedAt(cfg: Config, ops: seq<Op>, reached: nat -> nat, i: nat, id: string) {
    && i < |ops| && (ops[i].Escalate? || ops[i].Reevaluate?) && ops[i].id == id
    && Written(Run(cfg, ops[..i]), cfg, ops[i], reached(i)) != []
  }

  predicate Single(t: Trail) {
    |t.referrals| == 1 && t.escalations == []
  }

  lemma RoutingStartsWith(db: Db, cfg: Config, op: Op)
    requires op.Escalate? || op.Reevaluate?
    requires Lines(db, cfg, op) != []
    ensures var l := Lines(db, cfg, op)[0];
            op.id in db.cases && ((l.EscalationLine? && l.e.caseId == op.id) || (l.ReferralLine? && l.r.caseId == op.id))
  {
  }

  lemma RoutingEndsSingle(t: Trail, db: Db, cfg: Config, op: Op, reached: nat)
    requires op.Escalate? || op.Reevaluate?
    requires Accounts(t, db, cfg, op.id, true)
    ensures Written(db, cfg, op, reached) != [] ==> !Single(NoteAll(t, Written(db, cfg, op, reached), op.id))
  {
    var lines := Written(db, cfg, op, reached);
    if lines != [] {
      LinesSayCurrent(db, cfg, op);
      RoutingStartsWith(db, cfg, op);
      SingleEnds(t, lines, op.id);
    }
  }

  lemma SingleEnds(t: Trail, lines: seq<Line>, id: string)
    requires (forall r :: r in t.referrals ==> r.current) && t.referrals != [] && lines != []
    requires forall l :: l in lines && l.ReferralLine? ==> l.r.current
    requires var l := lines[0]; (l.EscalationLine? && l.e.caseId == id) || (l.ReferralLine? && l.r.caseId == id)
    ensures !Single(NoteAll(t, lines, id))
  {
    assert lines[..|lines|] == lines;
    NoteFirst(t, lines, |lines|, id);
    assert lines[0] in lines && forall l :: l in lines[1..|lines|] ==> l in lines;
    NoteGrows(Note(t, lines[0], id), lines[1..|lines|], id);
  }

  lemma UpdateKeepsSingle(t: Trail, db: Db, cfg: Config, op: Op, reached: nat)
    requires op.Act? || op.Modify?
    ensures Single(NoteAll(t, Written(db, cfg, op, reached), op.id)) <==> Single(t)
  {
    var lines := Lines(db, cfg, op);
    if lines != [] {
      assert lines[..|lines|] == lines;
      NoteItem(t, op.id, lines[0].c, if op.stored then |lines| else reached);
    }
  }

  lemma RegistrationIsSingle(db: Db, cfg: Config, op: Op, reached: nat)
    requires op.Register? && op.id !in db.cases && op.id in Apply(db, cfg, op).cases
    ensures Single(NoteAll(NO_TRAIL, Written(db, cfg, op, reached), op.id))
  {
    var lines := Lines(db, cfg, op);
    NoteRegistration(NO_TRAIL, op.id, lines[0].c, lines[1].r, 3);
  }

  lemma StepSingle(t: Trail, db: Db, cfg: Config, op: Op, reached: nat, id: string)
    requires Accounts(t, db, cfg, id, true) && id in Apply(db, cfg, op).cases
    requires op.Register? && op.id == id ==> t == NO_TRAIL
    ensures Single(NoteAll(t, Written(db, cfg, op, reached), id))
            <==> if id in db.cases then Single(t) && !((op.Escalate? || op.Reevaluate?) && op.id == id && Written(db, cfg, op, reached) != []) else true
  {
    if CaseOf(op) != Some(id) {
      OthersLeaveNoLine(db, cfg, op, id);
      assert forall l :: l in Written(db, cfg, op, reached) ==> l in Lines(db, cfg, op);
      NothingNoted(t, Written(db, cfg, op, reached), id);
      OtherCase(db, cfg, op, id);
    } else if op.Register? {
      RegistrationIsSingle(db, cfg, op, reached);
    } else if op.Act? || op.Modify? {
      UpdateKeepsSingle(t, db, cfg, op, reached);
    } else {
      RoutingEndsSingle(t, db, cfg, op, reached);
    }
  }

  lemma {:induction false} SingleExactly(cfg: Config, ops: seq<Op>, reached: nat -> nat, id: string)
    requires NewIDs(ops) && id in Run(cfg, ops).cases
    ensures Single(TrailOf(Disk(cfg, ops, reached), id)) <==> !exists i: nat :: ReroutedAt(cfg, ops, reached, i, id)
    decreases |ops|
  {
    var n := |ops| - 1;
    var db, op, t := Run(cfg, ops[..n]), ops[n], TrailOf(Disk(cfg, ops[..n], reached), id);
    DiskAccounts(cfg, ops[..n], reached, id);
    if op.Register? && op.id == id {
      NoTrailBefore(cfg, ops[..n], reached, id);
    }
    TrailGrows(cfg, ops, reached, id);
    StepSingle(t, db, cfg, op, reached(n), id);
    ReroutedEarlier(cfg, ops, reached, id);
    if id in db.cases {
      SingleExactly(cfg, ops[..n], reached, id);
    } else {
      NotReroutedBefore(cfg, ops[..n], reached, id);
    }
  }

  lemma ReroutedEarlier(cfg: Config, ops: seq<Op>, reached: nat -> nat, id: string)
    requires ops != []
    ensures var n := |ops| - 1;
            (exists i: nat :: ReroutedAt(cfg, ops, reached, i, id))
            <==> || (exists i: nat :: ReroutedAt(cfg, ops[..n], reached, i, id))
                 || ReroutedAt(cfg, ops, reached, n, id)
  {
    var n := |ops| - 1;
    forall i: nat | i < n
      ensures ReroutedAt(cfg, ops, reached, i, id) <==> ReroutedAt(cfg, ops[..n], reached, i, id)
    {
      assert ops[..n][..i] == ops[..i];
    }
  }

  lemma {:induction false} CasesStay(cfg: Config, ops: seq<Op>, i: nat)
    requires i <= |ops|
    ensures Run(cfg, ops[..i]).cases.Keys <= Run(cfg, ops).cases.Keys
    decreases |ops|
  {
    if i == |ops| {
      assert ops[..i] == ops;
    } else {
      assert ops[..|ops| - 1][..i] == ops[..i];
      CasesStay(cfg, ops[..|ops| - 1], i);
      LastKeepsCases(cfg, ops);
    }
  }

  lemma LastKeepsCases(cfg: Config, ops: seq<Op>)
    requires ops != []
    ensures Run(cfg, ops[..|ops| - 1]).cases.Keys <= Run(cfg, ops).cases.Keys
  {
    StepKeepsCases(Run(cfg, ops[..|ops| - 1]), cfg, ops[|ops| - 1]);
  }

  lemma StepKeepsCases(db: Db, cfg: Config, op: Op)
    ensures db.cases.Keys <= Apply(db, cfg, op).cases.Keys
  {
  }

  lemma NotReroutedBefore(cfg: Config, ops: seq<Op>, reached: nat -> nat, id: string)
    requires id !in Run(cfg, ops).cases
    ensures !exists i: nat :: ReroutedAt(cfg, ops, reached, i, id)
  {
    forall i: nat | i < |ops|
      ensures !ReroutedAt(cfg, ops, reached, i, id)
    {
      CasesStay(cfg, ops, i);
    }
  }

  /** The lines of a stored case are as RoutedOnce asks if and only if no transaction that was to
      escalate or re-route it ever wrote a line. */
  lemma RoutedOnceExactly(cfg: Config, ops: seq<Op>, reached: nat -> nat, id: string)
    requires NewIDs(ops) && id in Run(cfg, ops).cases
    ensures RoutedOnce(Disk(cfg, ops, reached), id) <==> !exists i: nat :: ReroutedAt(cfg, ops, reached, i, id)
  {
    SingleExactly(cfg, ops, reached, id);
    TrailOfTables(Disk(cfg, ops, reached), id);
  }

  // ---------------------------------------------------------------- lines of a run

  lemma DiskOfNext(cfg: Config, ops: seq<Op>, reached: nat -> nat, l: Line)
    requires ops != []
    ensures var n := |ops| - 1;
            l in Disk(cfg, ops, reached) <==> l in Disk(cfg, ops[..n], reached) || l in Written(Run(cfg, ops[..n]), cfg, ops[n], reached(n))
  {
  }

  lemma {:induction false} WrittenIsOnDisk(cfg: Config, ops: seq<Op>, reached: nat -> nat, i: nat, l: Line)
    requires i < |ops| && l in Written(Run(cfg, ops[..i]), cfg, ops[i], reached(i))
    ensures l in Disk(cfg, ops, reached)
    decreases |ops|
  {
    DiskOfNext(cfg, ops, reached, l);
    if i < |ops| - 1 {
      assert ops[..|ops| - 1][..i] == ops[..i];
      WrittenIsOnDisk(cfg, ops[..|ops| - 1], reached, i, l);
    }
  }

  lemma {:induction false} EscalationLineCounts(lines: seq<Line>, e: Escalation)
    requires EscalationLine(e) in lines
    ensures HistoryOf(EscalationsOn(lines), e.caseId) != []
  {
    var n := |lines| - 1;
    assert lines == lines[..n] + [lines[n]];
    if lines[n] != EscalationLine(e) {
      EscalationLineCounts(lines[..n], e);
    }
  }

  /** A case that was ever escalated has no current referral after a rebuild. */
  lemma EscalatedCaseLosesReferral(cfg: Config, ops: seq<Op>, reached: nat -> nat, id: string)
    requires id in Run(cfg, ops).cases && Run(cfg, ops).cases[id].level > 0
    ensures |Current(Run(cfg, ops).referrals, id)| == 1 && Current(Rebuilt(cfg, ops, reached).referrals, id) == []
  {
    EverySoundCase(cfg, ops, id);
    DiskAccounts(cfg, ops, reached, id);
    RebuiltRows(cfg, ops, reached, id);
  }
}

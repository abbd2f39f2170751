/** The lines the case services leave in the shard files, rolled back transactions included,
    and what these lines tell of one case. */
module CaseLog {
  import opened Common
  import opened Dispatch
  import opened Cases
  import opened CaseInvariants

  datatype Line =
    | ItemLine(id: string, c: Case)
    | ReferralLine(r: Referral)
    | EscalationLine(e: Escalation)
    | RuleLine(rule: Rule)
    | SupersessionLine(version: int)
    | AuditLine

  /** The lines of the transaction of an operation, in the order it writes them; none if the
      operation fails before it begins one. Saving a case under an ID that is taken is refused
      after its line is written. Clearing the flags of old referrals writes no line. */
  function Lines(db: Db, cfg: Config, op: Op): seq<Line> {
    match op
    case Register(id, req, now, _) =>
      var rule := Best(ActiveRules(db.rules, now), Subject(req.category, req.keywords, now));
      if !ValidRequest(req) || HasRef(db, req.externalRef) || rule.None? then []
      else
        var c := NewCase(cfg, req, rule.value, now);
        if id in db.cases then [ItemLine(id, c)] else [ItemLine(id, c), ReferralLine(ReferralFor(id, c, now, "system")), AuditLine]
    case Act(id, action, now, _) =>
      if id !in db.cases || !Allowed(db.cases[id], action) then [] else [ItemLine(id, Acted(db.cases[id], action, now)), AuditLine]
    case Modify(id, changes, now, _) =>
      if id !in db.cases || IsTerminal(db.cases[id].status) then [] else [ItemLine(id, Modified(db.cases[id], changes, now)), AuditLine]
    case CreateRule(req, now, _, _) =>
      if !ValidRule(req) then []
      else (if req.supersedeVersion > 0 then [SupersessionLine(req.supersedeVersion)] else []) + [RuleLine(NewRule(db.rules, req, now)), AuditLine]
    case Escalate(id, now, _) =>
      if id !in db.cases || !Selected(db.cases[id], cfg, now) || !Admits(db.cases[id]) then []
      else
        var c, e := db.cases[id], EscalatedCase(db.cases[id], cfg, now);
        [EscalationLine(EscalationOf(id, c, cfg, now)), ReferralLine(ReferralFor(id, e, now, "system_escalation")), ItemLine(id, e), AuditLine]
    case Reevaluate(id, at, now, _) =>
      if id !in db.cases then []
      else
        var rule := NewRouting(db.cases[id], ActiveRules(db.rules, at), CurrentVersion(db.rules));
        if rule.None? then []
        else
          var c := Rerouted(db.cases[id], rule.value, now);
          [ReferralLine(ReferralFor(id, c, now, "system")), ItemLine(id, c), AuditLine]
  }

  /** A stored transaction has written all its lines, a rolled back one those it reached. */
  function Written(db: Db, cfg: Config, op: Op, reached: nat): seq<Line> {
    var lines := Lines(db, cfg, op);
    if op.stored || |lines| <= reached then lines else lines[..reached]
  }

  /** All lines on disk after a run, in the order they were appended. reached(i) is the number
      of lines operation i writes if it is rolled back. */
  function Disk(cfg: Config, ops: seq<Op>, reached: nat -> nat): seq<Line> {
    if ops == [] then []
    else
      var n := |ops| - 1;
      Disk(cfg, ops[..n], reached) + Written(Run(cfg, ops[..n]), cfg, ops[n], reached(n))
  }

  // ---------------------------------------------------------------- the trail of one case

  // The referral and escalation lines of a case and the newest of its item lines.
  datatype Trail = Trail(referrals: seq<Referral>, escalations: seq<Escalation>, item: Option<Case>)

  const NO_TRAIL := Trail([], [], None)

  function Note(t: Trail, line: Line, id: string): Trail {
    match line
    case ItemLine(x, c) => if x == id then t.(item := Some(c)) else t
    case ReferralLine(r) => if r.caseId == id then t.(referrals := t.referrals + [r]) else t
    case EscalationLine(e) => if e.caseId == id then t.(escalations := t.escalations + [e]) else t
    case _ => t
  }

  function NoteAll(t: Trail, lines: seq<Line>, id: string): Trail {
    if lines == [] then t else Note(NoteAll(t, lines[..|lines| - 1], id), lines[|lines| - 1], id)
  }

  function TrailOf(lines: seq<Line>, id: string): Trail {
    NoteAll(NO_TRAIL, lines, id)
  }

  lemma {:induction false} NoteMore(t: Trail, lines: seq<Line>, more: seq<Line>, id: string)
    ensures NoteAll(t, lines + more, id) == NoteAll(NoteAll(t, lines, id), more, id)
  {
    if more == [] {
      assert lines + more == lines;
    } else {
      NoteMore(t, lines, more[..|more| - 1], id);
      assert (lines + more)[..|lines + more| - 1] == lines + more[..|more| - 1];
    }
  }

  lemma NoteNext(t: Trail, lines: seq<Line>, k: nat, id: string)
    requires k < |lines|
    ensures NoteAll(t, lines[..k + 1], id) == Note(NoteAll(t, lines[..k], id), lines[k], id)
  {
    assert lines[..k + 1][..k] == lines[..k];
  }

  function CaseOf(op: Op): Option<string> {
    if op.CreateRule? then None else Some(op.id)
  }

  lemma OthersLeaveNoLine(db: Db, cfg: Config, op: Op, id: string)
    requires CaseOf(op) != Some(id)
    ensures forall l, t :: l in Lines(db, cfg, op) ==> Note(t, l, id) == t
  {
  }

  lemma {:induction false} NothingNoted(t: Trail, lines: seq<Line>, id: string)
    requires forall l, t :: l in lines ==> Note(t, l, id) == t
    ensures NoteAll(t, lines, id) == t
  {
    if lines != [] {
      NothingNoted(t, lines[..|lines| - 1], id);
      assert lines[|lines| - 1] in lines;
    }
  }

  // ---------------------------------------------------------------- what the trail says of the tables

  /** How the trail of a case relates to its rows. once: no ID is ever given to two cases. */
  ghost predicate Accounts(t: Trail, db: Db, cfg: Config, id: string, once: bool) {
    && (forall r :: r in t.referrals ==> r.current)
    && (t.item.None? ==> t == NO_TRAIL && id !in db.cases)
    && (id in db.cases ==> t.referrals != [])
    && (id in db.cases && t.escalations == [] ==> HistoryOf(db.escalations, id) == [])
    && (|t.referrals| == 1 && t.escalations == [] ==>
          && (id in db.cases ==> t.referrals == Current(db.referrals, id))
          && (once ==> t.item.Some? && Sound(t.item.value, t.referrals, [], db.rules, cfg)))
  }

  // ---------------------------------------------------------------- what each kind of step leaves

  lemma {:induction false} NoteFirst(t: Trail, lines: seq<Line>, k: nat, id: string)
    requires 0 < k <= |lines|
    ensures NoteAll(t, lines[..k], id) == NoteAll(Note(t, lines[0], id), lines[1..k], id)
  {
    assert lines[..k] == [lines[0]] + lines[1..k];
    NoteMore(t, [lines[0]], lines[1..k], id);
    assert [lines[0]][..0] == [];
  }

  /** A trail with an escalation line or a second referral line promises no more. */
  lemma OverwrittenAccounts(t: Trail, db: Db, cfg: Config, id: string, once: bool)
    requires forall r :: r in t.referrals ==> r.current
    requires t.item.Some? && t.referrals != []
    requires t.escalations != [] || (|t.referrals| > 1 && HistoryOf(db.escalations, id) == [])
    ensures Accounts(t, db, cfg, id, once)
  {
  }

  lemma UpdatedAccounts(t: Trail, db: Db, cfg: Config, id: string, c: Case, once: bool)
    requires Invariant(db, cfg) && Accounts(t, db, cfg, id, once) && id in db.cases
    requires SameStanding(db.cases[id], c) && LifecycleSound(c, cfg)
    ensures Accounts(t.(item := Some(c)), db, cfg, id, once)
    ensures Accounts(t.(item := Some(c)), db.(cases := db.cases[id := c]), cfg, id, once)
  {
    StandingKeepsSound(db.cases[id], c, Current(db.referrals, id), HistoryOf(db.escalations, id), db.rules, cfg);
  }

  /** A new case, its item line written, then its referral line. */
  lemma RegisteredAccounts(t: Trail, db: Db, cfg: Config, id: string, req: Request, now: int, once: bool)
    requires Invariant(db, cfg) && Accounts(t, db, cfg, id, once) && id !in db.cases && (once ==> t == NO_TRAIL)
    requires RegisterError(db, id, req, now, true).None? && !HasRef(db, req.externalRef)
    ensures var after := AfterRegister(db, cfg, id, req, now, true);
            var c := after.cases[id];
            var item, all := t.(item := Some(c)), t.(item := Some(c), referrals := t.referrals + [ReferralFor(id, c, now, "system")]);
            && Accounts(item, db, cfg, id, once)
            && Accounts(all, db, cfg, id, once)
            && Accounts(all, after, cfg, id, once)
  {
    var after := AfterRegister(db, cfg, id, req, now, true);
    RegisterKeeps(db, cfg, id, req, now, true);
    CurrentOfAppend(db.referrals, ReferralFor(id, after.cases[id], now, "system"), id);
    assert Sound(after.cases[id], Current(after.referrals, id), HistoryOf(after.escalations, id), after.rules, cfg);
  }

  lemma {:induction false} NoteGrows(t: Trail, lines: seq<Line>, id: string)
    requires forall l :: l in lines && l.ReferralLine? ==> l.r.current
    requires forall r :: r in t.referrals ==> r.current
    ensures var u := NoteAll(t, lines, id);
            && |t.referrals| <= |u.referrals| && |t.escalations| <= |u.escalations| && (t.item.Some? ==> u.item.Some?)
            && forall r :: r in u.referrals ==> r.current
  {
    if lines != [] {
      assert lines == lines[..|lines| - 1] + [lines[|lines| - 1]];
      NoteGrows(t, lines[..|lines| - 1], id);
    }
  }

  lemma LinesSayCurrent(db: Db, cfg: Config, op: Op)
    ensures forall l :: l in Lines(db, cfg, op) && l.ReferralLine? ==> l.r.current
  {
  }

  /** The trail after the first k lines of a transaction. */
  function NoteSome(t: Trail, lines: seq<Line>, k: nat, id: string): Trail {
    NoteAll(t, if k < |lines| then lines[..k] else lines, id)
  }

  lemma NoteItem(t: Trail, id: string, c: Case, k: nat)
    ensures NoteSome(t, [ItemLine(id, c), AuditLine], k, id) == if k == 0 then t else t.(item := Some(c))
  {
    var lines := [ItemLine(id, c), AuditLine];
    assert lines[..0] == [] && lines[..2] == lines;
    NoteNext(t, lines, 0, id);
    NoteNext(t, lines, 1, id);
  }

  lemma NoteRegistration(t: Trail, id: string, c: Case, r: Referral, k: nat)
    requires r.caseId == id
    ensures NoteSome(t, [ItemLine(id, c), ReferralLine(r), AuditLine], k, id)
            == if k == 0 then t else if k == 1 then t.(item := Some(c)) else t.(item := Some(c), referrals := t.referrals + [r])
  {
    var lines := [ItemLine(id, c), ReferralLine(r), AuditLine];
    assert lines[..0] == [] && lines[..3] == lines;
    NoteNext(t, lines, 0, id);
    NoteNext(t, lines, 1, id);
    NoteNext(t, lines, 2, id);
  }

  lemma UpdateLines(t: Trail, db: Db, cfg: Config, id: string, c: Case, k: nat, once: bool)
    requires Invariant(db, cfg) && Accounts(t, db, cfg, id, once) && id in db.cases
    requires SameStanding(db.cases[id], c) && LifecycleSound(c, cfg)
    ensures Accounts(NoteSome(t, [ItemLine(id, c), AuditLine], k, id), db, cfg, id, once)
    ensures k >= 2 ==> Accounts(NoteSome(t, [ItemLine(id, c), AuditLine], k, id), db.(cases := db.cases[id := c]), cfg, id, once)
  {
    NoteItem(t, id, c, k);
    UpdatedAccounts(t, db, cfg, id, c, once);
  }

  /** A transaction that begins with a further referral line or an escalation line. */
  lemma OverwritingLines(t: Trail, db: Db, after: Db, cfg: Config, id: string, lines: seq<Line>, k: nat, once: bool)
    requires Invariant(db, cfg) && Accounts(t, db, cfg, id, once) && id in db.cases && k > 0 && lines != []
    requires forall l :: l in lines && l.ReferralLine? ==> l.r.current
    requires var l := lines[0];
             || (l.EscalationLine? && l.e.caseId == id)
             || (l.ReferralLine? && l.r.caseId == id && HistoryOf(after.escalations, id) == [])
    ensures Accounts(NoteSome(t, lines, k, id), after, cfg, id, once)
  {
    var n := if k < |lines| then k else |lines|;
    assert lines[..|lines|] == lines;
    NoteFirst(t, lines, n, id);
    assert forall l :: l in lines[1..n] ==> l in lines;
    assert lines[0] in lines;
    NoteGrows(Note(t, lines[0], id), lines[1..n], id);
    OverwrittenAccounts(NoteSome(t, lines, k, id), after, cfg, id, once);
  }

  // ---------------------------------------------------------------- every step and every run

  lemma RegistrationStep(t: Trail, db: Db, cfg: Config, op: Op, k: nat, once: bool)
    requires op.Register? && Invariant(db, cfg) && Accounts(t, db, cfg, op.id, once) && (once ==> t == NO_TRAIL)
    requires op.stored ==> k >= |Lines(db, cfg, op)|
    ensures Accounts(NoteSome(t, Lines(db, cfg, op), k, op.id), Apply(db, cfg, op), cfg, op.id, once)
  {
    var lines := Lines(db, cfg, op);
    if lines == [] {
    } else if op.id in db.cases {
      assert lines[..0] == [] && lines[..1] == lines;
      NoteNext(t, lines, 0, op.id);
    } else {
      RegisteredAccounts(t, db, cfg, op.id, op.req, op.now, once);
      NoteRegistration(t, op.id, lines[0].c, lines[1].r, k);
    }
  }

  lemma ActedIsSound(db: Db, cfg: Config, id: string, action: Action, now: int)
    requires Invariant(db, cfg) && id in db.cases && Allowed(db.cases[id], action)
    ensures SameStanding(db.cases[id], Acted(db.cases[id], action, now)) && LifecycleSound(Acted(db.cases[id], action, now), cfg)
  {
    assert Sound(db.cases[id], Current(db.referrals, id), HistoryOf(db.escalations, id), db.rules, cfg);
  }

  lemma ModifiedIsSound(db: Db, cfg: Config, id: string, changes: Changes, now: int)
    requires Invariant(db, cfg) && id in db.cases
    ensures SameStanding(db.cases[id], Modified(db.cases[id], changes, now)) && LifecycleSound(Modified(db.cases[id], changes, now), cfg)
  {
    assert Sound(db.cases[id], Current(db.referrals, id), HistoryOf(db.escalations, id), db.rules, cfg);
  }

  lemma UpdateStep(t: Trail, db: Db, cfg: Config, op: Op, k: nat, once: bool)
    requires (op.Act? || op.Modify?) && Invariant(db, cfg) && Accounts(t, db, cfg, op.id, once)
    requires op.stored ==> k >= |Lines(db, cfg, op)|
    ensures Accounts(NoteSome(t, Lines(db, cfg, op), k, op.id), Apply(db, cfg, op), cfg, op.id, once)
  {
    var lines := Lines(db, cfg, op);
    if lines != [] {
      if op.Act? {
        ActedIsSound(db, cfg, op.id, op.action, op.now);
      } else {
        ModifiedIsSound(db, cfg, op.id, op.changes, op.now);
      }
      UpdateLines(t, db, cfg, op.id, lines[0].c, k, once);
    }
  }

  lemma RoutingStep(t: Trail, db: Db, cfg: Config, op: Op, k: nat, once: bool)
    requires (op.Escalate? || op.Reevaluate?) && Invariant(db, cfg) && Accounts(t, db, cfg, op.id, once)
    requires op.stored ==> k >= |Lines(db, cfg, op)|
    ensures Accounts(NoteSome(t, Lines(db, cfg, op), k, op.id), Apply(db, cfg, op), cfg, op.id, once)
  {
    var lines, after := Lines(db, cfg, op), Apply(db, cfg, op);
    if lines != [] && k > 0 {
      var c := db.cases[op.id];
      assert Sound(c, Current(db.referrals, op.id), HistoryOf(db.escalations, op.id), db.rules, cfg);
      LinesSayCurrent(db, cfg, op);
      OverwritingLines(t, db, after, cfg, op.id, lines, k, once);
    }
  }

  lemma OwnStep(t: Trail, db: Db, cfg: Config, op: Op, reached: nat, id: string, once: bool)
    requires CaseOf(op) == Some(id) && Invariant(db, cfg) && Accounts(t, db, cfg, id, once)
    requires once && op.Register? ==> t == NO_TRAIL
    ensures Accounts(NoteAll(t, Written(db, cfg, op, reached), id), Apply(db, cfg, op), cfg, id, once)
  {
    var k := if op.stored then |Lines(db, cfg, op)| else reached;
    if op.Register? {
      RegistrationStep(t, db, cfg, op, k, once);
    } else if op.Act? || op.Modify? {
      UpdateStep(t, db, cfg, op, k, once);
    } else {
      RoutingStep(t, db, cfg, op, k, once);
    }
  }

  /** An operation on another case, or on the rules. */
  lemma OtherCase(db: Db, cfg: Config, op: Op, id: string)
    requires CaseOf(op) != Some(id)
    ensures var after := Apply(db, cfg, op);
            && (id in after.cases <==> id in db.cases)
            && Current(after.referrals, id) == Current(db.referrals, id)
            && HistoryOf(after.escalations, id) == HistoryOf(db.escalations, id)
  {
    var after := Apply(db, cfg, op);
    if after != db {
      match op
      case Register(x, _, now, _) => CurrentOfAppend(db.referrals, ReferralFor(x, after.cases[x], now, "system"), id);
      case Escalate(x, now, _) =>
        RoutedCurrent(db, x, after.cases[x], now, "system_escalation", id);
        HistoryOfAppend(db.escalations, EscalationOf(x, db.cases[x], cfg, now), id);
      case Reevaluate(x, _, now, _) => RoutedCurrent(db, x, after.cases[x], now, "system", id);
      case _ =>
    }
  }

  lemma RulesStay(db: Db, cfg: Config, op: Op, c: Case)
    requires RuledFromTheStart(c, db.rules)
    ensures RuledFromTheStart(c, Apply(db, cfg, op).rules)
  {
    if op.CreateRule? {
      SupersedeKeeps(db.rules, op.rule.supersedeVersion, op.wallTime);
    }
  }

  lemma OtherStep(t: Trail, db: Db, cfg: Config, op: Op, reached: nat, id: string, once: bool)
    requires CaseOf(op) != Some(id) && Accounts(t, db, cfg, id, once)
    ensures Accounts(NoteAll(t, Written(db, cfg, op, reached), id), Apply(db, cfg, op), cfg, id, once)
  {
    OthersLeaveNoLine(db, cfg, op, id);
    assert forall l :: l in Written(db, cfg, op, reached) ==> l in Lines(db, cfg, op);
    NothingNoted(t, Written(db, cfg, op, reached), id);
    OtherCase(db, cfg, op, id);
    if t.item.Some? && RuledFromTheStart(t.item.value, db.rules) {
      RulesStay(db, cfg, op, t.item.value);
    }
  }

  lemma TrailGrows(cfg: Config, ops: seq<Op>, reached: nat -> nat, id: string)
    requires ops != []
    ensures var n := |ops| - 1;
            TrailOf(Disk(cfg, ops, reached), id)
            == NoteAll(TrailOf(Disk(cfg, ops[..n], reached), id), Written(Run(cfg, ops[..n]), cfg, ops[n], reached(n)), id)
  {
    var n := |ops| - 1;
    NoteMore(NO_TRAIL, Disk(cfg, ops[..n], reached), Written(Run(cfg, ops[..n]), cfg, ops[n], reached(n)), id);
  }

  ghost predicate NeverRegistered(ops: seq<Op>, id: string) {
    forall op :: op in ops && op.Register? ==> op.id != id
  }

  lemma NoTrailStep(db: Db, cfg: Config, op: Op, reached: nat, id: string)
    requires id !in db.cases && !(op.Register? && op.id == id)
    ensures NoteAll(NO_TRAIL, Written(db, cfg, op, reached), id) == NO_TRAIL && id !in Apply(db, cfg, op).cases
  {
    if CaseOf(op) != Some(id) {
      OthersLeaveNoLine(db, cfg, op, id);
      assert forall l :: l in Written(db, cfg, op, reached) ==> l in Lines(db, cfg, op);
      NothingNoted(NO_TRAIL, Written(db, cfg, op, reached), id);
      OtherCase(db, cfg, op, id);
    }
  }

  lemma {:induction false} NoTrailBefore(cfg: Config, ops: seq<Op>, reached: nat -> nat, id: string)
    requires NeverRegistered(ops, id)
    ensures TrailOf(Disk(cfg, ops, reached), id) == NO_TRAIL && id !in Run(cfg, ops).cases
  {
    if ops != [] {
      var n := |ops| - 1;
      assert ops == ops[..n] + [ops[n]];
      NoTrailBefore(cfg, ops[..n], reached, id);
      TrailGrows(cfg, ops, reached, id);
      NoTrailStep(Run(cfg, ops[..n]), cfg, ops[n], reached(n), id);
    }
  }

  /** Every registration makes up a new ID. */
  ghost predicate NewIDs(ops: seq<Op>) {
    forall i, j :: 0 <= i < j < |ops| && ops[i].Register? && ops[j].Register? ==> ops[i].id != ops[j].id
  }

  /** In every run, whatever was rolled back and however far it had come, the lines of a case
      account for its rows. */
  lemma {:induction false} DiskAccounts(cfg: Config, ops: seq<Op>, reached: nat -> nat, id: string)
    ensures Accounts(TrailOf(Disk(cfg, ops, reached), id), Run(cfg, ops), cfg, id, NewIDs(ops))
  {
    if ops != [] {
      var n := |ops| - 1;
      var db, op, t := Run(cfg, ops[..n]), ops[n], TrailOf(Disk(cfg, ops[..n], reached), id);
      DiskAccounts(cfg, ops[..n], reached, id);
      RunKeeps(cfg, ops[..n]);
      TrailGrows(cfg, ops, reached, id);
      AccountsLess(t, db, cfg, id, NewIDs(ops[..n]), NewIDs(ops));
      if CaseOf(op) == Some(id) {
        if NewIDs(ops) && op.Register? {
          NoTrailBefore(cfg, ops[..n], reached, id);
        }
        OwnStep(t, db, cfg, op, reached(n), id, NewIDs(ops));
      } else {
        OtherStep(t, db, cfg, op, reached(n), id, NewIDs(ops));
      }
    }
  }

  lemma AccountsLess(t: Trail, db: Db, cfg: Config, id: string, more: bool, less: bool)
    requires Accounts(t, db, cfg, id, more) && (less ==> more)
    ensures Accounts(t, db, cfg, id, less)
  {
  }
}

/** When a rebuild gives back the rows themselves: of cases, escalations and referrals. Without
    rollbacks it does; a line that a rolled-back transaction left is what it stumbles over. */
module RebuildRows {
  import opened Common
  import opened Dispatch
  import opened Cases
  import opened CaseInvariants
  import opened CaseLog
  import opened CaseRebuild

  // ---------------------------------------------------------------- the newest line of a case

  /** What the item lines of one transaction say of a case. */
  function ItemIn(lines: seq<Line>, id: string): Option<Case> {
    NoteAll(NO_TRAIL, lines, id).item
  }

  // The newest item line of a case, and whether its transaction was stored.
  datatype Newest = Newest(c: Case, stored: bool)

  function NewestItem(cfg: Config, ops: seq<Op>, reached: nat -> nat, id: string): Option<Newest> {
    if ops == [] then None
    else
      var n := |ops| - 1;
      var item := ItemIn(Written(Run(cfg, ops[..n]), cfg, ops[n], reached(n)), id);
      if item.Some? then Some(Newest(item.value, ops[n].stored)) else NewestItem(cfg, ops[..n], reached, id)
  }

  lemma {:induction false} NewerItem(t: Trail, lines: seq<Line>, id: string)
    ensures NoteAll(t, lines, id).item == if ItemIn(lines, id).Some? then ItemIn(lines, id) else t.item
  {
    if lines != [] {
      NewerItem(t, lines[..|lines| - 1], id);
    }
  }

  lemma {:induction false} NewestIsRebuilt(cfg: Config, ops: seq<Op>, reached: nat -> nat, id: string)
    ensures var newest, item := NewestItem(cfg, ops, reached, id), TrailOf(Disk(cfg, ops, reached), id).item;
            if newest.Some? then item == Some(newest.value.c) else item == None
  {
    if ops != [] {
      var n := |ops| - 1;
      NewestIsRebuilt(cfg, ops[..n], reached, id);
      TrailGrows(cfg, ops, reached, id);
      NewerItem(TrailOf(Disk(cfg, ops[..n], reached), id), Written(Run(cfg, ops[..n]), cfg, ops[n], reached(n)), id);
    }
  }

  lemma OthersSayNothing(db: Db, cfg: Config, op: Op, reached: nat, id: string)
    requires CaseOf(op) != Some(id)
    ensures ItemIn(Written(db, cfg, op, reached), id) == None
  {
    OthersLeaveNoLine(db, cfg, op, id);
    assert forall l :: l in Written(db, cfg, op, reached) ==> l in Lines(db, cfg, op);
    NothingNoted(NO_TRAIL, Written(db, cfg, op, reached), id);
  }

  lemma ItemOfUpdate(id: string, c: Case)
    ensures ItemIn([ItemLine(id, c), AuditLine], id) == Some(c)
  {
    NoteItem(NO_TRAIL, id, c, 2);
  }

  lemma ItemOfRegistration(id: string, c: Case, r: Referral)
    requires r.caseId == id
    ensures ItemIn([ItemLine(id, c), ReferralLine(r), AuditLine], id) == Some(c)
  {
    NoteRegistration(NO_TRAIL, id, c, r, 3);
  }

  /** The last two lines of a routing transaction. */
  lemma ItemAtTheEnd(before: seq<Line>, id: string, c: Case)
    ensures ItemIn(before + [ItemLine(id, c), AuditLine], id) == Some(c)
  {
    NoteMore(NO_TRAIL, before, [ItemLine(id, c), AuditLine], id);
    NewerItem(NoteAll(NO_TRAIL, before, id), [ItemLine(id, c), AuditLine], id);
    ItemOfUpdate(id, c);
  }

  /** The row a stored transaction writes is what its item line says. */
  lemma StoredItemIsRow(db: Db, cfg: Config, op: Op, id: string)
    requires CaseOf(op) == Some(id) && op.stored && (op.Register? ==> id !in db.cases)
    ensures var item, after := ItemIn(Lines(db, cfg, op), id), Apply(db, cfg, op);
            if item.Some? then id in after.cases && after.cases[id] == item.value
            else after.cases == db.cases
  {
    var lines := Lines(db, cfg, op);
    if lines != [] {
      match op
      case Register(_, _, _, _) => ItemOfRegistration(id, lines[0].c, lines[1].r);
      case Act(_, _, _, _) => ItemOfUpdate(id, lines[0].c);
      case Modify(_, _, _, _) => ItemOfUpdate(id, lines[0].c);
      case Escalate(_, _, _) =>
        assert lines == [lines[0], lines[1]] + [ItemLine(id, lines[2].c), AuditLine];
        ItemAtTheEnd([lines[0], lines[1]], id, lines[2].c);
      case Reevaluate(_, _, _, _) =>
        assert lines == [lines[0]] + [ItemLine(id, lines[1].c), AuditLine];
        ItemAtTheEnd([lines[0]], id, lines[1].c);
    }
  }

  lemma StepNewest(db: Db, cfg: Config, op: Op, reached: nat, id: string)
    requires op.Register? && op.id == id ==> id !in db.cases
    ensures var item, after := ItemIn(Written(db, cfg, op, reached), id), Apply(db, cfg, op);
            && (item.Some? && op.stored ==> id in after.cases && after.cases[id] == item.value)
            && (!(item.Some? && op.stored) ==> (id in after.cases <==> id in db.cases) && (id in db.cases ==> after.cases[id] == db.cases[id]))
  {
    if CaseOf(op) != Some(id) {
      OthersSayNothing(db, cfg, op, reached, id);
      RowsOfOthersStay(db, cfg, op, id);
    } else if op.stored {
      StoredItemIsRow(db, cfg, op, id);
    }
  }

  lemma RowsOfOthersStay(db: Db, cfg: Config, op: Op, id: string)
    requires CaseOf(op) != Some(id)
    ensures var after := Apply(db, cfg, op);
            (id in after.cases <==> id in db.cases) && (id in db.cases ==> after.cases[id] == db.cases[id])
  {
  }

  /** A stored newest line is the live row, and every live row has a line. */
  lemma {:induction false} NewestAndLive(cfg: Config, ops: seq<Op>, reached: nat -> nat, id: string)
    requires NewIDs(ops)
    ensures var newest, db := NewestItem(cfg, ops, reached, id), Run(cfg, ops);
            && (newest.Some? && newest.value.stored ==> id in db.cases && db.cases[id] == newest.value.c)
            && (id in db.cases ==> newest.Some?)
    decreases |ops|
  {
    if ops != [] {
      var n := |ops| - 1;
      NewestAndLive(cfg, ops[..n], reached, id);
      if ops[n].Register? && ops[n].id == id {
        NoTrailBefore(cfg, ops[..n], reached, id);
      }
      StepNewest(Run(cfg, ops[..n]), cfg, ops[n], reached(n), id);
    }
  }

  /** A rebuild gives a case its live row back if and only if the newest line of the case was
      stored or says the same; and it brings a case that is not stored if and only if a line of
      it is left. */
  lemma RebuiltRowExact(cfg: Config, ops: seq<Op>, reached: nat -> nat, id: string)
    requires NewIDs(ops)
    ensures var db, after, newest := Run(cfg, ops), Rebuilt(cfg, ops, reached), NewestItem(cfg, ops, reached, id);
            && (id in db.cases ==> id in after.cases && newest.Some?
                                   && (after.cases[id] == db.cases[id] <==> newest.value.stored || newest.value.c == db.cases[id]))
            && (id !in db.cases ==> (id in after.cases <==> newest.Some?) && (newest.Some? ==> !newest.value.stored))
  {
    NewestIsRebuilt(cfg, ops, reached, id);
    NewestAndLive(cfg, ops, reached, id);
    RebuiltRows(cfg, ops, reached, id);
  }

  // ---------------------------------------------------------------- escalations and referrals

  lemma {:induction false} EscalationsOfMore(lines: seq<Line>, more: seq<Line>)
    ensures EscalationsOn(lines + more) == EscalationsOn(lines) + EscalationsOn(more)
  {
    if more == [] {
      assert lines + more == lines;
    } else {
      assert (lines + more)[..|lines + more| - 1] == lines + more[..|more| - 1];
      EscalationsOfMore(lines, more[..|more| - 1]);
    }
  }

  lemma {:induction false} ReferralsOfMore(lines: seq<Line>, more: seq<Line>)
    ensures ReferralsOn(lines + more) == ReferralsOn(lines) + ReferralsOn(more)
  {
    if more == [] {
      assert lines + more == lines;
    } else {
      assert (lines + more)[..|lines + more| - 1] == lines + more[..|more| - 1];
      ReferralsOfMore(lines, more[..|more| - 1]);
    }
  }

  /** Every referral as it was when it was stored. */
  function AllCurrent(referrals: seq<Referral>): seq<Referral> {
    if referrals == [] then [] else AllCurrent(referrals[..|referrals| - 1]) + [referrals[|referrals| - 1].(current := true)]
  }

  lemma {:induction false} SupersededIsAllCurrent(referrals: seq<Referral>, id: string)
    ensures AllCurrent(MarkSuperseded(referrals, id)) == AllCurrent(referrals)
  {
    if referrals != [] {
      SupersededIsAllCurrent(referrals[..|referrals| - 1], id);
      var before := MarkSuperseded(referrals[..|referrals| - 1], id);
      assert MarkSuperseded(referrals, id)[..|before|] == before;
    }
  }

  lemma AllCurrentOfAppend(referrals: seq<Referral>, r: Referral)
    requires r.current
    ensures AllCurrent(referrals + [r]) == AllCurrent(referrals) + [r]
  {
    assert (referrals + [r])[..|referrals|] == referrals;
  }

  lemma OneLine(l: Line)
    ensures EscalationsOn([l]) == if l.EscalationLine? then [l.e] else []
    ensures ReferralsOn([l]) == if l.ReferralLine? then [l.r] else []
  {
    assert [l][..0] == [];
  }

  lemma FirstLine(lines: seq<Line>)
    requires lines != []
    ensures EscalationsOn(lines) == EscalationsOn([lines[0]]) + EscalationsOn(lines[1..])
    ensures ReferralsOn(lines) == ReferralsOn([lines[0]]) + ReferralsOn(lines[1..])
  {
    assert lines == [lines[0]] + lines[1..];
    EscalationsOfMore([lines[0]], lines[1..]);
    ReferralsOfMore([lines[0]], lines[1..]);
  }

  lemma {:induction false} PlainLines(lines: seq<Line>)
    requires forall l :: l in lines ==> !l.EscalationLine? && !l.ReferralLine?
    ensures EscalationsOn(lines) == [] && ReferralsOn(lines) == []
  {
    if lines != [] {
      assert forall l :: l in lines[..|lines| - 1] ==> l in lines;
      assert lines[|lines| - 1] in lines;
      PlainLines(lines[..|lines| - 1]);
    }
  }

  lemma RoutingAdds(db: Db, id: string, c: Case, at: int, author: string)
    ensures AllCurrent(Route(db, id, c, at, author).referrals) == AllCurrent(db.referrals) + [ReferralFor(id, c, at, author)]
  {
    SupersededIsAllCurrent(db.referrals, id);
    AllCurrentOfAppend(MarkSuperseded(db.referrals, id), ReferralFor(id, c, at, author));
  }

  lemma RegistrationLines(db: Db, cfg: Config, op: Op)
    requires op.Register? && op.stored && |Lines(db, cfg, op)| == 3
    ensures var lines, after := Lines(db, cfg, op), Apply(db, cfg, op);
            && after.escalations == db.escalations + EscalationsOn(lines)
            && AllCurrent(after.referrals) == AllCurrent(db.referrals) + ReferralsOn(lines)
  {
    var lines := Lines(db, cfg, op);
    RowsOfThree(lines[0].id, lines[0].c, lines[1].r);
    AllCurrentOfAppend(db.referrals, lines[1].r);
  }

  lemma RowsOfThree(id: string, c: Case, r: Referral)
    ensures EscalationsOn([ItemLine(id, c), ReferralLine(r), AuditLine]) == [] && ReferralsOn([ItemLine(id, c), ReferralLine(r), AuditLine]) == [r]
  {
    var lines := [ItemLine(id, c), ReferralLine(r), AuditLine];
    OneLine(lines[0]);
    FirstLine(lines);
    OneLine(lines[1..][0]);
    FirstLine(lines[1..]);
    PlainLines(lines[1..][1..]);
  }

  lemma ReevaluationLines(db: Db, cfg: Config, op: Op)
    requires op.Reevaluate? && op.stored && Lines(db, cfg, op) != []
    ensures var lines, after := Lines(db, cfg, op), Apply(db, cfg, op);
            && after.escalations == db.escalations + EscalationsOn(lines)
            && AllCurrent(after.referrals) == AllCurrent(db.referrals) + ReferralsOn(lines)
  {
    var lines := Lines(db, cfg, op);
    RowsOfRerouting(op.id, lines[1].c, lines[0].r);
    RoutingAdds(db, op.id, lines[1].c, op.now, "system");
  }

  lemma RowsOfRerouting(id: string, c: Case, r: Referral)
    ensures EscalationsOn([ReferralLine(r), ItemLine(id, c), AuditLine]) == [] && ReferralsOn([ReferralLine(r), ItemLine(id, c), AuditLine]) == [r]
  {
    var lines := [ReferralLine(r), ItemLine(id, c), AuditLine];
    OneLine(lines[0]);
    FirstLine(lines);
    PlainLines(lines[1..]);
  }

  /** Transactions without a referral or an escalation. */
  lemma OtherLines(db: Db, cfg: Config, op: Op)
    requires op.stored && Lines(db, cfg, op) != [] ==> !op.Escalate? && !op.Reevaluate? && (op.Register? ==> |Lines(db, cfg, op)| != 3)
    ensures op.stored ==> EscalationsOn(Lines(db, cfg, op)) == [] && ReferralsOn(Lines(db, cfg, op)) == []
    ensures op.stored ==> Apply(db, cfg, op).escalations == db.escalations && Apply(db, cfg, op).referrals == db.referrals
  {
    if op.stored {
      PlainLines(Lines(db, cfg, op));
    }
  }

  /** A stored transaction adds to the tables the escalations and referrals of its lines. */
  lemma StoredLinesAreRows(db: Db, cfg: Config, op: Op)
    requires op.stored
    ensures var lines, after := Lines(db, cfg, op), Apply(db, cfg, op);
            && after.escalations == db.escalations + EscalationsOn(lines)
            && AllCurrent(after.referrals) == AllCurrent(db.referrals) + ReferralsOn(lines)
  {
    if op.Register? && |Lines(db, cfg, op)| == 3 {
      RegistrationLines(db, cfg, op);
    } else if op.Escalate? && Lines(db, cfg, op) != [] {
      EscalationLines(db, cfg, op);
    } else if op.Reevaluate? && Lines(db, cfg, op) != [] {
      ReevaluationLines(db, cfg, op);
    } else {
      OtherLines(db, cfg, op);
    }
  }

  lemma EscalationLines(db: Db, cfg: Config, op: Op)
    requires op.Escalate? && op.stored && Lines(db, cfg, op) != []
    ensures var lines, after := Lines(db, cfg, op), Apply(db, cfg, op);
            && after.escalations == db.escalations + EscalationsOn(lines)
            && AllCurrent(after.referrals) == AllCurrent(db.referrals) + ReferralsOn(lines)
  {
    var lines := Lines(db, cfg, op);
    RowsOfEscalation(op.id, lines[2].c, lines[0].e, lines[1].r);
    RoutingAdds(db, op.id, lines[2].c, op.now, "system_escalation");
  }

  lemma RowsOfEscalation(id: string, c: Case, e: Escalation, r: Referral)
    ensures EscalationsOn([EscalationLine(e), ReferralLine(r), ItemLine(id, c), AuditLine]) == [e]
    ensures ReferralsOn([EscalationLine(e), ReferralLine(r), ItemLine(id, c), AuditLine]) == [r]
  {
    var lines := [EscalationLine(e), ReferralLine(r), ItemLine(id, c), AuditLine];
    OneLine(lines[0]);
    FirstLine(lines);
    OneLine(lines[1..][0]);
    FirstLine(lines[1..]);
    PlainLines(lines[1..][1..]);
  }

  /** Step i was rolled back after it had written a line of the kind. */
  ghost predicate StrayEscalation(cfg: Config, ops: seq<Op>, reached: nat -> nat, i: nat) {
    i < |ops| && !ops[i].stored && EscalationsOn(Written(Run(cfg, ops[..i]), cfg, ops[i], reached(i))) != []
  }

  ghost predicate StrayReferral(cfg: Config, ops: seq<Op>, reached: nat -> nat, i: nat) {
    i < |ops| && !ops[i].stored && ReferralsOn(Written(Run(cfg, ops[..i]), cfg, ops[i], reached(i))) != []
  }

  ghost predicate AnyStrayEscalation(cfg: Config, ops: seq<Op>, reached: nat -> nat) {
    exists i: nat :: StrayEscalation(cfg, ops, reached, i)
  }

  ghost predicate AnyStrayReferral(cfg: Config, ops: seq<Op>, reached: nat -> nat) {
    exists i: nat :: StrayReferral(cfg, ops, reached, i)
  }

  lemma StrayEscalationEarlier(cfg: Config, ops: seq<Op>, reached: nat -> nat, i: nat)
    requires i < |ops| - 1
    ensures StrayEscalation(cfg, ops, reached, i) == StrayEscalation(cfg, ops[..|ops| - 1], reached, i)
  {
    assert ops[..|ops| - 1][..i] == ops[..i];
  }

  lemma StrayReferralEarlier(cfg: Config, ops: seq<Op>, reached: nat -> nat, i: nat)
    requires i < |ops| - 1
    ensures StrayReferral(cfg, ops, reached, i) == StrayReferral(cfg, ops[..|ops| - 1], reached, i)
  {
    assert ops[..|ops| - 1][..i] == ops[..i];
  }

  lemma OneMoreIndex(p: nat -> bool, q: nat -> bool, n: nat)
    requires forall i: nat :: p(i) == if i < n then q(i) else i == n && p(n)
    requires forall i: nat :: i >= n ==> !q(i)
    ensures (exists i: nat :: p(i)) <==> (exists i: nat :: q(i)) || p(n)
  {
  }

  lemma NextStrayEscalation(cfg: Config, ops: seq<Op>, reached: nat -> nat)
    requires ops != []
    ensures var n := |ops| - 1;
            AnyStrayEscalation(cfg, ops, reached) <==> AnyStrayEscalation(cfg, ops[..n], reached) || StrayEscalation(cfg, ops, reached, n)
  {
    var n := |ops| - 1;
    var p, q := (i: nat) => StrayEscalation(cfg, ops, reached, i), (i: nat) => StrayEscalation(cfg, ops[..n], reached, i);
    forall i: nat
      ensures p(i) == if i < n then q(i) else i == n && p(n)
    {
      if i < n {
        StrayEscalationEarlier(cfg, ops, reached, i);
      }
    }
    OneMoreIndex(p, q, n);
    assert forall i: nat :: p(i) == StrayEscalation(cfg, ops, reached, i) && q(i) == StrayEscalation(cfg, ops[..n], reached, i);
  }

  lemma NextStrayReferral(cfg: Config, ops: seq<Op>, reached: nat -> nat)
    requires ops != []
    ensures var n := |ops| - 1;
            AnyStrayReferral(cfg, ops, reached) <==> AnyStrayReferral(cfg, ops[..n], reached) || StrayReferral(cfg, ops, reached, n)
  {
    var n := |ops| - 1;
    var p, q := (i: nat) => StrayReferral(cfg, ops, reached, i), (i: nat) => StrayReferral(cfg, ops[..n], reached, i);
    forall i: nat
      ensures p(i) == if i < n then q(i) else i == n && p(n)
    {
      if i < n {
        StrayReferralEarlier(cfg, ops, reached, i);
      }
    }
    OneMoreIndex(p, q, n);
    assert forall i: nat :: p(i) == StrayReferral(cfg, ops, reached, i) && q(i) == StrayReferral(cfg, ops[..n], reached, i);
  }

  /** The rows on record, and those on disk after some were added: none lost, and the same if
      and only if none are stray. */
  ghost predicate SameUnless<T(!new)>(live: seq<T>, onDisk: seq<T>, stray: bool) {
    |live| <= |onDisk| && (live == onDisk <==> !stray) && (|live| == |onDisk| ==> live == onDisk)
  }

  lemma BothGrow<T(!new)>(live: seq<T>, onDisk: seq<T>, stray: bool, more: seq<T>)
    requires SameUnless(live, onDisk, stray)
    ensures SameUnless(live + more, onDisk + more, stray)
    ensures SameUnless(live, onDisk + more, stray || more != [])
  {
    assert live + more == onDisk + more && |live| == |onDisk| ==> live == (live + more)[..|live|] == (onDisk + more)[..|live|] == onDisk;
  }

  lemma StepRows(db: Db, cfg: Config, op: Op, reached: nat, lines: seq<Line>, strayE: bool, strayR: bool)
    requires SameUnless(db.escalations, EscalationsOn(lines), strayE)
    requires SameUnless(AllCurrent(db.referrals), ReferralsOn(lines), strayR)
    ensures var more, after := Written(db, cfg, op, reached), Apply(db, cfg, op);
            && SameUnless(after.escalations, EscalationsOn(lines + more), strayE || (!op.stored && EscalationsOn(more) != []))
            && SameUnless(AllCurrent(after.referrals), ReferralsOn(lines + more), strayR || (!op.stored && ReferralsOn(more) != []))
  {
    var more := Written(db, cfg, op, reached);
    EscalationsOfMore(lines, more);
    ReferralsOfMore(lines, more);
    BothGrow(db.escalations, EscalationsOn(lines), strayE, EscalationsOn(more));
    BothGrow(AllCurrent(db.referrals), ReferralsOn(lines), strayR, ReferralsOn(more));
    if op.stored {
      StoredLinesAreRows(db, cfg, op);
    }
  }

  lemma {:induction false} DiskRows(cfg: Config, ops: seq<Op>, reached: nat -> nat)
    ensures SameUnless(Run(cfg, ops).escalations, EscalationsOn(Disk(cfg, ops, reached)), AnyStrayEscalation(cfg, ops, reached))
    ensures SameUnless(AllCurrent(Run(cfg, ops).referrals), ReferralsOn(Disk(cfg, ops, reached)), AnyStrayReferral(cfg, ops, reached))
    decreases |ops|
  {
    if ops != [] {
      var n := |ops| - 1;
      DiskRows(cfg, ops[..n], reached);
      NextStrayEscalation(cfg, ops, reached);
      NextStrayReferral(cfg, ops, reached);
      StepRows(Run(cfg, ops[..n]), cfg, ops[n], reached(n), Disk(cfg, ops[..n], reached),
               AnyStrayEscalation(cfg, ops[..n], reached), AnyStrayReferral(cfg, ops[..n], reached));
    }
  }

  /** A rebuild gives the escalations back, and collects the referrals that were stored, if and
      only if no rolled-back transaction had written one. */
  lemma RebuiltHistoryExact(cfg: Config, ops: seq<Op>, reached: nat -> nat)
    ensures Rebuilt(cfg, ops, reached).escalations == Run(cfg, ops).escalations <==> !exists i: nat :: StrayEscalation(cfg, ops, reached, i)
    ensures ReferralsOn(Disk(cfg, ops, reached)) == AllCurrent(Run(cfg, ops).referrals) <==> !exists i: nat :: StrayReferral(cfg, ops, reached, i)
  {
    DiskRows(cfg, ops, reached);
  }

  lemma {:induction false} AllNewestStored(cfg: Config, ops: seq<Op>, reached: nat -> nat, id: string)
    requires forall op :: op in ops ==> op.stored
    ensures NewestItem(cfg, ops, reached, id).Some? ==> NewestItem(cfg, ops, reached, id).value.stored
  {
    if ops != [] {
      assert ops == ops[..|ops| - 1] + [ops[|ops| - 1]];
      AllNewestStored(cfg, ops[..|ops| - 1], reached, id);
    }
  }

  /** Where nothing was ever rolled back, a rebuild gives back every case and every escalation,
      and collects every referral as it was stored. */
  lemma RebuildRestoresRows(cfg: Config, ops: seq<Op>, reached: nat -> nat)
    requires NewIDs(ops) && forall op :: op in ops ==> op.stored
    ensures Rebuilt(cfg, ops, reached).cases == Run(cfg, ops).cases
    ensures Rebuilt(cfg, ops, reached).escalations == Run(cfg, ops).escalations
    ensures ReferralsOn(Disk(cfg, ops, reached)) == AllCurrent(Run(cfg, ops).referrals)
  {
    forall id
      ensures id in Rebuilt(cfg, ops, reached).cases <==> id in Run(cfg, ops).cases
      ensures id in Run(cfg, ops).cases ==> Rebuilt(cfg, ops, reached).cases[id] == Run(cfg, ops).cases[id]
    {
      RebuiltRowExact(cfg, ops, reached, id);
      AllNewestStored(cfg, ops, reached, id);
    }
    RebuiltHistoryExact(cfg, ops, reached);
  }
}

/** The case tables and what one stored operation does to them. Every operation is one
    transaction: it is stored as a whole or not at all. Times are instants. */
module Cases {
  import opened Common
  import opened Dispatch

  datatype Status = Registered | Adjudicated | InProgress | Returned | Escalated | Completed | Cancelled

  predicate IsTerminal(s: Status) {
    s == Completed || s == Cancelled
  }

  function TransitionTable(from: Status): set<Status> {
    match from
    case Registered => {Adjudicated, Cancelled, Returned}
    case Adjudicated => {InProgress, Cancelled, Returned, Escalated}
    case InProgress => {Completed, Cancelled, Escalated}
    case Returned => {Registered, Cancelled}
    case Escalated => {InProgress, Completed, Cancelled}
    case Completed => {}
    case Cancelled => {}
  }

  /** Staying in a status is always valid. */
  predicate ValidTransition(from: Status, to: Status) {
    from == to || to in TransitionTable(from)
  }

  // details stands for the descriptive columns no operation here depends on.
  datatype Case = Case(
    externalRef: string, details: string, category: string, keywords: seq<string>,
    status: Status, lead: string, co: seq<string>, ruleVersion: int,
    registeredAt: int, deadline: int, level: int,
    completedAt: Option<int>, cancelledAt: Option<int>, cancelReason: string, updatedAt: int)

  datatype Referral = Referral(caseId: string, lead: string, co: seq<string>, ruleVersion: int, at: int, author: string, current: bool)

  datatype Escalation = Escalation(caseId: string, fromLevel: int, toLevel: int, oldLead: string, newLead: string, at: int, newDeadline: int)

  datatype Db = Db(cases: map<string, Case>, referrals: seq<Referral>, escalations: seq<Escalation>, rules: seq<Rule>)

  datatype Config = Config(deadline: int, extension: int, maxLevel: int)

  datatype Error = NotFound | Invalid | BadTransition | NoMatchingRule | AlreadyCompleted | Storage | MaxEscalation

  const EMPTY := Db(map[], [], [], [])

  function SubjectOf(c: Case): Subject {
    Subject(c.category, c.keywords, c.registeredAt)
  }

  predicate IsOverdue(c: Case, now: int) {
    !IsTerminal(c.status) && now > c.deadline
  }

  function EscalationDepartmentName(base: string, level: int): string {
    if level <= 0 then base else base + "-supervisor-l" + Decimal(level)
  }

  // ---------------------------------------------------------------- table writes

  /** Clears the current flags: the case keeps its referrals but none is current. */
  function MarkSuperseded(referrals: seq<Referral>, id: string): seq<Referral> {
    if referrals == [] then []
    else
      var r := referrals[|referrals| - 1];
      MarkSuperseded(referrals[..|referrals| - 1], id) + [if r.caseId == id then r.(current := false) else r]
  }

  /** The current referrals of a case, oldest first. */
  function Current(referrals: seq<Referral>, id: string): seq<Referral> {
    if referrals == [] then []
    else
      var r, before := referrals[|referrals| - 1], Current(referrals[..|referrals| - 1], id);
      if r.caseId == id && r.current then before + [r] else before
  }

  /** The escalations of a case, oldest first. */
  function HistoryOf(escalations: seq<Escalation>, id: string): seq<Escalation> {
    if escalations == [] then []
    else
      var e, before := escalations[|escalations| - 1], HistoryOf(escalations[..|escalations| - 1], id);
      if e.caseId == id then before + [e] else before
  }

  // ---------------------------------------------------------------- rules

  function CurrentVersion(rules: seq<Rule>): int {
    if rules == [] then 0
    else
      var before, v := CurrentVersion(rules[..|rules| - 1]), rules[|rules| - 1].version;
      if v > before then v else before
  }

  function ActiveRules(rules: seq<Rule>, at: int): seq<Rule> {
    if rules == [] then []
    else
      var r, before := rules[|rules| - 1], ActiveRules(rules[..|rules| - 1], at);
      if IsActiveAt(r, at) then before + [r] else before
  }

  /** SupersedeRule: a version that does not exist is not an error. */
  function SupersedeIn(rules: seq<Rule>, version: int, wallTime: int): seq<Rule> {
    if rules == [] then []
    else
      var r := rules[|rules| - 1];
      SupersedeIn(rules[..|rules| - 1], version, wallTime)
      + [if r.version == version then r.(status := RuleStatus.Superseded, effectiveTo := Some(wallTime)) else r]
  }

  // ---------------------------------------------------------------- operations

  datatype Request = Request(externalRef: string, title: string, reportedBy: string, details: string, category: string, keywords: seq<string>)

  datatype Changes = Changes(details: string, category: string, keywords: Option<seq<string>>)

  datatype RuleRequest = RuleRequest(
    name: string, createdBy: string, category: string, keywords: seq<string>, lead: string, co: seq<string>,
    priority: int, isDefault: bool, supersedeVersion: int)

  datatype Action = StartProcessing | ReturnForCorrection | Resubmit | Cancel(reason: string) | Complete

  // stored = false: the transaction was rolled back.
  datatype Op =
    | Register(id: string, req: Request, now: int, stored: bool)
    | Act(id: string, action: Action, now: int, stored: bool)
    | Modify(id: string, changes: Changes, now: int, stored: bool)
    | CreateRule(rule: RuleRequest, now: int, wallTime: int, stored: bool)
    | Escalate(id: string, now: int, stored: bool)
    | Reevaluate(id: string, at: int, now: int, stored: bool)

  predicate HasRef(db: Db, ref: string) {
    exists id :: id in db.cases && db.cases[id].externalRef == ref
  }

  predicate ValidRequest(req: Request) {
    req.externalRef != "" && req.title != "" && req.reportedBy != ""
  }

  function NewCase(cfg: Config, req: Request, r: Rule, now: int): Case {
    Case(req.externalRef, req.details, req.category, req.keywords, Adjudicated, r.lead, r.co, r.version,
         now, now + cfg.deadline, 0, None, None, "", now)
  }

  /** A new current referral saying what the case says. */
  function ReferralFor(id: string, c: Case, at: int, author: string): Referral {
    Referral(id, c.lead, c.co, c.ruleVersion, at, author, true)
  }

  function Route(db: Db, id: string, c: Case, at: int, author: string): Db {
    db.(cases := db.cases[id := c],
        referrals := MarkSuperseded(db.referrals, id) + [ReferralFor(id, c, at, author)])
  }

  /** The error of a registration, and None when it stores a case or finds the reference taken. */
  function RegisterError(db: Db, id: string, req: Request, now: int, stored: bool): Option<Error> {
    if !ValidRequest(req) then Some(Invalid)
    else if HasRef(db, req.externalRef) then None
    else if Best(ActiveRules(db.rules, now), Subject(req.category, req.keywords, now)).None? then Some(NoMatchingRule)
    else if !stored || id in db.cases then Some(Storage)
    else None
  }

  function AfterRegister(db: Db, cfg: Config, id: string, req: Request, now: int, stored: bool): Db {
    if RegisterError(db, id, req, now, stored).Some? || HasRef(db, req.externalRef) then db
    else
      var c := NewCase(cfg, req, Best(ActiveRules(db.rules, now), Subject(req.category, req.keywords, now)).value, now);
      db.(cases := db.cases[id := c],
          referrals := db.referrals + [ReferralFor(id, c, now, "system")])
  }

  function Target(action: Action): Status {
    match action
    case StartProcessing => InProgress
    case ReturnForCorrection => Returned
    case Resubmit => Adjudicated
    case Cancel(_) => Cancelled
    case Complete => Completed
  }

  /** A resubmission passes through registered on its way to adjudicated. */
  predicate Allowed(c: Case, action: Action) {
    if action.Resubmit? then ValidTransition(c.status, Registered) && ValidTransition(Registered, Adjudicated)
    else ValidTransition(c.status, Target(action))
  }

  function Acted(c: Case, action: Action, now: int): Case {
    var moved := c.(status := Target(action), updatedAt := now);
    match action
    case Cancel(reason) => moved.(cancelledAt := Some(now), cancelReason := reason)
    case Complete => moved.(completedAt := Some(now))
    case _ => moved
  }

  function ActError(db: Db, id: string, action: Action, stored: bool): Option<Error> {
    if id !in db.cases then Some(NotFound)
    else if !Allowed(db.cases[id], action) then Some(BadTransition)
    else if !stored then Some(Storage)
    else None
  }

  function Modified(c: Case, changes: Changes, now: int): Case {
    c.(details := if changes.details != "" then changes.details else c.details,
       category := if changes.category != "" then changes.category else c.category,
       keywords := if changes.keywords.Some? then changes.keywords.value else c.keywords,
       updatedAt := now)
  }

  function ModifyError(db: Db, id: string, stored: bool): Option<Error> {
    if id !in db.cases then Some(NotFound)
    else if IsTerminal(db.cases[id].status) then Some(AlreadyCompleted)
    else if !stored then Some(Storage)
    else None
  }

  predicate ValidRule(req: RuleRequest) {
    req.name != "" && req.lead != "" && req.createdBy != ""
  }

  function NewRule(rules: seq<Rule>, req: RuleRequest, now: int): Rule {
    Rule(CurrentVersion(rules) + 1, req.category, req.keywords, req.lead, req.co, req.priority, req.isDefault,
         now, None, RuleStatus.Active)
  }

  function WithRule(rules: seq<Rule>, req: RuleRequest, now: int, wallTime: int): seq<Rule> {
    (if req.supersedeVersion > 0 then SupersedeIn(rules, req.supersedeVersion, wallTime) else rules) + [NewRule(rules, req, now)]
  }

  /** The rows the overdue query selects. */
  predicate Selected(c: Case, cfg: Config, now: int) {
    IsOverdue(c, now) && c.level < cfg.maxLevel
  }

  predicate Admits(c: Case) {
    ValidTransition(c.status, Escalated)
  }

  function EscalatedCase(c: Case, cfg: Config, now: int): Case {
    c.(lead := EscalationDepartmentName(c.lead, c.level + 1), level := c.level + 1,
       deadline := now + cfg.extension, status := Escalated, updatedAt := now)
  }

  function EscalationOf(id: string, c: Case, cfg: Config, now: int): Escalation {
    Escalation(id, c.level, c.level + 1, c.lead, EscalationDepartmentName(c.lead, c.level + 1), now, now + cfg.extension)
  }

  function AfterEscalation(db: Db, cfg: Config, id: string, now: int): Db
    requires id in db.cases
  {
    var c := db.cases[id];
    Route(db, id, EscalatedCase(c, cfg, now), now, "system_escalation")
      .(escalations := db.escalations + [EscalationOf(id, c, cfg, now)])
  }

  predicate Reevaluable(s: Status) {
    s == Registered || s == Adjudicated
  }

  /** The rule a re-evaluation moves a case to; None when it leaves the case alone. */
  function NewRouting(c: Case, rules: seq<Rule>, current: int): Option<Rule> {
    if c.ruleVersion >= current || !Reevaluable(c.status) then None else Best(rules, SubjectOf(c))
  }

  function Rerouted(c: Case, r: Rule, now: int): Case {
    c.(status := Adjudicated, lead := r.lead, co := r.co, ruleVersion := r.version, updatedAt := now)
  }

  function AfterReevaluation(db: Db, id: string, rules: seq<Rule>, current: int, now: int): Db
    requires id in db.cases
  {
    var r := NewRouting(db.cases[id], rules, current);
    if r.None? then db else Route(db, id, Rerouted(db.cases[id], r.value, now), now, "system")
  }

  function Apply(db: Db, cfg: Config, op: Op): Db {
    match op
    case Register(id, req, now, stored) => AfterRegister(db, cfg, id, req, now, stored)
    case Act(id, action, now, stored) =>
      if ActError(db, id, action, stored).Some? then db else db.(cases := db.cases[id := Acted(db.cases[id], action, now)])
    case Modify(id, changes, now, stored) =>
      if ModifyError(db, id, stored).Some? then db else db.(cases := db.cases[id := Modified(db.cases[id], changes, now)])
    case CreateRule(req, now, wallTime, stored) =>
      if !ValidRule(req) || !stored then db else db.(rules := WithRule(db.rules, req, now, wallTime))
    case Escalate(id, now, stored) =>
      if id !in db.cases || !Selected(db.cases[id], cfg, now) || !Admits(db.cases[id]) || !stored then db
      else AfterEscalation(db, cfg, id, now)
    case Reevaluate(id, at, now, stored) =>
      if id !in db.cases || !stored then db
      else AfterReevaluation(db, id, ActiveRules(db.rules, at), CurrentVersion(db.rules), now)
  }

  function Run(cfg: Config, ops: seq<Op>): Db {
    if ops == [] then EMPTY else Apply(Run(cfg, ops[..|ops| - 1]), cfg, ops[|ops| - 1])
  }
}

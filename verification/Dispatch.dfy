/** Rules, their matching against a case, and adjudication. Times are instants. */
module Dispatch {
  import opened Common

  datatype RuleStatus = Draft | Active | Superseded

  datatype Rule = Rule(
    version: int, category: string, keywords: seq<string>,
    lead: string, co: seq<string>, priority: int, isDefault: bool,
    effectiveFrom: int, effectiveTo: Option<int>, status: RuleStatus)

  // What adjudication looks at in a case.
  datatype Subject = Subject(category: string, keywords: seq<string>, registeredAt: int)

  predicate IsActiveAt(r: Rule, t: int) {
    r.status == Active && r.effectiveFrom <= t && (r.effectiveTo.Some? ==> t < r.effectiveTo.value)
  }

  /** A default rule matches every case; another rule needs at least one criterion and
      every criterion it has must hold. */
  predicate Matches(r: Rule, s: Subject) {
    || r.isDefault
    || (&& (r.category != "" || r.keywords != [])
        && (r.category != "" ==> s.category == r.category)
        && (r.keywords != [] ==> exists k :: k in r.keywords && k in s.keywords))
  }

  predicate Applies(r: Rule, s: Subject) {
    IsActiveAt(r, s.registeredAt) && Matches(r, s)
  }

  /** Higher priority first, then higher version. */
  predicate Precedes(a: Rule, b: Rule) {
    a.priority > b.priority || (a.priority == b.priority && a.version > b.version)
  }

  predicate DistinctVersions(rules: seq<Rule>) {
    forall i, j :: 0 <= i < j < |rules| ==> rules[i].version != rules[j].version
  }

  predicate Ordered(rules: seq<Rule>) {
    forall i, j :: 0 <= i < j < |rules| ==> !Precedes(rules[j], rules[i])
  }

  /** The rule that adjudication picks: it applies and no other applicable rule precedes it. */
  ghost predicate IsChoice(rules: seq<Rule>, s: Subject, choice: Option<Rule>) {
    match choice
    case None => forall r :: r in rules ==> !Applies(r, s)
    case Some(c) => c in rules && Applies(c, s) && forall r :: r in rules && Applies(r, s) ==> !Precedes(r, c)
  }

  /** The choice, computed by one pass. */
  function Best(rules: seq<Rule>, s: Subject): (choice: Option<Rule>)
    ensures IsChoice(rules, s, choice)
  {
    if rules == [] then None
    else
      var n := |rules| - 1;
      var before, r := Best(rules[..n], s), rules[n];
      assert forall x :: x in rules <==> x in rules[..n] || x == r;
      if Applies(r, s) && (before.None? || Precedes(r, before.value)) then Some(r) else before
  }

  /** A rule is in force from its start on and no longer at its end. */
  lemma WindowIsHalfOpen(r: Rule, t: int)
    ensures r.status != Active || t < r.effectiveFrom ==> !IsActiveAt(r, t)
    ensures r.status == Active && r.effectiveTo == None ==> (IsActiveAt(r, t) <==> r.effectiveFrom <= t)
    ensures r.status == Active && r.effectiveTo.Some? && r.effectiveFrom < r.effectiveTo.value ==>
              IsActiveAt(r, r.effectiveFrom) && IsActiveAt(r, r.effectiveTo.value - 1) && !IsActiveAt(r, r.effectiveTo.value)
    ensures r.effectiveTo.Some? && t >= r.effectiveTo.value ==> !IsActiveAt(r, t)
  {
  }

  /** What makes a rule match: nothing, for a default rule; its category alone or a shared keyword
      alone, where it has only one of the two; both, where it has both; and nothing does where it
      has neither. */
  lemma CriteriaDecide(r: Rule, s: Subject)
    ensures r.isDefault ==> Matches(r, s)
    ensures !r.isDefault && r.category == "" && r.keywords == [] ==> !Matches(r, s)
    ensures !r.isDefault && r.category != "" && r.keywords == [] ==> (Matches(r, s) <==> s.category == r.category)
    ensures !r.isDefault && r.category == "" && r.keywords != [] ==> (Matches(r, s) <==> exists k :: k in r.keywords && k in s.keywords)
    ensures !r.isDefault && r.category != "" && r.keywords != [] ==>
              (Matches(r, s) <==> Matches(r.(keywords := []), s) && Matches(r.(category := ""), s))
  {
  }

  /** No applicable rule has a higher priority than the choice, and none of the same priority a
      higher version. */
  lemma ChoiceIsHighest(rules: seq<Rule>, s: Subject, r: Rule)
    requires r in rules && Applies(r, s)
    ensures Best(rules, s).Some? && Best(rules, s).value in rules && Applies(Best(rules, s).value, s)
    ensures var c := Best(rules, s).value; r.priority < c.priority || (r.priority == c.priority && r.version <= c.version)
  {
  }

  /** With distinct versions there is one choice, so any computation that meets the
      description of a choice computes the same rule. */
  lemma ChoiceIsUnique(rules: seq<Rule>, s: Subject, a: Option<Rule>, b: Option<Rule>)
    requires DistinctVersions(rules)
    requires IsChoice(rules, s, a) && IsChoice(rules, s, b)
    ensures a == b
  {
  }

  /** The order in which the rules are listed does not matter. */
  lemma ChoiceIgnoresOrder(a: seq<Rule>, b: seq<Rule>, s: Subject)
    requires multiset(a) == multiset(b) && DistinctVersions(a)
    ensures Best(a, s) == Best(b, s)
  {
    forall r
      ensures r in a <==> r in b
    {
      assert r in multiset(a) <==> r in multiset(b);
    }
    ChoiceIsUnique(a, s, Best(a, s), Best(b, s));
  }

  /** In the order of the active-rules query the choice is simply the first rule that applies. */
  lemma ChoiceIsFirstListed(rules: seq<Rule>, s: Subject, i: nat)
    requires DistinctVersions(rules) && Ordered(rules)
    requires i < |rules| && Applies(rules[i], s) && forall k :: 0 <= k < i ==> !Applies(rules[k], s)
    ensures Best(rules, s) == Some(rules[i])
  {
  }

  class Adjudicator {
    constructor () {}

    method RuleMatches(r: Rule, s: Subject) returns (matched: bool)
      ensures matched == Matches(r, s)
    {
      if r.isDefault {
        return true;
      }
      matched := false;
      if r.category != "" {
        if s.category == r.category {
          matched := true;
        } else {
          return false;
        }
      }
      if |r.keywords| > 0 {
        var kwMatched := false;
        var itemKeywords: set<string> := {};
        for i := 0 to |s.keywords|
          invariant forall k :: k in itemKeywords <==> k in s.keywords[..i]
        {
          itemKeywords := itemKeywords + {s.keywords[i]};
        }
        assert s.keywords[..|s.keywords|] == s.keywords;
        for i := 0 to |r.keywords|
          invariant !kwMatched && forall k :: k in r.keywords[..i] ==> k !in itemKeywords
        {
          if r.keywords[i] in itemKeywords {
            kwMatched := true;
            break;
          }
        }
        assert r.keywords[..|r.keywords|] == r.keywords;
        if !kwMatched {
          return false;
        }
        matched := true;
      }
    }

    /** Collects the rules that apply, falls back to an active default rule if there is
        none, and takes the first after sorting. The fallback adds nothing: a default rule
        already matches. */
    method Adjudicate(cancelled: bool, s: Subject, rules: seq<Rule>) returns (choice: Option<Rule>)
      ensures cancelled ==> choice == None
      ensures !cancelled ==> IsChoice(rules, s, choice)
      ensures !cancelled && DistinctVersions(rules) ==> choice == Best(rules, s)
    {
      if cancelled {
        return None;
      }
      var matched: seq<Rule> := [];
      for i := 0 to |rules|
        invariant forall r :: r in matched <==> r in rules[..i] && Applies(r, s)
      {
        assert rules[..i + 1] == rules[..i] + [rules[i]];
        if !IsActiveAt(rules[i], s.registeredAt) {
          continue;
        }
        var matches := RuleMatches(rules[i], s);
        if matches {
          matched := matched + [rules[i]];
        }
      }
      assert rules[..|rules|] == rules;
      if |matched| == 0 {
        for i := 0 to |rules|
          invariant forall r :: r in matched <==> r in rules && Applies(r, s)
        {
          if IsActiveAt(rules[i], s.registeredAt) && rules[i].isDefault {
            matched := matched + [rules[i]];
            break;
          }
        }
      }
      if |matched| == 0 {
        return None;
      }
      var sorted := SortByPrecedence(matched);
      assert sorted[0] in multiset(sorted);
      forall r | r in rules && Applies(r, s)
        ensures !Precedes(r, sorted[0])
      {
        assert r in multiset(sorted);
        var k :| 0 <= k < |sorted| && sorted[k] == r;
      }
      choice := Some(sorted[0]);
      if DistinctVersions(rules) {
        ChoiceIsUnique(rules, s, choice, Best(rules, s));
      }
    }

    method SortByPrecedence(rules: seq<Rule>) returns (sorted: seq<Rule>)
      ensures Ordered(sorted) && multiset(sorted) == multiset(rules)
    {
      sorted := [];
      for i := 0 to |rules|
        invariant Ordered(sorted) && multiset(sorted) == multiset(rules[..i])
      {
        var at := 0;
        while at < |sorted| && !Precedes(rules[i], sorted[at])
          invariant 0 <= at <= |sorted|
          invariant forall k :: 0 <= k < at ==> !Precedes(rules[i], sorted[k])
        {
          at := at + 1;
        }
        assert sorted == sorted[..at] + sorted[at..];
        sorted := sorted[..at] + [rules[i]] + sorted[at..];
        assert rules[..i + 1] == rules[..i] + [rules[i]];
      }
      assert rules[..|rules|] == rules;
    }
  }
}

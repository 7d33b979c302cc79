/** The policy layer: a role matrix that any rule can veto. */
module Policy {
  import opened Common

  datatype Role = Owner | SuperAdmin | Admin | MediaAdmin | Researcher | UnknownRole

  datatype Action = View | Create | Update | Delete | Download | Export

  datatype Confidentiality = Public | Internal | Confidential | Restricted

  datatype Permission = ViewOnly | Edit

  datatype Subject = Subject(userId: Id, tenantId: Id, role: Role)

  /** `sharedWith` says what level each other tenant was granted, if any. */
  datatype Resource = Resource(tenantId: Id, confidentiality: Option<Confidentiality>, sharedWith: map<Id, Permission>)

  /** A rule's `false`, `true` and `undefined`. */
  datatype Verdict = Veto | Approve | NoOpinion

  type Rule = (Action, Subject, Resource) -> Verdict

  predicate Capable(role: Role, action: Action) {
    match role
    case Owner => true
    case SuperAdmin => true
    case Admin => true
    case MediaAdmin => action.View? || action.Create? || action.Update? || action.Download?
    case Researcher => action.View?
    case UnknownRole => false
  }

  /** Rule 1: another tenant's resource needs a share that covers the action. */
  function TenantBoundary(action: Action, subject: Subject, resource: Resource): Verdict {
    if resource.tenantId == subject.tenantId then NoOpinion
    else if subject.tenantId !in resource.sharedWith then Veto
    else if resource.sharedWith[subject.tenantId] == ViewOnly && action != View then Veto
    else NoOpinion
  }

  /** Rule 2: restricted content is for the owning tenant's top roles. */
  function RestrictedContent(action: Action, subject: Subject, resource: Resource): Verdict {
    if resource.confidentiality != Some(Restricted) then NoOpinion
    else if resource.tenantId == subject.tenantId && (subject.role == Owner || subject.role == SuperAdmin)
        then NoOpinion
    else Veto
  }

  /** Rule 3: researchers do not see confidential content. */
  function ConfidentialContent(action: Action, subject: Subject, resource: Resource): Verdict {
    if resource.confidentiality != Some(Confidential) then NoOpinion
    else if subject.role == Researcher && action == View then Veto
    else NoOpinion
  }

  const RULES: seq<Rule> := [TenantBoundary, RestrictedContent, ConfidentialContent]

  /** Rules in order, the first veto is final; then the role matrix. */
  function Fold(rules: seq<Rule>, action: Action, subject: Subject, resource: Resource): bool {
    if rules == [] then Capable(subject.role, action)
    else if rules[0](action, subject, resource) == Veto then false
    else Fold(rules[1..], action, subject, resource)
  }

  function Can(action: Action, subject: Subject, resource: Resource): bool {
    Fold(RULES, action, subject, resource)
  }

  method Decide(action: Action, subject: Subject, resource: Resource) returns (allowed: bool)
    ensures allowed == Can(action, subject, resource)
  {
    var i := 0;
    while i < |RULES|
      invariant 0 <= i <= |RULES|
      invariant Can(action, subject, resource) == Fold(RULES[i..], action, subject, resource)
    {
      var verdict := RULES[i](action, subject, resource);
      if verdict == Veto {
        return false;
      }
      i := i + 1;
    }
    allowed := Capable(subject.role, action);
  }

  /** The early exit loses nothing: the fold is the conjunction of all rules and the matrix. */
  lemma {:induction false} FoldIsConjunction(rules: seq<Rule>, action: Action, subject: Subject, resource: Resource)
    ensures Fold(rules, action, subject, resource) <==>
            (forall r | r in rules :: r(action, subject, resource) != Veto) && Capable(subject.role, action)
  {
    if rules != [] {
      FoldIsConjunction(rules[1..], action, subject, resource);
      assert rules == [rules[0]] + rules[1..];
    }
  }

  /** So the order of the rules does not matter. */
  lemma RuleOrderIrrelevant(rules: seq<Rule>, other: seq<Rule>, action: Action, subject: Subject, resource: Resource)
    requires multiset(rules) == multiset(other)
    ensures Fold(rules, action, subject, resource) == Fold(other, action, subject, resource)
  {
    FoldIsConjunction(rules, action, subject, resource);
    FoldIsConjunction(other, action, subject, resource);
    assert forall r :: r in rules <==> r in multiset(rules);
    assert forall r :: r in other <==> r in multiset(other);
  }

  /** What the three rules and the matrix amount to, role by role. */
  lemma CanMeans(action: Action, subject: Subject, resource: Resource)
    ensures Can(action, subject, resource) <==>
            && (|| subject.role == Owner || subject.role == SuperAdmin || subject.role == Admin
                || (subject.role == MediaAdmin &&
                    (action == View || action == Create || action == Update || action == Download))
                || (subject.role == Researcher && action == View))
            && (resource.tenantId != subject.tenantId ==>
                  && subject.tenantId in resource.sharedWith
                  && (action == View || resource.sharedWith[subject.tenantId] == Edit)
                  && resource.confidentiality != Some(Restricted))
            && (resource.confidentiality == Some(Restricted) ==> subject.role == Owner || subject.role == SuperAdmin)
            && (resource.confidentiality == Some(Confidential) ==> subject.role != Researcher)
  {
    FoldIsConjunction(RULES, action, subject, resource);
    var r0, r1, r2 := RULES[0], RULES[1], RULES[2];
    assert r0 in RULES && r1 in RULES && r2 in RULES;
    assert r0(action, subject, resource) == TenantBoundary(action, subject, resource);
    assert r1(action, subject, resource) == RestrictedContent(action, subject, resource);
    assert r2(action, subject, resource) == ConfidentialContent(action, subject, resource);
  }
}

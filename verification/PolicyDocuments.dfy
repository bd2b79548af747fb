/** Policy documents (pkg/policy/document.go) and the field-level diff that every
    history row stores (internal/policy/diff.go). */
module PolicyDocuments {
  import opened Prelude

  datatype RoutingPolicy = RoutingPolicy(enabled: bool, fromModel: nat, toModel: nat, weight: real, sticky: bool)

  const NO_MODEL: nat := 0   // the empty model name

  /** A control's value; of the four controls Apply never touches only identity
      and validity matter. */
  datatype Control =
    | Routing(policy: RoutingPolicy)
    | Other(json: nat, wellFormed: bool)

  datatype PolicyDocument = PolicyDocument(
    routing: Option<Control>,
    caching: Option<Control>,
    budget: Option<Control>,
    rateLimit: Option<Control>,
    modelRestriction: Option<Control>)

  const EMPTY_DOCUMENT := PolicyDocument(None, None, None, None, None)

  datatype Field = RoutingField | CachingField | BudgetField | RateLimitField | ModelRestrictionField

  const FIELDS: seq<Field> := [RoutingField, CachingField, BudgetField, RateLimitField, ModelRestrictionField]

  predicate ValidControl(c: Option<Control>) {
    match c
    case None => true
    case Some(Other(_, wellFormed)) => wellFormed
    case Some(Routing(r)) =>
      r.enabled ==> r.fromModel != NO_MODEL && r.toModel != NO_MODEL && r.fromModel != r.toModel && 0.0 <= r.weight <= 1.0
  }

  /** Validate returned no error. */
  predicate Valid(d: PolicyDocument) {
    ValidControl(d.routing) && ValidControl(d.caching) && ValidControl(d.budget)
    && ValidControl(d.rateLimit) && ValidControl(d.modelRestriction)
  }

  function FieldOf(d: PolicyDocument, f: Field): Option<Control> {
    match f
    case RoutingField => d.routing
    case CachingField => d.caching
    case BudgetField => d.budget
    case RateLimitField => d.rateLimit
    case ModelRestrictionField => d.modelRestriction
  }

  datatype FieldDiff = FieldDiff(before: Option<Control>, after: Option<Control>)
  type DocumentDiff = map<Field, FieldDiff>

  /** The diff from one document to another holds exactly the fields that differ,
      with both values. */
  ghost predicate IsDiff(diff: DocumentDiff, a: PolicyDocument, b: PolicyDocument) {
    forall f: Field ::
      && (f in diff <==> FieldOf(a, f) != FieldOf(b, f))
      && (f in diff ==> diff[f] == FieldDiff(FieldOf(a, f), FieldOf(b, f)))
  }

  /** Diff; a missing document is the empty one. */
  method Diff(before: Option<PolicyDocument>, after: Option<PolicyDocument>) returns (diff: DocumentDiff)
    ensures IsDiff(diff, if before.Some? then before.value else EMPTY_DOCUMENT,
                   if after.Some? then after.value else EMPTY_DOCUMENT)
  {
    var a := if before.Some? then before.value else EMPTY_DOCUMENT;
    var b := if after.Some? then after.value else EMPTY_DOCUMENT;
    diff := map[];
    for i := 0 to |FIELDS|
      invariant forall f :: f in diff ==> f in FIELDS[..i] && diff[f] == FieldDiff(FieldOf(a, f), FieldOf(b, f))
      invariant forall f :: f in FIELDS[..i] ==> (f in diff <==> FieldOf(a, f) != FieldOf(b, f))
    {
      var f := FIELDS[i];
      assert FIELDS[..i + 1] == FIELDS[..i] + [f];
      if FieldOf(a, f) != FieldOf(b, f) {
        diff := diff[f := FieldDiff(FieldOf(a, f), FieldOf(b, f))];
      }
    }
    AllFields();
  }

  lemma AllFields()
    ensures forall f: Field :: f in FIELDS[..|FIELDS|]
  {
    assert FIELDS[..|FIELDS|] == FIELDS;
    forall f: Field ensures f in FIELDS {
      match f
      case RoutingField => assert FIELDS[0] == f;
      case CachingField => assert FIELDS[1] == f;
      case BudgetField => assert FIELDS[2] == f;
      case RateLimitField => assert FIELDS[3] == f;
      case ModelRestrictionField => assert FIELDS[4] == f;
    }
  }

  /** The diff as a value, for specifications. */
  /** A diff control by control: its name is there exactly if it differs, with what
      it was and what it is. */
  lemma DiffMeaning(diff: DocumentDiff, a: PolicyDocument, b: PolicyDocument)
    ensures IsDiff(diff, a, b) <==>
              && EntryIs(diff, RoutingField, a.routing, b.routing) && EntryIs(diff, CachingField, a.caching, b.caching)
              && EntryIs(diff, BudgetField, a.budget, b.budget) && EntryIs(diff, RateLimitField, a.rateLimit, b.rateLimit)
              && EntryIs(diff, ModelRestrictionField, a.modelRestriction, b.modelRestriction)
  {
    if IsDiff(diff, a, b) {
      assert RoutingField in diff <==> FieldOf(a, RoutingField) != FieldOf(b, RoutingField);
      assert CachingField in diff <==> FieldOf(a, CachingField) != FieldOf(b, CachingField);
      assert BudgetField in diff <==> FieldOf(a, BudgetField) != FieldOf(b, BudgetField);
      assert RateLimitField in diff <==> FieldOf(a, RateLimitField) != FieldOf(b, RateLimitField);
      assert ModelRestrictionField in diff <==> FieldOf(a, ModelRestrictionField) != FieldOf(b, ModelRestrictionField);
    }
  }

  ghost predicate EntryIs(diff: DocumentDiff, f: Field, before: Option<Control>, after: Option<Control>) {
    && (f in diff <==> before != after)
    && (f in diff ==> diff[f].before == before && diff[f].after == after)
  }

  /** What makes a document invalid: a malformed control, or routing that is on
      between the same or missing models or with a weight outside [0, 1]. */
  lemma InvalidIff(d: PolicyDocument)
    requires forall c :: c in [d.caching, d.budget, d.rateLimit, d.modelRestriction] && c.Some? ==> c.value.Other?
    ensures !Valid(d) <==>
              || (exists c :: c in [d.routing, d.caching, d.budget, d.rateLimit, d.modelRestriction]
                              && c.Some? && c.value.Other? && !c.value.wellFormed)
              || (d.routing.Some? && d.routing.value.Routing? && d.routing.value.policy.enabled
                  && var r := d.routing.value.policy;
                     r.fromModel == 0 || r.toModel == 0 || r.fromModel == r.toModel || r.weight < 0.0 || r.weight > 1.0)
  {
    var controls := [d.routing, d.caching, d.budget, d.rateLimit, d.modelRestriction];
    assert controls[0] == d.routing && controls[1] == d.caching && controls[2] == d.budget;
    assert controls[3] == d.rateLimit && controls[4] == d.modelRestriction;
    var others := [d.caching, d.budget, d.rateLimit, d.modelRestriction];
    assert others[0] == d.caching && others[1] == d.budget && others[2] == d.rateLimit && others[3] == d.modelRestriction;
  }

  ghost function DiffOf(a: PolicyDocument, b: PolicyDocument): (diff: DocumentDiff)
    ensures IsDiff(diff, a, b)
  {
    AllFields();
    map f | f in FIELDS && FieldOf(a, f) != FieldOf(b, f) :: FieldDiff(FieldOf(a, f), FieldOf(b, f))
  }

  lemma DiffIsUnique(diff: DocumentDiff, a: PolicyDocument, b: PolicyDocument)
    requires IsDiff(diff, a, b)
    ensures diff == DiffOf(a, b)
  {
    var other := DiffOf(a, b);
    assert forall f :: f in diff <==> f in other;
  }

  /** Take the new value of every field the diff names. */
  function Patch(d: PolicyDocument, diff: DocumentDiff): PolicyDocument {
    var pick := (f: Field) => if f in diff then diff[f].after else FieldOf(d, f);
    PolicyDocument(pick(RoutingField), pick(CachingField), pick(BudgetField), pick(RateLimitField), pick(ModelRestrictionField))
  }

  function Unpatch(d: PolicyDocument, diff: DocumentDiff): PolicyDocument {
    var pick := (f: Field) => if f in diff then diff[f].before else FieldOf(d, f);
    PolicyDocument(pick(RoutingField), pick(CachingField), pick(BudgetField), pick(RateLimitField), pick(ModelRestrictionField))
  }

  /** A diff carries one document to the other, in both directions. */
  lemma DiffCarries(diff: DocumentDiff, a: PolicyDocument, b: PolicyDocument)
    requires IsDiff(diff, a, b)
    ensures Patch(a, diff) == b && Unpatch(b, diff) == a
  {
    assert forall f: Field :: FieldOf(Patch(a, diff), f) == FieldOf(b, f);
  }

  /** A diff says where it started only as far as it changed something: it leads
      from another document to the same result exactly when the two starting
      documents agree outside the fields it names. */
  lemma DiffFromElsewhere(diff: DocumentDiff, a: PolicyDocument, b: PolicyDocument, start: PolicyDocument)
    requires IsDiff(diff, a, b)
    ensures Patch(start, diff) == b <==> forall f: Field :: f !in diff ==> FieldOf(start, f) == FieldOf(a, f)
  {
    var reached := Patch(start, diff);
    assert forall f: Field :: FieldOf(reached, f) == if f in diff then FieldOf(b, f) else FieldOf(start, f);
    if forall f: Field :: f !in diff ==> FieldOf(start, f) == FieldOf(a, f) {
      assert forall f: Field :: FieldOf(reached, f) == FieldOf(b, f);
    }
  }
}

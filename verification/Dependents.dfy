/** Dependents as objects: the dry run that finds what to watch, and the
    evaluation loops as they run. */
module Dependents {
  import opened Wrappers
  import opened Constraints

  /** The values a real evaluation may look at have all been set up. */
  ghost predicate Ready(mode: Mode, leaves: seq<Lookup>) {
    mode.Comparing? ==> forall at :: at in leaves ==> at in mode.values
  }

  /** `compare`, real or recording. The real one reads an entry that must exist. */
  method CompareValue(mode: Mode, reference: Json, at: Lookup) returns (r: Tri)
    requires mode.Comparing? ==> at in mode.values
    ensures r == Compare(mode, reference, at)
  {
    match mode
    case Recording => r := U;
    case Comparing(values) => r := CompareWith(reference, values[at]);
  }

  method CheckConstraints(mode: Mode, value: Json, selector: Option<string>, key: Option<string>) returns (o: Outcome)
    requires Ready(mode, ChildLeaves(value, selector, key))
    ensures o == Check(mode, value, selector, key)
    decreases value, 1
  {
    match Read(selector, key)
    case Leaf(at, invert) =>
      var r := CompareValue(mode, value, at);
      o := Outcome(Invert(r, invert), [at]);
    case Group(sel) =>
      o := VerifyConstraints(mode, value, sel);
  }

  method VerifyConstraints(mode: Mode, c: Json, selector: Option<string>) returns (o: Outcome)
    requires Ready(mode, Leaves(c, selector))
    ensures o == Verify(mode, c, selector)
    decreases c, 0
  {
    match c
    case Arr(items) => o := VerifyArray(mode, items, selector);
    case Obj(fields) => o := VerifyObject(mode, fields, selector);
    case _ => o := Outcome(U, []);
  }

  method VerifyArray(mode: Mode, items: seq<Json>, selector: Option<string>) returns (o: Outcome)
    requires Ready(mode, ItemLeaves(items, selector))
    ensures o == SomeOf(mode, items, selector, IsOr(items), U)
    decreases items
  {
    var isOr := IsOr(items);
    var result, log := U, [];
    for i := 0 to |items|
      invariant Ready(mode, ItemLeaves(items[i..], selector))
      invariant Later(log, SomeOf(mode, items[i..], selector, isOr, result)) == SomeOf(mode, items, selector, isOr, U)
    {
      assert items[i..][0] == items[i] && items[i..][1..] == items[i + 1..];
      if items[i] != XOR {
        var child := CheckConstraints(mode, items[i], selector, None);
        if child.result == T && (isOr || result == T) {
          return Outcome(Truth(isOr), log + child.log);
        }
        LaterTwice(log, child.log, SomeOf(mode, items[i + 1..], selector, isOr, OrElse(result, child.result)));
        result, log := OrElse(result, child.result), log + child.log;
      }
    }
    o := Outcome(result, log);
  }

  method VerifyObject(mode: Mode, fields: seq<Field>, selector: Option<string>) returns (o: Outcome)
    requires Ready(mode, FieldLeaves(fields, selector))
    ensures o == AllOf(mode, fields, selector, U)
    decreases fields
  {
    var result, log := U, [];
    for i := 0 to |fields|
      invariant Ready(mode, FieldLeaves(fields[i..], selector))
      invariant Later(log, AllOf(mode, fields[i..], selector, result)) == AllOf(mode, fields, selector, U)
    {
      assert fields[i..][0] == fields[i] && fields[i..][1..] == fields[i + 1..];
      var child := CheckConstraints(mode, fields[i].value, selector, Some(fields[i].key));
      result := Ternary(result, child.result);
      if result == F {
        return Outcome(F, log + child.log);
      }
      LaterTwice(log, child.log, AllOf(mode, fields[i + 1..], selector, result));
      log := log + child.log;
    }
    o := Outcome(result, log);
  }

  /** An outcome that continues after some lookups were already made. */
  ghost function Later(log: seq<Lookup>, o: Outcome): Outcome {
    Outcome(o.result, log + o.log)
  }

  lemma LaterTwice(a: seq<Lookup>, b: seq<Lookup>, o: Outcome)
    ensures Later(a + b, o) == Later(a, Outcome(o.result, b + o.log))
  {
    assert (a + b) + o.log == a + (b + o.log);
  }

  class Dependent {
    const constraints: Json
    var values: map<Lookup, Value>
    var oldValue: Option<Tri>

    /** Every value a later evaluation can look at has an entry. */
    ghost predicate Valid()
      reads this
    {
      Ready(Comparing(values), Leaves(constraints, None))
    }

    /** The dry run finds the dependees; each is then initialised from the page. */
    constructor (constraints: Json, initial: Lookup -> Value)
      ensures Valid() && this.constraints == constraints
      ensures values.Keys == set at | at in Leaves(constraints, None)
      ensures forall at :: at in values ==> values[at] == initial(at)
      ensures oldValue == Some(Verify(Comparing(values), constraints, None).result)
    {
      this.constraints := constraints;
      values := map[];
      oldValue := None;
      new;
      var dependees := GetDependees();
      for i := 0 to |dependees|
        invariant values.Keys == set at | at in dependees[..i]
        invariant forall at :: at in values ==> values[at] == initial(at)
      {
        values := values[dependees[i] := initial(dependees[i])];
        assert dependees[..i + 1] == dependees[..i] + [dependees[i]];
      }
      assert dependees[..|dependees|] == dependees;
      var verdict := Evaluate();
      oldValue := Some(verdict);
    }

    /** `getDependees`: evaluate with `compare` swapped for a recorder. */
    method GetDependees() returns (dependees: seq<Lookup>)
      ensures dependees == Leaves(constraints, None)
    {
      var o := VerifyConstraints(Recording, constraints, None);
      DryRunSeesAll(constraints, None);
      dependees := o.log;
    }

    method Evaluate() returns (verdict: Tri)
      requires Valid()
      ensures verdict == Verify(Comparing(values), constraints, None).result
    {
      var o := VerifyConstraints(Comparing(values), constraints, None);
      verdict := o.result;
    }
  }
}

/** Constraint trees of the form-states library: objects mean "all", arrays
    mean "some", and arrays holding the word 'xor' mean "exactly one". */
module Constraints {
  import opened Wrappers
  import opened StateNames

  /** A constraint tree as read from JSON. A number is known by its text. */
  datatype Json =
    | Bool(b: bool)
    | Num(text: string)
    | Str(s: string)
    | Arr(items: seq<Json>)
    | Obj(fields: seq<Field>)

  datatype Field = Field(key: string, value: Json)

  /** A tracked value of a dependee's state. */
  datatype Value = Undefined | Null | IsBool(b: bool) | IsNum(text: string) | IsStr(s: string)

  /** A result that may be missing. */
  datatype Tri = U | T | F

  function Truth(b: bool): Tri { if b then T else F }

  /** One selector and state name whose value is looked at. */
  datatype Lookup = Lookup(selector: string, name: string)

  /** What `compare` currently is: the recorder of the dry run, or the real one. */
  datatype Mode = Recording | Comparing(values: map<Lookup, Value>)

  function Invert(a: Tri, invert: bool): Tri {
    if invert && a != U then (if a == T then F else T) else a
  }

  function Ternary(a: Tri, b: Tri): Tri {
    if a == U then b else if b == U then a else if a == T then b else F
  }

  function OrElse(a: Tri, b: Tri): Tri {
    if a == T then T else b
  }

  /** `compare` on two values: missing ones are ignored. */
  function CompareValues(a: Value, b: Value): Tri {
    if a == b then (if a.Undefined? then U else T) else Truth(a.Undefined? || b.Undefined?)
  }

  /** A dependent's own comparison: a number is compared as text with a text, and
      anything else by strict equality, which no array or object ever passes. */
  function CompareWith(reference: Json, value: Value): Tri {
    match reference
    case Num(text) => CompareValues(if value.IsStr? then IsStr(text) else IsNum(text), value)
    case Bool(b) => CompareValues(IsBool(b), value)
    case Str(s) => CompareValues(IsStr(s), value)
    case _ => Truth(value.Undefined?)
  }

  /** When a value meets its reference: an unknown value meets any, and a number is
      met by its text. */
  predicate Matches(reference: Json, value: Value) {
    value.Undefined? ||
    match reference
    case Bool(b) => value == IsBool(b)
    case Num(text) => value == IsNum(text) || value == IsStr(text)
    case Str(s) => value == IsStr(s)
    case _ => false
  }

  /** Against a reference the comparison always answers, never with "missing". */
  lemma ComparisonAnswers(reference: Json, value: Value)
    ensures CompareWith(reference, value) == Truth(Matches(reference, value))
  {
    match reference
    case Num(_) =>
    case Bool(_) =>
    case Str(_) =>
    case _ =>
  }

  function Compare(mode: Mode, reference: Json, at: Lookup): Tri {
    match mode
    case Recording => U
    case Comparing(values) => CompareWith(reference, if at in values then values[at] else Undefined)
  }

  /** The state a key names. */
  function StateOf(key: string): State {
    match NormalForm(key)
    case Some(state) => state
    case None => State(key, false)
  }

  /** How a child is read: as a group, perhaps under a selector just found, or as
      the reference value of one state. Array positions have no key. */
  datatype Reading = Group(selector: Option<string>) | Leaf(at: Lookup, invert: bool)

  function Read(selector: Option<string>, key: Option<string>): Reading {
    if key.None? || (key.value != [] && '0' <= key.value[0] <= '9') then Group(selector)
    else if selector.None? then Group(key)
    else Leaf(Lookup(selector.value, StateOf(key.value).name), StateOf(key.value).invert)
  }

  const XOR := Str("xor")

  /** An array that does not carry the 'xor' mark reads as "some". */
  predicate IsOr(items: seq<Json>) { XOR !in items }

  // ---------- evaluation, with the lookups it makes ----------

  datatype Outcome = Outcome(result: Tri, log: seq<Lookup>)

  function Check(mode: Mode, value: Json, selector: Option<string>, key: Option<string>): Outcome
    decreases value, 1
  {
    match Read(selector, key)
    case Leaf(at, invert) => Outcome(Invert(Compare(mode, value, at), invert), [at])
    case Group(sel) => Verify(mode, value, sel)
  }

  function Verify(mode: Mode, c: Json, selector: Option<string>): Outcome
    decreases c, 0
  {
    match c
    case Arr(items) => SomeOf(mode, items, selector, IsOr(items), U)
    case Obj(fields) => AllOf(mode, fields, selector, U)
    case _ => Outcome(U, [])
  }

  /** The array loop from its first item on, with `result` so far. */
  function SomeOf(mode: Mode, items: seq<Json>, selector: Option<string>, isOr: bool, result: Tri): Outcome
    decreases items
  {
    if items == [] then Outcome(result, [])
    else if items[0] == XOR then SomeOf(mode, items[1..], selector, isOr, result)
    else
      var o := Check(mode, items[0], selector, None);
      if o.result == T && (isOr || result == T) then Outcome(Truth(isOr), o.log)
      else
        var more := SomeOf(mode, items[1..], selector, isOr, OrElse(result, o.result));
        Outcome(more.result, o.log + more.log)
  }

  /** The object loop from its first field on, with `result` so far. */
  function AllOf(mode: Mode, fields: seq<Field>, selector: Option<string>, result: Tri): Outcome
    decreases fields
  {
    if fields == [] then Outcome(result, [])
    else
      var o := Check(mode, fields[0].value, selector, Some(fields[0].key));
      var r := Ternary(result, o.result);
      if r == F then Outcome(F, o.log)
      else
        var more := AllOf(mode, fields[1..], selector, r);
        Outcome(more.result, o.log + more.log)
  }

  // ---------- all leaves of a tree ----------

  function Leaves(c: Json, selector: Option<string>): seq<Lookup>
    decreases c, 0
  {
    match c
    case Arr(items) => ItemLeaves(items, selector)
    case Obj(fields) => FieldLeaves(fields, selector)
    case _ => []
  }

  function ChildLeaves(value: Json, selector: Option<string>, key: Option<string>): seq<Lookup>
    decreases value, 1
  {
    match Read(selector, key)
    case Leaf(at, _) => [at]
    case Group(sel) => Leaves(value, sel)
  }

  function ItemLeaves(items: seq<Json>, selector: Option<string>): seq<Lookup>
    decreases items
  {
    if items == [] then []
    else if items[0] == XOR then ItemLeaves(items[1..], selector)
    else ChildLeaves(items[0], selector, None) + ItemLeaves(items[1..], selector)
  }

  function FieldLeaves(fields: seq<Field>, selector: Option<string>): seq<Lookup>
    decreases fields
  {
    if fields == [] then []
    else ChildLeaves(fields[0].value, selector, Some(fields[0].key)) + FieldLeaves(fields[1..], selector)
  }

  /** The dry run never stops early: it meets every leaf, in order. */
  lemma {:induction false} DryRunSeesAll(c: Json, selector: Option<string>)
    ensures Verify(Recording, c, selector) == Outcome(U, Leaves(c, selector))
    decreases c, 0
  {
    match c
    case Arr(items) => DryRunItems(items, selector, IsOr(items));
    case Obj(fields) => DryRunFields(fields, selector);
    case _ =>
  }

  lemma {:induction false} DryRunChild(value: Json, selector: Option<string>, key: Option<string>)
    ensures Check(Recording, value, selector, key) == Outcome(U, ChildLeaves(value, selector, key))
    decreases value, 1
  {
    match Read(selector, key)
    case Leaf(_, _) =>
    case Group(sel) => DryRunSeesAll(value, sel);
  }

  lemma {:induction false} DryRunItems(items: seq<Json>, selector: Option<string>, isOr: bool)
    ensures SomeOf(Recording, items, selector, isOr, U) == Outcome(U, ItemLeaves(items, selector))
    decreases items
  {
    if items != [] {
      DryRunChild(items[0], selector, None);
      DryRunItems(items[1..], selector, isOr);
    }
  }

  lemma {:induction false} DryRunFields(fields: seq<Field>, selector: Option<string>)
    ensures AllOf(Recording, fields, selector, U) == Outcome(U, FieldLeaves(fields, selector))
    decreases fields
  {
    if fields != [] {
      DryRunChild(fields[0].value, selector, Some(fields[0].key));
      DryRunFields(fields[1..], selector);
    }
  }

  /** Whatever the values are, a real evaluation looks only at leaves. */
  lemma {:induction false} LooksOnlyAtLeaves(mode: Mode, c: Json, selector: Option<string>, at: Lookup)
    requires at in Verify(mode, c, selector).log
    ensures at in Leaves(c, selector)
    decreases c, 0
  {
    match c
    case Arr(items) => ItemsLookOnlyAtLeaves(mode, items, selector, IsOr(items), U, at);
    case Obj(fields) => FieldsLookOnlyAtLeaves(mode, fields, selector, U, at);
  }

  lemma {:induction false} ChildLooksOnlyAtLeaves(mode: Mode, value: Json, selector: Option<string>,
                                                  key: Option<string>, at: Lookup)
    requires at in Check(mode, value, selector, key).log
    ensures at in ChildLeaves(value, selector, key)
    decreases value, 1
  {
    match Read(selector, key)
    case Leaf(_, _) =>
    case Group(sel) => LooksOnlyAtLeaves(mode, value, sel, at);
  }

  lemma {:induction false} ItemsLookOnlyAtLeaves(mode: Mode, items: seq<Json>, selector: Option<string>,
                                                 isOr: bool, result: Tri, at: Lookup)
    requires at in SomeOf(mode, items, selector, isOr, result).log
    ensures at in ItemLeaves(items, selector)
    decreases items
  {
    if items[0] == XOR {
      ItemsLookOnlyAtLeaves(mode, items[1..], selector, isOr, result, at);
    } else {
      var o := Check(mode, items[0], selector, None);
      if at in o.log {
        ChildLooksOnlyAtLeaves(mode, items[0], selector, None, at);
      } else {
        ItemsLookOnlyAtLeaves(mode, items[1..], selector, isOr, OrElse(result, o.result), at);
      }
    }
  }

  lemma {:induction false} FieldsLookOnlyAtLeaves(mode: Mode, fields: seq<Field>, selector: Option<string>,
                                                  result: Tri, at: Lookup)
    requires at in AllOf(mode, fields, selector, result).log
    ensures at in FieldLeaves(fields, selector)
    decreases fields
  {
    var o := Check(mode, fields[0].value, selector, Some(fields[0].key));
    if at in o.log {
      ChildLooksOnlyAtLeaves(mode, fields[0].value, selector, Some(fields[0].key), at);
    } else {
      FieldsLookOnlyAtLeaves(mode, fields[1..], selector, Ternary(result, o.result), at);
    }
  }

  // ---------- the plain meaning ----------

  /** Keys that begin with a digit are positions, as the ones of arrays are. */
  predicate IsPosition(key: Option<string>) {
    key.None? || (key.value != [] && '0' <= key.value[0] <= '9')
  }

  function ValueAt(values: map<Lookup, Value>, at: Lookup): Value {
    if at in values then values[at] else Undefined
  }

  /** No group is empty, every group is an array or an object, and every state name
      normalises; on any other name the constructor of the state throws. */
  ghost predicate Proper(c: Json, selector: Option<string>)
    decreases c, 0
  {
    match c
    case Arr(items) =>
      && (exists i :: 0 <= i < |items| && items[i] != XOR)
      && (forall i :: 0 <= i < |items| && items[i] != XOR ==> ProperChild(items[i], selector, None))
    case Obj(fields) =>
      && fields != []
      && (forall i :: 0 <= i < |fields| ==> ProperChild(fields[i].value, selector, Some(fields[i].key)))
    case _ => false
  }

  ghost predicate ProperChild(value: Json, selector: Option<string>, key: Option<string>)
    decreases value, 1
  {
    if IsPosition(key) then Proper(value, selector)
    else if selector.None? then Proper(value, key)
    else NormalForm(key.value).Some?
  }

  ghost predicate Holds(values: map<Lookup, Value>, c: Json, selector: Option<string>)
    decreases c, 0
  {
    match c
    case Arr(items) =>
      if Str("xor") in items then Count(values, items, selector) == 1
      else exists i :: 0 <= i < |items| && ChildHolds(values, items[i], selector, None)
    case Obj(fields) =>
      forall i :: 0 <= i < |fields| ==> ChildHolds(values, fields[i].value, selector, Some(fields[i].key))
    case _ => false
  }

  ghost predicate ChildHolds(values: map<Lookup, Value>, value: Json, selector: Option<string>, key: Option<string>)
    decreases value, 1
  {
    if IsPosition(key) then Holds(values, value, selector)
    else if selector.None? then Holds(values, value, key)
    else
      match NormalForm(key.value)
      case Some(s) => Matches(value, ValueAt(values, Lookup(selector.value, s.name))) != s.invert
      case None => false
  }

  /** How many alternatives of an array hold. */
  ghost function Count(values: map<Lookup, Value>, items: seq<Json>, selector: Option<string>): nat
    decreases items
  {
    if items == [] then 0
    else
      (if items[0] != XOR && ChildHolds(values, items[0], selector, None) then 1 else 0)
      + Count(values, items[1..], selector)
  }
}

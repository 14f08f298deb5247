/** Short-circuit evaluation agrees with the plain boolean meaning of a
    constraint tree, and so does not depend on the order of children. */
module ConstraintMeaning {
  import opened Wrappers
  import opened StateNames
  import opened Constraints

  /** Some item is not the word 'xor'. */
  ghost predicate HasAlternative(items: seq<Json>) {
    items != [] && (items[0] != XOR || HasAlternative(items[1..]))
  }

  ghost predicate ProperItems(items: seq<Json>, selector: Option<string>) {
    forall i :: 0 <= i < |items| && items[i] != XOR ==> ProperChild(items[i], selector, None)
  }

  ghost predicate ProperFields(fields: seq<Field>, selector: Option<string>) {
    forall i :: 0 <= i < |fields| ==> ProperChild(fields[i].value, selector, Some(fields[i].key))
  }

  // ---------- what the children of a group are read as ----------

  /** A key that begins with a digit, and a place in an array, add nothing. */
  lemma PositionsAddNothing(mode: Mode, key: string, value: Json, selector: Option<string>)
    requires IsPosition(Some(key))
    ensures Verify(mode, Obj([Field(key, value)]), selector) == Verify(mode, value, selector)
    ensures value != Str("xor") ==> Verify(mode, Arr([value]), selector) == Verify(mode, value, selector)
  {
    var o := Verify(mode, value, selector);
    assert Check(mode, value, selector, Some(key)) == o == Check(mode, value, selector, None);
    OneField(mode, Field(key, value), selector);
    if value != Str("xor") { OneItem(mode, value, selector); }
  }

  lemma OneField(mode: Mode, f: Field, selector: Option<string>)
    ensures Verify(mode, Obj([f]), selector) == Check(mode, f.value, selector, Some(f.key))
  {
    var o := Check(mode, f.value, selector, Some(f.key));
    assert [f][1..] == [] && o.log + [] == o.log;
    assert AllOf(mode, [], selector, o.result) == Outcome(o.result, []);
  }

  lemma OneItem(mode: Mode, value: Json, selector: Option<string>)
    requires value != XOR
    ensures Verify(mode, Arr([value]), selector) == Check(mode, value, selector, None)
  {
    var o := Check(mode, value, selector, None);
    assert [value][1..] == [] && o.log + [] == o.log;
    assert SomeOf(mode, [], selector, true, o.result) == Outcome(o.result, []);
  }

  /** Any other key is a selector where none has been met. */
  lemma FirstKeyIsTheSelector(mode: Mode, key: string, value: Json)
    requires !IsPosition(Some(key))
    ensures Verify(mode, Obj([Field(key, value)]), None) == Verify(mode, value, Some(key))
  {
    OneField(mode, Field(key, value), None);
  }

  /** Under a selector it names a state: the verdict is whether the value of that state
      meets the reference, turned round if the name is an opposite, and nothing else is
      looked at. */
  lemma LeafVerdict(values: map<Lookup, Value>, sel: string, key: string, reference: Json)
    requires !IsPosition(Some(sel)) && !IsPosition(Some(key)) && NormalForm(key).Some?
    ensures var s, c := NormalForm(key).value, Obj([Field(sel, Obj([Field(key, reference)]))]);
      && Verify(Comparing(values), c, None) ==
           Outcome(Truth(Matches(reference, ValueAt(values, Lookup(sel, s.name))) != s.invert), [Lookup(sel, s.name)])
      && Leaves(c, None) == [Lookup(sel, s.name)]
  {
    var s, inner := NormalForm(key).value, Obj([Field(key, reference)]);
    FirstKeyIsTheSelector(Comparing(values), sel, inner);
    OneField(Comparing(values), Field(key, reference), Some(sel));
    ComparisonAnswers(reference, ValueAt(values, Lookup(sel, s.name)));
    FirstKeyIsTheSelector(Recording, sel, inner);
    OneField(Recording, Field(key, reference), Some(sel));
    DryRunSeesAll(Obj([Field(sel, inner)]), None);
  }

  /** An exclamation mark before the name of a state turns the verdict round. */
  lemma MarkTurnsTheVerdict(values: map<Lookup, Value>, sel: string, key: string, reference: Json)
    requires !IsPosition(Some(sel)) && !IsPosition(Some(key)) && NormalForm(key).Some?
    ensures var plain := Verify(Comparing(values), Obj([Field(sel, Obj([Field(key, reference)]))]), None);
      var marked := Verify(Comparing(values), Obj([Field(sel, Obj([Field("!" + key, reference)]))]), None);
      marked.log == plain.log && plain.result != U && marked.result == if plain.result == T then F else T
  {
    MarkNegates(key);
    LeafVerdict(values, sel, key, reference);
    LeafVerdict(values, sel, "!" + key, reference);
  }

  /** On a proper tree evaluation always answers, and answers what the tree means. */
  lemma {:induction false} VerifyMeans(values: map<Lookup, Value>, c: Json, selector: Option<string>)
    requires Proper(c, selector)
    ensures Verify(Comparing(values), c, selector).result == Truth(Holds(values, c, selector))
    decreases c, 0
  {
    match c
    case Arr(items) =>
      AlternativeExists(items);
      if XOR in items {
        ItemsMeanXor(values, items, selector, U);
      } else {
        ItemsMeanOr(values, items, selector, U);
        CountIsExists(values, items, selector);
      }
    case Obj(fields) => FieldsMeanAll(values, fields, selector, U);
  }

  lemma {:induction false} ChildMeans(values: map<Lookup, Value>, value: Json, selector: Option<string>, key: Option<string>)
    requires ProperChild(value, selector, key)
    ensures Check(Comparing(values), value, selector, key).result == Truth(ChildHolds(values, value, selector, key))
    decreases value, 1
  {
    match Read(selector, key)
    case Leaf(at, _) => ComparisonAnswers(value, if at in values then values[at] else Undefined);
    case Group(sel) => VerifyMeans(values, value, sel);
  }

  lemma {:induction false} ItemsMeanOr(values: map<Lookup, Value>, items: seq<Json>, selector: Option<string>, result: Tri)
    requires ProperItems(items, selector) && result != T
    ensures SomeOf(Comparing(values), items, selector, true, result).result ==
      if 0 < Count(values, items, selector) then T else if HasAlternative(items) then F else result
    decreases items
  {
    if items != [] {
      assert ProperItems(items[1..], selector);
      if items[0] == XOR {
        ItemsMeanOr(values, items[1..], selector, result);
      } else {
        ChildMeans(values, items[0], selector, None);
        ItemsMeanOr(values, items[1..], selector, F);
      }
    }
  }

  lemma {:induction false} ItemsMeanXor(values: map<Lookup, Value>, items: seq<Json>, selector: Option<string>, result: Tri)
    requires ProperItems(items, selector)
    ensures SomeOf(Comparing(values), items, selector, false, result).result ==
      var n := Count(values, items, selector) + if result == T then 1 else 0;
      if n == 1 then T else if 1 < n || HasAlternative(items) then F else result
    decreases items
  {
    if items != [] {
      assert ProperItems(items[1..], selector);
      if items[0] == XOR {
        ItemsMeanXor(values, items[1..], selector, result);
      } else {
        ChildMeans(values, items[0], selector, None);
        ItemsMeanXor(values, items[1..], selector, OrElse(result, Truth(ChildHolds(values, items[0], selector, None))));
      }
    }
  }

  lemma {:induction false} FieldsMeanAll(values: map<Lookup, Value>, fields: seq<Field>, selector: Option<string>, result: Tri)
    requires ProperFields(fields, selector) && result != F
    ensures AllOf(Comparing(values), fields, selector, result).result ==
      if fields == [] then result
      else Truth(forall i :: 0 <= i < |fields| ==> ChildHolds(values, fields[i].value, selector, Some(fields[i].key)))
    decreases fields
  {
    if fields != [] {
      ChildMeans(values, fields[0].value, selector, Some(fields[0].key));
      FieldsMeanAll(values, fields[1..], selector, T);
      if ChildHolds(values, fields[0].value, selector, Some(fields[0].key)) {
        assert forall i :: 0 < i < |fields| ==> fields[i] == fields[1..][i - 1];
        assert forall i :: 0 <= i < |fields| - 1 ==> fields[1..][i] == fields[i + 1];
      }
    }
  }

  lemma {:induction false} AlternativeExists(items: seq<Json>)
    ensures HasAlternative(items) <==> exists i :: 0 <= i < |items| && items[i] != XOR
  {
    if items != [] {
      AlternativeExists(items[1..]);
      if i :| 0 <= i < |items| && items[i] != XOR { assert i == 0 || items[1..][i - 1] == items[i]; }
    }
  }

  lemma {:induction false} CountIsExists(values: map<Lookup, Value>, items: seq<Json>, selector: Option<string>)
    requires IsOr(items)
    ensures 0 < Count(values, items, selector) <==>
      exists i :: 0 <= i < |items| && ChildHolds(values, items[i], selector, None)
    decreases items
  {
    if items != [] {
      CountIsExists(values, items[1..], selector);
      if i :| 0 <= i < |items| && ChildHolds(values, items[i], selector, None) {
        assert i == 0 || items[1..][i - 1] == items[i];
      }
    }
  }

  // ---------- reordering ----------

  ghost predicate Shuffled<X>(s: seq<X>, t: seq<X>) {
    multiset(s) == multiset(t)
  }

  /** Tree `b` is tree `a` with the children of any of its groups, at any depth, in any
      other order: the children are shuffled, and each may itself be reordered. */
  ghost predicate Reordered(a: Json, b: Json, selector: Option<string>)
    decreases a, 0
  {
    match a
    case Arr(items) =>
      b.Arr? && exists mid: seq<Json> ::
        && Shuffled(items, mid) && |mid| == |b.items|
        && forall i :: 0 <= i < |mid| ==> mid[i] in items && ReorderedChild(mid[i], b.items[i], selector, None)
    case Obj(fields) =>
      b.Obj? && exists mid: seq<Field> ::
        && Shuffled(fields, mid) && |mid| == |b.fields|
        && forall i :: 0 <= i < |mid| ==>
          && mid[i] in fields && b.fields[i].key == mid[i].key
          && ReorderedChild(mid[i].value, b.fields[i].value, selector, Some(mid[i].key))
    case _ => a == b
  }

  ghost predicate ReorderedChild(a: Json, b: Json, selector: Option<string>, key: Option<string>)
    decreases a, 1
  {
    if IsPosition(key) then Reordered(a, b, selector)
    else if selector.None? then Reordered(a, b, key)
    else a == b
  }

  lemma ShuffledElements<X>(s: seq<X>, t: seq<X>)
    requires Shuffled(s, t)
    ensures |s| == |t| && forall x :: x in s <==> x in t
  {
    assert |multiset(s)| == |multiset(t)|;
    forall x ensures x in s <==> x in t {
      assert x in multiset(s) <==> x in multiset(t);
    }
  }

  /** Taking one item out of an array takes its own count away. */
  lemma {:induction false} CountWithout(values: map<Lookup, Value>, items: seq<Json>, j: nat, selector: Option<string>)
    requires j < |items|
    ensures Count(values, items, selector) ==
      Count(values, [items[j]], selector) + Count(values, items[..j] + items[j + 1..], selector)
    decreases j
  {
    var rest := items[..j] + items[j + 1..];
    if j == 0 {
      assert rest == items[1..];
    } else {
      CountWithout(values, items[1..], j - 1, selector);
      assert rest[1..] == items[1..][..j - 1] + items[1..][j..];
    }
  }

  lemma {:induction false} CountOfShuffled(values: map<Lookup, Value>, s: seq<Json>, t: seq<Json>, selector: Option<string>)
    requires Shuffled(s, t)
    ensures Count(values, s, selector) == Count(values, t, selector)
    decreases |s|
  {
    ShuffledElements(s, t);
    if s != [] {
      assert s[0] in t;
      var j :| 0 <= j < |t| && t[j] == s[0];
      OneOut(s, t, j);
      CountOfShuffled(values, s[1..], t[..j] + t[j + 1..], selector);
      CountWithout(values, t, j, selector);
    }
  }

  lemma OneOut<X>(s: seq<X>, t: seq<X>, j: nat)
    requires Shuffled(s, t) && s != [] && j < |t| && t[j] == s[0]
    ensures Shuffled(s[1..], t[..j] + t[j + 1..])
  {
    assert s == [s[0]] + s[1..];
    assert t == t[..j] + [t[j]] + t[j + 1..];
    var rest := t[..j] + t[j + 1..];
    assert multiset(t) == multiset(rest) + multiset{s[0]};
    assert multiset(s) == multiset(s[1..]) + multiset{s[0]};
    assert multiset(rest) == multiset(t) - multiset{s[0]};
    assert multiset(s[1..]) == multiset(s) - multiset{s[0]};
  }

  lemma ShuffledItemsHold(values: map<Lookup, Value>, s: seq<Json>, t: seq<Json>, selector: Option<string>)
    requires Shuffled(s, t)
    ensures Holds(values, Arr(s), selector) == Holds(values, Arr(t), selector)
  {
    ShuffledElements(s, t);
    CountOfShuffled(values, s, t, selector);
    if XOR !in s {
      CountIsExists(values, s, selector);
      CountIsExists(values, t, selector);
    }
  }

  lemma ShuffledItemsProper(s: seq<Json>, t: seq<Json>, selector: Option<string>)
    requires Shuffled(s, t) && Proper(Arr(s), selector)
    ensures Proper(Arr(t), selector)
  {
    ShuffledElements(s, t);
    var i :| 0 <= i < |s| && s[i] != XOR;
    assert s[i] in t;
    forall k | 0 <= k < |t| && t[k] != XOR ensures ProperChild(t[k], selector, None) {
      assert t[k] in s;
    }
  }

  lemma {:induction false} ShuffledFields(values: map<Lookup, Value>, s: seq<Field>, t: seq<Field>, selector: Option<string>)
    requires Shuffled(s, t)
    ensures Holds(values, Obj(s), selector) ==> Holds(values, Obj(t), selector)
    ensures Proper(Obj(s), selector) ==> Proper(Obj(t), selector)
  {
    ShuffledElements(s, t);
    forall k | 0 <= k < |t| ensures t[k] in s { }
  }

  /** Two children that stand for each other. */
  ghost predicate SameChild(values: map<Lookup, Value>, selector: Option<string>, key: Option<string>, a: Json, b: Json) {
    && (a == XOR <==> b == XOR)
    && (ProperChild(a, selector, key) <==> ProperChild(b, selector, key))
    && (ChildHolds(values, a, selector, key) <==> ChildHolds(values, b, selector, key))
  }

  ghost predicate SameItems(values: map<Lookup, Value>, a: seq<Json>, b: seq<Json>, selector: Option<string>) {
    |a| == |b| && forall i :: 0 <= i < |a| ==> SameChild(values, selector, None, a[i], b[i])
  }

  lemma {:induction false} CountOfSame(values: map<Lookup, Value>, a: seq<Json>, b: seq<Json>, selector: Option<string>)
    requires SameItems(values, a, b, selector)
    ensures Count(values, a, selector) == Count(values, b, selector)
    decreases a
  {
    if a != [] {
      assert SameChild(values, selector, None, a[0], b[0]);
      assert forall i :: 0 <= i < |a[1..]| ==> a[1..][i] == a[i + 1] && b[1..][i] == b[i + 1];
      CountOfSame(values, a[1..], b[1..], selector);
    }
  }

  lemma SameItemsHold(values: map<Lookup, Value>, a: seq<Json>, b: seq<Json>, selector: Option<string>)
    requires SameItems(values, a, b, selector)
    ensures Holds(values, Arr(a), selector) == Holds(values, Arr(b), selector)
  {
    assert XOR in a <==> XOR in b;
    CountOfSame(values, a, b, selector);
  }

  lemma SameItemsProper(values: map<Lookup, Value>, a: seq<Json>, b: seq<Json>, selector: Option<string>)
    requires SameItems(values, a, b, selector)
    ensures Proper(Arr(a), selector) == Proper(Arr(b), selector)
  {
  }

  ghost predicate SameFields(values: map<Lookup, Value>, a: seq<Field>, b: seq<Field>, selector: Option<string>) {
    |a| == |b| && forall i :: 0 <= i < |a| ==>
      a[i].key == b[i].key && SameChild(values, selector, Some(a[i].key), a[i].value, b[i].value)
  }

  lemma SameFieldsAgree(values: map<Lookup, Value>, a: seq<Field>, b: seq<Field>, selector: Option<string>)
    requires SameFields(values, a, b, selector)
    ensures Holds(values, Obj(a), selector) == Holds(values, Obj(b), selector)
    ensures Proper(Obj(a), selector) == Proper(Obj(b), selector)
  {
    forall i | 0 <= i < |a|
      ensures ChildHolds(values, a[i].value, selector, Some(a[i].key)) == ChildHolds(values, b[i].value, selector, Some(b[i].key))
      ensures ProperChild(a[i].value, selector, Some(a[i].key)) == ProperChild(b[i].value, selector, Some(b[i].key))
    {
      assert SameChild(values, selector, Some(a[i].key), a[i].value, b[i].value);
    }
  }

  /** A reordered tree means the same, and has no empty group if the first has none. */
  lemma {:induction false} ReorderedMeansTheSame(values: map<Lookup, Value>, a: Json, b: Json, selector: Option<string>)
    requires Reordered(a, b, selector)
    ensures Holds(values, a, selector) == Holds(values, b, selector)
    ensures Proper(a, selector) == Proper(b, selector)
    decreases a, 1
  {
    match a
    case Arr(items) => ReorderedArray(values, a, b, selector);
    case Obj(fields) => ReorderedObject(values, a, b, selector);
    case _ =>
  }

  lemma {:induction false} ReorderedArray(values: map<Lookup, Value>, a: Json, b: Json, selector: Option<string>)
    requires Reordered(a, b, selector) && a.Arr?
    ensures Holds(values, a, selector) == Holds(values, b, selector)
    ensures Proper(a, selector) == Proper(b, selector)
    decreases a, 0
  {
    var mid: seq<Json> :| Shuffled(a.items, mid) && |mid| == |b.items| &&
      forall i :: 0 <= i < |mid| ==> mid[i] in a.items && ReorderedChild(mid[i], b.items[i], selector, None);
    forall i | 0 <= i < |mid| ensures SameChild(values, selector, None, mid[i], b.items[i]) {
      ChildMeansTheSame(values, mid[i], b.items[i], selector, None);
    }
    ReorderedItems(values, a.items, mid, b.items, selector);
  }

  lemma {:induction false} ReorderedObject(values: map<Lookup, Value>, a: Json, b: Json, selector: Option<string>)
    requires Reordered(a, b, selector) && a.Obj?
    ensures Holds(values, a, selector) == Holds(values, b, selector)
    ensures Proper(a, selector) == Proper(b, selector)
    decreases a, 0
  {
    var mid: seq<Field> :| Shuffled(a.fields, mid) && |mid| == |b.fields| &&
      forall i :: 0 <= i < |mid| ==>
        && mid[i] in a.fields && b.fields[i].key == mid[i].key
        && ReorderedChild(mid[i].value, b.fields[i].value, selector, Some(mid[i].key));
    forall i | 0 <= i < |mid|
      ensures mid[i].key == b.fields[i].key
      ensures SameChild(values, selector, Some(mid[i].key), mid[i].value, b.fields[i].value)
    {
      ChildMeansTheSame(values, mid[i].value, b.fields[i].value, selector, Some(mid[i].key));
    }
    ReorderedFields(values, a.fields, mid, b.fields, selector);
  }

  lemma ReorderedFields(values: map<Lookup, Value>, fields: seq<Field>, mid: seq<Field>, others: seq<Field>, selector: Option<string>)
    requires Shuffled(fields, mid) && SameFields(values, mid, others, selector)
    ensures Holds(values, Obj(fields), selector) == Holds(values, Obj(others), selector)
    ensures Proper(Obj(fields), selector) == Proper(Obj(others), selector)
  {
    ShuffledFields(values, fields, mid, selector);
    ShuffledFields(values, mid, fields, selector);
    SameFieldsAgree(values, mid, others, selector);
  }

  lemma ReorderedItems(values: map<Lookup, Value>, items: seq<Json>, mid: seq<Json>, others: seq<Json>, selector: Option<string>)
    requires Shuffled(items, mid) && SameItems(values, mid, others, selector)
    ensures Holds(values, Arr(items), selector) == Holds(values, Arr(others), selector)
    ensures Proper(Arr(items), selector) == Proper(Arr(others), selector)
  {
    ShuffledItemsHold(values, items, mid, selector);
    SameItemsHold(values, mid, others, selector);
    if Proper(Arr(items), selector) { ShuffledItemsProper(items, mid, selector); }
    if Proper(Arr(mid), selector) { ShuffledItemsProper(mid, items, selector); }
    SameItemsProper(values, mid, others, selector);
  }

  lemma {:induction false} ChildMeansTheSame(values: map<Lookup, Value>, a: Json, b: Json, selector: Option<string>, key: Option<string>)
    requires ReorderedChild(a, b, selector, key)
    ensures SameChild(values, selector, key, a, b)
    decreases a, 2
  {
    if IsPosition(key) {
      ReorderedMeansTheSame(values, a, b, selector);
    } else if selector.None? {
      ReorderedMeansTheSame(values, a, b, key);
    }
  }

  /** However the children of any groups are reordered, the verdict is the same. */
  lemma OrderDoesNotMatter(values: map<Lookup, Value>, a: Json, b: Json)
    requires Proper(a, None) && Reordered(a, b, None)
    ensures Verify(Comparing(values), a, None).result == Verify(Comparing(values), b, None).result
  {
    ReorderedMeansTheSame(values, a, b, None);
    VerifyMeans(values, a, None);
    VerifyMeans(values, b, None);
  }
}

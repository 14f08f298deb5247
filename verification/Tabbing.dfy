/** Tabbing contexts: a stack of constraints on which elements the tab key reaches.
    The active one overwrites attributes of the page, after saving them. */
module Tabbing {
  import opened Wrappers

  type Element = nat

  /** What makes an element reachable: by nature, by a tabindex, or never. */
  datatype Kind = Native | NeedsTabindex | Never

  datatype Attr = Attr(tabindex: Option<int>, autofocus: bool)

  type Attrs = map<Element, Attr>

  /** The saved attributes of an element, by level. */
  type Saved = map<Element, map<nat, Attr>>

  const HIDDEN := Attr(Some(-1), false)

  predicate Reachable(kind: Kind, a: Attr) {
    match kind
    case Native => a.tabindex.None? || 0 <= a.tabindex.value
    case NeedsTabindex => a.tabindex.Some? && 0 <= a.tabindex.value
    case Never => false
  }

  /** The tab key passes over every element with a negative tabindex, and over one without
      any unless it is reachable by nature. */
  lemma ReachableIff(kind: Kind, a: Attr)
    ensures Reachable(kind, a) <==> kind != Never && match a.tabindex case Some(t) => 0 <= t case None => kind == Native
  {
  }

  /** The elements the tab key reaches, in document order. */
  function Tabbable(order: seq<Element>, kinds: map<Element, Kind>, attrs: Attrs): (r: seq<Element>)
    requires forall i :: 0 <= i < |order| ==> order[i] in kinds && order[i] in attrs
    ensures forall e :: e in r <==> e in order && Reachable(kinds[e], attrs[e])
  {
    if order == [] then []
    else
      var r := Tabbable(order[1..], kinds, attrs);
      if Reachable(kinds[order[0]], attrs[order[0]]) then [order[0]] + r else r
  }

  function Without(es: seq<Element>, s: set<Element>): (r: seq<Element>)
    ensures forall e :: e in r <==> e in es && e !in s
  {
    if es == [] then []
    else if es[0] in s then Without(es[1..], s)
    else [es[0]] + Without(es[1..], s)
  }

  function Levels(saved: Saved, e: Element): map<nat, Attr> {
    if e in saved then saved[e] else map[]
  }

  /** The levels of `e` once it has been recorded, or not, at `level`. */
  function Recorded(saved: Saved, attrs: Attrs, recorded: bool, level: nat, e: Element): map<nat, Attr> {
    if recorded && e in attrs then Levels(saved, e)[level := attrs[e]] else Levels(saved, e)
  }

  /** The page with exactly the elements of `hidden` made unreachable. */
  ghost predicate Masked(original: Attrs, attrs: Attrs, hidden: set<Element>) {
    && attrs.Keys == original.Keys
    && forall e :: e in original ==> attrs[e] == if e in hidden then Attr(Some(-1), false) else original[e]
  }

  /** Exactly the elements of `hidden` have saved attributes, their original ones, at one level. */
  ghost predicate SavedAt(original: Attrs, saved: Saved, hidden: set<Element>, level: nat) {
    && hidden <= original.Keys
    && forall e :: Levels(saved, e) == if e in hidden then map[level := original[e]] else map[]
  }

  class Context {
    var level: nat
    var tabbable: set<Element>
    var disabled: seq<Element>
    var released: bool
    var active: bool

    constructor (level: nat, tabbable: set<Element>)
      ensures this.level == level && this.tabbable == tabbable && disabled == [] && !released && !active
    {
      this.level, this.tabbable, disabled, released, active := level, tabbable, [], false, false;
    }
  }

  class Manager {
    const order: seq<Element>
    const kinds: map<Element, Kind>
    ghost const original: Attrs
    var attrs: Attrs
    var saved: Saved
    var stack: seq<Context>
    /** Every context ever handed out. */
    ghost var issued: set<Context>

    constructor (order: seq<Element>, kinds: map<Element, Kind>, attrs: Attrs)
      requires kinds.Keys == attrs.Keys && forall e :: e in order <==> e in attrs
      ensures Valid() && stack == [] && issued == {} && original == attrs && this.attrs == attrs && this.kinds == kinds
    {
      this.order, this.kinds, this.original, this.attrs := order, kinds, attrs, attrs;
      saved, stack, issued := map[], [], {};
    }

    ghost predicate PageOk()
      reads this
    {
      kinds.Keys == original.Keys == attrs.Keys && forall e :: e in order <==> e in original
    }

    /** The elements reachable on the untouched page. */
    ghost function Natural(): set<Element>
      reads this
      requires PageOk()
    {
      set e | e in original && Reachable(kinds[e], original[e])
    }

    /** Nothing is constrained: the page is as it was and nothing is saved. */
    ghost predicate Clean()
      reads this
    {
      PageOk() && Masked(original, attrs, {}) && SavedAt(original, saved, {}, 0)
    }

    /** Context `c` is in force. */
    ghost predicate InForce(c: Context)
      reads this, c
    {
      && PageOk() && (forall e :: e in c.disabled <==> e in Natural() && e !in c.tabbable)
      && Masked(original, attrs, Natural() - c.tabbable)
      && SavedAt(original, saved, Natural() - c.tabbable, c.level)
    }

    ghost predicate StackOk()
      reads this, stack
    {
      PageOk() && forall i :: 0 <= i < |stack| ==> stack[i].level == i && stack[i].tabbable <= Natural()
    }

    /** The unreleased top is the only active context of the stack, and the page is masked for it. */
    ghost predicate Settled()
      reads this, stack
    {
      && StackOk()
      && (forall i :: 0 <= i < |stack| - 1 ==> !stack[i].active)
      && if stack == [] then Clean()
         else var top := stack[|stack| - 1]; top.active && !top.released && InForce(top)
    }

    /** A context that was handed out is on the stack, or has been released and is inactive. */
    ghost predicate Accounted()
      reads this, stack, issued
    {
      && (forall i :: 0 <= i < |stack| ==> stack[i] in issued)
      && (forall c :: c in issued ==> c in stack || (c.released && !c.active))
    }

    ghost predicate Valid()
      reads this, stack, issued
    {
      Settled() && Accounted()
    }

    /** What the tab key reaches now. */
    ghost function Reached(): set<Element>
      reads this
      requires PageOk()
    {
      set e | e in attrs && Reachable(kinds[e], attrs[e])
    }

    /** The tab key reaches exactly the active context's elements. */
    lemma ReachesTheActiveSet()
      requires Settled()
      ensures Reached() == if stack == [] then Natural() else stack[|stack| - 1].tabbable
    {
      if stack != [] {
        var top := stack[|stack| - 1];
        forall e ensures e in Reached() <==> e in top.tabbable {
          if e in original { assert attrs[e] == if e in Natural() - top.tabbable then HIDDEN else original[e]; }
        }
      } else {
        forall e ensures e in Reached() <==> e in Natural() {
          if e in original { assert attrs[e] == original[e]; }
        }
      }
    }

    /** Of all contexts ever handed out only the top of the stack is active. */
    lemma OnlyTheTopIsActive(c: Context)
      requires Valid() && c in issued
      ensures c.active <==> stack != [] && c == stack[|stack| - 1]
    {
      if c in stack {
        var i :| 0 <= i < |stack| && stack[i] == c;
        assert stack[i].level == i;
      }
    }

    /** The stack is empty exactly when every context ever handed out has been released,
        and then every tabindex and autofocus is the original. */
    lemma AllReleasedMeansRestored()
      requires Valid()
      ensures (forall c :: c in issued ==> c.released) <==> stack == []
      ensures (forall c :: c in issued ==> c.released) ==> attrs == original && forall e :: Levels(saved, e) == map[]
    {
      if stack != [] {
        assert stack[|stack| - 1] in issued;
      } else {
        assert forall e :: e in original ==> attrs[e] == original[e];
      }
    }

    /** `recordTabindex` for a list of elements. */
    method Record(es: seq<Element>, level: nat)
      requires forall i :: 0 <= i < |es| ==> es[i] in attrs
      modifies this`saved
      ensures forall e :: Levels(saved, e) == Recorded(old(saved), attrs, e in es, level, e)
    {
      for i := 0 to |es|
        invariant forall e :: Levels(saved, e) == Recorded(old(saved), attrs, e in es[..i], level, e)
      {
        var tabInfo := Levels(saved, es[i]);
        saved := saved[es[i] := tabInfo[level := attrs[es[i]]]];
        assert es[..i + 1] == es[..i] + [es[i]];
      }
      assert es[..|es|] == es;
    }

    /** Make a list of elements unreachable. */
    method Hide(es: seq<Element>)
      requires forall i :: 0 <= i < |es| ==> es[i] in attrs
      modifies this`attrs
      ensures attrs.Keys == old(attrs).Keys
      ensures forall e :: e in attrs ==> attrs[e] == if e in es then HIDDEN else old(attrs)[e]
    {
      for i := 0 to |es|
        invariant attrs.Keys == old(attrs).Keys
        invariant forall e :: e in attrs ==> attrs[e] == if e in es[..i] then HIDDEN else old(attrs)[e]
      {
        attrs := attrs[es[i] := HIDDEN];
        assert es[..i + 1] == es[..i] + [es[i]];
      }
      assert es[..|es|] == es;
    }

    /** `activate`: save and hide everything reachable outside the set. */
    method Activate(c: Context)
      requires Clean() && c.tabbable <= Natural()
      modifies this`attrs, this`saved, c`disabled
      ensures InForce(c)
    {
      assert forall e :: e in original ==> attrs[e] == original[e];
      var es := Without(Tabbable(order, kinds, attrs), c.tabbable);
      c.disabled := es;
      assert forall e :: e in es <==> e in Natural() && e !in c.tabbable;
      assert forall i :: 0 <= i < |es| ==> es[i] in es;
      Record(es, c.level);
      Hide(es);
    }

    /** `restoreTabindex` for one element. */
    method Restore(e: Element, level: nat)
      requires e in attrs
      modifies this`attrs, this`saved
      ensures attrs == if level in Levels(old(saved), e)
                       then old(attrs)[e := Restored(old(attrs)[e], Levels(old(saved), e)[level])] else old(attrs)
      ensures forall x :: x != e ==> Levels(saved, x) == Levels(old(saved), x)
      ensures var before, after := Levels(old(saved), e), Levels(saved, e);
        if level !in before then after == before
        else if level == 0 then after == map[]
        else WithoutRun(before, after, level)
    {
      var tabInfo: map<nat, Attr> := Levels(saved, e);
      if level in tabInfo {
        attrs := attrs[e := Restored(attrs[e], tabInfo[level])];
        if level == 0 {
          saved := saved - {e};
        } else {
          tabInfo := DeleteLevels(tabInfo, level);
          saved := saved[e := tabInfo];
        }
      }
    }

    /** Restoring one element takes it out of the hidden ones. */
    method Unhide(e: Element, level: nat, ghost hidden: set<Element>)
      requires PageOk() && e in attrs && Masked(original, attrs, hidden) && SavedAt(original, saved, hidden, level)
      modifies this`attrs, this`saved
      ensures PageOk() && Masked(original, attrs, hidden - {e}) && SavedAt(original, saved, hidden - {e}, level)
    {
      ghost var saved0 := saved;
      assert Levels(saved, e) == if e in hidden then map[level := original[e]] else map[];
      Restore(e, level);
      if level in Levels(saved0, e) && level != 0 { OneLevel(Levels(saved0, e), Levels(saved, e), level); }
    }

    /** `deactivate`: put back what was saved. */
    method Deactivate(c: Context)
      requires InForce(c)
      modifies this`attrs, this`saved
      ensures Clean()
    {
      var es := c.disabled;
      assert Pending(es, 0) == Natural() - c.tabbable;
      for i := 0 to |es|
        invariant PageOk() && Masked(original, attrs, Pending(es, i)) && SavedAt(original, saved, Pending(es, i), c.level)
      {
        assert es[i] in es;
        PendingStep(es, i);
        Unhide(es[i], c.level, Pending(es, i));
      }
      PendingEnd(es);
    }

    /** The context's own `activate`: a released or active one is left alone. */
    method ActivateContext(c: Context)
      requires PageOk() && c.tabbable <= Natural()
      requires if c.active then InForce(c) else Clean()
      modifies this`attrs, this`saved, c`disabled, c`active
      ensures c.active == (old(c.active) || !c.released)
      ensures if c.active then InForce(c) else Clean()
    {
      if !c.active && !c.released {
        c.active := true;
        Activate(c);
      }
    }

    /** The context's own `deactivate`. */
    method DeactivateContext(c: Context)
      requires c.active ==> InForce(c)
      modifies this`attrs, this`saved, c`active
      ensures !c.active && (old(c.active) ==> Clean())
      ensures !old(c.active) ==> attrs == old(attrs) && saved == old(saved)
    {
      if c.active {
        c.active := false;
        Deactivate(c);
      }
    }

    /** Nothing is active except possibly the top, which is then in force. */
    ghost predicate TopOnly()
      reads this, stack
    {
      && StackOk()
      && (forall i :: 0 <= i < |stack| - 1 ==> !stack[i].active)
      && if stack != [] && stack[|stack| - 1].active
         then !stack[|stack| - 1].released && InForce(stack[|stack| - 1]) else Clean()
    }

    method DeactivateOne(c: Context)
      requires TopOnly() && c in stack
      modifies this`attrs, this`saved, c`active
      ensures TopOnly() && !c.active
    {
      DeactivateContext(c);
    }

    /** Deactivate every context: only the top one has an effect. */
    method DeactivateAll()
      requires TopOnly()
      modifies this`attrs, this`saved, stack`active
      ensures StackOk() && Clean() && forall i :: 0 <= i < |stack| ==> !stack[i].active
    {
      for i := 0 to |stack|
        invariant TopOnly() && forall k :: 0 <= k < i ==> !stack[k].active
      {
        DeactivateOne(stack[i]);
      }
    }

    /** The elements among the given ones that are reachable on the untouched page. */
    method FindTabbable(elements: set<Element>) returns (tabbable: set<Element>)
      requires Clean()
      ensures tabbable == Natural() * elements
    {
      assert forall e :: e in original ==> attrs[e] == original[e];
      var all := Tabbable(order, kinds, attrs);
      tabbable := set e | e in all && e in elements;
    }

    /** Put a new context on top of inactive ones. */
    method Push(tabbable: set<Element>) returns (c: Context)
      requires StackOk() && Clean() && tabbable <= Natural()
      requires forall i :: 0 <= i < |stack| ==> !stack[i].active
      modifies this`attrs, this`saved, this`stack, this`issued
      ensures Settled() && fresh(c) && stack == old(stack) + [c] && issued == old(issued) + {c}
      ensures c.tabbable == tabbable
    {
      c := new Context(|stack|, tabbable);
      stack, issued := stack + [c], issued + {c};
      ActivateContext(c);
    }

    /** `constrain`: a new context on top, for the given elements as far as they are
        reachable on the untouched page. */
    method Constrain(elements: set<Element>) returns (c: Context)
      requires Valid()
      modifies this`attrs, this`saved, this`stack, this`issued, stack`active
      ensures Valid() && fresh(c) && stack == old(stack) + [c] && issued == old(issued) + {c}
      ensures c.tabbable == Natural() * elements
    {
      DeactivateAll();
      var tabbable := FindTabbable(elements);
      c := Push(tabbable);
    }

    /** The manager's `release`: unwind to the topmost unreleased context and activate it. */
    method Unwind()
      requires TopOnly()
      modifies this`attrs, this`saved, this`stack, stack`active, stack`disabled
      ensures Settled() && |stack| <= |old(stack)| && stack == old(stack)[..|stack|]
      ensures forall i :: |stack| <= i < |old(stack)| ==> old(stack)[i].released && !old(stack)[i].active
    {
      var toActivate := |stack| - 1;
      while 0 <= toActivate && stack[toActivate].released
        invariant -1 <= toActivate < |stack|
        invariant forall i :: toActivate < i < |stack| ==> stack[i].released
      {
        toActivate := toActivate - 1;
      }
      stack := stack[..toActivate + 1];
      if 0 <= toActivate {
        ActivateContext(stack[toActivate]);
      }
    }

    /** Take a context of the stack out of force and mark it. */
    method Retire(c: Context)
      requires Settled() && c in stack
      modifies this`attrs, this`saved, c`active, c`released
      ensures TopOnly() && c.released && !c.active
    {
      DeactivateContext(c);
      c.released := true;
    }

    /** Releasing any context that was handed out, in any order, again or for the first time. */
    method Release(c: Context)
      requires Valid() && c in issued
      modifies this`attrs, this`saved, this`stack, stack`active, stack`disabled, c`released
      ensures Valid() && c.released && |stack| <= |old(stack)| && stack == old(stack)[..|stack|]
      ensures forall i :: |stack| <= i < |old(stack)| ==> old(stack)[i].released
    {
      if !c.released {
        Retire(c);
        Unwind();
      }
    }
  }

  /** What the code of a page may ask for: a new context, or the release of the one
      handed out as number `k`, whether or not it has been released before. */
  datatype Request = Constrains(elements: set<Element>) | Releases(k: nat)

  /** Any interleaving of requests: whatever was asked for, in whatever order, the tab key
      reaches exactly the elements of the one active context, and once every context handed
      out has been released the page is what it was. */
  method Session(m: Manager, requests: seq<Request>) returns (handed: seq<Context>)
    requires m.Valid() && m.issued == {}
    modifies m
    ensures m.Valid() && forall c :: c in m.issued <==> c in handed
    ensures m.Reached() == if m.stack == [] then m.Natural() else m.stack[|m.stack| - 1].tabbable
    ensures forall c :: c in handed ==> (c.active <==> m.stack != [] && c == m.stack[|m.stack| - 1])
    ensures (forall c :: c in handed ==> c.released) ==> m.stack == [] && m.attrs == m.original
  {
    handed := [];
    for i := 0 to |requests|
      invariant m.Valid() && (forall c :: c in m.issued <==> c in handed)
      invariant forall c :: c in m.issued ==> fresh(c)
    {
      match requests[i]
      case Constrains(elements) =>
        var c := m.Constrain(elements);
        handed := handed + [c];
      case Releases(k) =>
        if k < |handed| {
          assert handed[k] in m.issued;
          m.Release(handed[k]);
        }
    }
    m.ReachesTheActiveSet();
    m.AllReleasedMeansRestored();
    forall c | c in handed ensures c.active <==> m.stack != [] && c == m.stack[|m.stack| - 1] {
      m.OnlyTheTopIsActive(c);
    }
  }

  /** The elements of a list not yet met in its first `i`. */
  ghost function Pending(es: seq<Element>, i: nat): set<Element>
    requires i <= |es|
  {
    set e | e in es && e !in es[..i]
  }

  lemma PendingStep(es: seq<Element>, i: nat)
    requires i < |es|
    ensures Pending(es, i + 1) == Pending(es, i) - {es[i]}
  {
    assert es[..i + 1] == es[..i] + [es[i]];
  }

  lemma PendingEnd(es: seq<Element>)
    ensures Pending(es, |es|) == {}
  {
    assert es[..|es|] == es;
  }

  /** `after` is `before` without the levels from `level` up to `top`, all of them there
      before, and `top` not. */
  ghost predicate WithoutSpan(before: map<nat, Attr>, after: map<nat, Attr>, level: nat, top: nat) {
    && level < top && top !in before && (forall l :: level <= l < top ==> l in before)
    && (forall l :: l in after <==> l in before && !(level <= l < top))
    && (forall l :: l in after ==> after[l] == before[l])
  }

  ghost predicate WithoutRun(before: map<nat, Attr>, after: map<nat, Attr>, level: nat) {
    exists top: nat :: WithoutSpan(before, after, level, top)
  }

  /** Without its only level nothing is left. */
  lemma OneLevel(m: map<nat, Attr>, r: map<nat, Attr>, level: nat)
    requires (forall l :: l in m ==> l == level) && WithoutRun(m, r, level)
    ensures r == map[]
  {
  }

  /** Delete a level and those directly above it, and no other. */
  method DeleteLevels(tabInfo: map<nat, Attr>, level: nat) returns (r: map<nat, Attr>)
    requires level in tabInfo
    ensures WithoutRun(tabInfo, r, level)
  {
    r := tabInfo;
    var levelToDelete: nat := level;
    while levelToDelete in r
      invariant level <= levelToDelete
      invariant forall l :: level <= l < levelToDelete ==> l in tabInfo
      invariant forall l :: l in r <==> l in tabInfo && !(level <= l < levelToDelete)
      invariant forall l :: l in r ==> r[l] == tabInfo[l]
      decreases |r|
    {
      Smaller(r, levelToDelete);
      r := r - {levelToDelete};
      levelToDelete := levelToDelete + 1;
    }
    assert WithoutSpan(tabInfo, r, level, levelToDelete);
  }

  /** `restoreTabindex` sets or removes the tabindex, and only ever adds autofocus. */
  function Restored(a: Attr, data: Attr): Attr {
    Attr(data.tabindex, a.autofocus || data.autofocus)
  }

  lemma Smaller(m: map<nat, Attr>, k: nat)
    requires k in m
    ensures |m - {k}| < |m|
  {
    assert (m - {k}).Keys == m.Keys - {k};
    assert |m.Keys - {k}| == |m.Keys| - 1;
  }
}

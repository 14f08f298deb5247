/** State names of the form-states library: leading exclamation marks negate,
    and a table of aliases gives some names their inverse or plain counterpart. */
module StateNames {
  import opened Wrappers

  datatype State = State(name: string, invert: bool)

  /** An alias stands for `base`, or for its opposite. */
  datatype Alias = Alias(negated: bool, base: string)

  function AliasOf(name: string): Option<Alias> {
    if name == "enabled" then Some(Alias(true, "disabled"))
    else if name == "invisible" then Some(Alias(true, "visible"))
    else if name == "invalid" then Some(Alias(true, "valid"))
    else if name == "untouched" then Some(Alias(true, "touched"))
    else if name == "optional" then Some(Alias(true, "required"))
    else if name == "filled" then Some(Alias(true, "empty"))
    else if name == "unchecked" then Some(Alias(true, "checked"))
    else if name == "irrelevant" then Some(Alias(true, "relevant"))
    else if name == "expanded" then Some(Alias(true, "collapsed"))
    else if name == "open" then Some(Alias(true, "collapsed"))
    else if name == "closed" then Some(Alias(false, "collapsed"))
    else if name == "readwrite" then Some(Alias(true, "readonly"))
    else None
  }

  /** The text an alias is replaced by. */
  function AliasText(a: Alias): string {
    if a.negated then "!" + a.base else a.base
  }

  /** Names every object inherits: the `in` test finds them, and what it finds is
      not a string, so normalisation throws. */
  predicate Inherited(name: string) {
    name in ["constructor", "toString", "toLocaleString", "valueOf", "hasOwnProperty", "isPrototypeOf",
             "propertyIsEnumerable", "__proto__", "__defineGetter__", "__defineSetter__",
             "__lookupGetter__", "__lookupSetter__"]
  }

  function Strip(s: string): (r: string)
    ensures r == [] || r[0] != '!'
  {
    if s != [] && s[0] == '!' then Strip(s[1..]) else s
  }

  /** Whether an odd number of exclamation marks leads the text. */
  function Odd(s: string): bool {
    if s != [] && s[0] == '!' then !Odd(s[1..]) else false
  }

  /** The normal form, or nothing where normalisation throws. */
  function NormalForm(s: string): Option<State> {
    var name := Strip(s);
    match AliasOf(name)
    case Some(a) => Some(State(a.base, Odd(s) != a.negated))
    case None => if Inherited(name) then None else Some(State(name, Odd(s)))
  }

  /** No alias leads to another alias, to a negation or to an inherited name. */
  lemma AliasesAreOneStep(name: string, a: Alias)
    requires AliasOf(name) == Some(a)
    ensures AliasOf(a.base) == None && !Inherited(a.base)
    ensures a.base != [] && a.base[0] != '!'
    ensures Strip(AliasText(a)) == a.base && Odd(AliasText(a)) == a.negated
  {
    BaseIsNoAlias(name, a);
    BaseIsNotInherited(name, a);
    BaseIsPlain(name, a);
    if a.negated {
      assert AliasText(a)[1..] == a.base;
    }
  }

  lemma BaseIsNoAlias(name: string, a: Alias)
    requires AliasOf(name) == Some(a)
    ensures AliasOf(a.base) == None
  {
  }

  /** The inherited names are told apart from the others by length and first letters. */
  ghost predicate Foreign(name: string) {
    || |name| == 11 || 13 <= |name| || (|name| == 8 && name[0] == 't') || (|name| == 7 && name[1] == 'a')
    || (name != "" && name[0] == '_')
  }

  lemma InheritedIsForeign(name: string)
    requires Inherited(name)
    ensures Foreign(name)
  {
  }

  lemma BaseIsNotForeign(name: string, a: Alias)
    requires AliasOf(name) == Some(a)
    ensures !Foreign(a.base) && !Foreign(name)
  {
  }

  lemma BaseIsNotInherited(name: string, a: Alias)
    requires AliasOf(name) == Some(a)
    ensures !Inherited(a.base)
  {
    BaseIsNotForeign(name, a);
    if Inherited(a.base) { InheritedIsForeign(a.base); }
  }

  lemma BaseIsPlain(name: string, a: Alias)
    requires AliasOf(name) == Some(a)
    ensures a.base != [] && a.base[0] != '!'
  {
  }

  /** The `State` constructor: strip marks, look up an alias, and repeat. It ends
      for every string, in a result or in the throw. */
  method Normalize(pristine: string) returns (r: Option<State>)
    ensures r == NormalForm(pristine)
  {
    var name, invert, process := pristine, false, true;
    ghost var steps := if AliasOf(Strip(name)).Some? then 1 else 0;
    while process
      invariant steps == 1 ==> AliasOf(Strip(name)).Some? && name == pristine && !invert
      invariant steps == 0 ==> AliasOf(Strip(name)).None?
      invariant 0 <= steps <= 1
      invariant !process ==> steps == 0 && Strip(name) == name && !Inherited(name)
      invariant steps == 0 ==> Inherited(Strip(name)) == NormalForm(pristine).None?
      invariant steps == 0 && !Inherited(Strip(name)) ==>
        NormalForm(pristine) == Some(State(Strip(name), invert != Odd(name)))
      decreases steps, process
    {
      ghost var name0, invert0 := name, invert;
      while name != [] && name[0] == '!'
        invariant Strip(name) == Strip(name0)
        invariant (invert != Odd(name)) == (invert0 != Odd(name0))
        decreases |name|
      {
        name := name[1..];
        invert := !invert;
      }
      assert Strip(name) == name;
      match AliasOf(name)
      case Some(a) =>
        AliasesAreOneStep(name, a);
        name := AliasText(a);
        steps := 0;
      case None =>
        if Inherited(name) { return None; }
        process := false;
    }
    r := Some(State(name, invert));
  }

  /** What a possibly negated name says, given what the plain names say. */
  ghost function Says(sem: string -> bool, s: string): bool {
    if s != [] && s[0] == '!' then !Says(sem, s[1..]) else sem(s)
  }

  /** A reading of the plain names under which every alias means its definition. */
  ghost predicate RespectsAliases(sem: string -> bool) {
    forall name :: AliasOf(name).Some? ==> sem(name) == Says(sem, AliasText(AliasOf(name).value))
  }

  lemma {:induction false} SaysStripped(sem: string -> bool, s: string)
    ensures Says(sem, s) == (sem(Strip(s)) != Odd(s))
  {
    if s != [] && s[0] == '!' { SaysStripped(sem, s[1..]); }
  }

  /** Normalising keeps the meaning under every reading that respects the aliases. */
  lemma NormalFormKeepsMeaning(sem: string -> bool, s: string)
    requires RespectsAliases(sem) && NormalForm(s).Some?
    ensures Says(sem, s) == (Says(sem, NormalForm(s).value.name) != NormalForm(s).value.invert)
  {
    SaysStripped(sem, s);
    match AliasOf(Strip(s))
    case Some(a) =>
      AliasesAreOneStep(Strip(s), a);
      SaysStripped(sem, AliasText(a));
    case None =>
  }

  /** One more exclamation mark turns the normal form into its opposite. */
  lemma MarkNegates(s: string)
    ensures NormalForm("!" + s) ==
      match NormalForm(s)
      case Some(state) => Some(State(state.name, !state.invert))
      case None => None
  {
    assert ("!" + s)[1..] == s;
  }

  /** `a` and `b` are one state, and one is the opposite of the other. */
  ghost predicate Opposites(a: string, b: string) {
    && NormalForm(a).Some? && NormalForm(b).Some?
    && NormalForm(a).value.name == NormalForm(b).value.name && NormalForm(a).value.invert != NormalForm(b).value.invert
  }

  /** The opposites that have names, by name: what may be done with an element, */
  lemma OppositesOfUse()
    ensures Opposites("enabled", "disabled") && Opposites("optional", "required") && Opposites("readwrite", "readonly")
  {
    AliasIs("enabled", true, "disabled");
    AliasIs("optional", true, "required");
    AliasIs("readwrite", true, "readonly");
  }

  /** what it holds, */
  lemma OppositesOfContent()
    ensures Opposites("filled", "empty") && Opposites("unchecked", "checked") && Opposites("invalid", "valid")
  {
    AliasIs("filled", true, "empty");
    AliasIs("unchecked", true, "checked");
    AliasIs("invalid", true, "valid");
  }

  /** how it stands on the page, */
  lemma OppositesOfSight()
    ensures Opposites("invisible", "visible") && Opposites("untouched", "touched") && Opposites("irrelevant", "relevant")
  {
    AliasIs("invisible", true, "visible");
    AliasIs("untouched", true, "touched");
    AliasIs("irrelevant", true, "relevant");
  }

  /** and whether it is folded up, which has two pairs of names. */
  lemma OppositesOfFolding()
    ensures Opposites("expanded", "collapsed") && Opposites("open", "closed")
    ensures NormalForm("open") == NormalForm("expanded") && NormalForm("closed") == NormalForm("collapsed")
  {
    AliasIs("expanded", true, "collapsed");
    AliasIs("open", true, "collapsed");
    AliasIs("closed", false, "collapsed");
  }

  /** An alias normalises to the base it names, and the base to itself. */
  lemma AliasIs(name: string, negated: bool, base: string)
    requires AliasOf(name) == Some(Alias(negated, base)) && name != [] && name[0] != '!'
    ensures NormalForm(name) == Some(State(base, negated)) && NormalForm(base) == Some(State(base, false))
  {
    AliasesAreOneStep(name, Alias(negated, base));
    PlainIsNormal(base);
  }

  /** Normal names are their own normal form, and normalisation fails exactly on
      the inherited names. */
  lemma NormalFormIsIdempotent(s: string)
    ensures NormalForm(s).None? <==> Inherited(Strip(s))
    ensures NormalForm(s).Some? ==> NormalForm(NormalForm(s).value.name) == Some(State(NormalForm(s).value.name, false))
  {
    match AliasOf(Strip(s))
    case Some(a) =>
      AliasesAreOneStep(Strip(s), a);
      AliasIsNotInherited(Strip(s));
      PlainIsNormal(a.base);
    case None =>
      if !Inherited(Strip(s)) { PlainIsNormal(Strip(s)); }
  }

  /** The names every object inherits have no normal form: the constructor throws. */
  lemma InheritedNamesThrow(name: string)
    requires name in ["constructor", "toString", "toLocaleString", "valueOf", "hasOwnProperty", "isPrototypeOf",
                      "propertyIsEnumerable", "__proto__", "__defineGetter__", "__defineSetter__",
                      "__lookupGetter__", "__lookupSetter__"]
    ensures NormalForm(name) == None
  {
    assert Inherited(name);
    if AliasOf(name).Some? { AliasIsNotInherited(name); }
  }

  lemma PlainIsNormal(name: string)
    requires AliasOf(name).None? && !Inherited(name) && (name == [] || name[0] != '!')
    ensures NormalForm(name) == Some(State(name, false))
  {
  }

  lemma AliasIsNotInherited(name: string)
    requires AliasOf(name).Some?
    ensures !Inherited(name)
  {
    BaseIsNotForeign(name, AliasOf(name).value);
    if Inherited(name) { InheritedIsForeign(name); }
  }
}

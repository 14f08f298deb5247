/** Placeholder substitution: split by the longest key, treat the pieces with the
    remaining keys, and join them with the key's value. */
module StringReplace {
  import opened Wrappers

  ghost predicate OccursAt(s: string, key: string, i: nat) {
    i + |key| <= |s| && s[i..i + |key|] == key
  }

  ghost predicate Contains(s: string, key: string) {
    exists i: nat :: OccursAt(s, key, i)
  }

  /** The first occurrence of `key` from `i` on. */
  function Find(s: string, key: string, i: nat): (r: Option<nat>)
    requires i <= |s|
    ensures r.Some? ==> i <= r.value && r.value + |key| <= |s|
    decreases |s| - i
  {
    if i + |key| <= |s| && s[i..i + |key|] == key then Some(i)
    else if i == |s| then None
    else Find(s, key, i + 1)
  }

  lemma {:induction false} FindIsFirst(s: string, key: string, i: nat)
    requires i <= |s|
    ensures Find(s, key, i).Some? ==>
      OccursAt(s, key, Find(s, key, i).value) && forall j :: i <= j < Find(s, key, i).value ==> !OccursAt(s, key, j)
    ensures Find(s, key, i).None? ==> forall j :: i <= j ==> !OccursAt(s, key, j)
    decreases |s| - i
  {
    if !OccursAt(s, key, i) && i < |s| { FindIsFirst(s, key, i + 1); }
  }

  /** `split`: cut at the non-overlapping occurrences from left to right. The empty
      key cuts between all characters. */
  function Split(s: string, key: string): (r: seq<string>)
    ensures r != []
  {
    if key == "" then Characters(s) else Cut(s, key)
  }

  function Characters(s: string): (r: seq<string>)
    ensures r != []
    ensures s != "" ==> |r| == |s| && forall i :: 0 <= i < |s| ==> r[i] == [s[i]]
  {
    if |s| <= 1 then [s] else [s[..1]] + Characters(s[1..])
  }

  function Cut(s: string, key: string): (r: seq<string>)
    requires key != ""
    ensures r != []
    decreases |s|
  {
    match Find(s, key, 0)
    case None => [s]
    case Some(i) => [s[..i]] + Cut(s[i + |key|..], key)
  }

  function Join(parts: seq<string>, sep: string): string
    requires parts != []
  {
    if |parts| == 1 then parts[0] else parts[0] + sep + Join(parts[1..], sep)
  }

  type Args = map<string, string>

  ghost predicate KeysIn(keys: seq<string>, args: Args) {
    forall i :: 0 <= i < |keys| ==> keys[i] in args
  }

  /** `stringReplace`, taking the last key first. */
  function Replace(s: string, args: Args, keys: seq<string>): string
    requires KeysIn(keys, args)
    decreases |keys|, 0
  {
    if s == "" || keys == [] then s
    else
      var n := |keys| - 1;
      Join(ReplaceAll(Split(s, keys[n]), args, keys[..n]), args[keys[n]])
  }

  function ReplaceAll(parts: seq<string>, args: Args, keys: seq<string>): (r: seq<string>)
    requires KeysIn(keys, args)
    ensures |r| == |parts|
    decreases |keys|, |parts| + 1
  {
    if parts == [] then [] else [Replace(parts[0], args, keys)] + ReplaceAll(parts[1..], args, keys)
  }

  /** `stringReplace` itself: take the last key, split by it, treat the fragments
      with the keys that are left, and join them. */
  method ReplaceKeys(s: string, args: Args, keys: seq<string>) returns (r: string)
    requires KeysIn(keys, args)
    ensures r == Replace(s, args, keys)
    decreases |keys|, 0
  {
    if s == "" || keys == [] { return s; }
    var n := |keys| - 1;
    var fragments := Split(s, keys[n]);
    if keys[..n] != [] {
      fragments := ReplaceFragments(fragments, args, keys[..n]);
    } else {
      NothingToReplace(fragments, args);
    }
    r := Join(fragments, args[keys[n]]);
  }

  /** The loop: each fragment is overwritten by its own replacement. */
  method ReplaceFragments(parts: seq<string>, args: Args, keys: seq<string>) returns (fragments: seq<string>)
    requires KeysIn(keys, args)
    ensures fragments == ReplaceAll(parts, args, keys)
    decreases |keys|, 1
  {
    fragments := parts;
    for i := 0 to |parts|
      invariant |fragments| == |parts|
      invariant forall k :: 0 <= k < i ==> fragments[k] == ReplaceAll(parts, args, keys)[k]
      invariant forall k :: i <= k < |parts| ==> fragments[k] == parts[k]
    {
      var f := ReplaceKeys(fragments[i], args, keys);
      ReplaceAllAt(parts, args, keys, i);
      fragments := fragments[i := f];
    }
  }

  lemma {:induction false} ReplaceAllAt(parts: seq<string>, args: Args, keys: seq<string>, i: nat)
    requires KeysIn(keys, args) && i < |parts|
    ensures ReplaceAll(parts, args, keys)[i] == Replace(parts[i], args, keys)
    decreases i
  {
    if 0 < i { ReplaceAllAt(parts[1..], args, keys, i - 1); }
  }

  lemma {:induction false} NothingToReplace(parts: seq<string>, args: Args)
    ensures ReplaceAll(parts, args, []) == parts
  {
    if parts != [] { NothingToReplace(parts[1..], args); }
  }

  // ---------- literals and keys ----------

  /** The input read as untouched text and occurrences of keys. */
  datatype Token = Lit(text: string) | Key(key: string)

  /** The split of the input, which does not look at the replacement values. */
  function Tokens(s: string, keys: seq<string>): seq<Token>
    decreases |keys|, 0
  {
    if s == "" || keys == [] then [Lit(s)]
    else TokensOf(Split(s, keys[|keys| - 1]), keys)
  }

  function TokensOf(parts: seq<string>, keys: seq<string>): seq<Token>
    requires parts != [] && keys != []
    decreases |keys| - 1, |parts| + 1
  {
    var n := |keys| - 1;
    var head := Tokens(parts[0], keys[..n]);
    if |parts| == 1 then head else head + [Key(keys[n])] + TokensOf(parts[1..], keys)
  }

  /** The text the tokens were read from. */
  function Text(ts: seq<Token>): string {
    if ts == [] then "" else (match ts[0] case Lit(t) => t case Key(k) => k) + Text(ts[1..])
  }

  /** The text with every key replaced by its value, and nothing else changed. */
  function Render(ts: seq<Token>, args: Args): string {
    if ts == [] then ""
    else (match ts[0] case Lit(t) => t case Key(k) => if k in args then args[k] else k) + Render(ts[1..], args)
  }

  lemma {:induction false} TextOfConcat(a: seq<Token>, b: seq<Token>)
    ensures Text(a + b) == Text(a) + Text(b)
  {
    if a == [] {
      assert a + b == b;
    } else {
      assert (a + b)[1..] == a[1..] + b;
      TextOfConcat(a[1..], b);
    }
  }

  lemma {:induction false} RenderOfConcat(a: seq<Token>, b: seq<Token>, args: Args)
    ensures Render(a + b, args) == Render(a, args) + Render(b, args)
  {
    if a == [] {
      assert a + b == b;
    } else {
      assert (a + b)[1..] == a[1..] + b;
      RenderOfConcat(a[1..], b, args);
    }
  }

  lemma JoinCons(part: string, parts: seq<string>, sep: string)
    requires parts != []
    ensures Join([part] + parts, sep) == part + sep + Join(parts, sep)
  {
    assert ([part] + parts)[1..] == parts;
  }

  lemma CutAt(s: string, key: string, i: nat)
    requires OccursAt(s, key, i)
    ensures s == s[..i] + key + s[i + |key|..]
  {
  }

  lemma SliceOfSlice(s: string, a: nat, b: nat, i: nat, n: nat)
    requires a + i + n <= b <= |s|
    ensures s[a..b][i..i + n] == s[a + i..a + i + n]
  {
    var x, y := s[a..b][i..i + n], s[a + i..a + i + n];
    assert |x| == |y|;
    forall k | 0 <= k < n ensures x[k] == y[k] {
      assert x[k] == s[a..b][i + k];
    }
  }

  lemma {:induction false} JoinOfCharacters(s: string)
    ensures Join(Characters(s), "") == s
  {
    if 1 < |s| {
      JoinOfCharacters(s[1..]);
      JoinCons(s[..1], Characters(s[1..]), "");
    }
  }

  lemma {:induction false} JoinOfCut(s: string, key: string)
    requires key != ""
    ensures Join(Cut(s, key), key) == s
    decreases |s|
  {
    if Find(s, key, 0).Some? {
      var i := Find(s, key, 0).value;
      JoinOfCut(s[i + |key|..], key);
      JoinCons(s[..i], Cut(s[i + |key|..], key), key);
      FindIsFirst(s, key, 0);
      CutAt(s, key, i);
    }
  }

  lemma JoinOfSplit(s: string, key: string)
    ensures Join(Split(s, key), key) == s
  {
    if key == "" { JoinOfCharacters(s); } else { JoinOfCut(s, key); }
  }

  /** Nothing of the input is lost: the tokens spell it out. */
  lemma {:induction false} TokensSpellTheInput(s: string, keys: seq<string>)
    ensures Text(Tokens(s, keys)) == s
    decreases |keys|, 0
  {
    if s != "" && keys != [] {
      var key := keys[|keys| - 1];
      TokensOfSpell(Split(s, key), keys);
      JoinOfSplit(s, key);
    }
  }

  lemma {:induction false} TokensOfSpell(parts: seq<string>, keys: seq<string>)
    requires parts != [] && keys != []
    ensures Text(TokensOf(parts, keys)) == Join(parts, keys[|keys| - 1])
    decreases |keys| - 1, |parts| + 1
  {
    var n := |keys| - 1;
    var head := Tokens(parts[0], keys[..n]);
    TokensSpellTheInput(parts[0], keys[..n]);
    if 1 < |parts| {
      TokensOfSpell(parts[1..], keys);
      TextOfConcat(head + [Key(keys[n])], TokensOf(parts[1..], keys));
      TextOfConcat(head, [Key(keys[n])]);
      assert Text([Key(keys[n])]) == keys[n];
    }
  }

  /** The result is the input with its key occurrences, and only those, replaced:
      replaced text is never searched again. */
  lemma {:induction false} ReplaceRendersTokens(s: string, args: Args, keys: seq<string>)
    requires KeysIn(keys, args)
    ensures Replace(s, args, keys) == Render(Tokens(s, keys), args)
    decreases |keys|, 0
  {
    if s == "" || keys == [] {
      assert Render([Lit(s)], args) == s;
    } else {
      ReplaceAllRenders(Split(s, keys[|keys| - 1]), args, keys);
    }
  }

  lemma {:induction false} ReplaceAllRenders(parts: seq<string>, args: Args, keys: seq<string>)
    requires parts != [] && keys != [] && KeysIn(keys, args)
    ensures Join(ReplaceAll(parts, args, keys[..|keys| - 1]), args[keys[|keys| - 1]]) == Render(TokensOf(parts, keys), args)
    decreases |keys| - 1, |parts| + 1
  {
    var n := |keys| - 1;
    var head := Tokens(parts[0], keys[..n]);
    ReplaceRendersTokens(parts[0], args, keys[..n]);
    if 1 < |parts| {
      ReplaceAllRenders(parts[1..], args, keys);
      RenderOfConcat(head + [Key(keys[n])], TokensOf(parts[1..], keys), args);
      RenderOfConcat(head, [Key(keys[n])], args);
      assert Render([Key(keys[n])], args) == args[keys[n]];
      assert ReplaceAll(parts, args, keys[..n])[1..] == ReplaceAll(parts[1..], args, keys[..n]);
    }
  }

  // ---------- no key is left in the untouched text ----------

  lemma PartOfPart(s: string, a: nat, b: nat, key: string)
    requires a <= b <= |s| && !Contains(s, key)
    ensures !Contains(s[a..b], key)
  {
    forall i: nat ensures !OccursAt(s[a..b], key, i) {
      if i + |key| <= b - a { SliceOfSlice(s, a, b, i, |key|); }
      assert !OccursAt(s, key, a + i);
    }
  }

  /** The first piece has no occurrence of the key. */
  lemma FirstPiece(s: string, key: string)
    requires key != ""
    ensures !Contains(Cut(s, key)[0], key) && Cut(s, key)[0] <= s
  {
    FindIsFirst(s, key, 0);
    match Find(s, key, 0)
    case None =>
    case Some(at) => NoneBefore(s, key, at);
  }

  /** No piece of a split contains the key it was split by, nor any text that the
      whole did not contain. */
  lemma {:induction false} PiecesOfCut(s: string, key: string, other: string, i: nat)
    requires key != "" && i < |Cut(s, key)|
    ensures !Contains(Cut(s, key)[i], key)
    ensures !Contains(s, other) ==> !Contains(Cut(s, key)[i], other)
    decreases |s|
  {
    if i == 0 {
      FirstPiece(s, key);
      if !Contains(s, other) { PartOfPart(s, 0, |Cut(s, key)[0]|, other); }
    } else {
      LaterPiece(s, key, other, i, Find(s, key, 0).value, Cut(s[Find(s, key, 0).value + |key|..], key));
    }
  }

  lemma {:induction false} LaterPiece(s: string, key: string, other: string, i: nat, at: nat, more: seq<string>)
    requires key != "" && 0 < i <= |more| && at + |key| <= |s|
    requires more == Cut(s[at + |key|..], key)
    ensures !Contains(more[i - 1], key)
    ensures !Contains(s, other) ==> !Contains(more[i - 1], other)
    decreases |s|, 0
  {
    PiecesOfCut(s[at + |key|..], key, other, i - 1);
    assert s[at + |key|..] == s[at + |key|..|s|];
    if !Contains(s, other) { PartOfPart(s, at + |key|, |s|, other); }
  }

  lemma NoneBefore(s: string, key: string, at: nat)
    requires at <= |s| && key != "" && forall j :: 0 <= j < at ==> !OccursAt(s, key, j)
    ensures !Contains(s[..at], key)
  {
    forall j: nat ensures !OccursAt(s[..at], key, j) {
      if j + |key| <= at {
        SliceOfSlice(s, 0, at, j, |key|);
        assert !OccursAt(s, key, j);
      }
    }
  }

  /** No literal contains `k`. */
  ghost predicate NoLiteralContains(ts: seq<Token>, k: string) {
    forall i :: 0 <= i < |ts| && ts[i].Lit? ==> !Contains(ts[i].text, k)
  }

  lemma {:induction false} TokensAvoid(s: string, keys: seq<string>, k: string)
    requires (forall i :: 0 <= i < |keys| ==> keys[i] != "") && k != ""
    requires k in keys || !Contains(s, k)
    ensures NoLiteralContains(Tokens(s, keys), k)
    decreases |keys|, 0
  {
    if s == "" {
      forall i: nat ensures !OccursAt(s, k, i) { }
    } else if keys != [] {
      var n := |keys| - 1;
      var parts := Split(s, keys[n]);
      forall i | 0 <= i < |parts| ensures k in keys[..n] || !Contains(parts[i], k) {
        PiecesOfCut(s, keys[n], k, i);
        assert k in keys ==> k in keys[..n] || k == keys[n];
      }
      TokensOfAvoid(parts, keys, k);
    }
  }

  lemma {:induction false} TokensOfAvoid(parts: seq<string>, keys: seq<string>, k: string)
    requires parts != [] && keys != [] && (forall i :: 0 <= i < |keys| ==> keys[i] != "") && k != ""
    requires forall i :: 0 <= i < |parts| ==> k in keys[..|keys| - 1] || !Contains(parts[i], k)
    ensures NoLiteralContains(TokensOf(parts, keys), k)
    decreases |keys| - 1, |parts| + 1
  {
    var n := |keys| - 1;
    TokensAvoid(parts[0], keys[..n], k);
    if 1 < |parts| {
      TokensOfAvoid(parts[1..], keys, k);
    }
  }

  /** Every key token is one of the keys. */
  ghost predicate OnlyKeys(ts: seq<Token>, keys: seq<string>) {
    forall i :: 0 <= i < |ts| && ts[i].Key? ==> ts[i].key in keys
  }

  lemma {:induction false} TokensAreKeys(s: string, keys: seq<string>)
    ensures OnlyKeys(Tokens(s, keys), keys)
    decreases |keys|, 0
  {
    if s != "" && keys != [] { TokensOfAreKeys(Split(s, keys[|keys| - 1]), keys); }
  }

  lemma {:induction false} TokensOfAreKeys(parts: seq<string>, keys: seq<string>)
    requires parts != [] && keys != []
    ensures OnlyKeys(TokensOf(parts, keys), keys)
    decreases |keys| - 1, |parts| + 1
  {
    TokensAreKeys(parts[0], keys[..|keys| - 1]);
    if 1 < |parts| { TokensOfAreKeys(parts[1..], keys); }
  }

  /** For non-empty keys the input is cut into occurrences of keys and literals that
      contain no key at all, and the result replaces exactly the occurrences. */
  lemma SubstitutionIsOnePass(s: string, args: Args, keys: seq<string>)
    requires KeysIn(keys, args) && forall i :: 0 <= i < |keys| ==> keys[i] != ""
    ensures Text(Tokens(s, keys)) == s
    ensures Replace(s, args, keys) == Render(Tokens(s, keys), args)
    ensures OnlyKeys(Tokens(s, keys), keys)
    ensures forall k :: k in keys ==> NoLiteralContains(Tokens(s, keys), k)
  {
    TokensAreKeys(s, keys);
    TokensSpellTheInput(s, keys);
    ReplaceRendersTokens(s, args, keys);
    forall k | k in keys ensures NoLiteralContains(Tokens(s, keys), k) {
      TokensAvoid(s, keys, k);
    }
  }
}

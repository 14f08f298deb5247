/** When every key starts with a sigil that occurs nowhere else in a key, as the
    placeholders of translated strings do, substitution is one scan from left to
    right that replaces the longest match. */
module Placeholders {
  import opened Wrappers
  import opened StringReplace

  ghost predicate ByLength(keys: seq<string>) {
    forall i, j :: 0 <= i < j < |keys| ==> |keys[i]| <= |keys[j]|
  }

  ghost predicate Sigiled(keys: seq<string>, sigils: set<char>) {
    forall i :: 0 <= i < |keys| ==> SigilFirst(keys[i], sigils)
  }

  ghost predicate SigilFirst(key: string, sigils: set<char>) {
    key != "" && key[0] in sigils && forall i :: 0 < i < |key| ==> key[i] !in sigils
  }

  /** The last key of the list that the text starts with. */
  function Match(s: string, keys: seq<string>): (r: Option<string>)
    ensures r.Some? ==> r.value in keys && r.value <= s
  {
    if keys == [] then None
    else if keys[|keys| - 1] <= s then Some(keys[|keys| - 1])
    else Match(s, keys[..|keys| - 1])
  }

  /** Among keys ordered by length that is the longest match. */
  lemma {:induction false} MatchIsLongest(s: string, keys: seq<string>, k: string)
    requires ByLength(keys) && k in keys && k <= s
    ensures Match(s, keys).Some? && |k| <= |Match(s, keys).value|
  {
    var n := |keys| - 1;
    if !(keys[n] <= s) {
      assert k in keys[..n];
      MatchIsLongest(s, keys[..n], k);
    }
  }

  /** What one step of the scan emits and how far it goes. */
  function Emit(s: string, m: Option<string>, args: Args): string
    requires s != "" && (m.Some? ==> m.value in args)
  {
    if m.Some? then args[m.value] else [s[0]]
  }

  function Step(m: Option<string>): nat {
    if m.Some? then |m.value| else 1
  }

  /** The reference: one pass, longest match first. */
  function Scan(s: string, args: Args, keys: seq<string>): string
    requires KeysIn(keys, args)
    decreases |s|
  {
    if s == "" then ""
    else
      var m := Match(s, keys);
      if Step(m) == 0 then s else Emit(s, m, args) + Scan(s[Step(m)..], args, keys)
  }

  /** A key that does not occur makes no difference. */
  lemma {:induction false} ScanWithout(s: string, args: Args, keys: seq<string>, n: nat)
    requires KeysIn(keys, args) && |keys| == n + 1 && (forall i :: 0 <= i < |keys| ==> keys[i] != "")
    requires !Contains(s, keys[n])
    ensures Scan(s, args, keys) == Scan(s, args, keys[..n])
    decreases |s|
  {
    if s != "" {
      assert !OccursAt(s, keys[n], 0);
      assert Match(s, keys) == Match(s, keys[..n]);
      var step := Step(Match(s, keys));
      PartOfPart(s, step, |s|, keys[n]);
      assert s[step..] == s[step..|s|];
      ScanWithout(s[step..], args, keys, n);
    }
  }

  /** No key other than one starting at the sigil itself can reach over the sigil at `at`. */
  lemma KeyStopsAtSigil(s: string, q: string, sigils: set<char>, at: nat)
    requires SigilFirst(q, sigils) && q <= s && 0 < at < |s| && s[at] in sigils
    ensures |q| <= at
  {
    assert q == s[..|q|];
  }

  lemma {:induction false} MatchInPrefix(s: string, keys: seq<string>, sigils: set<char>, at: nat)
    requires Sigiled(keys, sigils) && 0 < at < |s| && s[at] in sigils
    ensures Match(s, keys) == Match(s[..at], keys)
  {
    if keys != [] {
      var q := keys[|keys| - 1];
      if q <= s {
        KeyStopsAtSigil(s, q, sigils, at);
        assert q <= s[..at];
      } else {
        assert s[..at] <= s;
        MatchInPrefix(s, keys[..|keys| - 1], sigils, at);
      }
    }
  }

  ghost predicate FirstAt(s: string, key: string, at: nat) {
    OccursAt(s, key, at) && forall j :: 0 <= j < at ==> !OccursAt(s, key, j)
  }

  /** Up to the first occurrence of the longest key, the scan is that of the other keys. */
  lemma {:induction false} ScanAcross(s: string, before: string, after: string, args: Args, keys: seq<string>, n: nat, sigils: set<char>)
    requires KeysIn(keys, args) && |keys| == n + 1 && ByLength(keys) && Sigiled(keys, sigils)
    requires FirstAt(s, keys[n], |before|) && before == s[..|before|] && after == s[|before| + |keys[n]|..]
    ensures Scan(s, args, keys) == Scan(before, args, keys[..n]) + args[keys[n]] + Scan(after, args, keys)
    decreases |before|
  {
    var key, at := keys[n], |before|;
    assert SigilFirst(key, sigils);
    if at == 0 {
      assert key <= s;
      assert Scan(before, args, keys[..n]) == "";
    } else {
      assert s[at] == key[0];
      assert !OccursAt(s, key, 0);
      assert !(key <= s);
      MatchInPrefix(s, keys[..n], sigils, at);
      MatchStopsAtSigil(s, keys[..n], sigils, at);
      var step := Step(Match(s, keys[..n]));
      ScanRest(s, before, after, args, keys, n, sigils, step);
      ScanGlue(s, before, after, args, keys, n);
    }
  }

  lemma {:induction false} ScanRest(s: string, before: string, after: string, args: Args, keys: seq<string>, n: nat, sigils: set<char>, step: nat)
    requires KeysIn(keys, args) && |keys| == n + 1 && ByLength(keys) && Sigiled(keys, sigils)
    requires FirstAt(s, keys[n], |before|) && before == s[..|before|] && after == s[|before| + |keys[n]|..]
    requires 0 < step <= |before|
    ensures Scan(s[step..], args, keys) == Scan(before[step..], args, keys[..n]) + args[keys[n]] + Scan(after, args, keys)
    decreases |before|, 0
  {
    LaterOccurrence(s, keys[n], step, |before|);
    SlicesMeet(s, step, |before|, |keys[n]|);
    ScanAcross(s[step..], before[step..], after, args, keys, n, sigils);
  }

  lemma SlicesMeet(s: string, step: nat, at: nat, len: nat)
    requires step <= at && at + len <= |s|
    ensures s[step..][..at - step] == s[..at][step..] && s[step..][at - step + len..] == s[at + len..]
  {
  }

  /** The step in front of an occurrence is the same in the whole and in the piece before it. */
  lemma ScanGlue(s: string, before: string, after: string, args: Args, keys: seq<string>, n: nat)
    requires KeysIn(keys, args) && |keys| == n + 1 && !(keys[n] <= s) && before <= s && before != ""
    requires Match(s, keys[..n]) == Match(before, keys[..n]) && 0 < Step(Match(s, keys[..n])) <= |before|
    requires var step := Step(Match(s, keys[..n]));
      Scan(s[step..], args, keys) == Scan(before[step..], args, keys[..n]) + args[keys[n]] + Scan(after, args, keys)
    ensures Scan(s, args, keys) == Scan(before, args, keys[..n]) + args[keys[n]] + Scan(after, args, keys)
  {
    var m := Match(s, keys[..n]);
    assert Match(s, keys) == m;
    assert Emit(s, m, args) == Emit(before, m, args);
    Regroup(Emit(s, m, args), Scan(before[Step(m)..], args, keys[..n]), args[keys[n]], Scan(after, args, keys));
  }

  lemma Regroup(a: string, b: string, c: string, d: string)
    ensures a + (b + c + d) == (a + b) + c + d
  {
  }

  lemma MatchStopsAtSigil(s: string, keys: seq<string>, sigils: set<char>, at: nat)
    requires Sigiled(keys, sigils) && 0 < at < |s| && s[at] in sigils
    ensures 0 < Step(Match(s, keys)) <= at
  {
    var m := Match(s, keys);
    if m.Some? {
      var i :| 0 <= i < |keys| && keys[i] == m.value;
      assert SigilFirst(m.value, sigils);
      KeyStopsAtSigil(s, m.value, sigils, at);
    }
  }

  lemma LaterOccurrence(s: string, key: string, step: nat, at: nat)
    requires step <= at && FirstAt(s, key, at)
    ensures FirstAt(s[step..], key, at - step)
  {
    assert s[step..] == s[step..|s|];
    SliceOfSlice(s, step, |s|, at - step, |key|);
    forall j | 0 <= j < at - step ensures !OccursAt(s[step..], key, j) {
      assert !OccursAt(s, key, step + j);
      if step + j + |key| <= |s| { SliceOfSlice(s, step, |s|, j, |key|); }
    }
  }

  /** The first piece, the key and the scan of what comes after it. */
  lemma FirstPieceAndRest(s: string, before: string, after: string, more: seq<string>, args: Args, keys: seq<string>, n: nat, sigils: set<char>)
    requires KeysIn(keys, args) && |keys| == n + 1 && ByLength(keys) && Sigiled(keys, sigils) && more != []
    requires FirstAt(s, keys[n], |before|) && s == before + keys[n] + after
    requires Replace(before, args, keys[..n]) == Scan(before, args, keys[..n])
    requires Join(ReplaceAll(more, args, keys[..n]), args[keys[n]]) == Scan(after, args, keys)
    ensures Join(ReplaceAll([before] + more, args, keys[..n]), args[keys[n]]) == Scan(s, args, keys)
  {
    assert before == s[..|before|] && after == s[|before| + |keys[n]|..];
    ScanAcross(s, before, after, args, keys, n, sigils);
    JoinedPieces(before, more, args, keys[..n], args[keys[n]]);
  }

  /** The pieces around the longest key, each treated with the other keys, make up the scan. */
  lemma {:induction false} CutIsScan(s: string, args: Args, keys: seq<string>, n: nat, sigils: set<char>)
    requires KeysIn(keys, args) && |keys| == n + 1 && ByLength(keys) && Sigiled(keys, sigils) && keys[n] != ""
    ensures Join(ReplaceAll(Cut(s, keys[n]), args, keys[..n]), args[keys[n]]) == Scan(s, args, keys)
    decreases n, 1, |s|
  {
    match Find(s, keys[n], 0)
    case None =>
      FindIsFirst(s, keys[n], 0);
      ReplaceIsScan(s, args, keys[..n], sigils);
      NoKeyToCut(s, args, keys, n, sigils);
    case Some(at) =>
      CutUnfolds(s, keys[n], at);
      CutThere(s, s[..at], s[at + |keys[n]|..], args, keys, n, sigils);
  }

  lemma {:induction false} CutUnfolds(s: string, key: string, at: nat)
    requires key != "" && Find(s, key, 0) == Some(at)
    ensures Cut(s, key) == [s[..at]] + Cut(s[at + |key|..], key)
    ensures FirstAt(s, key, |s[..at]|) && s == s[..at] + key + s[at + |key|..]
  {
    FindIsFirst(s, key, 0);
    CutAt(s, key, at);
  }

  lemma {:induction false} CutThere(s: string, before: string, after: string, args: Args, keys: seq<string>, n: nat, sigils: set<char>)
    requires KeysIn(keys, args) && |keys| == n + 1 && ByLength(keys) && Sigiled(keys, sigils) && keys[n] != ""
    requires FirstAt(s, keys[n], |before|) && s == before + keys[n] + after
    ensures Join(ReplaceAll([before] + Cut(after, keys[n]), args, keys[..n]), args[keys[n]]) == Scan(s, args, keys)
    decreases n, 1, |s|, 0
  {
    CutIsScan(after, args, keys, n, sigils);
    ReplaceIsScanBefore(before, args, keys, n, sigils);
    FirstPieceAndRest(s, before, after, Cut(after, keys[n]), args, keys, n, sigils);
  }

  lemma {:induction false} ReplaceIsScanBefore(s: string, args: Args, keys: seq<string>, n: nat, sigils: set<char>)
    requires KeysIn(keys, args) && |keys| == n + 1 && ByLength(keys) && Sigiled(keys, sigils)
    ensures Replace(s, args, keys[..n]) == Scan(s, args, keys[..n])
    decreases n, 0, |s| + 1
  {
    ReplaceIsScan(s, args, keys[..n], sigils);
  }

  lemma NoKeyToCut(s: string, args: Args, keys: seq<string>, n: nat, sigils: set<char>)
    requires KeysIn(keys, args) && |keys| == n + 1 && Sigiled(keys, sigils) && keys[n] != ""
    requires forall j :: 0 <= j ==> !OccursAt(s, keys[n], j)
    requires Replace(s, args, keys[..n]) == Scan(s, args, keys[..n])
    ensures Join(ReplaceAll([s], args, keys[..n]), args[keys[n]]) == Scan(s, args, keys)
  {
    assert forall i :: 0 <= i < |keys| ==> SigilFirst(keys[i], sigils);
    ScanWithout(s, args, keys, n);
  }

  lemma JoinedPieces(first: string, more: seq<string>, args: Args, keys: seq<string>, value: string)
    requires KeysIn(keys, args) && more != []
    ensures Join(ReplaceAll([first] + more, args, keys), value) ==
      Replace(first, args, keys) + value + Join(ReplaceAll(more, args, keys), value)
  {
    assert ([first] + more)[1..] == more;
    JoinCons(Replace(first, args, keys), ReplaceAll(more, args, keys), value);
  }

  /** The multi-pass substitution is the one-pass scan. */
  lemma {:induction false} ReplaceIsScan(s: string, args: Args, keys: seq<string>, sigils: set<char>)
    requires KeysIn(keys, args) && ByLength(keys) && Sigiled(keys, sigils)
    ensures Replace(s, args, keys) == Scan(s, args, keys)
    decreases |keys|, 0, |s|
  {
    if s != "" {
      if keys == [] {
        ScanNothing(s, args);
      } else {
        assert SigilFirst(keys[|keys| - 1], sigils);
        CutIsScan(s, args, keys, |keys| - 1, sigils);
      }
    }
  }

  lemma {:induction false} ScanNothing(s: string, args: Args)
    ensures Scan(s, args, []) == s
  {
    if s != "" { ScanNothing(s[1..], args); }
  }

  // ---------- escaping ----------

  /** A global replacement of one character. */
  function ReplaceChar(s: string, c: char, text: string): string {
    if s == "" then "" else (if s[0] == c then text else [s[0]]) + ReplaceChar(s[1..], c, text)
  }

  /** `checkPlain`: five replacements in turn, the ampersand first. */
  function CheckPlain(s: string): string {
    ReplaceChar(ReplaceChar(ReplaceChar(ReplaceChar(ReplaceChar(s,
      '&', "&amp;"), '<', "&lt;"), '>', "&gt;"), '\"', "&quot;"), '\'', "&#39;")
  }

  function Entity(c: char): string {
    match c
    case '&' => "&amp;"
    case '<' => "&lt;"
    case '>' => "&gt;"
    case '\"' => "&quot;"
    case '\'' => "&#39;"
    case _ => [c]
  }

  /** The reference: every character by itself. */
  function Escape(s: string): string {
    if s == "" then "" else Entity(s[0]) + Escape(s[1..])
  }

  lemma {:induction false} ReplaceCharConcat(a: string, b: string, c: char, text: string)
    ensures ReplaceChar(a + b, c, text) == ReplaceChar(a, c, text) + ReplaceChar(b, c, text)
  {
    if a == "" {
      assert a + b == b;
    } else {
      assert (a + b)[1..] == a[1..] + b;
      ReplaceCharConcat(a[1..], b, c, text);
    }
  }

  lemma {:induction false} ReplaceCharAbsent(s: string, c: char, text: string)
    requires c !in s
    ensures ReplaceChar(s, c, text) == s
  {
    if s != "" { ReplaceCharAbsent(s[1..], c, text); }
  }

  lemma ReplaceCharOne(c: char, d: char, text: string)
    ensures ReplaceChar([d], c, text) == if d == c then text else [d]
  {
    assert [d][1..] == "";
  }

  lemma CheckPlainConcat(a: string, b: string)
    ensures CheckPlain(a + b) == CheckPlain(a) + CheckPlain(b)
  {
    var a1, b1 := ReplaceChar(a, '&', "&amp;"), ReplaceChar(b, '&', "&amp;");
    var a2, b2 := ReplaceChar(a1, '<', "&lt;"), ReplaceChar(b1, '<', "&lt;");
    var a3, b3 := ReplaceChar(a2, '>', "&gt;"), ReplaceChar(b2, '>', "&gt;");
    var a4, b4 := ReplaceChar(a3, '\"', "&quot;"), ReplaceChar(b3, '\"', "&quot;");
    ReplaceCharConcat(a, b, '&', "&amp;");
    ReplaceCharConcat(a1, b1, '<', "&lt;");
    ReplaceCharConcat(a2, b2, '>', "&gt;");
    ReplaceCharConcat(a3, b3, '\"', "&quot;");
    ReplaceCharConcat(a4, b4, '\'', "&#39;");
  }

  /** One pass over what the passes before have made of the character `d`. */
  lemma OnePass(t: string, d: char, c: char, text: string)
    requires t == [d] || c !in t
    ensures ReplaceChar(t, c, text) == if t == [d] && d == c then text else t
  {
    if t == [d] { ReplaceCharOne(c, d, text); } else { ReplaceCharAbsent(t, c, text); }
  }

  predicate Special(d: char) {
    d in ['&', '<', '>', '\"', '\'']
  }

  lemma EntityIsPlain(d: char)
    requires Special(d)
    ensures Entity(d) != [d] && '<' !in Entity(d) && '>' !in Entity(d) && '\"' !in Entity(d) && '\'' !in Entity(d)
  {
  }

  lemma CheckPlainOne(d: char)
    ensures CheckPlain([d]) == Entity(d)
  {
    if Special(d) { EntityIsPlain(d); }
    var t1 := if d == '&' then Entity(d) else [d];
    var t2 := if d == '<' then Entity(d) else t1;
    var t3 := if d == '>' then Entity(d) else t2;
    var t4 := if d == '\"' then Entity(d) else t3;
    OnePass([d], d, '&', "&amp;");
    OnePass(t1, d, '<', "&lt;");
    OnePass(t2, d, '>', "&gt;");
    OnePass(t3, d, '\"', "&quot;");
    OnePass(t4, d, '\'', "&#39;");
  }

  /** The five passes do not disturb one another: together they escape every
      character by itself. */
  lemma {:induction false} CheckPlainIsEscape(s: string)
    ensures CheckPlain(s) == Escape(s)
  {
    if s != "" {
      assert s == [s[0]] + s[1..];
      CheckPlainConcat([s[0]], s[1..]);
      CheckPlainOne(s[0]);
      CheckPlainIsEscape(s[1..]);
    }
  }

  /** The character whose entity a text starts with. */
  function EntityAt(s: string): (r: Option<char>)
    ensures r.Some? ==> 0 < |Entity(r.value)| <= |s|
  {
    if "&amp;" <= s then Some('&')
    else if "&lt;" <= s then Some('<')
    else if "&gt;" <= s then Some('>')
    else if "&quot;" <= s then Some('\"')
    else if "&#39;" <= s then Some('\'')
    else None
  }

  /** Reading entities back. */
  function Unescape(s: string): string {
    if s == "" then ""
    else
      match EntityAt(s)
      case Some(c) => [c] + Unescape(s[|Entity(c)|..])
      case None => [s[0]] + Unescape(s[1..])
  }

  lemma EntityAtEntity(c: char, rest: string)
    ensures EntityAt(Entity(c) + rest) == if Special(c) then Some(c) else None
  {
    var e := Entity(c);
    var t := e + rest;
    assert e <= t && t[0] == e[0];
    if Special(c) { assert t[1] == e[1] && t[2] == e[2]; }
  }

  /** Reading one escaped character back. */
  lemma UnescapeOne(c: char, rest: string)
    ensures Unescape(Entity(c) + rest) == [c] + Unescape(rest)
  {
    EntityAtEntity(c, rest);
    assert (Entity(c) + rest)[|Entity(c)|..] == rest;
  }

  lemma {:induction false} UnescapeEscape(s: string)
    ensures Unescape(Escape(s)) == s
  {
    if s != "" {
      UnescapeOne(s[0], Escape(s[1..]));
      UnescapeEscape(s[1..]);
    }
  }

  predicate Markup(c: char) {
    c in ['<', '>', '\"', '\'']
  }

  lemma {:induction false} EscapeHasNoMarkup(s: string, i: nat)
    requires i < |Escape(s)|
    ensures !Markup(Escape(s)[i])
  {
    if Special(s[0]) { EntityIsPlain(s[0]); }
    if |Entity(s[0])| <= i { EscapeHasNoMarkup(s[1..], i - |Entity(s[0])|); }
    else { assert Escape(s)[i] in Entity(s[0]); }
  }

  /** No markup survives, and nothing is lost. */
  lemma CheckPlainRoundTrip(s: string)
    ensures Unescape(CheckPlain(s)) == s
    ensures forall i :: 0 <= i < |CheckPlain(s)| ==> !Markup(CheckPlain(s)[i])
  {
    CheckPlainIsEscape(s);
    UnescapeEscape(s);
    forall i | 0 <= i < |Escape(s)| ensures !Markup(Escape(s)[i]) {
      EscapeHasNoMarkup(s, i);
    }
  }

  // ---------- formatString ----------

  /** Keys ordered by length, equal lengths in the order given. */
  function SortKeys(keys: seq<string>): (r: seq<string>)
    ensures ByLength(r) && multiset(r) == multiset(keys)
  {
    if keys == [] then []
    else
      var n := |keys| - 1;
      assert keys == keys[..n] + [keys[n]];
      InsertKeepsOrder(SortKeys(keys[..n]), keys[n]);
      Insert(SortKeys(keys[..n]), keys[n])
  }

  function Insert(keys: seq<string>, k: string): (r: seq<string>)
    ensures multiset(r) == multiset(keys) + multiset{k}
  {
    if keys == [] || |keys[|keys| - 1]| <= |k| then keys + [k]
    else
      var n := |keys| - 1;
      assert keys == keys[..n] + [keys[n]];
      Insert(keys[..n], k) + [keys[n]]
  }

  lemma {:induction false} InsertKeepsOrder(keys: seq<string>, k: string)
    requires ByLength(keys)
    ensures ByLength(Insert(keys, k))
  {
    var n := |keys| - 1;
    if keys != [] && |k| < |keys[n]| {
      var r := Insert(keys[..n], k);
      InsertKeepsOrder(keys[..n], k);
      forall i | 0 <= i < |r| ensures |r[i]| <= |keys[n]| { InsertedFrom(keys[..n], k, i); }
    }
  }

  lemma InsertedFrom(keys: seq<string>, k: string, i: nat)
    requires i < |Insert(keys, k)|
    ensures Insert(keys, k)[i] in keys || Insert(keys, k)[i] == k
  {
    assert Insert(keys, k)[i] in multiset(Insert(keys, k));
  }

  /** What an argument is inserted as, by the first character of its key. */
  function Processed(key: string, value: string): string {
    if key != "" && key[0] == '@' then CheckPlain(value)
    else if key != "" && key[0] == '!' then value
    else "<em class=\"placeholder\">" + CheckPlain(value) + "</em>"
  }

  function ProcessedArgs(args: Args): (r: Args)
    ensures r.Keys == args.Keys
  {
    map k | k in args :: Processed(k, args[k])
  }

  /** `formatString`, given the keys in the order the object lists them. */
  function FormatString(s: string, args: Args, keys: seq<string>): string
    requires KeysIn(keys, args)
  {
    SortedKeysIn(keys, args);
    Replace(s, ProcessedArgs(args), SortKeys(keys))
  }

  lemma {:induction false} SortedKeysIn(keys: seq<string>, args: Args)
    requires KeysIn(keys, args)
    ensures KeysIn(SortKeys(keys), ProcessedArgs(args))
  {
    forall i | 0 <= i < |SortKeys(keys)| ensures SortKeys(keys)[i] in args {
      SortedFrom(keys, i);
    }
  }

  lemma {:induction false} SortedFrom(keys: seq<string>, i: nat)
    requires i < |SortKeys(keys)|
    ensures SortKeys(keys)[i] in keys
  {
    assert SortKeys(keys)[i] in multiset(SortKeys(keys));
  }

  /** Formatting a string with sigiled placeholders replaces, in one scan, every
      longest match by its processed argument. */
  lemma {:induction false} FormatIsOneScan(s: string, args: Args, keys: seq<string>, sigils: set<char>)
    requires KeysIn(keys, args) && Sigiled(keys, sigils)
    ensures KeysIn(SortKeys(keys), ProcessedArgs(args))
    ensures FormatString(s, args, keys) == Scan(s, ProcessedArgs(args), SortKeys(keys))
  {
    SortedKeysIn(keys, args);
    forall i | 0 <= i < |SortKeys(keys)| ensures SigilFirst(SortKeys(keys)[i], sigils) {
      SortedFrom(keys, i);
    }
    ReplaceIsScan(s, ProcessedArgs(args), SortKeys(keys), sigils);
  }

  /** The text of a value with its markup made harmless, from which it can be read back. */
  ghost predicate Harmless(text: string, value: string) {
    Unescape(text) == value && forall i :: 0 <= i < |text| ==> !Markup(text[i])
  }

  /** What the key promises of the text that takes its place: an `@` argument is escaped, a
      `!` argument is itself, and any other is escaped and emphasised. */
  ghost predicate Promised(key: string, value: string, text: string) {
    if key != "" && key[0] == '@' then Harmless(text, value)
    else if key != "" && key[0] == '!' then text == value
    else exists inner :: text == "<em class=\"placeholder\">" + inner + "</em>" && Harmless(inner, value)
  }

  lemma ProcessedIsPromised(key: string, value: string)
    ensures Promised(key, value, Processed(key, value))
  {
    CheckPlainRoundTrip(value);
    assert Harmless(CheckPlain(value), value);
  }

  /** Formatting keeps every promise: the string is its literal text with the placeholders
      replaced, each by a text as promised. Without `!` keys no markup of an argument
      survives outside the tag of the placeholder. */
  lemma FormatKeepsPromises(s: string, args: Args, keys: seq<string>)
    requires KeysIn(keys, args) && forall i :: 0 <= i < |keys| ==> keys[i] != ""
    ensures var tokens := Tokens(s, SortKeys(keys));
      && Text(tokens) == s && FormatString(s, args, keys) == Render(tokens, ProcessedArgs(args))
      && forall i :: 0 <= i < |tokens| && tokens[i].Key? ==>
        var k := tokens[i].key; k in args && Promised(k, args[k], ProcessedArgs(args)[k])
  {
    var sorted := SortKeys(keys);
    SortedKeysIn(keys, args);
    forall i | 0 <= i < |sorted| ensures sorted[i] != "" { SortedFrom(keys, i); }
    SubstitutionIsOnePass(s, ProcessedArgs(args), sorted);
    forall k | k in args ensures Promised(k, args[k], ProcessedArgs(args)[k]) {
      ProcessedIsPromised(k, args[k]);
    }
  }
}

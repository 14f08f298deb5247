/** The comma-separated autocomplete field: splitting respects double quotes, and
    joining puts the terms back with a comma and a space. */
module Autocomplete {
  import opened Wrappers

  /** The white space that trimming removes. */
  predicate IsSpace(c: char) {
    || '\U{0009}' <= c <= '\U{000D}' || c == ' ' || c == '\U{00A0}' || c == '\U{1680}'
    || '\U{2000}' <= c <= '\U{200A}' || c == '\U{2028}' || c == '\U{2029}' || c == '\U{202F}'
    || c == '\U{205F}' || c == '\U{3000}' || c == '\U{FEFF}'
  }

  function TrimLeft(s: string): string {
    if s != "" && IsSpace(s[0]) then TrimLeft(s[1..]) else s
  }

  function TrimRight(s: string): string {
    if s != "" && IsSpace(s[|s| - 1]) then TrimRight(s[..|s| - 1]) else s
  }

  function Trim(s: string): string {
    TrimRight(TrimLeft(s))
  }

  /** The scanner from some point on, with the term read so far. */
  function SplitFrom(s: string, current: string, quote: bool): seq<string>
    decreases |s|
  {
    if s == "" then [Trim(current)]
    else if s[0] == '\"' then SplitFrom(s[1..], current + [s[0]], !quote)
    else if s[0] == ',' && !quote then [Trim(current)] + SplitFrom(s[1..], "", false)
    else SplitFrom(s[1..], current + [s[0]], quote)
  }

  function Split(value: string): seq<string> {
    if value == "" then [] else SplitFrom(value, "", false)
  }

  function Join(terms: seq<string>): string {
    if terms == [] then ""
    else if |terms| == 1 then terms[0]
    else terms[0] + ", " + Join(terms[1..])
  }

  /** `autocompleteSplitValues`. */
  method SplitValues(value: string) returns (result: seq<string>)
    ensures result == Split(value)
    ensures ProperList(result)
  {
    result := [];
    var quote, current := false, "";
    for i := 0 to |value|
      invariant result + SplitFrom(value[i..], current, quote) == SplitFrom(value, "", false)
    {
      var character := value[i];
      assert value[i..][0] == character && value[i..][1..] == value[i + 1..];
      if character == '\"' {
        current := current + [character];
        quote := !quote;
      } else if character == ',' && !quote {
        result := result + [Trim(current)];
        current := "";
      } else {
        current := current + [character];
      }
    }
    if 0 < |value| {
      result := result + [Trim(current)];
    }
    SplitIsProper(value);
  }

  // ---------- which lists a split can produce ----------

  /** Reading a text with the quote open or not: the quote afterwards, or nothing if
      a comma lies outside quotes. */
  function Quoting(s: string, quote: bool): Option<bool>
    decreases |s|
  {
    if s == "" then Some(quote)
    else if s[0] == '\"' then Quoting(s[1..], !quote)
    else if s[0] == ',' && !quote then None
    else Quoting(s[1..], quote)
  }

  ghost predicate Trimmed(t: string) {
    t != "" ==> !IsSpace(t[0]) && !IsSpace(t[|t| - 1])
  }

  /** A term as a split yields it: no space at either end, commas only inside quotes. */
  ghost predicate ProperTerm(t: string) {
    Trimmed(t) && Quoting(t, false).Some?
  }

  /** All terms proper, and the quotes of all but the last balanced. */
  ghost predicate ProperList(ts: seq<string>) {
    forall i :: 0 <= i < |ts| ==> ProperAt(ts, i)
  }

  ghost predicate ProperAt(ts: seq<string>, i: nat)
    requires i < |ts|
  {
    ProperTerm(ts[i]) && (i + 1 < |ts| ==> Quoting(ts[i], false) == Some(false))
  }

  lemma {:induction false} QuotingConcat(a: string, b: string, quote: bool)
    requires Quoting(a, quote).Some?
    ensures Quoting(a + b, quote) == Quoting(b, Quoting(a, quote).value)
    decreases |a|
  {
    if a == "" {
      assert a + b == b;
    } else {
      assert (a + b)[1..] == a[1..] + b;
      QuotingConcat(a[1..], b, if a[0] == '\"' then !quote else quote);
    }
  }

  lemma {:induction false} QuotingOfSpaces(s: string, quote: bool)
    requires forall i :: 0 <= i < |s| ==> IsSpace(s[i])
    ensures Quoting(s, quote) == Some(quote)
    decreases |s|
  {
    if s != "" { QuotingOfSpaces(s[1..], quote); }
  }

  /** Trimming takes off spaces at both ends and nothing else. */
  lemma {:induction false} TrimLeftTakes(s: string) returns (pad: string)
    ensures s == pad + TrimLeft(s) && forall i :: 0 <= i < |pad| ==> IsSpace(pad[i])
    ensures TrimLeft(s) != "" ==> !IsSpace(TrimLeft(s)[0])
    decreases |s|
  {
    if s != "" && IsSpace(s[0]) {
      pad := TrimLeftTakes(s[1..]);
      pad := [s[0]] + pad;
    } else {
      pad := "";
    }
  }

  lemma Regroup(a: string, b: string, c: string)
    ensures (a + b) + c == a + (b + c)
  {
  }

  lemma {:induction false} TrimRightTakes(s: string) returns (pad: string)
    ensures s == TrimRight(s) + pad && forall i :: 0 <= i < |pad| ==> IsSpace(pad[i])
    ensures TrimRight(s) != "" ==> !IsSpace(TrimRight(s)[|TrimRight(s)| - 1])
    decreases |s|
  {
    if s != "" && IsSpace(s[|s| - 1]) {
      var t := s[..|s| - 1];
      var more := TrimRightTakes(t);
      pad := more + [s[|s| - 1]];
      assert s == t + [s[|s| - 1]];
      Regroup(TrimRight(t), more, [s[|s| - 1]]);
    } else {
      pad := "";
    }
  }

  /** Trimming changes neither the quotes nor the commas of a text. */
  lemma QuotingOfTrim(s: string)
    requires Quoting(s, false).Some?
    ensures Quoting(Trim(s), false) == Quoting(s, false)
  {
    var l := TrimLeftTakes(s);
    QuotingOfSpaces(l, false);
    QuotingConcat(l, TrimLeft(s), false);
    var r := TrimRightTakes(TrimLeft(s));
    QuotingPrefix(Trim(s), r, false);
    QuotingConcat(Trim(s), r, false);
    QuotingOfSpaces(r, Quoting(Trim(s), false).value);
  }

  lemma {:induction false} QuotingPrefix(a: string, b: string, quote: bool)
    requires Quoting(a + b, quote).Some?
    ensures Quoting(a, quote).Some?
    decreases |a|
  {
    if a != "" {
      assert (a + b)[1..] == a[1..] + b;
      QuotingPrefix(a[1..], b, if a[0] == '\"' then !quote else quote);
    }
  }

  /** Trimming takes spaces off both ends until there are none, and nothing else. */
  lemma TrimTakes(s: string) returns (left: string, right: string)
    ensures s == left + Trim(s) + right && Trimmed(Trim(s))
    ensures (forall i :: 0 <= i < |left| ==> IsSpace(left[i])) && forall i :: 0 <= i < |right| ==> IsSpace(right[i])
  {
    left := TrimLeftTakes(s);
    right := TrimRightTakes(TrimLeft(s));
    var t := Trim(s);
    if t != "" { assert t[0] == TrimLeft(s)[0]; }
  }

  lemma TrimmedStays(t: string)
    requires Trimmed(t)
    ensures Trim(t) == t
  {
  }

  lemma {:induction false} SplitFromIsProper(s: string, current: string, quote: bool)
    requires Quoting(current, false) == Some(quote)
    ensures ProperList(SplitFrom(s, current, quote))
    decreases |s|
  {
    if s == "" {
      QuotingOfTrim(current);
      var _, _ := TrimTakes(current);
    } else if s[0] == ',' && !quote {
      QuotingOfTrim(current);
      var _, _ := TrimTakes(current);
      var more := SplitFrom(s[1..], "", false);
      SplitFromIsProper(s[1..], "", false);
      ProperCons(Trim(current), more);
    } else {
      QuotingConcat(current, [s[0]], false);
      assert [s[0]][1..] == "";
      SplitFromIsProper(s[1..], current + [s[0]], if s[0] == '\"' then !quote else quote);
    }
  }

  lemma ProperCons(t: string, ts: seq<string>)
    requires ProperTerm(t) && Quoting(t, false) == Some(false) && ProperList(ts)
    ensures ProperList([t] + ts)
  {
    forall i | 0 <= i < |[t] + ts| ensures ProperAt([t] + ts, i) {
      if 0 < i { assert ProperAt(ts, i - 1); }
    }
  }

  /** Every split is a list of proper terms. */
  lemma SplitIsProper(value: string)
    ensures ProperList(Split(value))
  {
    if value != "" { SplitFromIsProper(value, "", false); }
  }

  // ---------- what a split keeps ----------

  /** The pieces with a comma between each two. */
  function Glued(pieces: seq<string>): string {
    if pieces == [] then "" else if |pieces| == 1 then pieces[0] else pieces[0] + "," + Glued(pieces[1..])
  }

  /** The terms are the trimmed pieces between the commas that lie outside quotes. */
  ghost predicate CutInto(terms: seq<string>, pieces: seq<string>) {
    && |terms| == |pieces|
    && (forall i :: 0 <= i < |pieces| ==> terms[i] == Trim(pieces[i]) && Quoting(pieces[i], false).Some?)
    && (forall i :: 0 <= i < |pieces| - 1 ==> Quoting(pieces[i], false) == Some(false))
  }

  /** One character of the scan. */
  lemma ScanOne(s: string, current: string, quote: bool)
    requires s != ""
    ensures SplitFrom(s, current, quote) ==
      if s[0] == ',' && !quote then [Trim(current)] + SplitFrom(s[1..], "", false)
      else SplitFrom(s[1..], current + [s[0]], if s[0] == '\"' then !quote else quote)
  {
  }

  lemma OneOver(current: string, s: string)
    requires s != ""
    ensures (current + [s[0]]) + s[1..] == current + s
  {
  }

  lemma {:induction false} ScanCuts(s: string, current: string, quote: bool, terms: seq<string>) returns (pieces: seq<string>)
    requires Quoting(current, false) == Some(quote) && terms == SplitFrom(s, current, quote)
    ensures pieces != [] && Glued(pieces) == current + s && CutInto(terms, pieces)
    decreases |s|
  {
    if s == "" {
      pieces := [current];
      assert current + s == current;
    } else {
      ScanOne(s, current, quote);
      OneOver(current, s);
      pieces := CutOne(s, current, quote, terms);
    }
  }

  lemma {:induction false} CutOne(s: string, current: string, quote: bool, terms: seq<string>) returns (pieces: seq<string>)
    requires s != "" && Quoting(current, false) == Some(quote)
    requires terms ==
      if s[0] == ',' && !quote then [Trim(current)] + SplitFrom(s[1..], "", false)
      else SplitFrom(s[1..], current + [s[0]], if s[0] == '\"' then !quote else quote)
    ensures pieces != [] && Glued(pieces) == (current + [s[0]]) + s[1..] && CutInto(terms, pieces)
    decreases |s|, 0
  {
    if s[0] == ',' && !quote {
      var rest := SplitFrom(s[1..], "", false);
      var more := ScanCuts(s[1..], "", false, rest);
      pieces := [current] + more;
      GluedCons(current, more);
      CutCons(current, rest, more);
      assert "" + s[1..] == s[1..];
    } else {
      QuotingConcat(current, [s[0]], false);
      assert [s[0]][1..] == "";
      pieces := ScanCuts(s[1..], current + [s[0]], if s[0] == '\"' then !quote else quote, terms);
    }
  }

  lemma GluedCons(piece: string, more: seq<string>)
    requires more != []
    ensures Glued([piece] + more) == piece + "," + Glued(more)
  {
    assert ([piece] + more)[1..] == more;
  }

  lemma CutCons(piece: string, terms: seq<string>, more: seq<string>)
    requires CutInto(terms, more) && Quoting(piece, false) == Some(false)
    ensures CutInto([Trim(piece)] + terms, [piece] + more)
  {
  }

  /** Nothing but those commas and the spaces around the terms is lost. */
  lemma {:induction false} SplitCuts(value: string) returns (pieces: seq<string>)
    ensures Glued(pieces) == value && CutInto(Split(value), pieces) && (pieces == [] <==> value == "")
  {
    pieces := [];
    if value != "" {
      pieces := ScanCuts(value, "", false, Split(value));
      assert "" + value == value;
    }
  }

  // ---------- splitting a joined list ----------

  /** The scanner reads a whole term without cutting it. */
  lemma {:induction false} SplitFromReads(t: string, rest: string, current: string, quote: bool)
    requires Quoting(t, quote).Some?
    ensures SplitFrom(t + rest, current, quote) == SplitFrom(rest, current + t, Quoting(t, quote).value)
    decreases |t|
  {
    if t == "" {
      assert t + rest == rest && current + t == current;
    } else {
      assert (t + rest)[1..] == t[1..] + rest;
      assert current + [t[0]] + t[1..] == current + t;
      SplitFromReads(t[1..], rest, current + [t[0]], if t[0] == '\"' then !quote else quote);
    }
  }

  lemma {:induction false} TrimLeftOfPad(pad: string, t: string)
    requires forall i :: 0 <= i < |pad| ==> IsSpace(pad[i])
    ensures TrimLeft(pad + t) == TrimLeft(t)
  {
    if pad == "" {
      assert pad + t == t;
    } else {
      assert (pad + t)[1..] == pad[1..] + t;
      TrimLeftOfPad(pad[1..], t);
    }
  }

  /** Splitting a join gives the terms back, whatever spaces come first. */
  lemma {:induction false} SplitFromJoin(ts: seq<string>, pad: string)
    requires ProperList(ts) && ts != [] && forall i :: 0 <= i < |pad| ==> IsSpace(pad[i])
    ensures SplitFrom(Join(ts), pad, false) == ts
    decreases |ts|
  {
    var t := ts[0];
    assert ProperAt(ts, 0);
    if |ts| == 1 {
      TrimOfPad(pad, t);
      assert Join(ts) == t + "";
      SplitFromReads(t, "", pad, false);
    } else {
      forall i | 0 <= i < |ts[1..]| ensures ProperAt(ts[1..], i) { assert ProperAt(ts, i + 1); }
      SplitFromJoin(ts[1..], " ");
      FirstTerm(t, Join(ts[1..]), pad);
      assert Join(ts) == t + (", " + Join(ts[1..]));
    }
  }

  lemma TrimOfPad(pad: string, t: string)
    requires Trimmed(t) && forall i :: 0 <= i < |pad| ==> IsSpace(pad[i])
    ensures Trim(pad + t) == t
  {
    TrimLeftOfPad(pad, t);
    TrimmedStays(t);
  }

  /** The first term and the comma after it are read, and the space after that. */
  lemma {:induction false} FirstTerm(t: string, more: string, pad: string)
    requires Trimmed(t) && Quoting(t, false) == Some(false) && forall i :: 0 <= i < |pad| ==> IsSpace(pad[i])
    ensures SplitFrom(t + (", " + more), pad, false) == [t] + SplitFrom(more, " ", false)
  {
    TrimOfPad(pad, t);
    var s, rest := CommaText(more);
    SplitFromReads(t, s, pad, false);
    CommaAndSpace(more, s, rest, pad + t);
  }

  lemma CommaText(more: string) returns (s: string, rest: string)
    ensures s == ", " + more && s != "" && s[0] == ',' && s[1..] == rest
    ensures rest != "" && rest[0] == ' ' && rest[1..] == more
  {
    s, rest := ", " + more, " " + more;
  }

  lemma CommaAndSpace(more: string, s: string, rest: string, current: string)
    requires s != "" && s[0] == ',' && s[1..] == rest && rest != "" && rest[0] == ' ' && rest[1..] == more
    ensures SplitFrom(s, current, false) == [Trim(current)] + SplitFrom(more, " ", false)
  {
    ScanOne(s, current, false);
    ScanOne(rest, "", false);
    assert "" + [' '] == " ";
  }

  /** Splitting undoes joining exactly for the lists a split can produce, other than
      the list of one empty term. */
  lemma SplitUndoesJoinIff(ts: seq<string>)
    ensures Split(Join(ts)) == ts <==> ProperList(ts) && ts != [""]
  {
    SplitIsProper(Join(ts));
    if ProperList(ts) && ts != [""] && ts != [] {
      SplitFromJoin(ts, "");
    }
  }

  /** Joining puts a comma and a space before each further term. */
  lemma {:induction false} JoinGrows(ts: seq<string>, t: string)
    ensures Join(ts + [t]) == if ts == [] then t else Join(ts) + ", " + t
  {
    if ts != [] {
      assert (ts + [t])[1..] == ts[1..] + [t];
      JoinGrows(ts[1..], t);
    }
  }

  // ---------- selecting a suggestion ----------

  function Init(ts: seq<string>): seq<string> {
    if ts == [] then [] else ts[..|ts| - 1]
  }

  /** `after` is `before` with the item in place of the last term, or alone if there was none. */
  ghost predicate LastReplaced(before: seq<string>, after: seq<string>, item: string) {
    && |after| == (if before == [] then 1 else |before|) && after[|after| - 1] == item
    && forall i :: 0 <= i < |after| - 1 ==> after[i] == before[i]
  }

  /** `selectHandler`: the new field value splits into the old terms with only the last
      replaced, exactly when the item is a proper term, and not an empty item in an
      otherwise empty field. */
  method SelectHandler(value: string, item: string) returns (newValue: string)
    ensures newValue == Join(Init(Split(value)) + [item])
    ensures LastReplaced(Split(value), Split(newValue), item) <==>
      ProperTerm(item) && !(|Split(value)| <= 1 && item == "")
  {
    var terms := SplitValues(value);
    if terms != [] { terms := terms[..|terms| - 1]; }
    terms := terms + [item];
    newValue := Join(terms);
    SelectReplacesLastIff(value, item);
  }

  /** After a selection the field splits into the old terms with only the last
      replaced, exactly when the item is a proper term, and not an empty item in an
      otherwise empty field. */
  lemma SelectReplacesLastIff(value: string, item: string)
    ensures LastReplaced(Split(value), Split(Join(Init(Split(value)) + [item])), item) <==>
      ProperTerm(item) && !(|Split(value)| <= 1 && item == "")
  {
    var ts := Init(Split(value));
    SplitIsProper(value);
    SplitUndoesJoinIff(ts + [item]);
    if ProperTerm(item) {
      forall i | 0 <= i < |ts + [item]| ensures ProperAt(ts + [item], i) {
        if i < |ts| { assert ProperAt(Split(value), i); }
      }
    }
    if ProperList(ts + [item]) { assert ProperAt(ts + [item], |ts|); }
  }

  /** `extractLastTerm`: the last term of a selected field is the item. */
  lemma LastTermIsTheItem(value: string, item: string)
    requires ProperTerm(item) && item != ""
    ensures var terms := Split(Join(Init(Split(value)) + [item])); terms != [] && terms[|terms| - 1] == item
  {
    SelectReplacesLastIff(value, item);
  }
}

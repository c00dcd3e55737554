/** `parse_symbols` (utils/symbols.py): a comma-separated string becomes an
    order-preserving, duplicate-free list of upper-case symbols, optionally
    restricted to well-formed symbols and to a watchlist. */
module Symbols {
  import opened Basics
  import opened Text

  /** The shape check `sym.isalpha() and 1 <= len(sym) <= 5`, with letters
      taken to be the ASCII letters. */
  predicate IsSymbolShape(s: string) {
    1 <= |s| <= 5 && forall i :: 0 <= i < |s| ==> IsAsciiLetter(s[i])
  }

  predicate NoDuplicates(s: seq<string>) {
    forall i, j :: 0 <= i < j < |s| ==> s[i] != s[j]
  }

  /** `a` can be obtained from `b` by deleting elements (order is kept). */
  predicate IsSubsequence(a: seq<string>, b: seq<string>)
    decreases |b|
  {
    if a == [] then true
    else if b == [] then false
    else if a[|a| - 1] == b[|b| - 1] then IsSubsequence(a[..|a| - 1], b[..|b| - 1])
    else IsSubsequence(a, b[..|b| - 1])
  }

  lemma {:induction false} SubsequenceExtend(a: seq<string>, b: seq<string>, x: string)
    requires IsSubsequence(a, b)
    ensures IsSubsequence(a, b + [x])
    decreases |a| + |b|, 1
  {
    var b' := b + [x];
    assert b'[..|b'| - 1] == b;
    if a != [] && a[|a| - 1] == x {
      SubsequenceDropLast(a, b);
    }
  }

  lemma {:induction false} SubsequenceDropLast(a: seq<string>, b: seq<string>)
    requires a != [] && IsSubsequence(a, b)
    ensures IsSubsequence(a[..|a| - 1], b)
    decreases |a| + |b|, 0
  {
    var a', b' := a[..|a| - 1], b[..|b| - 1];
    assert b == b' + [b[|b| - 1]];
    if a[|a| - 1] == b[|b| - 1] {
      SubsequenceExtend(a', b', b[|b| - 1]);
    } else {
      SubsequenceDropLast(a, b');
      SubsequenceExtend(a', b', b[|b| - 1]);
    }
  }

  /** The token list `[s.strip().upper() for s in pieces if s and s.strip()]`. */
  function NormalizeList(pieces: seq<string>): (r: seq<string>)
    ensures forall k :: 0 <= k < |r| ==> r[k] != [] && IsTrimmed(r[k]) && IsUpper(r[k])
    decreases |pieces|
  {
    if pieces == [] then []
    else
      var rest := NormalizeList(pieces[1..]);
      if AllSpace(pieces[0]) then rest
      else
        var n := Normalize(pieces[0]);
        assert n != [] && IsTrimmed(n) && IsUpper(n);
        assert forall k :: 0 < k <= |rest| ==> ([n] + rest)[k] == rest[k - 1];
        [n] + rest
  }

  /** Every non-blank piece contributes its normal form, and nothing else does. */
  lemma {:induction false} NormalizeListMembers(pieces: seq<string>, t: string)
    ensures t in NormalizeList(pieces) <==> exists p :: p in pieces && !AllSpace(p) && t == Normalize(p)
    decreases |pieces|
  {
    if pieces != [] {
      NormalizeListMembers(pieces[1..], t);
      assert forall p :: p in pieces <==> p == pieces[0] || p in pieces[1..];
      var rest := NormalizeList(pieces[1..]);
      assert NormalizeList(pieces) == if AllSpace(pieces[0]) then rest else [Normalize(pieces[0])] + rest;
    }
  }

  /** The tokens of `raw`: its comma-separated pieces, stripped, upper-cased,
      blanks dropped. */
  function Tokens(raw: string): (r: seq<string>)
    ensures forall k :: 0 <= k < |r| ==> r[k] != [] && IsTrimmed(r[k]) && IsUpper(r[k])
  {
    NormalizeList(Split(raw, ','))
  }

  /** The watchlist set `{s.strip().upper() for s in filter_to if
      isinstance(s, str) and s.strip()}`, or no filter at all. */
  function AllowSet(filterTo: Option<seq<Raw>>): (allow: Option<set<string>>)
    ensures allow.Some? <==> filterTo.Some?
    ensures allow.Some? ==> forall x :: x in allow.value ==> x != [] && IsTrimmed(x) && IsUpper(x)
  {
    match filterTo
    case None => None
    case Some(items) => Some(set r | r in items && r.Str? && !AllSpace(r.s) :: Normalize(r.s))
  }

  /** Whether a (not yet seen) token is kept. */
  predicate Wanted(sym: string, validate: bool, allow: Option<set<string>>) {
    && (!validate || IsSymbolShape(sym))
    && (allow.None? || sym in allow.value)
  }

  /** The output list after the loop has consumed `tokens`: each wanted token
      that has not been kept before is appended. */
  function Accepted(tokens: seq<string>, validate: bool, allow: Option<set<string>>): (r: seq<string>)
    ensures |r| <= |tokens|
    decreases |tokens|
  {
    if tokens == [] then []
    else
      var prev := Accepted(tokens[..|tokens| - 1], validate, allow);
      var t := tokens[|tokens| - 1];
      if t !in prev && Wanted(t, validate, allow) then prev + [t] else prev
  }

  /** Everything kept is a wanted token. */
  lemma {:induction false} AcceptedSound(tokens: seq<string>, validate: bool, allow: Option<set<string>>)
    ensures forall x :: x in Accepted(tokens, validate, allow) ==> x in tokens && Wanted(x, validate, allow)
    decreases |tokens|
  {
    if tokens != [] {
      var init := tokens[..|tokens| - 1];
      AcceptedSound(init, validate, allow);
      assert forall x :: x in init ==> x in tokens;
    }
  }

  /** Every wanted token is kept. */
  lemma {:induction false} AcceptedComplete(tokens: seq<string>, validate: bool, allow: Option<set<string>>)
    ensures forall x :: x in tokens && Wanted(x, validate, allow) ==> x in Accepted(tokens, validate, allow)
    decreases |tokens|
  {
    if tokens != [] {
      var init := tokens[..|tokens| - 1];
      AcceptedComplete(init, validate, allow);
      assert tokens == init + [tokens[|tokens| - 1]];
    }
  }

  /** Nothing is kept twice. */
  lemma {:induction false} AcceptedNoDuplicates(tokens: seq<string>, validate: bool, allow: Option<set<string>>)
    ensures NoDuplicates(Accepted(tokens, validate, allow))
    decreases |tokens|
  {
    if tokens != [] {
      AcceptedNoDuplicates(tokens[..|tokens| - 1], validate, allow);
    }
  }

  /** The kept tokens appear in the order of the token list. */
  lemma {:induction false} AcceptedOrdered(tokens: seq<string>, validate: bool, allow: Option<set<string>>)
    ensures IsSubsequence(Accepted(tokens, validate, allow), tokens)
    decreases |tokens|
  {
    if tokens != [] {
      var init, t := tokens[..|tokens| - 1], tokens[|tokens| - 1];
      var prev := Accepted(init, validate, allow);
      AcceptedOrdered(init, validate, allow);
      if t !in prev && Wanted(t, validate, allow) {
        var out := prev + [t];
        assert out[..|out| - 1] == prev;
      } else {
        assert init + [t] == tokens;
        SubsequenceExtend(prev, init, t);
      }
    }
  }

  /** Each element of `out` occurs in `tokens` before every occurrence of
      any later element of `out`: `out` is in order of first occurrence. */
  predicate FirstOccurrenceOrder(out: seq<string>, tokens: seq<string>) {
    forall i, j, q :: 0 <= i < j < |out| && 0 <= q < |tokens| && tokens[q] == out[j] ==> out[i] in tokens[..q]
  }

  /** The kept tokens come in the order of their first occurrence: together
      with soundness, completeness and no duplicates this fixes the output. */
  lemma {:induction false} AcceptedFirstOccurrence(tokens: seq<string>, validate: bool, allow: Option<set<string>>)
    ensures FirstOccurrenceOrder(Accepted(tokens, validate, allow), tokens)
    decreases |tokens|
  {
    if tokens != [] {
      var init, t := tokens[..|tokens| - 1], tokens[|tokens| - 1];
      var prev, out := Accepted(init, validate, allow), Accepted(tokens, validate, allow);
      AcceptedFirstOccurrence(init, validate, allow);
      AcceptedSound(init, validate, allow);
      AcceptedComplete(init, validate, allow);
      forall i, j, q | 0 <= i < j < |out| && 0 <= q < |tokens| && tokens[q] == out[j]
        ensures out[i] in tokens[..q]
      {
        assert out[i] == prev[i];
        if q < |init| {
          assert tokens[..q] == init[..q];
          assert tokens[q] == init[q] && init[q] in init;
          assert j < |prev|;
          assert out[j] == prev[j];
        } else {
          assert tokens[..q] == init;
          assert prev[i] in prev;
        }
      }
    }
  }

  /** One turn of the loop: the next token is appended when it is new and wanted. */
  lemma AcceptedStep(tokens: seq<string>, i: nat, validate: bool, allow: Option<set<string>>)
    requires i < |tokens|
    ensures Accepted(tokens[..i + 1], validate, allow) ==
      var prev := Accepted(tokens[..i], validate, allow);
      if tokens[i] !in prev && Wanted(tokens[i], validate, allow) then prev + [tokens[i]] else prev
  {
    assert tokens[..i + 1][..i] == tokens[..i];
  }

  /** The value `parse_symbols(raw, filter_to, validate=validate)` returns. */
  function ParseSymbolsSpec(raw: Raw, filterTo: Option<seq<Raw>>, validate: bool): (r: seq<string>)
    ensures !raw.Str? || AllSpace(raw.s) ==> r == []
    ensures raw.Str? ==> |r| <= |Tokens(raw.s)|
  {
    if !raw.Str? || AllSpace(raw.s) then []
    else Accepted(Tokens(raw.s), validate, AllowSet(filterTo))
  }

  /** The loop's output, for any token list whose tokens are normalised. */
  lemma AcceptedProperties(tokens: seq<string>, validate: bool, allow: Option<set<string>>)
    requires forall k :: 0 <= k < |tokens| ==> tokens[k] != [] && IsTrimmed(tokens[k]) && IsUpper(tokens[k])
    ensures forall x :: x in Accepted(tokens, validate, allow) ==>
      x != [] && IsTrimmed(x) && IsUpper(x) && Wanted(x, validate, allow)
    ensures NoDuplicates(Accepted(tokens, validate, allow))
    ensures IsSubsequence(Accepted(tokens, validate, allow), tokens)
    ensures FirstOccurrenceOrder(Accepted(tokens, validate, allow), tokens)
    ensures forall t :: t in tokens && Wanted(t, validate, allow) ==> t in Accepted(tokens, validate, allow)
  {
    var out := Accepted(tokens, validate, allow);
    AcceptedNoDuplicates(tokens, validate, allow);
    AcceptedOrdered(tokens, validate, allow);
    AcceptedComplete(tokens, validate, allow);
    AcceptedFirstOccurrence(tokens, validate, allow);
    forall x | x in out
      ensures x != [] && IsTrimmed(x) && IsUpper(x) && Wanted(x, validate, allow)
    {
      AcceptedSound(tokens, validate, allow);
      var j :| 0 <= j < |tokens| && tokens[j] == x;
    }
  }

  /** What the result of `parse_symbols` satisfies, for every input. */
  lemma ParseSymbolsProperties(raw: Raw, filterTo: Option<seq<Raw>>, validate: bool)
    ensures !raw.Str? || AllSpace(raw.s) ==> ParseSymbolsSpec(raw, filterTo, validate) == []
    ensures var out := ParseSymbolsSpec(raw, filterTo, validate);
      forall k :: 0 <= k < |out| ==> out[k] != [] && IsTrimmed(out[k]) && IsUpper(out[k])
    ensures NoDuplicates(ParseSymbolsSpec(raw, filterTo, validate))
    ensures raw.Str? ==> IsSubsequence(ParseSymbolsSpec(raw, filterTo, validate), Tokens(raw.s))
    ensures raw.Str? ==> FirstOccurrenceOrder(ParseSymbolsSpec(raw, filterTo, validate), Tokens(raw.s))
    ensures var out := ParseSymbolsSpec(raw, filterTo, validate);
      validate ==> forall k :: 0 <= k < |out| ==> IsSymbolShape(out[k])
    ensures var out := ParseSymbolsSpec(raw, filterTo, validate);
      filterTo.Some? ==> forall k :: 0 <= k < |out| ==> out[k] in AllowSet(filterTo).value
    ensures raw.Str? && !AllSpace(raw.s) ==> forall t ::
      t in Tokens(raw.s) && Wanted(t, validate, AllowSet(filterTo)) ==> t in ParseSymbolsSpec(raw, filterTo, validate)
  {
    if raw.Str? && !AllSpace(raw.s) {
      var tokens, allow := Tokens(raw.s), AllowSet(filterTo);
      var out := Accepted(tokens, validate, allow);
      assert ParseSymbolsSpec(raw, filterTo, validate) == out;
      AcceptedProperties(tokens, validate, allow);
      forall k | 0 <= k < |out|
        ensures out[k] != [] && IsTrimmed(out[k]) && IsUpper(out[k])
        ensures validate ==> IsSymbolShape(out[k])
        ensures filterTo.Some? ==> out[k] in allow.value
      {
        assert out[k] in out;
      }
    } else {
      var empty: seq<string> := [];
      assert ParseSymbolsSpec(raw, filterTo, validate) == empty;
      assert IsSubsequence(empty, if raw.Str? then Tokens(raw.s) else []);
    }
  }

  /** The loop of `parse_symbols` over the tokens, with its `seen` set. */
  method AcceptTokens(tokens: seq<string>, validate: bool, allow: Option<set<string>>) returns (out: seq<string>)
    ensures out == Accepted(tokens, validate, allow)
  {
    out := [];
    var seen: set<string> := {};
    var i := 0;
    while i < |tokens|
      invariant 0 <= i <= |tokens|
      invariant out == Accepted(tokens[..i], validate, allow)
      invariant forall x :: x in seen <==> x in out
    {
      var sym := tokens[i];
      AcceptedStep(tokens, i, validate, allow);
      if sym in seen {
      } else if validate && !IsSymbolShape(sym) {
      } else if allow.Some? && sym !in allow.value {
      } else {
        out := out + [sym];
        seen := seen + {sym};
      }
      i := i + 1;
    }
    assert tokens[..i] == tokens;
  }

  /** `parse_symbols`: tokenise, then keep each token that is new, well
      formed (when `validate`) and on the watchlist (when `filter_to` is given). */
  method ParseSymbols(raw: Raw, filterTo: Option<seq<Raw>>, validate: bool) returns (out: seq<string>)
    ensures out == ParseSymbolsSpec(raw, filterTo, validate)
    ensures !raw.Str? || AllSpace(raw.s) ==> out == []
    ensures forall k :: 0 <= k < |out| ==> out[k] != [] && IsTrimmed(out[k]) && IsUpper(out[k])
    ensures NoDuplicates(out)
    ensures raw.Str? ==> IsSubsequence(out, Tokens(raw.s))
    ensures raw.Str? ==> FirstOccurrenceOrder(out, Tokens(raw.s))
    ensures validate ==> forall k :: 0 <= k < |out| ==> IsSymbolShape(out[k])
    ensures filterTo.Some? ==> forall k :: 0 <= k < |out| ==> out[k] in AllowSet(filterTo).value
    ensures raw.Str? && !AllSpace(raw.s) ==>
      forall t :: t in Tokens(raw.s) && Wanted(t, validate, AllowSet(filterTo)) ==> t in out
  {
    if !raw.Str? || AllSpace(raw.s) {
      return [];
    }
    out := AcceptTokens(Tokens(raw.s), validate, AllowSet(filterTo));
    ParseSymbolsProperties(raw, filterTo, validate);
  }
}

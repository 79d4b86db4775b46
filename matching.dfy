/**
 * The matching engine (tokens.go:189-294): `isToken`, the lookahead oracle,
 * and `findToken`, the recursive narrowing that picks the kind and text of
 * the token at the start of a line.
 */
module Matching {
  import opened Wrappers
  import opened Signatures
  import opened Kinds

  /**
   * `calcStep`: Go computes `max - (max - len(line))` from the longest
   * signature, which is always the length of the line; the maximum bounds nothing.
   */
  function CalcStep(line: Signature, signatureMaxSize: nat): (step: nat)
    ensures step == |line|
  {
    signatureMaxSize - (signatureMaxSize - |line|)
  }

  /**
   * `calcView`: the `step` characters of `line` from `pos` on, or all that is
   * left when fewer remain; Go's slice panics when `pos` is past the end.
   */
  function CalcView(line: Signature, pos: nat, step: nat): (view: Option<Signature>)
    ensures view.Some? <==> pos <= |line|
    ensures view.Some? ==> view.value <= line[pos..]
    ensures view.Some? ==> |view.value| == if pos + step <= |line| then step else |line| - pos
  {
    if pos + step > |line| then
      if pos <= |line| then Some(line[pos..]) else None
    else Some(line[pos..pos + step])
  }

  /**
   * `calcViewR`: Go tests `(pos - step) > 0` on unsigned 64-bit values, which
   * holds exactly when `pos != step`, so the view is empty unless `pos == step`,
   * and then it is the first `pos` characters.
   */
  function CalcViewR(line: Signature, pos: nat, step: nat): (view: Option<Signature>)
    ensures pos != step ==> view == Some([])
    ensures pos == step ==> (view.Some? <==> pos <= |line|)
    ensures pos == step && pos <= |line| ==> view == Some(line[..pos])
  {
    if pos != step then Some(line[0..0])
    else if pos <= |line| then Some(line[pos - step..pos])
    else None
  }

  /**
   * The rest of the `isToken` loop from a state at its head: the candidate
   * text is `line[..step]`, `view` the character tested for a space and
   * `matches` the ids found so far. The loop tests `matches` before it
   * narrows them for the current text, so it runs one pass behind.
   */
  function IsTokenFrom(kinds: KindMap, line: Signature, step: nat, view: Signature, matches: set<TokenId>): bool
    requires step <= |line|
    requires step == 0 ==> matches != {} && view != " "
    decreases step
  {
    var sig := line[..step];
    if matches == {} || view == " " then
      var narrowed := Select(kinds, Substring, sig, matches);
      if step - 1 == 0 then Select(kinds, Exact, sig, narrowed) != {}
      else IsTokenFrom(kinds, line, step - 1, line[step - 2..step - 1], narrowed)
    else Select(kinds, Exact, sig, matches) != {}
  }

  /**
   * `isToken`: shrinks the text from the right while nothing contains it (or
   * while a space precedes the cut), then asks for an exact match. Go's
   * unsigned step wraps below zero, and the slice panics, for the empty text
   * against an empty table; no caller asks that.
   */
  function IsToken(kinds: KindMap, line: Signature): bool
    requires |line| > 0 || |kinds| > 0
  {
    var view := CalcViewR(line, |line|, 1).value;
    var matches := Select(kinds, Substring, line, {});
    EmptyTextMatchesAll(kinds, line);
    IsTokenFrom(kinds, line, |line|, view, matches)
  }

  /** Every signature contains the empty text, so a non-empty table finds it. */
  lemma EmptyTextMatchesAll(kinds: KindMap, line: Signature)
    requires |line| > 0 || |kinds| > 0
    ensures |line| == 0 ==> Select(kinds, Substring, line, {}) != {}
  {
    if |line| == 0 {
      var id :| id in kinds.Keys;
      assert id in Select(kinds, Substring, line, {});
    }
  }

  /** `isToken` as Go runs it: the loop over `step`, `sig` and `view`. */
  method ComputeIsToken(kinds: KindMap, signatureMaxSize: nat, line: Signature) returns (b: bool)
    requires |line| > 0 || |kinds| > 0
    ensures b == IsToken(kinds, line)
  {
    var step: nat := CalcStep(line, signatureMaxSize);
    var view := CalcViewR(line, step, 1).value;
    var sig := line;
    var matches := Find(kinds, sig, []);
    EmptyTextMatchesAll(kinds, line);
    while |matches| == 0 || view == " "
      invariant step <= |line| && sig == line[..step]
      invariant step == 0 ==> SetOf(matches) != {} && view != " "
      invariant IsTokenFrom(kinds, line, step, view, SetOf(matches)) == IsToken(kinds, line)
      decreases step
    {
      SetOfEmpty(matches);
      matches := Find(kinds, sig, matches);
      if step - 1 == 0 {
        break;
      }
      step := step - 1;
      sig := line[..step];
      view := line[step - 1..step];
    }
    SetOfEmpty(matches);
    matches := FindEx(kinds, sig, matches);
    b := |matches| > 0;
    SetOfEmpty(matches);
  }

  /** Some registered kind has exactly this signature. */
  ghost predicate Declares(kinds: KindMap, sig: Signature)
  {
    exists id :: id in kinds && kinds[id].signature == sig
  }

  /** A text that is some kind's whole signature is a token. */
  lemma IsTokenOfSignature(kinds: KindMap, line: Signature, id: TokenId)
    requires id in kinds && kinds[id].signature == line
    ensures IsToken(kinds, line)
  {
    var matches := Select(kinds, Substring, line, {});
    ContainsPrefix(line, line);
    assert id in matches;
    assert line[..|line|] == line;
    if line == " " {
      assert id in Select(kinds, Substring, line, matches);
      assert id in Select(kinds, Exact, line[..1], Select(kinds, Substring, line, matches));
    } else {
      assert id in Select(kinds, Exact, line[..|line|], matches);
    }
  }

  /** Whatever the `isToken` loop accepts is a registered signature equal to a non-empty prefix. */
  lemma {:induction false} IsTokenFromPrefix(kinds: KindMap, line: Signature, step: nat, view: Signature, matches: set<TokenId>)
    requires 1 <= step <= |line|
    requires matches <= kinds.Keys
    requires IsTokenFrom(kinds, line, step, view, matches)
    ensures exists k :: 1 <= k <= step && Declares(kinds, line[..k])
  {
    var sig := line[..step];
    if matches == {} || view == " " {
      var narrowed := Select(kinds, Substring, sig, matches);
      if step - 1 == 0 {
        var id :| id in Select(kinds, Exact, sig, narrowed);
        assert Declares(kinds, line[..step]);
      } else {
        IsTokenFromPrefix(kinds, line, step - 1, line[step - 2..step - 1], narrowed);
        var k :| 1 <= k <= step - 1 && Declares(kinds, line[..k]);
      }
    } else {
      var id :| id in Select(kinds, Exact, sig, matches);
      assert Declares(kinds, line[..step]);
    }
  }

  /** A non-empty text is a token only if one of its non-empty prefixes is a registered signature. */
  lemma IsTokenOnlyIfPrefix(kinds: KindMap, line: Signature)
    requires |line| > 0 && IsToken(kinds, line)
    ensures exists k :: 1 <= k <= |line| && Declares(kinds, line[..k])
  {
    IsTokenFromPrefix(kinds, line, |line|, CalcViewR(line, |line|, 1).value, Select(kinds, Substring, line, {}));
  }

  /** In particular nothing starting with a character no signature holds is a token. */
  lemma NotTokenWithoutFirstChar(kinds: KindMap, line: Signature)
    requires |line| > 0
    requires forall id :: id in kinds ==> line[0] !in kinds[id].signature
    ensures !IsToken(kinds, line)
  {
    if IsToken(kinds, line) {
      IsTokenOnlyIfPrefix(kinds, line);
    }
  }

  /** What `findToken` comes to: a kind and its text, a slice panic, or recursion that does not end. */
  datatype Match = Found(id: TokenId, text: Signature) | OutOfRange | OutOfFuel

  /** The one element of a singleton set (Go reads `ids[0]` of a one-element list). */
  function Only(ids: set<TokenId>): (id: TokenId)
    requires |ids| == 1
    ensures ids == {id}
  {
    var id :| id in ids;
    assert |ids - {id}| == 0;
    id
  }

  /** Exact matches among a single candidate are that candidate or nothing. */
  lemma SingleExact(kinds: KindMap, view: Signature, candidates: set<TokenId>)
    requires |candidates| == 1
    ensures var exact := Select(kinds, Exact, view, candidates);
      exact == {} || exact == candidates
  {
    var c := Only(candidates);
    var exact := Select(kinds, Exact, view, candidates);
    if c in exact {
      assert exact == candidates;
    } else {
      assert forall id :: id in exact ==> id == c;
    }
  }

  /**
   * The several-candidates branch of `findToken`: when the character after
   * the view does not start a token, stay at this view with its exact matches
   * (or the generic kind); otherwise grow the view by one. `None` stands for
   * the slice panic past the end of the line, and for `isToken` on the empty
   * text of an empty table, whose loop indexes an empty list.
   */
  function Narrow(kinds: KindMap, line: Signature, step: nat, view: Signature, candidates: set<TokenId>): (next: Option<(nat, set<TokenId>)>)
    ensures next.Some? ==> next.value.0 == step || next.value.0 == step + 1
    ensures next.Some? <==> step <= |line| && (step < |line| || |kinds| > 0)
  {
    match CalcView(line, step, 1)
    case None => None
    case Some(ahead) =>
      if |ahead| == 0 && |kinds| == 0 then None
      else if !IsToken(kinds, ahead) then
        var exact := Select(kinds, Exact, view, candidates);
        Some((step, if exact == {} then {GenericId} else exact))
      else Some((step + 1, candidates))
  }

  /** A token right after the view: the view grows by one, the candidates stay. */
  lemma NarrowGrows(kinds: KindMap, line: Signature, step: nat, view: Signature, candidates: set<TokenId>)
    requires step < |line| && IsToken(kinds, line[step..step + 1])
    ensures Narrow(kinds, line, step, view, candidates) == Some((step + 1, candidates))
  {
    assert CalcView(line, step, 1).value == line[step..step + 1];
  }

  /** No token right after the view: the view stays and the candidates shrink to its exact matches. */
  lemma NarrowStays(kinds: KindMap, line: Signature, step: nat, view: Signature, candidates: set<TokenId>)
    requires step < |line| && !IsToken(kinds, line[step..step + 1])
    ensures var exact := Select(kinds, Exact, view, candidates);
      Narrow(kinds, line, step, view, candidates) == Some((step, if exact == {} then {GenericId} else exact))
  {
    assert CalcView(line, step, 1).value == line[step..step + 1];
  }

  /**
   * A found token is either the generic kind with the whole line, or a
   * registered kind whose signature is a non-empty prefix of the line.
   */
  ghost predicate FoundSound(kinds: KindMap, line: Signature, m: Match)
  {
    m.Found? ==>
      (m.id == GenericId && m.text == line) ||
      (1 <= |m.text| <= |line| && m.text == line[..|m.text|] && m.id in kinds && kinds[m.id].signature == m.text)
  }

  /** What one `findToken` call does: return a result, or call itself again with a new view and list. */
  datatype Step = Done(result: Match) | Again(step: nat, ids: set<TokenId>)

  /**
   * The body of `findToken(line, step, ids...)`: narrows the candidate kinds
   * for `line[..step]`. No candidates: the generic kind with the whole line.
   * One candidate: it wins once the view equals its signature, else the view
   * grows and the candidates are looked up afresh. Several: see `Narrow`.
   * A result it returns is sound, and a call it makes never shrinks the view.
   */
  function Decide(kinds: KindMap, line: Signature, step: nat, ids: set<TokenId>): (d: Step)
    ensures d.Again? ==> d.step >= step
    ensures d.Done? && |line| > 0 && step >= 1 ==> FoundSound(kinds, line, d.result)
  {
    var view := CalcView(line, 0, step).value;
    var candidates := if ids == {} then Select(kinds, Substring, view, ids) else ids;
    if |candidates| == 0 then Done(Found(GenericId, line))
    else if |candidates| == 1 then
      var exact := Select(kinds, Exact, view, candidates);
      if exact == {} then Again(step + 1, exact)
      else
        SingleExact(kinds, view, candidates);
        assert Only(exact) in exact;
        Done(Found(Only(exact), view))
    else
      match Narrow(kinds, line, step, view, candidates)
      case None => Done(OutOfRange)
      case Some(next) => Again(next.0, next.1)
  }

  /**
   * `findToken`: Go recurses without bound, so `fuel` counts the calls.
   * Every token it finds on a non-empty line is sound.
   */
  function FindToken(kinds: KindMap, line: Signature, step: nat, ids: set<TokenId>, fuel: nat): (m: Match)
    decreases fuel
    ensures |line| > 0 && step >= 1 ==> FoundSound(kinds, line, m)
  {
    if fuel == 0 then OutOfFuel
    else
      match Decide(kinds, line, step, ids)
      case Done(m) => m
      case Again(next, narrowed) => FindToken(kinds, line, next, narrowed, fuel - 1)
  }

  /** A line whose first character no signature holds is one generic token, whole. */
  lemma FindTokenGeneric(kinds: KindMap, line: Signature, fuel: nat)
    requires |line| > 0 && fuel > 0
    requires forall id :: id in kinds ==> line[0] !in kinds[id].signature
    ensures FindToken(kinds, line, 1, {}, fuel) == Found(GenericId, line)
  {
    assert CalcView(line, 0, 1).value == [line[0]];
    forall id | id in kinds
      ensures !Contains(kinds[id].signature, [line[0]])
    {
      ContainsChar(kinds[id].signature, line[0]);
    }
    assert Select(kinds, Substring, [line[0]], {}) == {};
  }
}

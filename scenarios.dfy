/**
 * Worked cases of the matcher on a small table: whitespace and the generic
 * identifier (ids 0 and 1, as `loadTokens` registers them), then `=` and `==`
 * declared after the reserved block (ids 7 and 8). They pin down what the
 * Go code does, which is not longest-match lexing.
 */
module Scenarios {
  import opened Wrappers
  import opened Signatures
  import opened Kinds
  import opened Matching
  import opened Tokenizer

  /** The table: whitespace, the generic identifier, `=` and `==`. */
  const Table: KindMap := map[
    0 := TokenKind(0, "WHTSPACE", " "),
    1 := TokenKind(1, "GENIDEN", "&IDEN"),
    7 := TokenKind(7, "ASSIGN", "="),
    8 := TokenKind(8, "EQUALS", "==")]

  /** The kinds whose signature holds the character `c`. */
  lemma HoldingChar(kinds: KindMap, c: char, ids: set<TokenId>)
    requires ids <= kinds.Keys
    requires forall id :: id in kinds ==> (id in ids <==> c in kinds[id].signature)
    ensures Select(kinds, Substring, [c], {}) == ids
  {
    forall id | id in kinds
      ensures Contains(kinds[id].signature, [c]) <==> c in kinds[id].signature
    {
      ContainsChar(kinds[id].signature, c);
    }
  }

  /** No kind's signature holds a text with the character `c`, which none of them has. */
  lemma HoldingNone(kinds: KindMap, text: Signature, c: char)
    requires c in text
    requires forall id :: id in kinds ==> c !in kinds[id].signature
    ensures Select(kinds, Substring, text, {}) == {}
  {
    forall id | id in kinds
      ensures !Contains(kinds[id].signature, text)
    {
      if Contains(kinds[id].signature, text) {
        ContainsKeepsChars(kinds[id].signature, text, c);
      }
    }
  }

  /** `=` and `==` hold `=`. */
  lemma AssignCandidates(kinds: KindMap)
    requires kinds == Table
    ensures Select(kinds, Substring, "=", {}) == EqualSigns
  {
    HoldingChar(kinds, '=', EqualSigns);
  }

  /** `=` starts a token: `=` itself. */
  lemma AssignIsToken(kinds: KindMap)
    requires kinds == Table
    ensures IsToken(kinds, "=")
  {
    AssignCandidates(kinds);
    assert Select(kinds, Exact, "=", {7, 8}) == {7};
  }

  /** Only whitespace holds a space, and it is exactly a space. */
  lemma SpaceCandidates(kinds: KindMap)
    requires kinds == Table
    ensures Select(kinds, Substring, " ", {}) == {0}
    ensures Select(kinds, Exact, " ", {0}) == {0}
  {
    HoldingChar(kinds, ' ', {0});
  }

  /** No signature holds a text with an `a` in it. */
  lemma NothingHoldsA(kinds: KindMap, text: Signature)
    requires kinds == Table && 'a' in text
    ensures Select(kinds, Substring, text, {}) == {}
  {
    HoldingNone(kinds, text, 'a');
  }

  /** A space is a token: whitespace. */
  lemma SpaceIsToken(kinds: KindMap)
    requires kinds == Table
    ensures IsToken(kinds, " ")
  {
    SpaceCandidates(kinds);
  }

  /** No signature holds `a`, so `a` is no token. */
  lemma LetterIsNotToken(kinds: KindMap)
    requires kinds == Table
    ensures !IsToken(kinds, "a")
  {
    NothingHoldsA(kinds, "a");
    assert Select(kinds, Exact, "a", {}) == {};
  }

  /** The empty text is no token: no signature is empty. */
  lemma EmptyIsNotToken(kinds: KindMap)
    requires kinds == Table
    ensures !IsToken(kinds, "")
  {
    var all := Select(kinds, Substring, "", {});
    forall id | id in kinds
      ensures Contains(kinds[id].signature, "")
    {
      ContainsPrefix(kinds[id].signature, "");
    }
    assert all == {0, 1, 7, 8};
    assert Select(kinds, Exact, "", all) == {};
  }

  /** `" a"` starts with a token, so the identifier `findIdenToken` cuts from `"= a"` is `"="`. */
  lemma SpaceAIsToken(kinds: KindMap, text: Signature)
    requires kinds == Table && text == " a"
    ensures IsToken(kinds, text)
  {
    assert text[..2] == text && text[0..1] == text[..1] == " ";
    NothingHoldsA(kinds, text);
    SpaceCandidates(kinds);
  }

  /** The ids of `=` and `==`, and of `==` alone. */
  const EqualSigns: set<TokenId> := {7, 8}
  const DoubleEqual: set<TokenId> := {8}

  /** The slices of `==` and of `= a` the matcher looks at. */
  lemma Slices(line: Signature)
    ensures line == "==" ==> line[..1] == line[1..2] == "=" && line[..2] == line
    ensures line == "= a" ==> line[..1] == "=" && line[1..2] == " " && line[..2] == "= " && line[2..3] == "a" && line[..3] == line
  {
  }

  /** The line `==` over the table. */
  predicate EqualsLine(kinds: KindMap, line: Signature)
  {
    kinds == Table && line == "=="
  }

  /** The line `= a` over the table. */
  predicate AssignLine(kinds: KindMap, line: Signature)
  {
    kinds == Table && line == "= a"
  }

  /** `==` is a single `==` token: the lookahead `=` is a token, and the empty text after it is none. */
  lemma EqualsIsOneToken(kinds: KindMap, line: Signature, fuel: nat)
    requires EqualsLine(kinds, line)
    ensures FindToken(kinds, line, 1, {}, fuel + 3) == Found(8, "==")
  {
    EqualsGrows(kinds, line, fuel + 2);
    EqualsNarrows(kinds, line, fuel + 1);
    EqualsFound(kinds, line, fuel);
  }

  /** At `=` both `=` and `==` are candidates and `=` follows, so the view grows. */
  lemma EqualsGrows(kinds: KindMap, line: Signature, fuel: nat)
    requires EqualsLine(kinds, line)
    ensures FindToken(kinds, line, 1, {}, fuel + 1) == FindToken(kinds, line, 2, EqualSigns, fuel)
  {
    Slices(line);
    AssignCandidates(kinds);
    AssignIsToken(kinds);
    NarrowGrows(kinds, line, 1, "=", EqualSigns);
  }

  /** At `==` nothing follows, and the empty text is no token: keep the exact match. */
  lemma EqualsNarrows(kinds: KindMap, line: Signature, fuel: nat)
    requires EqualsLine(kinds, line)
    ensures FindToken(kinds, line, 2, EqualSigns, fuel + 1) == FindToken(kinds, line, 2, DoubleEqual, fuel)
  {
    Slices(line);
    EmptyIsNotToken(kinds);
    assert CalcView(line, 2, 1).value == "";
    assert Select(kinds, Exact, line, EqualSigns) == DoubleEqual;
  }

  lemma EqualsFound(kinds: KindMap, line: Signature, fuel: nat)
    requires EqualsLine(kinds, line)
    ensures FindToken(kinds, line, 2, DoubleEqual, fuel + 1) == Found(8, "==")
  {
    Slices(line);
    assert Select(kinds, Exact, line, DoubleEqual) == DoubleEqual;
  }

  /**
   * In `= a` the `=` is not an `=` token: the space after it is a token, so
   * the view grows to `= `, which no kind equals; the candidates fall back
   * to the generic id and the view grows to the whole text, which no
   * signature contains.
   */
  lemma AssignBeforeSpaceIsGeneric(kinds: KindMap, line: Signature, fuel: nat)
    requires AssignLine(kinds, line)
    ensures FindToken(kinds, line, 1, {}, fuel + 4) == Found(GenericId, line)
  {
    AssignGrows(kinds, line, fuel + 3);
    AssignFallsBack(kinds, line, fuel + 2);
    GenericGrows(kinds, line, fuel + 1);
    GenericFound(kinds, line, fuel);
  }

  /** At `=` both `=` and `==` are candidates and the space after is a token, so the view grows. */
  lemma AssignGrows(kinds: KindMap, line: Signature, fuel: nat)
    requires AssignLine(kinds, line)
    ensures FindToken(kinds, line, 1, {}, fuel + 1) == FindToken(kinds, line, 2, EqualSigns, fuel)
  {
    Slices(line);
    AssignCandidates(kinds);
    SpaceIsToken(kinds);
    NarrowGrows(kinds, line, 1, "=", EqualSigns);
  }

  /** At `= ` no candidate is exact and `a` is no token: fall back to the generic id. */
  lemma AssignFallsBack(kinds: KindMap, line: Signature, fuel: nat)
    requires AssignLine(kinds, line)
    ensures FindToken(kinds, line, 2, EqualSigns, fuel + 1) == FindToken(kinds, line, 2, {GenericId}, fuel)
  {
    Slices(line);
    LetterIsNotToken(kinds);
    assert Select(kinds, Exact, "= ", EqualSigns) == {};
    NarrowStays(kinds, line, 2, "= ", EqualSigns);
  }

  /** The generic id is no exact match for `= ` either, so the view grows. */
  lemma GenericGrows(kinds: KindMap, line: Signature, fuel: nat)
    requires AssignLine(kinds, line)
    ensures FindToken(kinds, line, 2, {GenericId}, fuel + 1) == FindToken(kinds, line, 3, {}, fuel)
  {
    Slices(line);
    assert Select(kinds, Exact, "= ", {GenericId}) == {};
  }

  /** No signature holds `= a`: the whole text is one generic token. */
  lemma GenericFound(kinds: KindMap, line: Signature, fuel: nat)
    requires AssignLine(kinds, line)
    ensures FindToken(kinds, line, 3, {}, fuel + 1) == Found(GenericId, line)
  {
    Slices(line);
    HoldingNone(kinds, line, 'a');
  }

  /** The line `==` is one `==` token at column 1. */
  lemma EqualsTokens(kinds: KindMap, line: Signature, lineNo: nat, fuel: nat)
    requires EqualsLine(kinds, line)
    ensures Tokens(kinds, line, lineNo, fuel + 3) == Some([TokenObject(kinds[8], lineNo, 1, "==")])
  {
    var t := TokenObject(kinds[8], lineNo, 1, "==");
    EqualsFirstToken(kinds, line, lineNo, fuel);
    TokensFromStep(kinds, line, lineNo, fuel + 3, 0);
    assert TokensFrom(kinds, line, lineNo, fuel + 3, 2) == Some([]);
    assert [t] + [] == [t];
  }

  lemma EqualsFirstToken(kinds: KindMap, line: Signature, lineNo: nat, fuel: nat)
    requires EqualsLine(kinds, line)
    ensures TokenAt(kinds, line, lineNo, fuel + 3, 0) == Some(TokenObject(kinds[8], lineNo, 1, "=="))
  {
    assert line[0..] == line;
    EqualsIsOneToken(kinds, line, fuel);
  }

  /** The first token of `= a` is a generic `=` at column 1, not the declared `=`. */
  lemma AssignFirstToken(kinds: KindMap, line: Signature, lineNo: nat, fuel: nat)
    requires AssignLine(kinds, line)
    ensures TokenAt(kinds, line, lineNo, fuel + 4, 0) == Some(TokenObject(kinds[GenericId], lineNo, 1, "="))
  {
    Slices(line);
    assert line[0..] == line;
    AssignBeforeSpaceIsGeneric(kinds, line, fuel);
    SpaceAIsToken(kinds, line[1..]);
  }

  /** The table without `=`: `==` is the only signature holding `=`. */
  const NoAssign: KindMap := map[
    0 := TokenKind(0, "WHTSPACE", " "),
    1 := TokenKind(1, "GENIDEN", "&IDEN"),
    8 := TokenKind(8, "EQUALS", "==")]

  /**
   * Without `=`, `findToken` on `=` never returns: `==` stays the one
   * candidate, never equals the view, and the view cannot grow past the
   * line, so every call makes the same one again with a larger step.
   */
  lemma {:induction false} AssignAloneDiverges(kinds: KindMap, line: Signature, step: nat, fuel: nat)
    requires kinds == NoAssign && line == "=" && step >= 1
    decreases fuel
    ensures FindToken(kinds, line, step, {}, fuel) == OutOfFuel
  {
    if fuel > 0 {
      assert CalcView(line, 0, step).value == "=";
      HoldingChar(kinds, '=', DoubleEqual);
      assert Select(kinds, Exact, "=", DoubleEqual) == {};
      AssignAloneDiverges(kinds, line, step + 1, fuel - 1);
    }
  }
}

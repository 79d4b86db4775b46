/**
 * Token signatures (tokens.go `tokenSignature`): the literal character
 * sequence that identifies a token kind. They are only ever compared, with
 * `Contains` (substring, Go's `strings.Contains`) and `Compare` (equality).
 */
module Signatures {
  type Signature = seq<char>

  /** `ots` occurs in `ts` at offset `i`. */
  ghost predicate OccursAt(ts: Signature, ots: Signature, i: int)
  {
    0 <= i && i + |ots| <= |ts| && ts[i..i + |ots|] == ots
  }

  /** `ts.Contains(ots)`: `ots` is a contiguous substring of `ts`. */
  function Contains(ts: Signature, ots: Signature): (b: bool)
    ensures b <==> exists i :: OccursAt(ts, ots, i)
  {
    if ots <= ts then
      assert OccursAt(ts, ots, 0);
      true
    else if |ts| == 0 then
      assert forall i :: !OccursAt(ts, ots, i);
      false
    else
      var b := Contains(ts[1..], ots);
      assert forall i :: OccursAt(ts[1..], ots, i) <==> OccursAt(ts, ots, i + 1);
      assert forall i :: OccursAt(ts, ots, i) ==> i == 0 || OccursAt(ts[1..], ots, i - 1);
      b
  }

  /** `ts.Compare(ots)`: exact equality, which is the strictest kind of containment. */
  predicate Compare(ts: Signature, ots: Signature)
    ensures Compare(ts, ots) ==> Contains(ts, ots)
  {
    ts == ots
  }

  /** A signature contains each of its own prefixes, itself included. */
  lemma ContainsPrefix(ts: Signature, p: Signature)
    requires p <= ts
    ensures Contains(ts, p)
  {
  }

  /** A single character is contained exactly when it occurs. */
  lemma ContainsChar(ts: Signature, c: char)
    ensures Contains(ts, [c]) <==> c in ts
  {
    if c in ts {
      var i :| 0 <= i < |ts| && ts[i] == c;
      assert OccursAt(ts, [c], i);
    } else {
      assert forall i :: OccursAt(ts, [c], i) ==> ts[i..i + 1][0] == c;
    }
  }

  /** Every character of a contained text occurs in the signature. */
  lemma ContainsKeepsChars(ts: Signature, ots: Signature, c: char)
    requires Contains(ts, ots) && c in ots
    ensures c in ts
  {
    var i :| OccursAt(ts, ots, i);
    var k :| 0 <= k < |ots| && ots[k] == c;
    assert ts[i..i + |ots|][k] == c;
  }
}

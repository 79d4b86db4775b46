/**
 * Declaration-line parsing (tokens.go:465-521): a declaration line reads
 * `NAME SEQUENCE  #: comment`; the part before the first space is the kind's
 * name, the rest its signature, and `#:` starts a comment.
 */
module Declarations {

  /** A comment marker `#:` starts at offset `i` of `s`. */
  predicate MarkerAt(s: string, i: int)
  {
    0 <= i && i + 2 <= |s| && s[i] == '#' && s[i + 1] == ':'
  }

  /** `s` holds no comment marker at all. */
  ghost predicate NoMarker(s: string)
  {
    forall i :: !MarkerAt(s, i)
  }

  /** Go's `strings.Index(s, "#:")` searching from offset `from` on. */
  function MarkerFrom(s: string, from: nat): (r: int)
    requires from <= |s|
    ensures r == -1 || (from <= r && MarkerAt(s, r))
    ensures forall i :: from <= i && MarkerAt(s, i) ==> r != -1 && r <= i
    decreases |s| - from
  {
    if from + 2 > |s| then -1
    else if MarkerAt(s, from) then from
    else MarkerFrom(s, from + 1)
  }

  /** `findCommentPos`: offset of the first `#:` in `s`, or -1 when there is none. */
  function FindCommentPos(s: string): (r: int)
    ensures r == -1 <==> NoMarker(s)
    ensures r != -1 ==> MarkerAt(s, r) && forall i :: 0 <= i < r ==> !MarkerAt(s, i)
  {
    MarkerFrom(s, 0)
  }

  /** Go's `strings.TrimRight(s, " ")`. */
  function TrimRightSpaces(s: string): (r: string)
    ensures r <= s
    ensures r == [] || r[|r| - 1] != ' '
    ensures forall i :: |r| <= i < |s| ==> s[i] == ' '
  {
    if s == [] || s[|s| - 1] != ' ' then s
    else
      var r := TrimRightSpaces(s[..|s| - 1]);
      assert s[..|s| - 1][..|r|] == s[..|r|];
      r
  }

  /**
   * `justifyString`: the text of `s` before `ind` with trailing spaces removed,
   * except that a cut of exactly two spaces becomes one space; a negative
   * `ind` leaves `s` as it is.
   */
  function JustifyString(s: string, ind: int): (r: string)
    requires ind <= |s|
    ensures ind < 0 ==> r == s
    ensures 0 <= ind ==> r <= s[..ind] && |r| <= ind
    ensures 0 <= ind && s[..ind] == "  " ==> r == " "
    ensures 0 <= ind && s[..ind] != "  " ==>
              (r == [] || r[|r| - 1] != ' ') && forall i :: |r| <= i < ind ==> s[i] == ' '
  {
    if !(ind >= 0) then s
    else
      var temp := s[..ind];
      if temp == "  " then " "
      else TrimRightSpaces(temp)
  }

  /** What `parseComment` leaves of a line: everything before its first comment, justified. */
  function StripComment(line: string): string
  {
    var ind := FindCommentPos(line);
    if ind < 0 then line else JustifyString(line, ind)
  }

  /** Stripping leaves a prefix of the line with no comment marker left in it. */
  lemma StripCommentShape(line: string)
    ensures StripComment(line) <= line
    ensures NoMarker(StripComment(line))
    ensures NoMarker(line) ==> StripComment(line) == line
  {
    var ind := FindCommentPos(line);
    var r := StripComment(line);
    if ind >= 0 {
      assert r <= line[..ind];
      assert |r| <= ind && r == line[..|r|];
      forall i ensures !MarkerAt(r, i) {
        if 0 <= i && i + 2 <= |r| {
          assert r[i] == line[i] && r[i + 1] == line[i + 1];
          assert !MarkerAt(line, i);
        }
      }
    }
  }

  /** Stripping comments twice is stripping them once. */
  lemma StripCommentIdempotent(line: string)
    ensures StripComment(StripComment(line)) == StripComment(line)
  {
    StripCommentShape(line);
    StripCommentShape(StripComment(line));
  }

  /**
   * `parseComment`: the loop re-runs `findCommentPos` on the cut text, which
   * holds no marker any more, so it stops after the second pass.
   */
  method ParseComment(line: string) returns (temp: string)
    ensures temp == StripComment(line)
  {
    temp := line;
    var ind := FindCommentPos(temp);
    StripCommentShape(line);
    while ind >= 0
      invariant (temp == line && ind == FindCommentPos(line))
             || (temp == StripComment(line) && (ind == -1 || ind == FindCommentPos(line)))
      decreases if ind < 0 then 0 else if FindCommentPos(temp) >= 0 then 2 else 1
    {
      ind := FindCommentPos(temp);
      temp := JustifyString(temp, ind);
    }
  }

  /** Offset of the first space of `s`, which has one. */
  function FirstSpace(s: string): (i: nat)
    requires ' ' in s
    ensures i < |s| && s[i] == ' ' && ' ' !in s[..i]
  {
    if s[0] == ' ' then 0
    else
      assert ' ' in s[1..];
      1 + FirstSpace(s[1..])
  }

  /** Go's `strings.SplitN(s, " ", 2)`. */
  function SplitN2(s: string): (parts: seq<string>)
    ensures 1 <= |parts| <= 2
    ensures |parts| == 1 <==> ' ' !in s
    ensures |parts| == 1 ==> parts[0] == s
    ensures |parts| == 2 ==> ' ' !in parts[0] && parts[0] + " " + parts[1] == s
  {
    if ' ' !in s then [s]
    else
      var i := FirstSpace(s);
      assert s[..i] + " " + s[i + 1..] == s;
      [s[..i], s[i + 1..]]
  }

  /** The (name, sequence) pair `parseLine` extracts from a declaration line. */
  function Declaration(line: string): (string, string)
  {
    var parts := SplitN2(line);
    if |parts| == 1 then ("", "") else (StripComment(parts[0]), StripComment(parts[1]))
  }

  /**
   * `parseLine`: split at the first space and strip comments from both parts;
   * a line without a space declares nothing. The Go panic for more than two
   * parts cannot happen, since `SplitN` with a limit of two never yields more.
   */
  method ParseLine(line: string) returns (name: string, sequence: string)
    ensures (name, sequence) == Declaration(line)
    ensures ' ' !in line ==> name == "" && sequence == ""
  {
    var temp := SplitN2(line);
    var i := 0;
    while i < |temp|
      invariant 0 <= i <= |temp| == |SplitN2(line)|
      invariant forall j :: 0 <= j < i ==> temp[j] == StripComment(SplitN2(line)[j])
      invariant forall j :: i <= j < |temp| ==> temp[j] == SplitN2(line)[j]
    {
      var p := ParseComment(temp[i]);
      temp := temp[i := p];
      i := i + 1;
    }
    if |temp| == 1 {
      return "", "";
    }
    name, sequence := temp[0], temp[1];
  }

  /**
   * A declaration's name is a prefix of the text before the first space, and
   * neither part keeps a comment marker.
   */
  lemma DeclarationShape(line: string)
    requires ' ' in line
    ensures Declaration(line).0 <= line[..FirstSpace(line)]
    ensures NoMarker(Declaration(line).0) && NoMarker(Declaration(line).1)
  {
    var parts := SplitN2(line);
    StripCommentShape(parts[0]);
    StripCommentShape(parts[1]);
    assert parts[0] == line[..FirstSpace(line)];
  }
}

/**
 * The tokenizer of tokens.go: the extent of a generic identifier
 * (`findIdenToken`), one line (`TokenizeLine`) and a list of lines
 * (`TokenizeLines`). The kind table and its longest signature are passed in;
 * in Go they are the package's global registry.
 */
module Tokenizer {
  import opened Wrappers
  import opened Signatures
  import opened Kinds
  import opened Matching

  /** No suffix `line[j..]` with `from <= j < to` starts a token. */
  ghost predicate NoTokenBetween(kinds: KindMap, line: Signature, from: nat, to: nat)
    requires to <= |line|
  {
    forall j :: from <= j < to ==> !IsToken(kinds, line[j..])
  }

  /**
   * The identifier `findIdenToken` cuts from `line`, having found no token
   * after `line[..s]` for any `s` below `from`: the first `line[..s]`, from
   * `from` on, that a token follows, or the whole line.
   */
  function FindIdenFrom(kinds: KindMap, line: Signature, from: nat): (r: Signature)
    requires 1 <= from <= |line|
    decreases |line| - from
    ensures from <= |r| <= |line| && r == line[..|r|]
    ensures NoTokenBetween(kinds, line, from, |r|)
    ensures |r| < |line| ==> IsToken(kinds, line[|r|..])
  {
    if from == |line| then line
    else if IsToken(kinds, line[from..]) then line[..from]
    else FindIdenFrom(kinds, line, from + 1)
  }

  /**
   * `findIdenToken`: a one-character text is its own identifier; a longer one
   * is a non-empty prefix inside which no token starts, followed by a token
   * unless it is the whole text.
   */
  function FindIden(kinds: KindMap, line: Signature): (r: Signature)
    requires |line| >= 1
    ensures 1 <= |r| <= |line| && r == line[..|r|]
    ensures |line| == 1 ==> r == line
    ensures |line| > 1 ==> NoTokenBetween(kinds, line, 1, |r|)
    ensures 1 < |line| && |r| < |line| ==> IsToken(kinds, line[|r|..])
  {
    if |line| == 1 then line else FindIdenFrom(kinds, line, 1)
  }

  /**
   * `findIdenToken` as Go runs it: the loop tests the text after the view and
   * then widens the view, so the first test is made twice and the view lags
   * one character behind the step counter.
   */
  method FindIdenToken(kinds: KindMap, signatureMaxSize: nat, line: Signature) returns (r: Signature)
    requires |line| >= 1
    ensures r == FindIden(kinds, line)
  {
    if |line| == 1 {
      return line;
    }
    var step := 1;
    var view, lookAhead := line[..step], line[step..];
    var ahead := ComputeIsToken(kinds, signatureMaxSize, lookAhead);
    while !ahead
      invariant 1 <= step <= |line|
      invariant var s := if step == 1 then 1 else step - 1;
        view == line[..s] && lookAhead == line[s..] &&
        FindIdenFrom(kinds, line, s) == FindIden(kinds, line)
      invariant ahead == IsToken(kinds, lookAhead)
      decreases |line| - step
    {
      view, lookAhead := line[..step], line[step..];
      step := step + 1;
      if step > |line| {
        break;
      }
      ahead := ComputeIsToken(kinds, signatureMaxSize, lookAhead);
    }
    return view;
  }

  /** `Some(prefix + ts)` when the rest succeeds, `None` when it fails. */
  function Prepend(prefix: seq<TokenObject>, rest: Option<seq<TokenObject>>): Option<seq<TokenObject>>
  {
    match rest
    case None => None
    case Some(ts) => Some(prefix + ts)
  }

  /**
   * The body of the `TokenizeLine` loop on the rest of a line: `findToken`
   * with a one-character view, and the generic kind widened to its
   * identifier. The symbol is a non-empty prefix of the text; `None` when
   * `findToken` panics or runs out of `fuel`.
   */
  function Lex(kinds: KindMap, rest: Signature, fuel: nat): (r: Option<(TokenId, Signature)>)
    requires |rest| > 0
    ensures r.Some? ==> 1 <= |r.value.1| <= |rest| && r.value.1 == rest[..|r.value.1|]
    ensures r.Some? && r.value.0 != GenericId ==> r.value.0 in kinds && kinds[r.value.0].signature == r.value.1
  {
    var m := FindToken(kinds, rest, 1, {}, fuel);
    if !m.Found? then None
    else
      Some((m.id, if m.id == GenericId then FindIden(kinds, m.text) else m.text))
  }

  /**
   * A token of line `lineNo` of `line`: its symbol is non-empty and sits in
   * the line at its 1-based column, and its kind is the generic one or a
   * registered kind whose signature is the symbol.
   */
  ghost predicate Fits(kinds: KindMap, line: Signature, lineNo: nat, t: TokenObject)
  {
    t.lineNo == lineNo && 1 <= t.position && 1 <= |t.symbol| &&
    t.position - 1 + |t.symbol| <= |line| &&
    line[t.position - 1 .. t.position - 1 + |t.symbol|] == t.symbol &&
    (t.kind == Get(kinds, GenericId) || (t.kind in kinds.Values && t.kind.signature == t.symbol))
  }

  /** The token `TokenizeLine` makes at `pos`: at the 1-based column `pos + 1`. */
  function TokenAt(kinds: KindMap, line: Signature, lineNo: nat, fuel: nat, pos: nat): (t: Option<TokenObject>)
    requires pos < |line|
    ensures t.Some? ==> 1 <= |t.value.symbol| && pos + |t.value.symbol| <= |line|
    ensures t.Some? ==> t.value.position == pos + 1 && Fits(kinds, line, lineNo, t.value)
  {
    match Lex(kinds, line[pos..], fuel)
    case None => None
    case Some((id, symbol)) => Some(TokenObject(Get(kinds, id), lineNo, pos + 1, symbol))
  }

  /** `TokenizeLine` from `pos` on: the token there, then the same from just after its symbol. */
  function TokensFrom(kinds: KindMap, line: Signature, lineNo: nat, fuel: nat, pos: nat): (r: Option<seq<TokenObject>>)
    requires pos <= |line|
    ensures r.Some? ==> |r.value| <= |line| - pos
    decreases |line| - pos
  {
    if pos == |line| then Some([])
    else
      match TokenAt(kinds, line, lineNo, fuel, pos)
      case None => None
      case Some(t) => Prepend([t], TokensFrom(kinds, line, lineNo, fuel, pos + |t.symbol|))
  }

  /** The tokens of a whole line. */
  function Tokens(kinds: KindMap, line: Signature, lineNo: nat, fuel: nat): (r: Option<seq<TokenObject>>)
    ensures r.Some? ==> |r.value| <= |line|
  {
    TokensFrom(kinds, line, lineNo, fuel, 0)
  }

  /** `TokenizeLine`: the loop that appends one token per `findToken` call. */
  method TokenizeLine(kinds: KindMap, signatureMaxSize: nat, line: Signature, lineNo: nat, fuel: nat)
    returns (tokens: Option<seq<TokenObject>>)
    ensures tokens == Tokens(kinds, line, lineNo, fuel)
  {
    var pos := 0;
    var found := [];
    PrependEmpty(TokensFrom(kinds, line, lineNo, fuel, 0));
    while pos < |line|
      invariant Progress(kinds, line, lineNo, fuel, pos, found)
      decreases |line| - pos
    {
      var next := AdvanceToken(kinds, signatureMaxSize, line, lineNo, fuel, pos, found);
      match next
      case None => return None;
      case Some((t, after)) =>
        found := found + [t];
        pos := after;
    }
    assert found + [] == found;
    return Some(found);
  }

  /** Having made `found`, `TokenizeLine` is to make the tokens from `pos` on. */
  ghost predicate Progress(kinds: KindMap, line: Signature, lineNo: nat, fuel: nat, pos: int, found: seq<TokenObject>)
  {
    0 <= pos <= |line| && Tokens(kinds, line, lineNo, fuel) == Prepend(found, TokensFrom(kinds, line, lineNo, fuel, pos))
  }

  /** One pass of the `TokenizeLine` loop keeps its progress, or finds that the line fails. */
  method AdvanceToken(kinds: KindMap, signatureMaxSize: nat, line: Signature, lineNo: nat, fuel: nat, pos: int,
                      found: seq<TokenObject>)
    returns (next: Option<(TokenObject, int)>)
    requires pos < |line| && Progress(kinds, line, lineNo, fuel, pos, found)
    ensures next.None? ==> Tokens(kinds, line, lineNo, fuel) == None
    ensures next.Some? ==> pos < next.value.1 && Progress(kinds, line, lineNo, fuel, next.value.1, found + [next.value.0])
  {
    var t := NextToken(kinds, signatureMaxSize, line, lineNo, fuel, pos);
    ProgressStep(kinds, line, lineNo, fuel, pos, found);
    match t
    case None => return None;
    case Some(token) => return Some((token, pos + |token.symbol|));
  }

  /** The token at `pos` moves the progress past its symbol; no token there fails the line. */
  lemma ProgressStep(kinds: KindMap, line: Signature, lineNo: nat, fuel: nat, pos: nat, found: seq<TokenObject>)
    requires pos < |line| && Progress(kinds, line, lineNo, fuel, pos, found)
    ensures var t := TokenAt(kinds, line, lineNo, fuel, pos);
      if t.None? then Tokens(kinds, line, lineNo, fuel) == None
      else pos < pos + |t.value.symbol| && Progress(kinds, line, lineNo, fuel, pos + |t.value.symbol|, found + [t.value])
  {
    TokensAdvance(kinds, line, lineNo, fuel, pos, found);
  }

  /** One pass of the `TokenizeLine` loop: the token that starts at `pos`. */
  method NextToken(kinds: KindMap, signatureMaxSize: nat, line: Signature, lineNo: nat, fuel: nat, pos: nat)
    returns (next: Option<TokenObject>)
    requires pos < |line|
    ensures next == TokenAt(kinds, line, lineNo, fuel, pos)
  {
    var lexed := LexToken(kinds, signatureMaxSize, line[pos..], fuel);
    if lexed.None? {
      return None;
    }
    var (id, symbol) := lexed.value;
    return Some(TokenObject(Get(kinds, id), lineNo, pos + 1, symbol));
  }

  /** `Lex` with the identifier widened by the `findIdenToken` loop. */
  method LexToken(kinds: KindMap, signatureMaxSize: nat, rest: Signature, fuel: nat)
    returns (r: Option<(TokenId, Signature)>)
    requires |rest| > 0
    ensures r == Lex(kinds, rest, fuel)
  {
    var m := FindToken(kinds, rest, 1, {}, fuel);
    if !m.Found? {
      return None;
    }
    var symbol := m.text;
    if m.id == GenericId {
      symbol := FindIdenToken(kinds, signatureMaxSize, symbol);
    }
    return Some((m.id, symbol));
  }

  /** One pass of the loop keeps `found` followed by the tokens from `pos` equal to the tokens of the line. */
  lemma TokensAdvance(kinds: KindMap, line: Signature, lineNo: nat, fuel: nat, pos: nat, found: seq<TokenObject>)
    requires pos < |line|
    ensures var t := TokenAt(kinds, line, lineNo, fuel, pos);
      Prepend(found, TokensFrom(kinds, line, lineNo, fuel, pos)) ==
        if t.None? then None
        else Prepend(found + [t.value], TokensFrom(kinds, line, lineNo, fuel, pos + |t.value.symbol|))
  {
    TokensFromStep(kinds, line, lineNo, fuel, pos);
    var t := TokenAt(kinds, line, lineNo, fuel, pos);
    if t.Some? {
      PrependAssoc(found, [t.value], TokensFrom(kinds, line, lineNo, fuel, pos + |t.value.symbol|));
    }
  }

  lemma TokensFromStep(kinds: KindMap, line: Signature, lineNo: nat, fuel: nat, pos: nat)
    requires pos < |line|
    ensures var t := TokenAt(kinds, line, lineNo, fuel, pos);
      TokensFrom(kinds, line, lineNo, fuel, pos) ==
        if t.None? then None else Prepend([t.value], TokensFrom(kinds, line, lineNo, fuel, pos + |t.value.symbol|))
  {
  }

  lemma PrependEmpty(rest: Option<seq<TokenObject>>)
    ensures Prepend([], rest) == rest
  {
    if rest.Some? {
      assert [] + rest.value == rest.value;
    }
  }

  lemma PrependAssoc(a: seq<TokenObject>, b: seq<TokenObject>, rest: Option<seq<TokenObject>>)
    ensures Prepend(a, Prepend(b, rest)) == Prepend(a + b, rest)
  {
    if rest.Some? {
      assert a + (b + rest.value) == (a + b) + rest.value;
    }
  }

  /** The symbols of a token list, run together. */
  function Symbols(ts: seq<TokenObject>): Signature
  {
    if ts == [] then [] else ts[0].symbol + Symbols(ts[1..])
  }

  lemma {:induction false} SymbolsAppend(a: seq<TokenObject>, b: seq<TokenObject>)
    ensures Symbols(a + b) == Symbols(a) + Symbols(b)
  {
    if a != [] {
      assert (a + b)[1..] == a[1..] + b;
      SymbolsAppend(a[1..], b);
    } else {
      assert a + b == b;
    }
  }

  /**
   * `ts` lays out `line` from `pos` on: the symbols spell out the rest of the
   * line, each token fits the line at its column, the first starts at column
   * `pos + 1`, and each next one starts where the previous one ends.
   */
  ghost predicate Layout(kinds: KindMap, line: Signature, lineNo: nat, pos: nat, ts: seq<TokenObject>)
  {
    pos <= |line| && Symbols(ts) == line[pos..] &&
    (|ts| > 0 ==> ts[0].position == pos + 1) &&
    (forall i :: 0 <= i < |ts| ==> Fits(kinds, line, lineNo, ts[i])) &&
    (forall i :: 0 <= i < |ts| - 1 ==> ts[i + 1].position == ts[i].position + |ts[i].symbol|)
  }

  /** The tokens of a line from `pos` on lay it out. */
  lemma {:induction false} TokensLayout(kinds: KindMap, line: Signature, lineNo: nat, fuel: nat, pos: nat,
                                        ts: seq<TokenObject>)
    requires pos <= |line| && TokensFrom(kinds, line, lineNo, fuel, pos) == Some(ts)
    decreases |line| - pos
    ensures Layout(kinds, line, lineNo, pos, ts)
  {
    if pos < |line| {
      var t, after, rest := TokensCons(kinds, line, lineNo, fuel, pos, ts);
      TokensLayout(kinds, line, lineNo, fuel, after, rest);
      LayoutCons(kinds, line, lineNo, pos, t, rest);
    }
  }

  /** A successful `TokensFrom` is its first token followed by the tokens from `after`, just past its symbol. */
  lemma TokensCons(kinds: KindMap, line: Signature, lineNo: nat, fuel: nat, pos: nat, ts: seq<TokenObject>)
    returns (t: TokenObject, after: nat, rest: seq<TokenObject>)
    requires pos < |line| && TokensFrom(kinds, line, lineNo, fuel, pos) == Some(ts)
    ensures t.position == pos + 1 && after == pos + |t.symbol| && pos < after <= |line| && Fits(kinds, line, lineNo, t)
    ensures TokensFrom(kinds, line, lineNo, fuel, after) == Some(rest)
    ensures ts == [t] + rest
  {
    TokensFromStep(kinds, line, lineNo, fuel, pos);
    t := TokenAt(kinds, line, lineNo, fuel, pos).value;
    after := pos + |t.symbol|;
    rest := TokensFrom(kinds, line, lineNo, fuel, after).value;
  }

  /** A token that fits at `pos`, in front of a layout from just after it, lays out from `pos`. */
  lemma LayoutCons(kinds: KindMap, line: Signature, lineNo: nat, pos: nat, t: TokenObject, rest: seq<TokenObject>)
    requires pos + |t.symbol| <= |line|
    requires t.position == pos + 1 && Fits(kinds, line, lineNo, t)
    requires Layout(kinds, line, lineNo, pos + |t.symbol|, rest)
    ensures Layout(kinds, line, lineNo, pos, [t] + rest)
  {
    var ts := [t] + rest;
    assert ts[1..] == rest;
    assert line[pos..] == t.symbol + line[pos + |t.symbol|..];
    assert forall i :: 1 <= i < |ts| ==> ts[i] == rest[i - 1];
  }

  /** Every token of a line carries its line number; an empty line has none. */
  lemma TokensOfLine(kinds: KindMap, line: Signature, lineNo: nat, fuel: nat)
    requires Tokens(kinds, line, lineNo, fuel).Some?
    ensures var ts := Tokens(kinds, line, lineNo, fuel).value;
      Symbols(ts) == line &&
      (|ts| == 0 <==> |line| == 0) &&
      (forall i :: 0 <= i < |ts| ==> ts[i].lineNo == lineNo && 1 <= ts[i].position <= |line|)
  {
    TokensLayout(kinds, line, lineNo, fuel, 0, Tokens(kinds, line, lineNo, fuel).value);
    var ts := Tokens(kinds, line, lineNo, fuel).value;
    if |ts| == 0 {
      assert Symbols(ts) == [];
    } else {
      assert Fits(kinds, line, lineNo, ts[0]);
    }
    forall i | 0 <= i < |ts|
      ensures ts[i].lineNo == lineNo && 1 <= ts[i].position <= |line|
    {
      assert Fits(kinds, line, lineNo, ts[i]);
    }
  }

  /**
   * `TokenizeLines` on the first `|lines|` lines: the tokens of each line in
   * turn, numbered from `base` (Go numbers them by index, from 0).
   */
  function LinesTokens(kinds: KindMap, lines: seq<Signature>, base: nat, fuel: nat): (r: Option<seq<TokenObject>>)
    ensures r.Some? ==> |r.value| <= |Concat(lines)|
  {
    if lines == [] then Some([])
    else
      match LinesTokens(kinds, lines[..|lines| - 1], base, fuel)
      case None => None
      case Some(before) =>
        match Tokens(kinds, lines[|lines| - 1], base + |lines| - 1, fuel)
        case None => None
        case Some(last) => Some(before + last)
  }

  /** The lines run together. */
  function Concat(lines: seq<Signature>): Signature
  {
    if lines == [] then [] else Concat(lines[..|lines| - 1]) + lines[|lines| - 1]
  }

  /**
   * `ts` lays out `lines` numbered from `base`: the symbols spell out the
   * lines run together, the line numbers run from `base` to the last line's,
   * and the tokens come in line order.
   */
  ghost predicate LinesLayout(lines: seq<Signature>, base: nat, ts: seq<TokenObject>)
  {
    Symbols(ts) == Concat(lines) &&
    (forall i :: 0 <= i < |ts| ==> base <= ts[i].lineNo < base + |lines|) &&
    (forall i, j :: 0 <= i < j < |ts| ==> ts[i].lineNo <= ts[j].lineNo)
  }

  /** The tokens of several lines lay them out. */
  lemma {:induction false} LinesTokensLayout(kinds: KindMap, lines: seq<Signature>, base: nat, fuel: nat)
    requires LinesTokens(kinds, lines, base, fuel).Some?
    ensures LinesLayout(lines, base, LinesTokens(kinds, lines, base, fuel).value)
  {
    if lines != [] {
      var init := lines[..|lines| - 1];
      var n := base + |lines| - 1;
      var before, last := LinesTokensSnoc(kinds, lines, base, fuel);
      LinesTokensLayout(kinds, init, base, fuel);
      TokensOfLine(kinds, lines[|lines| - 1], n, fuel);
      LinesLayoutSnoc(lines, base, before, last);
    }
  }

  /** A successful `LinesTokens` is the tokens of all lines but the last, then the last line's. */
  lemma LinesTokensSnoc(kinds: KindMap, lines: seq<Signature>, base: nat, fuel: nat)
    returns (before: seq<TokenObject>, last: seq<TokenObject>)
    requires lines != [] && LinesTokens(kinds, lines, base, fuel).Some?
    ensures LinesTokens(kinds, lines[..|lines| - 1], base, fuel) == Some(before)
    ensures Tokens(kinds, lines[|lines| - 1], base + |lines| - 1, fuel) == Some(last)
    ensures LinesTokens(kinds, lines, base, fuel).value == before + last
  {
    before := LinesTokens(kinds, lines[..|lines| - 1], base, fuel).value;
    last := Tokens(kinds, lines[|lines| - 1], base + |lines| - 1, fuel).value;
  }

  /** Appending the tokens of one more line keeps a layout. */
  lemma LinesLayoutSnoc(lines: seq<Signature>, base: nat, before: seq<TokenObject>, last: seq<TokenObject>)
    requires lines != []
    requires LinesLayout(lines[..|lines| - 1], base, before)
    requires Symbols(last) == lines[|lines| - 1]
    requires forall i :: 0 <= i < |last| ==> last[i].lineNo == base + |lines| - 1
    ensures LinesLayout(lines, base, before + last)
  {
    var ts := before + last;
    var n := base + |lines| - 1;
    SymbolsAppend(before, last);
    forall i | 0 <= i < |ts|
      ensures base <= ts[i].lineNo <= n
      ensures i < |before| ==> ts[i].lineNo < n
    {
      if i < |before| {
        assert ts[i] == before[i];
      } else {
        assert ts[i] == last[i - |before|];
      }
    }
    forall i, j | 0 <= i < j < |ts|
      ensures ts[i].lineNo <= ts[j].lineNo
    {
      if j < |before| {
        assert ts[i] == before[i] && ts[j] == before[j];
      }
    }
  }

  /** Once the lines up to some point fail, all of them do. */
  lemma {:induction false} LinesTokensFail(kinds: KindMap, lines: seq<Signature>, base: nat, fuel: nat, k: nat)
    requires k <= |lines|
    requires LinesTokens(kinds, lines[..k], base, fuel).None?
    decreases |lines| - k
    ensures LinesTokens(kinds, lines, base, fuel).None?
  {
    if k < |lines| {
      assert lines[..k + 1][..k] == lines[..k];
      LinesTokensFail(kinds, lines, base, fuel, k + 1);
    } else {
      assert lines[..k] == lines;
    }
  }

  /** `TokenizeLines`: each line's tokens appended in turn, line numbers from 0. */
  method TokenizeLines(kinds: KindMap, signatureMaxSize: nat, lines: seq<Signature>, fuel: nat)
    returns (tokens: Option<seq<TokenObject>>)
    ensures tokens == LinesTokens(kinds, lines, 0, fuel)
  {
    var found: seq<TokenObject> := [];
    for lineId := 0 to |lines|
      invariant LinesTokens(kinds, lines[..lineId], 0, fuel) == Some(found)
    {
      var line := lines[lineId];
      var lineTokens := TokenizeLine(kinds, signatureMaxSize, line, lineId, fuel);
      assert lines[..lineId + 1][..lineId] == lines[..lineId];
      if lineTokens.None? {
        LinesTokensFail(kinds, lines, 0, fuel, lineId + 1);
        return None;
      }
      found := found + lineTokens.value;
    }
    assert lines[..|lines|] == lines;
    return Some(found);
  }
}

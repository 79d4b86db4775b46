/**
 * Token kinds and their registry (tokens.go:38-182, 523-553): each kind has
 * an id, a name and a signature; the registry hands out ids from a counter,
 * keeps the longest name and signature seen, and answers substring (`Find`)
 * and exact (`FindEx`) lookups, optionally restricted to a list of ids.
 */
module Kinds {
  import opened Signatures
  import opened Declarations

  type TokenId = nat

  /** `TokenKind`: a registered category of token. */
  datatype TokenKind = TokenKind(id: TokenId, name: string, signature: Signature)

  /** `TokenObject`: one token of a line, with its 1-based column. */
  datatype TokenObject = TokenObject(kind: TokenKind, lineNo: nat, position: nat, symbol: Signature)

  /** `tokenKindMap`: the table of registered kinds by id. */
  type KindMap = map<TokenId, TokenKind>

  /** The id of the generic identifier kind, GENIDEN. */
  const GenericId: TokenId := 1

  /** The kind Go's map lookup yields for an id that was never registered. */
  const ZeroKind := TokenKind(0, "", "")

  /** `Get`: the kind stored under `id`, or the zero kind when there is none. */
  function Get(kinds: KindMap, id: TokenId): (k: TokenKind)
    ensures id in kinds ==> k == kinds[id]
    ensures id !in kinds ==> k.id == 0 && k.name == [] && k.signature == []
  {
    if id in kinds then kinds[id] else ZeroKind
  }

  /** The two lookups: `Find` tests `Contains`, `FindEx` tests `Compare`. */
  datatype Query = Substring | Exact

  predicate Accepts(q: Query, signature: Signature, sig: Signature)
  {
    match q
    case Substring => Contains(signature, sig)
    case Exact => Compare(signature, sig)
  }

  /** The ids a lookup looks at: the given ones, or the whole table when none are given. */
  function Scope(kinds: KindMap, ids: set<TokenId>): set<TokenId>
  {
    if ids == {} then kinds.Keys else ids
  }

  /** The ids a lookup returns, as a set. */
  function Select(kinds: KindMap, q: Query, sig: Signature, ids: set<TokenId>): (r: set<TokenId>)
    ensures r <= Scope(kinds, ids)
    ensures forall id :: id in r ==> Accepts(q, Get(kinds, id).signature, sig)
  {
    set id | id in Scope(kinds, ids) && Accepts(q, Get(kinds, id).signature, sig)
  }

  /** The ids of `ids` that a lookup keeps, in their order (what the append loop builds). */
  function Filter(kinds: KindMap, q: Query, sig: Signature, ids: seq<TokenId>): (r: seq<TokenId>)
    ensures |r| <= |ids|
  {
    if ids == [] then []
    else
      var last := ids[|ids| - 1];
      Filter(kinds, q, sig, ids[..|ids| - 1]) + (if Accepts(q, Get(kinds, last).signature, sig) then [last] else [])
  }

  function SetOf(ids: seq<TokenId>): set<TokenId>
  {
    set id | id in ids
  }

  /** A list is empty exactly when the set of its ids is. */
  lemma SetOfEmpty(ids: seq<TokenId>)
    ensures |ids| == 0 <==> SetOf(ids) == {}
  {
    if |ids| > 0 {
      assert ids[0] in SetOf(ids);
    }
  }

  predicate NoDuplicates(ids: seq<TokenId>)
  {
    forall i, j :: 0 <= i < j < |ids| ==> ids[i] != ids[j]
  }

  /** Appending an id not yet listed adds it to the set and keeps the list duplicate-free. */
  lemma AppendFresh(ids: seq<TokenId>, id: TokenId)
    ensures SetOf(ids + [id]) == SetOf(ids) + {id}
    ensures NoDuplicates(ids) && id !in SetOf(ids) ==> NoDuplicates(ids + [id])
  {
    assert forall x :: x in ids + [id] <==> x in ids || x == id;
  }

  /** The filter keeps exactly the accepted ids of the list, and repeats none of them. */
  lemma {:induction false} FilterMembers(kinds: KindMap, q: Query, sig: Signature, ids: seq<TokenId>)
    ensures forall id :: id in Filter(kinds, q, sig, ids) <==> id in ids && Accepts(q, Get(kinds, id).signature, sig)
    ensures NoDuplicates(ids) ==> NoDuplicates(Filter(kinds, q, sig, ids))
  {
    if ids != [] {
      var init := ids[..|ids| - 1];
      FilterMembers(kinds, q, sig, init);
      assert ids == init + [ids[|ids| - 1]];
      if NoDuplicates(ids) {
        assert NoDuplicates(init);
        assert ids[|ids| - 1] !in init;
      }
    }
  }

  /**
   * `Ids`: every registered id, once each; Go's map iteration order is
   * unspecified, so the order here is too.
   */
  method Ids(kinds: KindMap) returns (ids: seq<TokenId>)
    ensures SetOf(ids) == kinds.Keys
    ensures NoDuplicates(ids)
  {
    ids := [];
    var rest := kinds.Keys;
    while rest != {}
      invariant rest !! SetOf(ids) && rest + SetOf(ids) == kinds.Keys
      invariant NoDuplicates(ids)
      decreases |rest|
    {
      var id :| id in rest;
      AppendFresh(ids, id);
      ids := ids + [id];
      rest := rest - {id};
    }
  }

  /** The lookup shared by `Find` and `FindEx`: the given ids, or every id when none are given, filtered. */
  method Search(kinds: KindMap, q: Query, sig: Signature, ids: seq<TokenId>) returns (found: seq<TokenId>)
    ensures |ids| > 0 ==> found == Filter(kinds, q, sig, ids)
    ensures forall id :: id in found <==> id in Scope(kinds, SetOf(ids)) && Accepts(q, Get(kinds, id).signature, sig)
    ensures SetOf(found) == Select(kinds, q, sig, SetOf(ids))
    ensures |ids| == 0 || NoDuplicates(ids) ==> NoDuplicates(found)
  {
    var scan := ids;
    if !(|ids| > 0) {
      scan := Ids(kinds);
    } else {
      assert ids[0] in SetOf(ids);
    }
    found := Scan(kinds, q, sig, scan);
    ScanSelects(kinds, q, sig, SetOf(ids), scan);
  }

  /** The append loop: the ids of `scan`, in order, that the query accepts. */
  method Scan(kinds: KindMap, q: Query, sig: Signature, scan: seq<TokenId>) returns (found: seq<TokenId>)
    ensures found == Filter(kinds, q, sig, scan)
  {
    found := [];
    var i := 0;
    while i < |scan|
      invariant 0 <= i <= |scan|
      invariant found == Filter(kinds, q, sig, scan[..i])
    {
      var id := scan[i];
      assert scan[..i + 1] == scan[..i] + [id];
      if Accepts(q, Get(kinds, id).signature, sig) {
        found := found + [id];
      }
      i := i + 1;
    }
    assert scan[..i] == scan;
  }

  /** Filtering a list that covers the scope yields exactly the selected ids. */
  lemma ScanSelects(kinds: KindMap, q: Query, sig: Signature, ids: set<TokenId>, scan: seq<TokenId>)
    requires SetOf(scan) == Scope(kinds, ids)
    ensures forall id :: id in Filter(kinds, q, sig, scan) <==> id in Scope(kinds, ids) && Accepts(q, Get(kinds, id).signature, sig)
    ensures SetOf(Filter(kinds, q, sig, scan)) == Select(kinds, q, sig, ids)
    ensures NoDuplicates(scan) ==> NoDuplicates(Filter(kinds, q, sig, scan))
  {
    FilterMembers(kinds, q, sig, scan);
    assert forall id :: id in scan <==> id in SetOf(scan);
  }

  /** `Find`: the ids (of `ids`, or of the whole table) whose signature contains `sig`. */
  method Find(kinds: KindMap, sig: Signature, ids: seq<TokenId>) returns (found: seq<TokenId>)
    ensures |ids| > 0 ==> found == Filter(kinds, Substring, sig, ids)
    ensures forall id :: id in found <==> id in Scope(kinds, SetOf(ids)) && Contains(Get(kinds, id).signature, sig)
    ensures SetOf(found) == Select(kinds, Substring, sig, SetOf(ids))
    ensures |ids| == 0 || NoDuplicates(ids) ==> NoDuplicates(found)
  {
    found := Search(kinds, Substring, sig, ids);
  }

  /** `FindEx`: the ids (of `ids`, or of the whole table) whose signature equals `sig`. */
  method FindEx(kinds: KindMap, sig: Signature, ids: seq<TokenId>) returns (found: seq<TokenId>)
    ensures |ids| > 0 ==> found == Filter(kinds, Exact, sig, ids)
    ensures forall id :: id in found <==> id in Scope(kinds, SetOf(ids)) && Get(kinds, id).signature == sig
    ensures SetOf(found) == Select(kinds, Exact, sig, SetOf(ids))
    ensures |ids| == 0 || NoDuplicates(ids) ==> NoDuplicates(found)
  {
    found := Search(kinds, Exact, sig, ids);
  }

  /** An exact match is also a substring match: `FindEx` returns a subset of `Find`. */
  lemma ExactWithinSubstring(kinds: KindMap, sig: Signature, ids: set<TokenId>)
    ensures Select(kinds, Exact, sig, ids) <= Select(kinds, Substring, sig, ids)
  {
    forall id | id in Select(kinds, Exact, sig, ids)
      ensures id in Select(kinds, Substring, sig, ids)
    {
      ContainsPrefix(Get(kinds, id).signature, sig);
    }
  }

  /** Narrowing with the same query again changes nothing. */
  lemma {:induction false} SelectIdempotent(kinds: KindMap, q: Query, sig: Signature, ids: set<TokenId>)
    requires Select(kinds, q, sig, ids) != {}
    ensures Select(kinds, q, sig, Select(kinds, q, sig, ids)) == Select(kinds, q, sig, ids)
  {
  }

  /** The longer of two lengths. */
  function Max(a: nat, b: nat): nat
  {
    if a < b then b else a
  }

  /** The longest name among `decls`, or 0 when there is none. */
  function MaxNameLen(decls: seq<(string, Signature)>): nat
  {
    if decls == [] then 0 else Max(MaxNameLen(decls[..|decls| - 1]), |decls[|decls| - 1].0|)
  }

  /** The longest sequence among `decls`, or 0 when there is none. */
  function MaxSigLen(decls: seq<(string, Signature)>): nat
  {
    if decls == [] then 0 else Max(MaxSigLen(decls[..|decls| - 1]), |decls[|decls| - 1].1|)
  }

  /** Both maxima bound every declaration and are attained by one, unless there is none. */
  lemma {:induction false} MaxLenBounds(decls: seq<(string, Signature)>)
    ensures forall j :: 0 <= j < |decls| ==> |decls[j].0| <= MaxNameLen(decls) && |decls[j].1| <= MaxSigLen(decls)
    ensures decls == [] ==> MaxNameLen(decls) == 0 && MaxSigLen(decls) == 0
    ensures decls != [] ==> exists j :: 0 <= j < |decls| && |decls[j].0| == MaxNameLen(decls)
    ensures decls != [] ==> exists j :: 0 <= j < |decls| && |decls[j].1| == MaxSigLen(decls)
  {
    if decls != [] {
      var n := |decls| - 1;
      var init := decls[..n];
      MaxLenBounds(init);
      assert forall j :: 0 <= j < n ==> decls[j] == init[j];
      if n > 0 && MaxNameLen(decls) == MaxNameLen(init) {
        var j :| 0 <= j < n && |init[j].0| == MaxNameLen(init);
        assert |decls[j].0| == MaxNameLen(decls);
      }
      if n > 0 && MaxSigLen(decls) == MaxSigLen(init) {
        var j :| 0 <= j < n && |init[j].1| == MaxSigLen(init);
        assert |decls[j].1| == MaxSigLen(decls);
      }
    }
  }

  /** One more declaration raises both maxima to its own lengths at most. */
  lemma MaxLenSnoc(decls: seq<(string, Signature)>, d: (string, Signature))
    ensures MaxNameLen(decls + [d]) == Max(MaxNameLen(decls), |d.0|)
    ensures MaxSigLen(decls + [d]) == Max(MaxSigLen(decls), |d.1|)
  {
    assert (decls + [d])[..|decls|] == decls;
  }

  /** The same, for the `k`-th of a fixed list of declarations. */
  lemma MaxLenStep(decls: seq<(string, Signature)>, k: nat)
    requires k < |decls|
    ensures MaxNameLen(decls[..k + 1]) == Max(MaxNameLen(decls[..k]), |decls[k].0|)
    ensures MaxSigLen(decls[..k + 1]) == Max(MaxSigLen(decls[..k]), |decls[k].1|)
  {
    assert decls[..k + 1][..k] == decls[..k];
  }

  /** `table` after successive `Add`s of `decls`, the first one taking id `start`. */
  function Registered(table: KindMap, start: TokenId, decls: seq<(string, Signature)>): KindMap
  {
    if decls == [] then table
    else
      var n := |decls| - 1;
      Registered(table, start, decls[..n])[start + n := TokenKind(start + n, decls[n].0, decls[n].1)]
  }

  /** The ids of the table after the `Add`s: the old ones and `start` to `start + |decls| - 1`. */
  lemma {:induction false} RegisteredDomain(table: KindMap, start: TokenId, decls: seq<(string, Signature)>, id: TokenId)
    ensures id in Registered(table, start, decls) <==> id in table || start <= id < start + |decls|
  {
    if decls != [] {
      RegisteredDomain(table, start, decls[..|decls| - 1], id);
    }
  }

  /** The id `start + j` holds declaration `j`. */
  lemma {:induction false} RegisteredEntry(table: KindMap, start: TokenId, decls: seq<(string, Signature)>, id: TokenId)
    requires start <= id < start + |decls|
    ensures id in Registered(table, start, decls)
    ensures Registered(table, start, decls)[id] == TokenKind(id, decls[id - start].0, decls[id - start].1)
  {
    var n := |decls| - 1;
    if id < start + n {
      RegisteredEntry(table, start, decls[..n], id);
    }
  }

  /** An old entry outside the new ids is left as it was. */
  lemma {:induction false} RegisteredKeeps(table: KindMap, start: TokenId, decls: seq<(string, Signature)>, id: TokenId)
    requires id in table && !(start <= id < start + |decls|)
    ensures id in Registered(table, start, decls) && Registered(table, start, decls)[id] == table[id]
  {
    if decls != [] {
      RegisteredKeeps(table, start, decls[..|decls| - 1], id);
    }
  }

  /** One more `Add` extends the table by the next declaration. */
  lemma RegisteredSnoc(table: KindMap, start: TokenId, decls: seq<(string, Signature)>, d: (string, Signature))
    ensures Registered(table, start, decls)[start + |decls| := TokenKind(start + |decls|, d.0, d.1)]
         == Registered(table, start, decls + [d])
  {
    assert (decls + [d])[..|decls|] == decls;
  }

  /** The same, for the `k`-th of a fixed list of declarations. */
  lemma RegisteredStep(table: KindMap, start: TokenId, decls: seq<(string, Signature)>, k: nat)
    requires k < |decls|
    ensures Registered(table, start, decls[..k])[start + k := TokenKind(start + k, decls[k].0, decls[k].1)]
         == Registered(table, start, decls[..k + 1])
  {
    assert decls[..k + 1][..k] == decls[..k];
  }

  /** The kinds `loadTokens` registers before reading the declarations file, in that order. */
  const ReservedKinds: seq<(string, Signature)> := [
    ("WHTSPACE", " "), ("GENIDEN", "&IDEN"), ("GENTYPE", "&TYPE"), ("GENOBJ", "&OBJ"),
    ("NEWLINE", "\n"), ("CRETURN", "\r"), ("TABLINE", "\t")
  ]

  /** The (name, sequence) pairs of the lines that declare a kind, in file order. */
  function Declared(lines: seq<string>): (r: seq<(string, Signature)>)
    ensures |r| <= |lines|
    ensures forall j :: 0 <= j < |r| ==> r[j].0 != ""
  {
    if lines == [] then []
    else
      var d := Declaration(lines[|lines| - 1]);
      Declared(lines[..|lines| - 1]) + (if d.0 == "" then [] else [d])
  }

  /** The registry: Go's globals `tokenKindId`, the two maxima and `tokenKinds`. */
  class Registry {
    var kindId: TokenId
    var nameMaxSize: nat
    var signatureMaxSize: nat
    var kinds: KindMap

    /** Every kind is stored under its own id, below the counter, and within both maxima. */
    ghost predicate Valid()
      reads this
    {
      forall id :: id in kinds ==>
        id < kindId && kinds[id].id == id &&
        |kinds[id].name| <= nameMaxSize && |kinds[id].signature| <= signatureMaxSize
    }

    /** The state of the globals at program start. */
    constructor ()
      ensures Valid()
      ensures kindId == 0 && nameMaxSize == 0 && signatureMaxSize == 0 && kinds == map[]
    {
      kindId, nameMaxSize, signatureMaxSize, kinds := 0, 0, 0, map[];
    }

    /** `newKind`: takes the next id and raises the maxima; stores nothing. */
    method NewKind(name: string, sig: Signature) returns (kind: TokenKind)
      requires Valid()
      modifies this`kindId, this`nameMaxSize, this`signatureMaxSize
      ensures Valid()
      ensures kind == TokenKind(old(kindId), name, sig) && kindId == old(kindId) + 1
      ensures nameMaxSize == Max(old(nameMaxSize), |name|)
      ensures signatureMaxSize == Max(old(signatureMaxSize), |sig|)
    {
      var id := kindId;
      kindId := kindId + 1;
      if |name| > nameMaxSize {
        nameMaxSize := |name|;
      }
      if |sig| > signatureMaxSize {
        signatureMaxSize := |sig|;
      }
      kind := TokenKind(id, name, sig);
    }

    /** `Add`: registers a kind under the next id, without any check for duplicates. */
    method Add(name: string, sig: Signature)
      requires Valid()
      modifies this
      ensures Valid()
      ensures kindId == old(kindId) + 1
      ensures kinds == old(kinds)[old(kindId) := TokenKind(old(kindId), name, sig)]
      ensures old(kindId) !in old(kinds)
      ensures nameMaxSize == Max(old(nameMaxSize), |name|)
      ensures signatureMaxSize == Max(old(signatureMaxSize), |sig|)
    {
      var kind := NewKind(name, sig);
      kinds := kinds[kind.id := kind];
    }

    /**
     * The reserved block of `loadTokens`: the seven kinds of `ReservedKinds`,
     * registered one `Add` each in that order.
     */
    method LoadReserved()
      requires Valid()
      modifies this
      ensures Valid()
      ensures kindId == old(kindId) + |ReservedKinds|
      ensures kinds == Registered(old(kinds), old(kindId), ReservedKinds)
      ensures nameMaxSize == Max(old(nameMaxSize), MaxNameLen(ReservedKinds))
      ensures signatureMaxSize == Max(old(signatureMaxSize), MaxSigLen(ReservedKinds))
    {
      AddAll(ReservedKinds);
    }

    /** A run of `Add`s, one per declaration, in order. */
    method AddAll(decls: seq<(string, Signature)>)
      requires Valid()
      modifies this
      ensures Valid()
      ensures kindId == old(kindId) + |decls|
      ensures kinds == Registered(old(kinds), old(kindId), decls)
      ensures nameMaxSize == Max(old(nameMaxSize), MaxNameLen(decls))
      ensures signatureMaxSize == Max(old(signatureMaxSize), MaxSigLen(decls))
    {
      ghost var start, before, names, sigs := kindId, kinds, nameMaxSize, signatureMaxSize;
      var k := 0;
      while k < |decls|
        invariant 0 <= k <= |decls|
        invariant Valid() && Loaded(before, start, names, sigs, decls[..k])
      {
        AddNext(decls, k, before, start, names, sigs);
        k := k + 1;
      }
      assert decls[..k] == decls;
    }

    /** One `Add` of that run. */
    method AddNext(decls: seq<(string, Signature)>, k: nat, ghost table: KindMap, ghost start: TokenId, ghost names: nat, ghost sigs: nat)
      requires k < |decls|
      requires Valid() && Loaded(table, start, names, sigs, decls[..k])
      modifies this
      ensures Valid() && Loaded(table, start, names, sigs, decls[..k + 1])
    {
      RegisteredStep(table, start, decls, k);
      MaxLenStep(decls, k);
      Add(decls[k].0, decls[k].1);
    }

    /**
     * The registry holds `table` followed by `decls` from id `start` on, and
     * its maxima are raised from `names` and `sigs` to cover `decls`.
     */
    ghost predicate Loaded(table: KindMap, start: TokenId, names: nat, sigs: nat, decls: seq<(string, Signature)>)
      reads this
    {
      kindId == start + |decls| && kinds == Registered(table, start, decls) &&
      nameMaxSize == Max(names, MaxNameLen(decls)) && signatureMaxSize == Max(sigs, MaxSigLen(decls))
    }

    /**
     * `loadTokens`, with the declarations file given as its lines: the seven
     * reserved kinds first, then one kind per line that declares a name.
     */
    method LoadTokens(lines: seq<string>)
      requires Valid()
      modifies this
      ensures Valid()
      ensures kindId == old(kindId) + |ReservedKinds| + |Declared(lines)|
      ensures kinds == Registered(Registered(old(kinds), old(kindId), ReservedKinds),
                                  old(kindId) + |ReservedKinds|, Declared(lines))
      ensures nameMaxSize == Max(Max(old(nameMaxSize), MaxNameLen(ReservedKinds)), MaxNameLen(Declared(lines)))
      ensures signatureMaxSize == Max(Max(old(signatureMaxSize), MaxSigLen(ReservedKinds)), MaxSigLen(Declared(lines)))
    {
      LoadReserved();
      LoadDeclarations(lines);
    }

    /** The scanning loop of `loadTokens`: one `Add` per line that declares a name. */
    method LoadDeclarations(lines: seq<string>)
      requires Valid()
      modifies this
      ensures Valid()
      ensures kindId == old(kindId) + |Declared(lines)|
      ensures kinds == Registered(old(kinds), old(kindId), Declared(lines))
      ensures nameMaxSize == Max(old(nameMaxSize), MaxNameLen(Declared(lines)))
      ensures signatureMaxSize == Max(old(signatureMaxSize), MaxSigLen(Declared(lines)))
    {
      ghost var start, table, names, sigs := kindId, kinds, nameMaxSize, signatureMaxSize;
      var i := 0;
      while i < |lines|
        invariant 0 <= i <= |lines|
        invariant Valid() && Loaded(table, start, names, sigs, Declared(lines[..i]))
      {
        LoadNext(lines, i, table, start, names, sigs);
        i := i + 1;
      }
      assert lines[..i] == lines;
    }

    /** The `i`-th pass of that loop keeps the registry in step with `Declared`. */
    method LoadNext(lines: seq<string>, i: nat, ghost table: KindMap, ghost start: TokenId, ghost names: nat, ghost sigs: nat)
      requires i < |lines|
      requires Valid() && Loaded(table, start, names, sigs, Declared(lines[..i]))
      modifies this
      ensures Valid() && Loaded(table, start, names, sigs, Declared(lines[..i + 1]))
    {
      DeclaredStep(lines, i);
      MaxLenSnoc(Declared(lines[..i]), Declaration(lines[i]));
      LoadLine(lines[i], table, start, Declared(lines[..i]));
    }

    /** One pass of that loop: a line without a name is skipped, any other is added. */
    method LoadLine(line: string, ghost table: KindMap, ghost start: TokenId, ghost decls: seq<(string, Signature)>)
      requires Valid()
      requires kindId == start + |decls| && kinds == Registered(table, start, decls)
      modifies this
      ensures Valid()
      ensures Declaration(line).0 == "" ==> kindId == old(kindId) && kinds == old(kinds)
      ensures Declaration(line).0 != "" ==> kindId == start + |decls| + 1
      ensures Declaration(line).0 != "" ==> kinds == Registered(table, start, decls + [Declaration(line)])
      ensures Declaration(line).0 == "" ==> nameMaxSize == old(nameMaxSize) && signatureMaxSize == old(signatureMaxSize)
      ensures Declaration(line).0 != "" ==> nameMaxSize == Max(old(nameMaxSize), |Declaration(line).0|)
      ensures Declaration(line).0 != "" ==> signatureMaxSize == Max(old(signatureMaxSize), |Declaration(line).1|)
    {
      var name, sequence := ParseLine(line);
      if name == "" {
        return;
      }
      Add(name, sequence);
      RegisteredSnoc(table, start, decls, (name, sequence));
    }
  }

  /** `Declared` reads the lines one at a time. */
  lemma DeclaredStep(lines: seq<string>, i: nat)
    requires i < |lines|
    ensures Declaration(lines[i]).0 == "" ==> Declared(lines[..i + 1]) == Declared(lines[..i])
    ensures Declaration(lines[i]).0 != "" ==> Declared(lines[..i + 1]) == Declared(lines[..i]) + [Declaration(lines[i])]
  {
    assert lines[..i + 1][..i] == lines[..i];
  }

  /**
   * On a fresh registry a first block of kinds (the reserved ones) and then a
   * next block (the declared ones) hold exactly the ids below their total size.
   */
  lemma FreshDomain(first: seq<(string, Signature)>, decls: seq<(string, Signature)>)
    ensures forall id: TokenId :: id in Registered(Registered(map[], 0, first), |first|, decls) <==> id < |first| + |decls|
  {
    forall id: TokenId
      ensures id in Registered(Registered(map[], 0, first), |first|, decls) <==> id < |first| + |decls|
    {
      RegisteredDomain(map[], 0, first, id);
      RegisteredDomain(Registered(map[], 0, first), |first|, decls, id);
    }
  }

  /** On a fresh registry the first block takes the ids from 0 on, in order. */
  lemma FreshFirst(first: seq<(string, Signature)>, decls: seq<(string, Signature)>)
    ensures forall id :: 0 <= id < |first| ==>
      (id in Registered(Registered(map[], 0, first), |first|, decls) &&
       Registered(Registered(map[], 0, first), |first|, decls)[id] == TokenKind(id, first[id].0, first[id].1))
  {
    forall id | 0 <= id < |first|
      ensures id in Registered(Registered(map[], 0, first), |first|, decls)
      ensures Registered(Registered(map[], 0, first), |first|, decls)[id] == TokenKind(id, first[id].0, first[id].1)
    {
      RegisteredEntry(map[], 0, first, id);
      RegisteredKeeps(Registered(map[], 0, first), |first|, decls, id);
    }
  }

  /** A next block of kinds, after any table, takes the ids that follow the first block, in order. */
  lemma FreshNext(head: KindMap, first: seq<(string, Signature)>, decls: seq<(string, Signature)>)
    ensures forall id :: |first| <= id < |first| + |decls| ==>
      (id in Registered(head, |first|, decls) &&
       Registered(head, |first|, decls)[id] == TokenKind(id, decls[id - |first|].0, decls[id - |first|].1))
  {
    forall id | |first| <= id < |first| + |decls| {
      RegisteredEntry(head, |first|, decls, id);
    }
  }
}

/** Building the LLVM type of a structure literal: one loop collects the member types, another one
    numbers the members; both leave lazy members out, and they agree. */
module StructLayout {

  /** A member value: an LLVM type stands for itself by identity. */
  datatype Member = Lazy | Eager(ty: nat)

  datatype Entry = Entry(key: string, member: Member)

  /** An identified structure type of the module. */
  datatype StructTy = StructTy(id: nat, elems: seq<nat>)

  // --------------------------------------------------------------- key order

  /** The order of keys in a map: lexicographic. */
  predicate Less(a: string, b: string)
    decreases |a|
  {
    if b == [] then false
    else if a == [] then true
    else a[0] < b[0] || (a[0] == b[0] && Less(a[1..], b[1..]))
  }

  lemma {:induction false} LessIrreflexive(a: string)
    ensures !Less(a, a)
    decreases |a|
  {
    if a != [] {
      LessIrreflexive(a[1..]);
    }
  }

  lemma {:induction false} LessTransitive(a: string, b: string, c: string)
    requires Less(a, b) && Less(b, c)
    ensures Less(a, c)
    decreases |a|
  {
    if a != [] && a[0] == b[0] && b[0] == c[0] {
      LessTransitive(a[1..], b[1..], c[1..]);
    }
  }

  lemma {:induction false} LessTotal(a: string, b: string)
    ensures Less(a, b) || a == b || Less(b, a)
    decreases |a|
  {
    if a != [] && b != [] && a[0] == b[0] {
      LessTotal(a[1..], b[1..]);
      assert a == [a[0]] + a[1..] && b == [b[0]] + b[1..];
    }
  }

  /** The order is the one of words in a dictionary: the first character in which two keys differ decides, a
      key comes before its continuations, and a lesser key is always less for one of these reasons. */
  lemma DictionaryOrder(a: string, b: string)
    ensures Less(a, b) <==>
            exists i: nat ::
              && i <= |a| && i < |b| && a[..i] == b[..i]
              && (i == |a| || (i < |a| && a[i] < b[i]))
  {
    if Less(a, b) {
      var _ := LessAt(a, b);
    }
    if i: nat :| i <= |a| && i < |b| && a[..i] == b[..i] && (i == |a| || (i < |a| && a[i] < b[i])) {
      DecidedAt(a, b, i);
    }
  }

  lemma {:induction false} LessAt(a: string, b: string) returns (i: nat)
    requires Less(a, b)
    ensures i <= |a| && i < |b| && a[..i] == b[..i] && (i == |a| || (i < |a| && a[i] < b[i]))
    decreases |a|
  {
    if a == [] || a[0] < b[0] {
      i := 0;
    } else {
      var j := LessAt(a[1..], b[1..]);
      i := j + 1;
      assert a[..i] == [a[0]] + a[1..][..j] && b[..i] == [b[0]] + b[1..][..j];
    }
  }

  lemma {:induction false} DecidedAt(a: string, b: string, i: nat)
    requires i <= |a| && i < |b| && a[..i] == b[..i] && (i == |a| || (i < |a| && a[i] < b[i]))
    ensures Less(a, b)
    decreases i
  {
    if i > 0 {
      assert a[0] == a[..i][0] && b[0] == b[..i][0];
      assert a[1..][..i - 1] == a[..i][1..] && b[1..][..i - 1] == b[..i][1..];
      DecidedAt(a[1..], b[1..], i - 1);
    }
  }

  predicate Sorted(es: seq<Entry>)
  {
    forall i, j :: 0 <= i < j < |es| ==> Less(es[i].key, es[j].key)
  }

  function Keys(es: seq<Entry>): set<string>
  {
    set i | 0 <= i < |es| :: es[i].key
  }

  predicate IsLeast(k: string, s: set<string>)
  {
    k in s && forall x :: x in s ==> x == k || Less(k, x)
  }

  /** A map visits its least key first: the first one of the sorted entries, and no other. */
  lemma LeastIsFirst(es: seq<Entry>, k: string)
    requires Sorted(es) && es != []
    ensures IsLeast(k, Keys(es)) <==> k == es[0].key
  {
    var first := es[0].key;
    assert first in Keys(es);
    if IsLeast(k, Keys(es)) && k != first {
      assert Less(k, first);
      var i :| 0 <= i < |es| && es[i].key == k;
      assert Less(first, k);
      LessTransitive(first, k, first);
      LessIrreflexive(first);
      assert false;
    }
  }

  // ------------------------------------------------------------------ layout

  function EagerTypes(es: seq<Entry>): seq<nat>
  {
    if es == [] then []
    else if es[0].member.Lazy? then EagerTypes(es[1..]) else [es[0].member.ty] + EagerTypes(es[1..])
  }

  /** How many of the first j members are not lazy. */
  function Rank(es: seq<Entry>, j: nat): nat
    requires j <= |es|
  {
    if j == 0 then 0 else Rank(es, j - 1) + if es[j - 1].member.Lazy? then 0 else 1
  }

  lemma {:induction false} EagerAppend(a: seq<Entry>, b: seq<Entry>)
    ensures EagerTypes(a + b) == EagerTypes(a) + EagerTypes(b)
    decreases |a|
  {
    if a == [] {
      assert a + b == b;
    } else {
      assert (a + b)[1..] == a[1..] + b;
      EagerAppend(a[1..], b);
    }
  }

  /** The j-th member, if it is not lazy, has the type in the place of its rank. */
  lemma {:induction false} RankType(es: seq<Entry>, j: nat)
    requires j <= |es|
    ensures Rank(es, j) == |EagerTypes(es[..j])| <= |EagerTypes(es)|
    ensures j < |es| && es[j].member.Eager? ==>
      Rank(es, j) < |EagerTypes(es)| && EagerTypes(es)[Rank(es, j)] == es[j].member.ty
    decreases j
  {
    if j > 0 {
      RankType(es, j - 1);
      assert es[..j] == es[..j - 1] + [es[j - 1]];
      EagerAppend(es[..j - 1], [es[j - 1]]);
    }
    assert es == es[..j] + es[j..];
    EagerAppend(es[..j], es[j..]);
  }

  lemma {:induction false} RankGrows(es: seq<Entry>, i: nat, j: nat)
    requires i < j <= |es| && es[i].member.Eager?
    ensures Rank(es, i) < Rank(es, j)
    decreases j
  {
    if j - 1 > i {
      RankGrows(es, i, j - 1);
    }
  }

  /** The keys of the first j members that are not lazy. */
  function EagerKeys(es: seq<Entry>, j: nat): set<string>
    requires j <= |es|
  {
    if j == 0 then {} else EagerKeys(es, j - 1) + if es[j - 1].member.Lazy? then {} else {es[j - 1].key}
  }

  lemma {:induction false} EagerKey(es: seq<Entry>, j: nat, k: string) returns (l: nat)
    requires j <= |es| && k in EagerKeys(es, j)
    ensures l < j && es[l].key == k && es[l].member.Eager?
    decreases j
  {
    if es[j - 1].member.Eager? && es[j - 1].key == k {
      l := j - 1;
    } else {
      l := EagerKey(es, j - 1, k);
    }
  }

  /** The fields of a structure: exactly the members that are not lazy, numbered without gap in key
      order, each with its own type. */
  predicate Agree(es: seq<Entry>, ty: seq<nat>, fields: map<string, nat>)
  {
    && |ty| == Rank(es, |es|)
    && fields.Keys == EagerKeys(es, |es|)
    && forall j :: 0 <= j < |es| && es[j].member.Eager? ==>
         es[j].key in fields && fields[es[j].key] == Rank(es, j) < |ty| && ty[fields[es[j].key]] == es[j].member.ty
  }

  /** Every number below the size is the number of exactly one member. */
  lemma {:induction false} NumbersUsed(es: seq<Entry>, n: nat, i: nat)
    requires n <= |es| && i < Rank(es, n)
    ensures exists j :: 0 <= j < n && es[j].member.Eager? && Rank(es, j) == i
    decreases n
  {
    if i < Rank(es, n - 1) {
      NumbersUsed(es, n - 1, i);
    } else {
      assert es[n - 1].member.Eager? && Rank(es, n - 1) == i;
    }
  }

  /** The field numbers are exactly 0 to n-1, one for each member that is not lazy. */
  lemma FieldsBijective(es: seq<Entry>, ty: seq<nat>, fields: map<string, nat>)
    requires Sorted(es) && Agree(es, ty, fields)
    ensures forall i: nat :: i in fields.Values <==> i < |ty|
    ensures forall k, l :: k in fields && l in fields && fields[k] == fields[l] ==> k == l
  {
    forall i: nat | i < |ty|
      ensures i in fields.Values
    {
      NumbersUsed(es, |es|, i);
      var j :| 0 <= j < |es| && es[j].member.Eager? && Rank(es, j) == i;
      assert es[j].key in fields && fields[es[j].key] == i;
    }
    forall i | i in fields.Values
      ensures i < |ty|
    {
      var k :| k in fields && fields[k] == i;
      var j := EagerKey(es, |es|, k);
    }
    forall k, l | k in fields && l in fields && fields[k] == fields[l]
      ensures k == l
    {
      SameNumber(es, ty, fields, k, l);
    }
  }

  lemma FieldIs(es: seq<Entry>, ty: seq<nat>, fields: map<string, nat>, k: string) returns (j: nat)
    requires Agree(es, ty, fields) && k in fields
    ensures j < |es| && es[j].key == k && es[j].member.Eager? && fields[k] == Rank(es, j)
  {
    hide Rank;
    j := EagerKey(es, |es|, k);
  }

  lemma SameNumber(es: seq<Entry>, ty: seq<nat>, fields: map<string, nat>, k: string, l: string)
    requires Agree(es, ty, fields) && k in fields && l in fields && fields[k] == fields[l]
    ensures k == l
  {
    hide Rank, Agree;
    var i := FieldIs(es, ty, fields, k);
    var j := FieldIs(es, ty, fields, l);
    if i < j {
      RankGrows(es, i, j);
    } else if j < i {
      RankGrows(es, j, i);
    }
  }

  // ------------------------------------------------------------------- loops

  /** The search for a type of the module with the same layout. */
  method Reuse(structTy: StructTy, identified: seq<StructTy>) returns (found: StructTy)
    ensures found.elems == structTy.elems
    ensures found == structTy || found in identified
    ensures (exists t :: t in identified && t.elems == structTy.elems) ==> found in identified
  {
    for i := 0 to |identified|
      invariant forall t :: t in identified[..i] ==> t.elems != structTy.elems
    {
      if identified[i].elems == structTy.elems {
        return identified[i];
      }
      assert identified[..i + 1] == identified[..i] + [identified[i]];
    }
    assert identified[..|identified|] == identified;
    found := structTy;
  }

  /** The loop over the members of the literal. */
  method Collect(es: seq<Entry>) returns (types: seq<nat>, symbols: map<string, Member>)
    requires Sorted(es)
    ensures types == EagerTypes(es) && symbols.Keys == Keys(es)
    ensures forall j :: 0 <= j < |es| ==> es[j].key in symbols && symbols[es[j].key] == es[j].member
  {
    hide Sorted, Keys, EagerTypes;
    types := [];
    symbols := map[];
    NoEntries();
    for j := 0 to |es|
      invariant types == EagerTypes(es[..j]) && symbols.Keys == Keys(es[..j])
      invariant forall i :: 0 <= i < j ==> es[i].key in symbols && symbols[es[i].key] == es[i].member
    {
      assert es[..j + 1] == es[..j] + [es[j]];
      EagerAppend(es[..j], [es[j]]);
      NewKey(es, j);
      symbols := symbols[es[j].key := es[j].member];
      if es[j].member.Eager? {
        types := types + [es[j].member.ty];
      }
    }
    assert es[..|es|] == es;
  }

  lemma NoEntries()
    ensures EagerTypes([]) == [] && Keys([]) == {}
    ensures forall e: Entry :: EagerTypes([e]) == if e.member.Lazy? then [] else [e.member.ty]
  {
  }

  /** The structure literal: collect, reuse a type, number. The check that a member is stored with its
      own type never fails. */
  method Build(es: seq<Entry>, identified: seq<StructTy>, freshId: nat)
    returns (structTy: StructTy, symbols: map<string, Member>, fields: map<string, nat>, mismatch: bool)
    requires Sorted(es)
    ensures Agree(es, structTy.elems, fields) && !mismatch
    ensures symbols.Keys == Keys(es) && forall j :: 0 <= j < |es| ==> symbols[es[j].key] == es[j].member
  {
    var types;
    types, symbols := Collect(es);
    structTy := Reuse(StructTy(freshId, types), identified);
    fields, mismatch := Number(es, symbols, structTy);
  }

  lemma NewKey(es: seq<Entry>, j: nat)
    requires Sorted(es) && j < |es|
    ensures Keys(es[..j + 1]) == Keys(es[..j]) + {es[j].key} && es[j].key !in Keys(es[..j])
    ensures forall i :: 0 <= i < j ==> es[i].key != es[j].key
  {
    var a, b := es[..j + 1], es[..j];
    forall k
      ensures k in Keys(a) <==> k in Keys(b) || k == es[j].key
    {
      if k in Keys(a) {
        var i :| 0 <= i < |a| && a[i].key == k;
        assert i < j ==> b[i].key == k;
      }
      if k in Keys(b) {
        var i :| 0 <= i < |b| && b[i].key == k;
        assert a[i].key == k;
      }
      if k == es[j].key {
        assert a[j].key == k;
      }
    }
    LessIrreflexive(es[j].key);
    forall i | 0 <= i < j
      ensures es[i].key != es[j].key
    {
      assert Less(es[i].key, es[j].key);
    }
  }

  /** The first j members are numbered. */
  ghost predicate Numbered(es: seq<Entry>, fields: map<string, nat>, j: nat)
  {
    && j <= |es|
    && fields.Keys == EagerKeys(es, j)
    && forall l | 0 <= l < j && es[l].member.Eager? :: es[l].key in fields && fields[es[l].key] == Rank(es, l)
  }

  /** The loop over the symbols, in the order of the map, with its counter. */
  method Number(es: seq<Entry>, symbols: map<string, Member>, structTy: StructTy)
    returns (fields: map<string, nat>, mismatch: bool)
    requires Sorted(es) && structTy.elems == EagerTypes(es) && symbols.Keys == Keys(es)
    requires forall j :: 0 <= j < |es| ==> es[j].key in symbols && symbols[es[j].key] == es[j].member
    ensures Agree(es, structTy.elems, fields) && !mismatch
  {
    hide Sorted, Keys, EagerTypes, IsLeast, Numbered, Agree;
    fields, mismatch := map[], false;
    var i, todo := 0, symbols.Keys;
    ghost var j := 0;
    assert es[0..] == es;
    NoneNumbered(es);
    while todo != {}
      invariant j <= |es| && todo == Keys(es[j..]) && i == Rank(es, j) && !mismatch
      invariant Numbered(es, fields, j)
      decreases |todo|
    {
      NextKey(es, j);
      var k :| IsLeast(k, todo);
      LeastIsFirst(es[j..], k);
      RankType(es, j);
      NextNumbered(es, fields, j);
      if symbols[k].Eager? {
        fields := fields[k := i];
        mismatch := mismatch || structTy.elems[i] != symbols[k].ty;
        i := i + 1;
      }
      todo := todo - {k};
      j := j + 1;
    }
    Finished(es, j);
    AllNumbered(es, fields);
  }

  lemma NoneNumbered(es: seq<Entry>)
    ensures Numbered(es, map[], 0)
  {
  }

  lemma AllNumbered(es: seq<Entry>, fields: map<string, nat>)
    requires Numbered(es, fields, |es|)
    ensures Agree(es, EagerTypes(es), fields)
  {
    RankType(es, |es|);
    assert es[..|es|] == es;
    forall l | 0 <= l < |es| && es[l].member.Eager?
      ensures Rank(es, l) < |EagerTypes(es)| && EagerTypes(es)[Rank(es, l)] == es[l].member.ty
    {
      RankType(es, l);
    }
  }

  lemma NextNumbered(es: seq<Entry>, fields: map<string, nat>, j: nat)
    requires Sorted(es) && j < |es| && Numbered(es, fields, j)
    ensures Numbered(es, if es[j].member.Eager? then fields[es[j].key := Rank(es, j)] else fields, j + 1)
  {
    hide Rank, Less, EagerKeys, Sorted;
    OneMoreKey(es, j);
    var fields' := if es[j].member.Eager? then fields[es[j].key := Rank(es, j)] else fields;
    forall l | 0 <= l < j + 1 && es[l].member.Eager?
      ensures es[l].key in fields' && fields'[es[l].key] == Rank(es, l)
    {
      if l < j {
        KeysDiffer(es, l, j);
      }
    }
    assert fields'.Keys == EagerKeys(es, j + 1);
  }

  lemma OneMoreKey(es: seq<Entry>, j: nat)
    requires j < |es|
    ensures EagerKeys(es, j + 1) == EagerKeys(es, j) + if es[j].member.Lazy? then {} else {es[j].key}
  {
  }

  lemma KeysDiffer(es: seq<Entry>, i: nat, j: nat)
    requires Sorted(es) && i < j < |es|
    ensures es[i].key != es[j].key
  {
    LessIrreflexive(es[j].key);
  }

  lemma NextKey(es: seq<Entry>, j: nat)
    requires Sorted(es) && j <= |es| && Keys(es[j..]) != {}
    ensures j < |es| && Sorted(es[j..]) && es[j..][0] == es[j]
    ensures Keys(es[j + 1..]) == Keys(es[j..]) - {es[j].key}
    ensures IsLeast(es[j].key, Keys(es[j..]))
  {
    assert es[j..] != [];
    LeastIsFirst(es[j..], es[j].key);
    var a, b := es[j..], es[j + 1..];
    forall k
      ensures k in Keys(b) <==> k in Keys(a) && k != es[j].key
    {
      if k in Keys(b) {
        var i :| 0 <= i < |b| && b[i].key == k;
        assert a[i + 1].key == k && Less(es[j].key, k);
        LessIrreflexive(k);
      }
      if k in Keys(a) && k != es[j].key {
        var i :| 0 <= i < |a| && a[i].key == k;
        assert b[i - 1].key == k;
      }
    }
  }

  lemma Finished(es: seq<Entry>, j: nat)
    requires j <= |es|
    ensures j < |es| ==> Keys(es[j..]) != {}
  {
    if j < |es| {
      assert es[j..][0].key in Keys(es[j..]);
    }
  }
}

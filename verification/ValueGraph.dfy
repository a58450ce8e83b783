/** The translator's compile-time values: heap nodes with a symbol table each, and deep copies of
    them. */
module ValueGraph {
  import opened Words

  /** A value of the LLVM API, known by identity, and its type. */
  datatype LValue = LValue(id: nat, ty: nat)

  class TypeInfo {
    var llvm: Option<nat>
    const isLazy: bool
    var isConst: bool

    constructor (llvm: Option<nat>, isLazy: bool, isConst: bool)
      ensures this.llvm == llvm && this.isLazy == isLazy && this.isConst == isConst
    {
      this.llvm, this.isLazy, this.isConst := llvm, isLazy, isConst;
    }

    method CopyWithNewLLVMType(ty: nat) returns (t: TypeInfo)
      ensures fresh(t) && t.llvm == Some(ty) && t.isLazy == isLazy && t.isConst == isConst
    {
      t := new TypeInfo(Some(ty), isLazy, isConst);
    }
  }

  class RetTable {
    var first: map<string, Value>
    var second: map<string, nat>

    constructor (first: map<string, Value>, second: map<string, nat>)
      ensures this.first == first && this.second == second
    {
      this.first, this.second := first, second;
    }
  }

  /** Everything that can be observed of a value and, through its symbol tables, below it; the
      parent and the return table are observed by identity. */
  datatype Snapshot = Snapshot(llvm: Option<LValue>, ty: Option<nat>, isLazy: bool, isConst: bool, ast: nat,
                               name: string, parent: Value?, retTable: RetTable?, fields: map<string, nat>,
                               symbols: map<string, Snapshot>)

  /** The symbol graph below n is acyclic, at most d deep, and lies in s; the symbols in it have
      LLVM values that agree with their types. */
  ghost predicate Grounded(n: Value, d: nat, s: set<object>)
    reads s
    decreases d
  {
    && d > 0 && n in s && n.typ in s
    && forall k | k in n.symbols :: Grounded(n.symbols[k], d - 1, s) && Synced(n.symbols[k], s)
  }

  ghost predicate Synced(n: Value, s: set<object>)
    requires n in s && n.typ in s
    reads s
  {
    n.llvm.Some? && n.typ.llvm == Some(n.llvm.value.ty)
  }

  ghost function Shape(n: Value, d: nat, s: set<object>): Snapshot
    requires Grounded(n, d, s)
    reads s
    decreases d
  {
    Snapshot(n.llvm, n.typ.llvm, n.typ.isLazy, n.typ.isConst, n.ast, n.name, n.parent, n.retTable, n.fields,
             map k | k in n.symbols :: Shape(n.symbols[k], d - 1, s))
  }

  /** All symbols of a table are grounded. */
  ghost predicate GroundedTable(t: map<string, Value>, d: nat, s: set<object>)
    reads s
  {
    forall k | k in t :: Grounded(t[k], d, s) && Synced(t[k], s)
  }

  ghost function ShapeTable(t: map<string, Value>, d: nat, s: set<object>): map<string, Snapshot>
    requires GroundedTable(t, d, s)
    reads s
  {
    map k | k in t :: Shape(t[k], d, s)
  }

  class Value {
    var llvm: Option<LValue>
    var parent: Value?
    var ast: nat
    var typ: TypeInfo
    var symbols: map<string, Value>
    var fields: map<string, nat>
    var name: string
    var retTable: RetTable?

    constructor (llvm: Option<LValue>, ast: nat, typ: TypeInfo)
      ensures this.llvm == llvm && this.ast == ast && this.typ == typ
      ensures symbols == map[] && fields == map[] && name == "" && parent == null && retTable == null
    {
      this.llvm, this.ast, this.typ := llvm, ast, typ;
      symbols, fields, name, parent, retTable := map[], map[], "", null, null;
    }

    /** All that a copy shares with the original, and its own symbol table. */
    method TakeOver(src: Value, copies: map<string, Value>)
      requires src != this
      modifies this`parent, this`symbols, this`fields, this`retTable, this`name
      ensures parent == src.parent && symbols == copies && fields == src.fields
      ensures retTable == src.retTable && name == src.name
    {
      parent, symbols, fields, retTable, name := src.parent, copies, src.fields, src.retTable, src.name;
    }

    /** The copy: all nodes below are new, nothing existing changes, and what can be observed is
        the same but for the LLVM value given and its type. */
    method CopyWithNewLLVMValue(v: LValue, ghost d: nat, ghost s: set<object>) returns (r: Value, ghost t: set<object>)
      requires Grounded(this, d, s)
      ensures fresh(t) && Grounded(r, d, t) && Synced(r, t)
      ensures Shape(r, d, t) == Shape(this, d, s).(llvm := Some(v), ty := Some(v.ty))
      ensures Shape(this, d, s) == old(Shape(this, d, s))
      decreases d, 1
    {
      hide Grounded, Shape, GroundedTable, ShapeTable, Synced;
      NodeParts(this, d, s);
      var copies, below := CopySymbols(symbols, d - 1, s);
      var newType := typ.CopyWithNewLLVMType(v.ty);
      r := new Value(Some(v), ast, newType);
      r.TakeOver(this, copies);
      t := below + {r, newType};
      TableWider(copies, d - 1, below, t);
      NodeWhole(r, d, t);
      NodeParts(this, d, s);
      SyncedIs(r, t);
    }

    method Copy(ghost d: nat, ghost s: set<object>) returns (r: Value, ghost t: set<object>)
      requires Grounded(this, d, s) && Synced(this, s)
      ensures fresh(t) && Grounded(r, d, t) && Synced(r, t) && Shape(r, d, t) == Shape(this, d, s)
      decreases d, 2
    {
      hide Grounded, Shape;
      r, t := CopyWithNewLLVMValue(llvm.value, d, s);
      NodeParts(this, d, s);
    }

    /** The snapshot of the symbols that a returned value takes along. */
    method GenerateRetTable(ghost d: nat, ghost s: set<object>) returns (table: RetTable, ghost t: set<object>)
      requires Grounded(this, d, s)
      ensures fresh(t) && fresh(table) && table !in t && table.second == fields
      ensures GroundedTable(table.first, d - 1, t) && ShapeTable(table.first, d - 1, t) == Shape(this, d, s).symbols
    {
      hide Grounded, Shape, GroundedTable, ShapeTable;
      NodeParts(this, d, s);
      var copies, below := CopySymbols(symbols, d - 1, s);
      table := new RetTable(copies, fields);
      t := below;
      NodeParts(this, d, s);
    }

    method SetRetTable(table: RetTable)
      modifies this`retTable
      ensures retTable == table
    {
      retTable := table;
    }

    method ApplyRetTable(table: RetTable)
      modifies this`symbols, this`fields
      ensures symbols == table.first && fields == table.second
    {
      symbols, fields := table.first, table.second;
    }

    /** Declare or overwrite a name with a copy of a value: only this entry changes, the table stays
        grounded, and the copied value is what it was. */
    method Insert(key: string, src: Value, v: LValue, ghost d: nat, ghost s: set<object>) returns (ghost t: set<object>)
      requires this !in s && GroundedTable(symbols, d, s) && Grounded(src, d, s)
      modifies this`symbols
      ensures fresh(t) && key in symbols && symbols == old(symbols)[key := symbols[key]]
      ensures GroundedTable(symbols, d, s + t)
      ensures Grounded(symbols[key], d, t)
      ensures Shape(symbols[key], d, t) == old(Shape(src, d, s)).(llvm := Some(v), ty := Some(v.ty))
      ensures ShapeTable(symbols, d, s + t) ==
              old(ShapeTable(symbols, d, s))[key := old(Shape(src, d, s)).(llvm := Some(v), ty := Some(v.ty))]
      ensures Grounded(src, d, s) && Shape(src, d, s) == old(Shape(src, d, s))
    {
      hide Grounded, Shape, GroundedTable, ShapeTable, Synced;
      var r;
      r, t := src.CopyWithNewLLVMValue(v, d, s);
      TableWider(symbols, d, s, s + t);
      NodeParts(r, d, t);
      Wider(r, d, t, s + t);
      SyncedWider(r, t, s + t);
      TableAdd(symbols, key, r, d, s + t);
      symbols := symbols[key := r];
    }
  }

  /** The return operator: a void value that carries a snapshot of the operand's table. The operand is
      what it was, and the snapshot shares no node with anything. */
  method ReturnOperator(operand: Value, ghost d: nat, ghost s: set<object>) returns (v: Value, ghost t: set<object>)
    requires Grounded(operand, d, s)
    ensures fresh(v) && v.llvm == None && v.retTable != null && v !in t && fresh(v.retTable) && v.retTable !in t
    ensures fresh(t) && GroundedTable(v.retTable.first, d - 1, t) && v.retTable.second == operand.fields
    ensures ShapeTable(v.retTable.first, d - 1, t) == Shape(operand, d, s).symbols
    ensures Grounded(operand, d, s) && Shape(operand, d, s) == old(Shape(operand, d, s))
  {
    hide Grounded, Shape, GroundedTable, ShapeTable;
    var table;
    table, t := operand.GenerateRetTable(d, s);
    var void := new TypeInfo(None, false, false);
    v := new Value(None, 0, void);
    v.SetRetTable(table);
  }

  /** The value of a call, given the table its function returned. */
  method CallValue(call: LValue, ast: nat, table: RetTable, ghost d: nat, ghost t: set<object>)
    returns (v: Value, ghost u: set<object>)
    requires d > 0 && GroundedTable(table.first, d - 1, t)
    ensures fresh(u - t) && t <= u && fresh(v) && Grounded(v, d, u) && Synced(v, u)
    ensures Shape(v, d, u) == Snapshot(Some(call), Some(call.ty), false, false, ast, "", null, null, table.second,
                                       ShapeTable(table.first, d - 1, t))
    ensures GroundedTable(table.first, d - 1, t)
    ensures ShapeTable(table.first, d - 1, t) == old(ShapeTable(table.first, d - 1, t))
  {
    hide Grounded, Shape, GroundedTable, ShapeTable, Synced;
    var typ := new TypeInfo(Some(call.ty), false, false);
    v := new Value(Some(call), ast, typ);
    v.ApplyRetTable(table);
    u := t + {v, typ};
    TableWider(table.first, d - 1, t, u);
    NodeWhole(v, d, u);
    SyncedIs(v, u);
  }

  /** From the return operator to the value of the call. Between the two the rest of the function's body
      may go on changing the operand; here it declares or overwrites a name in the operand's table. The
      caller still sees the symbols and fields that the operand had when it was returned, all in new
      nodes. */
  method ReturnThenCall(operand: Value, key: string, other: Value, v: LValue, call: LValue, ast: nat,
                        ghost d: nat, ghost s: set<object>, ghost e: nat, ghost w: set<object>)
    returns (dest: Value, ghost u: set<object>)
    requires Grounded(operand, d, s)
    requires operand !in w && GroundedTable(operand.symbols, e, w) && Grounded(other, e, w)
    modifies operand`symbols
    ensures fresh(dest) && fresh(u) && Grounded(dest, d, u) && Synced(dest, u)
    ensures Shape(dest, d, u) == Snapshot(Some(call), Some(call.ty), false, false, ast, "", null, null,
                                          old(operand.fields), old(Shape(operand, d, s)).symbols)
    ensures key in operand.symbols
  {
    hide Grounded, Shape, GroundedTable, ShapeTable, Synced;
    var void, t := ReturnOperator(operand, d, s);
    NodeParts(operand, d, s);
    var table := void.retTable;
    ghost var below := operand.Insert(key, other, v, e, w);
    dest, u := CallValue(call, ast, table, d, t);
  }

  /** The loop over a symbol table that copies every entry. */
  method CopySymbols(table: map<string, Value>, ghost d: nat, ghost s: set<object>)
    returns (copies: map<string, Value>, ghost t: set<object>)
    requires GroundedTable(table, d, s)
    ensures fresh(t) && GroundedTable(copies, d, t) && ShapeTable(copies, d, t) == ShapeTable(table, d, s)
    decreases d, 4
  {
    hide Grounded, Shape, GroundedTable, ShapeTable, Synced;
    copies, t := map[], {};
    var todo := table.Keys;
    ghost var shapes := ShapeTable(table, d, s);
    EmptyTable(d, t);
    TableKeys(table, d, s);
    while todo != {}
      invariant todo <= table.Keys
      invariant fresh(t) && GroundedTable(copies, d, t)
      invariant GroundedTable(table, d, s) && ShapeTable(table, d, s) == shapes
      invariant ShapeTable(copies, d, t) == shapes - todo
      decreases |todo|
    {
      var k :| k in todo;
      copies, t := CopyEntry(table, k, copies, t, d, s);
      todo := todo - {k};
    }
    assert shapes - {} == shapes;
  }

  method CopyEntry(table: map<string, Value>, k: string, copies: map<string, Value>, ghost t: set<object>,
                   ghost d: nat, ghost s: set<object>) returns (copies': map<string, Value>, ghost t': set<object>)
    requires k in table && GroundedTable(table, d, s) && GroundedTable(copies, d, t)
    ensures t <= t' && fresh(t' - t)
    ensures GroundedTable(table, d, s) && ShapeTable(table, d, s) == old(ShapeTable(table, d, s))
    ensures k in ShapeTable(table, d, s) && GroundedTable(copies', d, t')
    ensures ShapeTable(copies', d, t') == old(ShapeTable(copies, d, t))[k := ShapeTable(table, d, s)[k]]
    decreases d, 3
  {
    hide Grounded, Shape, GroundedTable, ShapeTable, Synced;
    TableEntry(table, k, d, s);
    TableKeys(table, d, s);
    var c, u := table[k].Copy(d, s);
    t' := t + u;
    copies' := copies[k := c];
    NodeParts(c, d, u);
    TableWider(copies, d, t, t');
    Wider(c, d, u, t');
    SyncedWider(c, u, t');
    TableAdd(copies, k, c, d, t');
    TableEntry(table, k, d, s);
  }

  // ------------------------------------------------------------------ lemmas

  lemma NodeParts(n: Value, d: nat, s: set<object>)
    requires Grounded(n, d, s)
    ensures d > 0 && n in s && n.typ in s && GroundedTable(n.symbols, d - 1, s)
    ensures Shape(n, d, s) == Snapshot(n.llvm, n.typ.llvm, n.typ.isLazy, n.typ.isConst, n.ast, n.name, n.parent,
                                       n.retTable, n.fields, ShapeTable(n.symbols, d - 1, s))
    ensures Synced(n, s) ==> n.llvm.Some? && n.typ.llvm == Some(n.llvm.value.ty)
  {
  }

  lemma NodeWhole(n: Value, d: nat, s: set<object>)
    requires d > 0 && n in s && n.typ in s && GroundedTable(n.symbols, d - 1, s)
    ensures Grounded(n, d, s)
    ensures Shape(n, d, s) == Snapshot(n.llvm, n.typ.llvm, n.typ.isLazy, n.typ.isConst, n.ast, n.name, n.parent,
                                       n.retTable, n.fields, ShapeTable(n.symbols, d - 1, s))
  {
  }

  lemma SyncedIs(n: Value, s: set<object>)
    requires n in s && n.typ in s && n.llvm.Some? && n.typ.llvm == Some(n.llvm.value.ty)
    ensures Synced(n, s)
  {
  }

  lemma SyncedWider(n: Value, s: set<object>, s': set<object>)
    requires n in s && n.typ in s && Synced(n, s) && s <= s'
    ensures Synced(n, s')
  {
  }

  lemma EmptyTable(d: nat, s: set<object>)
    ensures GroundedTable(map[], d, s) && ShapeTable(map[], d, s) == map[]
  {
  }

  lemma TableKeys(t: map<string, Value>, d: nat, s: set<object>)
    requires GroundedTable(t, d, s)
    ensures ShapeTable(t, d, s).Keys == t.Keys
  {
  }

  lemma TableEntry(t: map<string, Value>, k: string, d: nat, s: set<object>)
    requires GroundedTable(t, d, s) && k in t
    ensures Grounded(t[k], d, s) && t[k] in s && t[k].typ in s && Synced(t[k], s)
    ensures ShapeTable(t, d, s)[k] == Shape(t[k], d, s)
  {
  }

  lemma TableAdd(t: map<string, Value>, k: string, n: Value, d: nat, s: set<object>)
    requires GroundedTable(t, d, s) && Grounded(n, d, s) && n in s && n.typ in s && Synced(n, s)
    ensures GroundedTable(t[k := n], d, s)
    ensures ShapeTable(t[k := n], d, s) == ShapeTable(t, d, s)[k := Shape(n, d, s)]
  {
    hide Grounded, Shape, Synced;
  }

  /** A larger footprint does not change what is observed. */
  lemma {:induction false} Wider(n: Value, d: nat, s: set<object>, s': set<object>)
    requires Grounded(n, d, s) && s <= s'
    ensures Grounded(n, d, s') && Shape(n, d, s') == Shape(n, d, s)
    decreases d
  {
    forall k | k in n.symbols
      ensures Grounded(n.symbols[k], d - 1, s') && Shape(n.symbols[k], d - 1, s') == Shape(n.symbols[k], d - 1, s)
    {
      Wider(n.symbols[k], d - 1, s, s');
    }
  }

  lemma TableWider(t: map<string, Value>, d: nat, s: set<object>, s': set<object>)
    requires GroundedTable(t, d, s) && s <= s'
    ensures GroundedTable(t, d, s') && ShapeTable(t, d, s') == ShapeTable(t, d, s)
  {
    forall k | k in t
      ensures Grounded(t[k], d, s') && Shape(t[k], d, s') == Shape(t[k], d, s)
    {
      Wider(t[k], d, s, s');
    }
  }

  /** A greater depth bound does not change what is observed. */
  lemma {:induction false} Deeper(n: Value, d: nat, e: nat, s: set<object>)
    requires Grounded(n, d, s) && d <= e
    ensures Grounded(n, e, s) && Shape(n, e, s) == Shape(n, d, s)
    decreases d
  {
    forall k | k in n.symbols
      ensures Grounded(n.symbols[k], e - 1, s) && Shape(n.symbols[k], e - 1, s) == Shape(n.symbols[k], d - 1, s)
    {
      Deeper(n.symbols[k], d - 1, e - 1, s);
    }
  }

  // -------------------------------------------------------------- reachability

  /** Following the keys of a path from n ends at m. */
  ghost predicate Reaches(n: Value, path: seq<string>, m: Value, s: set<object>)
    requires n in s
    reads s
    decreases |path|
  {
    if path == [] then n == m
    else path[0] in n.symbols && n.symbols[path[0]] in s && Reaches(n.symbols[path[0]], path[1..], m, s)
  }

  /** Whatever is reachable from a grounded value lies in its footprint, within its depth. */
  lemma {:induction false} ReachedInside(n: Value, d: nat, s: set<object>, path: seq<string>, m: Value, u: set<object>)
    requires Grounded(n, d, s) && n in u && Reaches(n, path, m, u)
    ensures m in s && m.typ in s && |path| < d && Grounded(m, d - |path|, s)
    decreases |path|
  {
    if path != [] {
      ReachedInside(n.symbols[path[0]], d - 1, s, path[1..], m, u);
    }
  }

  /** No node of a grounded graph is below itself. */
  lemma {:induction false} NoCycle(n: Value, d: nat, s: set<object>, path: seq<string>)
    requires Grounded(n, d, s) && path != []
    ensures !Reaches(n, path, n, s)
    decreases d
  {
    if Reaches(n, path, n, s) {
      ReachedInside(n, d, s, path, n, s);
      NoCycle(n, d - |path|, s, path);
    }
  }

  /** Whatever is changed in the footprint of one graph later, a graph with a separate footprint, such as a
      copy of it, is observed as before. */
  twostate lemma ChangesUnseen(s: set<object>, r: Value, d: nat, t: set<object>, changed: set<object>)
    requires old(Grounded(r, d, t)) && s !! t && changed <= s
    requires forall o :: o in t && o !in changed ==> unchanged(o)
    ensures Grounded(r, d, t) && Shape(r, d, t) == old(Shape(r, d, t))
  {
    assert t - changed == t;
  }

  /** So a copy does not see what is inserted into the original afterwards. */
  method InsertUnseen(n: Value, key: string, other: Value, v: LValue, ghost s: set<object>,
                      r: Value, ghost d: nat, ghost t: set<object>, ghost e: nat, ghost w: set<object>)
    requires n in s && s !! t && Grounded(r, d, t)
    requires n !in w && GroundedTable(n.symbols, e, w) && Grounded(other, e, w)
    modifies n`symbols
    ensures key in n.symbols && Grounded(r, d, t) && Shape(r, d, t) == old(Shape(r, d, t))
  {
    hide Grounded, Shape, GroundedTable, ShapeTable, Synced;
    ghost var below := n.Insert(key, other, v, e, w);
  }

  /** The copy and the original have no node in common, and no type record either. */
  lemma CopySeparate(n: Value, s: set<object>, r: Value, t: set<object>, d: nat, p: seq<string>, q: seq<string>,
                     m: Value, u: set<object>)
    requires s !! t && s + t <= u && Grounded(n, d, s) && Grounded(r, d, t)
    requires Reaches(n, p, m, u)
    ensures !Reaches(r, q, m, u)
    ensures forall o :: o in u && Reaches(r, q, o, u) ==> o.typ != m.typ
  {
    ReachedInside(n, d, s, p, m, u);
    forall o | o in u && Reaches(r, q, o, u)
      ensures o != m && o.typ != m.typ
    {
      ReachedInside(r, d, t, q, o, u);
    }
  }

  /** Each node below a copy has the parent, name, flags and field numbers of the node it was copied
      from: parents of copies are the old nodes, never the new ones. */
  lemma {:induction false} CopiedNode(n: Value, d: nat, s: set<object>, r: Value, t: set<object>, path: seq<string>,
                                      m: Value)
    returns (o: Value)
    requires Grounded(n, d, s) && Grounded(r, d, t) && ShapeBelow(n, d, s) == ShapeBelow(r, d, t)
    requires Reaches(r, path, m, t)
    ensures Reaches(n, path, o, s)
    ensures o.parent == m.parent && o.name == m.name && o.fields == m.fields && o.symbols.Keys == m.symbols.Keys
    ensures o.typ in s && m.typ in t && o.typ.isLazy == m.typ.isLazy && o.typ.isConst == m.typ.isConst
    decreases |path|
  {
    NodeParts(n, d, s);
    NodeParts(r, d, t);
    TableKeys(n.symbols, d - 1, s);
    TableKeys(r.symbols, d - 1, t);
    if path == [] {
      o := n;
    } else {
      var k := path[0];
      TableEntry(n.symbols, k, d - 1, s);
      TableEntry(r.symbols, k, d - 1, t);
      o := CopiedNode(n.symbols[k], d - 1, s, r.symbols[k], t, path[1..], m);
    }
  }

  /** A snapshot without the LLVM value of the root. */
  ghost function ShapeBelow(n: Value, d: nat, s: set<object>): Snapshot
    requires Grounded(n, d, s)
    reads s
  {
    Shape(n, d, s).(llvm := None, ty := None)
  }
}

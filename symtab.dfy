/** The scope table (includes/symtab.h, src/symtab.c): a fixed array of 256
    hash buckets, each a chain of symbols, plus a link to the enclosing scope.

    The first half of the module is the value-level model of one table
    (`Table`) and of a scope chain (`seq<Table>`, nearest scope first); the
    parser's reference semantics is written against it. The second half is the
    heap structure the source mutates in place (`Scope`), whose operations are
    proved to act on `Scope.View()` exactly as the value-level model says. */
module SymTab {
  import opened Wrappers

  /** SYMBOL_TABLE_SIZE. */
  const TableSize: nat := 256

  /** The range of the source's `unsigned long` (64-bit): hash arithmetic wraps modulo this. */
  const Word: nat := 0x1_0000_0000_0000_0000

  datatype DataType = IntegerType | FloatType | CharType | VoidType

  datatype SymbolKind = VariableKind | ParameterKind | FunctionKind | ProcedureKind

  /** One declaration recorded in a scope. */
  datatype Symbol = Symbol(name: string, kind: SymbolKind, dtype: DataType, line: int, address: int)

  /** The reason scope_insert aborts: the name is already declared in this scope. */
  datatype InsertError = Redeclaration(name: string, line: int)

  /** A collision chain, head first. */
  type Bucket = seq<Symbol>

  /** The bucket array of one scope. */
  type Table = t: seq<Bucket> | |t| == TableSize witness seq(TableSize, i => [])

  // ---------------------------------------------------------------------------
  // Hashing

  /** djb2 over the characters of `key`, in unbounded integers. The C loop
      stops at the first NUL of the key; here every character is hashed.
      The two agree on every name the parser inserts or looks up, because
      the scanner stops at the first NUL of the source, so no lexeme holds
      one. */
  function Djb2(key: string): nat
  {
    if key == [] then 5381 else Djb2(key[..|key| - 1]) * 33 + key[|key| - 1] as nat
  }

  /** The bucket a name belongs to. */
  function HashIndex(key: string): (index: nat)
    ensures index < TableSize
  {
    Djb2(key) % TableSize
  }

  lemma ModAddLeft(a: int, b: int, m: int)
    requires m > 0
    ensures (a % m + b) % m == (a + b) % m
  {
    var q := a / m;
    assert a == q * m + a % m;
    assert a % m + b == (a + b) - q * m;
    ModSubMultiple(a + b, q, m);
  }

  lemma ModUnique(y: int, k: int, r: int, m: int)
    requires m > 0 && 0 <= r < m && y == k * m + r
    ensures y % m == r
  {
    var d := k - y / m;
    assert y == (y / m) * m + y % m;
    assert d * m == y % m - r;
  }

  lemma ModSubMultiple(x: int, q: int, m: int)
    requires m > 0
    ensures (x - q * m) % m == x % m
  {
    var r := x % m;
    var p := x / m;
    assert x == p * m + r;
    assert x - q * m == (p - q) * m + r;
    ModUnique(x - q * m, p - q, r, m);
  }

  lemma ModMulLeft(a: int, k: int, m: int)
    requires m > 0
    ensures (a % m * k) % m == (a * k) % m
  {
    var q := a / m;
    assert a == q * m + a % m;
    assert a % m * k == a * k - (q * k) * m;
    ModSubMultiple(a * k, q * k, m);
  }

  /** One step of the source's 64-bit loop agrees, modulo the word size, with
      the unbounded step. */
  lemma {:induction false} WrappedStep(x: int, c: nat)
    ensures ((x % Word * 32 % Word + x % Word) % Word + c) % Word == (x * 33 + c) % Word
  {
    var h := x % Word;
    ModMulLeft(x, 32, Word);
    assert h * 32 % Word == x * 32 % Word;
    ModAddLeft(x * 32, h, Word);
    ModAddLeft(x, x * 32, Word);
    assert (h * 32 % Word + h) % Word == (x * 32 + h) % Word;
    assert (x * 32 + h) % Word == (h + x * 32) % Word;
    assert (h + x * 32) % Word == (x + x * 32) % Word;
    assert x + x * 32 == x * 33;
    ModAddLeft(x * 33, c, Word);
  }

  /** Because 256 divides the word size, reducing modulo the word first does not change the bucket. */
  lemma WordThenTable(x: int)
    ensures x % Word % TableSize == x % TableSize
  {
    var q := x / Word;
    assert x == q * Word + x % Word;
    assert x % Word == x - (q * 0x100_0000_0000_0000) * TableSize;
    ModSubMultiple(x, q * 0x100_0000_0000_0000, TableSize);
  }

  /** hash(): the djb2 loop over the key in 64-bit unsigned arithmetic, reduced
      modulo the table size. It always lands in [0, 256) and equals djb2
      computed in unbounded integers, modulo 256. Like Djb2 it hashes every
      character of the key, where the C loop stops at a NUL; no lexeme holds
      one. */
  method Hash(key: string) returns (index: nat)
    ensures index < TableSize
    ensures index == HashIndex(key)
  {
    var h: nat := 5381;
    var i := 0;
    while i < |key|
      invariant 0 <= i <= |key|
      invariant h == Djb2(key[..i]) % Word
    {
      assert key[..i + 1][..i] == key[..i];
      WrappedStep(Djb2(key[..i]), key[i] as nat);
      h := ((h * 32 % Word + h) % Word + key[i] as nat) % Word;
      i := i + 1;
    }
    assert key[..i] == key;
    WordThenTable(Djb2(key));
    index := h % TableSize;
  }

  // ---------------------------------------------------------------------------
  // One table, as a value

  /** The first symbol named `name` along a chain (the strcmp walk of a bucket). */
  function Find(chain: Bucket, name: string): (r: Option<Symbol>)
    ensures r.Some? ==> r.value.name == name && r.value in chain
    ensures r.None? <==> forall k :: 0 <= k < |chain| ==> chain[k].name != name
  {
    if chain == [] then None
    else if chain[0].name == name then Some(chain[0])
    else Find(chain[1..], name)
  }

  /** A table with every bucket empty. */
  function EmptyTable(): (t: Table)
    ensures forall i :: 0 <= i < TableSize ==> t[i] == []
  {
    seq(TableSize, i => [])
  }

  /** scope_lookup_current on a value: search only bucket HashIndex(name). */
  function Local(t: Table, name: string): Option<Symbol>
  {
    Find(t[HashIndex(name)], name)
  }

  /** scope_insert on a value: reject a name this table already has, otherwise
      prepend the symbol to its bucket. */
  function InsertSymbol(t: Table, sym: Symbol): Result<Table, InsertError>
  {
    if Local(t, sym.name).Some? then Err(Redeclaration(sym.name, sym.line))
    else
      var h := HashIndex(sym.name);
      Ok(t[h := [sym] + t[h]])
  }

  /** The table invariant: every symbol sits in the bucket of its name, and no
      two symbols of the table share a name. */
  ghost predicate WellFormed(t: Table) {
    && (forall i, k :: 0 <= i < TableSize && 0 <= k < |t[i]| ==> HashIndex(t[i][k].name) == i)
    && (forall i, k, j, l ::
          (0 <= i < TableSize && 0 <= k < |t[i]| && 0 <= j < TableSize && 0 <= l < |t[j]| &&
           t[i][k].name == t[j][l].name) ==> i == j && k == l)
  }

  /** Every symbol of the table, bucket by bucket. */
  ghost predicate Holds(t: Table, sym: Symbol) {
    exists i, k :: 0 <= i < TableSize && 0 <= k < |t[i]| && t[i][k] == sym
  }

  lemma EmptyTableWellFormed()
    ensures WellFormed(EmptyTable())
    ensures forall n :: Local(EmptyTable(), n) == None
  {
  }

  /** A redeclaration is exactly a name the table already holds; enclosing scopes
      play no part. */
  lemma InsertFailsIffDeclared(t: Table, sym: Symbol)
    ensures InsertSymbol(t, sym).Err? <==> Local(t, sym.name).Some?
    ensures InsertSymbol(t, sym).Err? ==> InsertSymbol(t, sym).error == Redeclaration(sym.name, sym.line)
  {
  }

  /** After a successful insert, looking the name up in the same table yields
      exactly the inserted symbol; every other name keeps its answer. */
  lemma InsertThenLocal(t: Table, sym: Symbol, n: string)
    requires InsertSymbol(t, sym).Ok?
    ensures Local(InsertSymbol(t, sym).value, sym.name) == Some(sym)
    ensures n != sym.name ==> Local(InsertSymbol(t, sym).value, n) == Local(t, n)
  {
    var h := HashIndex(sym.name);
    var t' := InsertSymbol(t, sym).value;
    if n != sym.name && HashIndex(n) == h {
      assert t'[h][1..] == t[h];
    }
  }

  /** Insert touches only bucket HashIndex(name), and only by prepending one symbol. */
  lemma InsertPrepends(t: Table, sym: Symbol)
    requires InsertSymbol(t, sym).Ok?
    ensures var t' := InsertSymbol(t, sym).value;
      && t'[HashIndex(sym.name)] == [sym] + t[HashIndex(sym.name)]
      && forall i :: 0 <= i < TableSize && i != HashIndex(sym.name) ==> t'[i] == t[i]
  {
  }

  /** Insert preserves the table invariant. */
  lemma InsertPreservesWellFormed(t: Table, sym: Symbol)
    requires WellFormed(t)
    requires InsertSymbol(t, sym).Ok?
    ensures WellFormed(InsertSymbol(t, sym).value)
  {
    var h := HashIndex(sym.name);
    var t' := InsertSymbol(t, sym).value;
    assert forall k :: 0 <= k < |t[h]| ==> t[h][k].name != sym.name;
    forall i, k | 0 <= i < TableSize && 0 <= k < |t'[i]|
      ensures HashIndex(t'[i][k].name) == i
    {
      if i == h && k > 0 {
        assert t'[i][k] == t[i][k - 1];
      }
    }
    forall i, k, j, l |
      0 <= i < TableSize && 0 <= k < |t'[i]| && 0 <= j < TableSize && 0 <= l < |t'[j]| &&
      t'[i][k].name == t'[j][l].name
      ensures i == j && k == l
    {
      if i == h && k > 0 { assert t'[i][k] == t[i][k - 1]; }
      if j == h && l > 0 { assert t'[j][l] == t[j][l - 1]; }
    }
  }

  /** In a well-formed table, Local finds every symbol the table holds, under its own name. */
  lemma LocalFindsHeld(t: Table, sym: Symbol)
    requires WellFormed(t)
    requires Holds(t, sym)
    ensures Local(t, sym.name) == Some(sym)
  {
    var i, k :| 0 <= i < TableSize && 0 <= k < |t[i]| && t[i][k] == sym;
    assert HashIndex(sym.name) == i;
    FindUnique(t[i], k);
  }

  lemma {:induction false} FindUnique(chain: Bucket, k: nat)
    requires k < |chain|
    requires forall a, b :: 0 <= a < |chain| && 0 <= b < |chain| && chain[a].name == chain[b].name ==> a == b
    ensures Find(chain, chain[k].name) == Some(chain[k])
  {
    if k > 0 {
      assert chain[0].name != chain[k].name;
      assert chain[1..][k - 1] == chain[k];
      FindUnique(chain[1..], k - 1);
    }
  }

  // ---------------------------------------------------------------------------
  // A scope chain, as a value (nearest scope first)

  /** scope_lookup on a value: the answer of the nearest scope that has the name. */
  function Resolve(chain: seq<Table>, name: string): (r: Option<Symbol>)
    ensures r.Some? ==> r.value.name == name && exists i :: 0 <= i < |chain| && r.value in chain[i][HashIndex(name)]
  {
    if chain == [] then None
    else match Local(chain[0], name)
      case Some(s) => Some(s)
      case None => Resolve(chain[1..], name)
  }

  /** Nearest scope wins: a found symbol comes from some scope of the chain, and
      every scope nearer than that one lacks the name. Nothing is found exactly
      when no scope of the chain has the name. */
  lemma {:induction false} ResolveNearest(chain: seq<Table>, name: string)
    ensures Resolve(chain, name).None? <==> forall i :: 0 <= i < |chain| ==> Local(chain[i], name).None?
    ensures Resolve(chain, name).Some? ==>
      exists i :: 0 <= i < |chain| && Local(chain[i], name) == Resolve(chain, name) &&
        forall j :: 0 <= j < i ==> Local(chain[j], name).None?
  {
    if chain != [] && Local(chain[0], name).None? {
      ResolveNearest(chain[1..], name);
      if Resolve(chain, name).Some? {
        var i :| 0 <= i < |chain[1..]| && Local(chain[1..][i], name) == Resolve(chain[1..], name) &&
          forall j :: 0 <= j < i ==> Local(chain[1..][j], name).None?;
        assert Local(chain[i + 1], name) == Resolve(chain, name);
        forall j | 0 <= j < i + 1 ensures Local(chain[j], name).None? {
          if j > 0 { assert chain[j] == chain[1..][j - 1]; }
        }
      } else {
        forall i | 0 <= i < |chain| ensures Local(chain[i], name).None? {
          if i > 0 { assert chain[i] == chain[1..][i - 1]; }
        }
      }
    }
  }

  /** Shadowing: declaring a name in the nearest scope succeeds whatever the
      enclosing scopes hold, and from then on the chain resolves the name to the
      new, nearer declaration. */
  lemma ShadowingSucceeds(inner: Table, outer: seq<Table>, sym: Symbol)
    requires Local(inner, sym.name).None?
    ensures InsertSymbol(inner, sym).Ok?
    ensures Resolve([InsertSymbol(inner, sym).value] + outer, sym.name) == Some(sym)
  {
    InsertThenLocal(inner, sym, sym.name);
  }

  // ---------------------------------------------------------------------------
  // The heap structure

  /** SymbolTable: a fixed array of bucket chains and the link to the enclosing
      scope. `ancestors` is the chain of enclosing scopes, nearest first; it is
      ghost and only serves to state the chain walk and its termination. */
  class Scope {
    const buckets: array<Bucket>
    const parent: Scope?
    ghost const ancestors: seq<Scope>

    /** The parent links form a finite chain, recorded in `ancestors`. */
    ghost predicate Linked()
      decreases |ancestors|
    {
      && ancestors == (if parent == null then [] else [parent] + parent.ancestors)
      && (parent != null ==> parent.Linked())
    }

    /** The object invariant: 256 buckets holding a well-formed table. */
    ghost predicate Valid()
      reads buckets
    {
      buckets.Length == TableSize && WellFormed(buckets[..])
    }

    /** The table this scope currently holds. */
    ghost function View(): Table
      reads buckets
      requires buckets.Length == TableSize
    {
      buckets[..]
    }

    /** scope_create: every bucket empty, no parent. */
    constructor Create()
      ensures Valid() && Linked() && fresh(buckets)
      ensures View() == EmptyTable()
      ensures parent == null && ancestors == []
    {
      buckets := new Bucket[TableSize];
      parent := null;
      ancestors := [];
      new;
      var i := 0;
      while i < TableSize
        invariant 0 <= i <= TableSize
        invariant forall k :: 0 <= k < i ==> buckets[k] == []
      {
        buckets[i] := [];
        i := i + 1;
      }
      assert buckets[..] == EmptyTable();
      EmptyTableWellFormed();
    }

    /** scope_enter: an empty scope whose parent is `parent`. */
    constructor Enter(parent: Scope?)
      requires parent != null ==> parent.Linked()
      ensures Valid() && Linked() && fresh(buckets)
      ensures View() == EmptyTable()
      ensures this.parent == parent
      ensures ancestors == if parent == null then [] else [parent] + parent.ancestors
    {
      buckets := new Bucket[TableSize];
      this.parent := parent;
      ancestors := if parent == null then [] else [parent] + parent.ancestors;
      new;
      var i := 0;
      while i < TableSize
        invariant 0 <= i <= TableSize
        invariant forall k :: 0 <= k < i ==> buckets[k] == []
      {
        buckets[i] := [];
        i := i + 1;
      }
      assert buckets[..] == EmptyTable();
      EmptyTableWellFormed();
    }

    /** scope_insert: a redeclaration in this scope is an error and changes
        nothing; otherwise the symbol is prepended to its bucket. The parent is
        never consulted. */
    method Insert(name: string, kind: SymbolKind, dtype: DataType, line: int, address: int)
      returns (r: Outcome<InsertError>)
      requires Valid()
      modifies buckets
      ensures Valid()
      ensures match InsertSymbol(old(View()), Symbol(name, kind, dtype, line, address))
        case Ok(t) => r == Pass && View() == t
        case Err(e) => r == Fail(e) && View() == old(View())
    {
      var existing := LookupCurrent(this, name);
      if existing.Some? {
        return Fail(Redeclaration(name, line));
      }
      var index := Hash(name);
      var sym := Symbol(name, kind, dtype, line, address);
      InsertPreservesWellFormed(buckets[..], sym);
      buckets[index] := [sym] + buckets[index];
      r := Pass;
    }
  }

  /** The scope and its ancestors, nearest first. */
  ghost function Chain(st: Scope): seq<Scope>
  {
    [st] + st.ancestors
  }

  /** The bucket arrays of a sequence of scopes. */
  ghost function BucketsOf(ss: seq<Scope>): set<array<Bucket>>
  {
    set s | s in ss :: s.buckets
  }

  /** The tables held by a sequence of scopes. */
  ghost function Views(ss: seq<Scope>): (r: seq<Table>)
    requires forall s :: s in ss ==> s.buckets.Length == TableSize
    reads BucketsOf(ss)
    ensures |r| == |ss|
    ensures forall i :: 0 <= i < |ss| ==> r[i] == ss[i].View()
  {
    if ss == [] then [] else [ss[0].View()] + Views(ss[1..])
  }

  /** A linked chain of valid scopes. */
  ghost predicate ChainValid(st: Scope)
    reads BucketsOf(Chain(st))
  {
    st.Linked() && forall s :: s in Chain(st) ==> s.Valid()
  }

  /** scope_lookup_current: search only this scope's bucket for `name`. A null
      scope yields nothing, and the parent is never consulted. */
  method LookupCurrent(st: Scope?, name: string) returns (r: Option<Symbol>)
    requires st != null ==> st.buckets.Length == TableSize
    ensures st == null ==> r == None
    ensures st != null ==> r == Local(st.View(), name)
  {
    if st == null {
      return None;
    }
    var index := Hash(name);
    var chain := st.buckets[index];
    var k := 0;
    while k < |chain|
      invariant 0 <= k <= |chain|
      invariant Find(chain, name) == Find(chain[k..], name)
    {
      if chain[k].name == name {
        return Some(chain[k]);
      }
      assert chain[k..][1..] == chain[k + 1..];
      k := k + 1;
    }
    r := None;
  }

  lemma ChainLinked(st: Scope)
    requires st.Linked()
    ensures forall s :: s in Chain(st) ==> s.Linked()
    decreases |st.ancestors|
  {
    if st.parent != null {
      ChainLinked(st.parent);
    }
  }

  /** scope_lookup: walk from `st` up the parent links and return the first
      scope's answer that finds the name; nothing if no scope has it. */
  method Lookup(st: Scope?, name: string) returns (r: Option<Symbol>)
    requires st != null ==> ChainValid(st)
    ensures st == null ==> r == None
    ensures st != null ==> r == Resolve(Views(Chain(st)), name)
  {
    if st == null {
      return None;
    }
    ChainLinked(st);
    ghost var chain := Chain(st);
    ghost var whole := Views(chain);
    var current: Scope? := st;
    ghost var i := 0;
    while current != null
      invariant 0 <= i <= |chain|
      invariant current == null <==> i == |chain|
      invariant current != null ==> current == chain[i] && current.Linked() && Chain(current) == chain[i..]
      invariant Resolve(whole, name) == Resolve(whole[i..], name)
      invariant Views(chain) == whole
      decreases |chain| - i
    {
      var symbol := LookupCurrent(current, name);
      assert whole[i] == current.View();
      assert whole[i..][1..] == whole[i + 1..];
      if symbol.Some? {
        assert whole[i..][0] == whole[i];
        assert Resolve(whole[i..], name) == symbol;
        assert Views(chain) == whole;
        assert Chain(st) == chain;
        assert Resolve(Views(Chain(st)), name) == symbol;
        return symbol;
      }
      assert chain[i..][1..] == chain[i + 1..];
      current := current.parent;
      i := i + 1;
    }
    r := None;
  }
}

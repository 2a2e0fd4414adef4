/** Variable tracking for template frames (`Symbols`): each frame maps template
    names to Python identifiers `l_<level>_<name>` and records how each identifier
    is loaded when the frame starts. */
module Idtracking {
  import opened Wrappers
  import opened Decimal

  /** A load instruction, `(VAR_LOAD_..., argument)`. */
  datatype Load =
    | Param                   // a macro parameter
    | Resolve(name: string)   // looked up in the context by name
    | Alias(target: string)   // copied from an outer frame's identifier
    | Undefined               // starts undefined

  /** The state of one frame's symbol table. */
  datatype Scope = Scope(level: nat, refs: map<string, string>, loads: map<string, Load>, stores: set<string>)

  /** The identifier of `name` in a frame at `level`: `'l_%d_%s' % (level, name)`. */
  function Ident(level: nat, name: string): string {
    "l_" + NatToString(level) + "_" + name
  }

  /** Every reference of a scope is its own level's identifier for the name, and
      every stored name has a reference. */
  ghost predicate WellFormed(s: Scope) {
    && (forall n :: n in s.refs ==> s.refs[n] == Ident(s.level, n))
    && s.stores <= s.refs.Keys
  }

  /** A chain of scopes, innermost first, whose levels count down to 0 at the root. */
  ghost predicate ChainValid(chain: seq<Scope>) {
    forall i :: 0 <= i < |chain| ==> chain[i].level == |chain| - 1 - i && WellFormed(chain[i])
  }

  /** The number of leading digits of a string. */
  function LeadingDigits(s: string): (k: nat)
    ensures k <= |s|
  {
    if s != [] && IsDigit(s[0]) then 1 + LeadingDigits(s[1..]) else 0
  }

  lemma {:induction false} LeadingDigitsOf(d: string, rest: string)
    requires AllDigits(d)
    ensures LeadingDigits(d + "_" + rest) == |d|
  {
    if d != [] {
      assert (d + "_" + rest)[1..] == d[1..] + "_" + rest;
      LeadingDigitsOf(d[1..], rest);
    } else {
      assert d + "_" + rest == "_" + rest;
    }
  }

  /** Identifiers never collide: equal identifiers have the same level and name, so
      names of different frames cannot shadow each other by accident. */
  lemma IdentInjective(l1: nat, n1: string, l2: nat, n2: string)
    ensures Ident(l1, n1) == Ident(l2, n2) ==> l1 == l2 && n1 == n2
  {
    var d1, d2 := NatToString(l1), NatToString(l2);
    if Ident(l1, n1) == Ident(l2, n2) {
      var s := Ident(l1, n1)[2..];
      assert s == d1 + "_" + n1 && s == d2 + "_" + n2;
      LeadingDigitsOf(d1, n1);
      LeadingDigitsOf(d2, n2);
      assert d1 == s[..|d1|] == d2;
      assert n1 == s[|d1| + 1..] == n2;
      NatToStringInjective(l1, l2);
    }
  }

  lemma SameLevelIdentInjective(level: nat)
    ensures forall a, b :: Ident(level, a) == Ident(level, b) ==> a == b
  {
    forall a, b | Ident(level, a) == Ident(level, b)
      ensures a == b
    {
      IdentInjective(level, a, level, b);
    }
  }

  /** `find_ref`: the reference of the innermost scope that has one. */
  function FindRefIn(chain: seq<Scope>, name: string): Option<string> {
    if chain == [] then None
    else if name in chain[0].refs then Some(chain[0].refs[name])
    else FindRefIn(chain[1..], name)
  }

  /** `find_load`: the load instruction of the innermost scope that has one. */
  function FindLoadIn(chain: seq<Scope>, target: string): Option<Load> {
    if chain == [] then None
    else if target in chain[0].loads then Some(chain[0].loads[target])
    else FindLoadIn(chain[1..], target)
  }

  /** A reference is found exactly when some scope of the chain has the name, and
      it is then the reference of the innermost such scope. */
  lemma {:induction false} FindRefFirst(chain: seq<Scope>, name: string)
    ensures FindRefIn(chain, name).Some? <==> exists i :: 0 <= i < |chain| && name in chain[i].refs
    ensures forall i :: 0 <= i < |chain| && name in chain[i].refs && (forall j :: 0 <= j < i ==> name !in chain[j].refs) ==>
      FindRefIn(chain, name) == Some(chain[i].refs[name])
  {
    if chain != [] {
      FindRefFirst(chain[1..], name);
      if name !in chain[0].refs {
        assert forall i :: 1 <= i < |chain| ==> chain[i] == chain[1..][i - 1];
        forall i | 0 <= i < |chain| && name in chain[i].refs && (forall j :: 0 <= j < i ==> name !in chain[j].refs)
          ensures FindRefIn(chain, name) == Some(chain[i].refs[name])
        {
          assert forall j :: 0 <= j < i - 1 ==> chain[1..][j] == chain[j + 1];
        }
      }
    }
  }

  /** A load is found exactly when some scope of the chain has one for the target,
      and it is then the load of the innermost such scope. */
  lemma {:induction false} FindLoadFirst(chain: seq<Scope>, target: string)
    ensures FindLoadIn(chain, target).Some? <==> exists i :: 0 <= i < |chain| && target in chain[i].loads
    ensures forall i :: 0 <= i < |chain| && target in chain[i].loads && (forall j :: 0 <= j < i ==> target !in chain[j].loads) ==>
      FindLoadIn(chain, target) == Some(chain[i].loads[target])
  {
    if chain != [] {
      FindLoadFirst(chain[1..], target);
      if target !in chain[0].loads {
        assert forall i :: 1 <= i < |chain| ==> chain[i] == chain[1..][i - 1];
        forall i | 0 <= i < |chain| && target in chain[i].loads && (forall j :: 0 <= j < i ==> target !in chain[j].loads)
          ensures FindLoadIn(chain, target) == Some(chain[i].loads[target])
        {
          assert forall j :: 0 <= j < i - 1 ==> chain[1..][j] == chain[j + 1];
        }
      }
    }
  }

  /** In a valid chain a found reference is the identifier of the name at the level
      of the innermost scope that has it. */
  lemma FindRefIsIdent(chain: seq<Scope>, name: string, i: nat)
    requires ChainValid(chain) && i < |chain| && name in chain[i].refs
    requires forall j :: 0 <= j < i ==> name !in chain[j].refs
    ensures FindRefIn(chain, name) == Some(Ident(|chain| - 1 - i, name))
  {
    FindRefFirst(chain, name);
  }

  /** `_define_ref`, on a scope value. */
  function Defined(s: Scope, name: string, load: Option<Load>): Scope {
    var ident := Ident(s.level, name);
    Scope(s.level, s.refs[name := ident], if load.Some? then s.loads[ident := load.value] else s.loads, s.stores)
  }

  /** The load `store` gives a name first stored in a scope: an alias of the
      enclosing scopes' reference if there is one, else undefined. */
  function StoreLoad(parents: seq<Scope>, name: string): Load {
    if parents != [] && FindRefIn(parents, name).Some? then Alias(FindRefIn(parents, name).value) else Undefined
  }

  /** `store(name)`, on a scope value with its enclosing scopes. */
  function Stored(s: Scope, parents: seq<Scope>, name: string): Scope {
    var s' := s.(stores := s.stores + {name});
    if name in s.refs then s' else Defined(s', name, Some(StoreLoad(parents, name)))
  }

  /** `declare_parameter(name)`, on a scope value. */
  function Declared(s: Scope, name: string): Scope {
    Defined(s.(stores := s.stores + {name}), name, Some(Param))
  }

  /** `load(name)`, on a scope value with its enclosing scopes. */
  function Loaded(s: Scope, parents: seq<Scope>, name: string): Scope {
    if FindRefIn([s] + parents, name).None? then Defined(s, name, Some(Resolve(name))) else s
  }

  /** The first store of a name that an enclosing scope already references aliases
      that reference; the first store of any other name marks it undefined; a name
      the scope already references keeps its reference and load. Either way the
      name becomes a store and resolves, in this scope, to `l_<level>_<name>`. */
  lemma StoreDefines(s: Scope, parents: seq<Scope>, name: string)
    requires WellFormed(s)
    ensures var t := Stored(s, parents, name);
      && WellFormed(t) && t.level == s.level
      && t.stores == s.stores + {name}
      && FindRefIn([t] + parents, name) == Some(Ident(s.level, name))
      && (name in s.refs ==> t.refs == s.refs && t.loads == s.loads)
      && (name !in s.refs && FindRefIn(parents, name).Some? ==>
            t.loads == s.loads[Ident(s.level, name) := Alias(FindRefIn(parents, name).value)])
      && (name !in s.refs && FindRefIn(parents, name).None? ==>
            t.loads == s.loads[Ident(s.level, name) := Undefined])
  {
  }

  /** Declaring a parameter stores the name and loads it as a parameter. */
  lemma DeclareDefines(s: Scope, name: string)
    requires WellFormed(s)
    ensures var t := Declared(s, name);
      && WellFormed(t) && name in t.stores
      && t.refs == s.refs[name := Ident(s.level, name)]
      && t.loads == s.loads[Ident(s.level, name) := Param]
  {
  }

  /** Loading a name no scope references makes it resolve from the context; a
      name some scope references changes nothing. Afterwards the name always has
      a reference. */
  lemma LoadResolves(s: Scope, parents: seq<Scope>, name: string)
    requires WellFormed(s)
    ensures var t := Loaded(s, parents, name);
      && WellFormed(t)
      && FindRefIn([t] + parents, name).Some?
      && (FindRefIn([s] + parents, name).Some? ==> t == s)
      && (FindRefIn([s] + parents, name).None? ==>
            t.loads == s.loads[Ident(s.level, name) := Resolve(name)])
  {
  }

  /** How many of the branches store `name`. */
  function StoreCount(branches: seq<Scope>, name: string): (k: nat)
    ensures k <= |branches|
  {
    if branches == [] then 0
    else StoreCount(branches[..|branches| - 1], name) + (if name in branches[|branches| - 1].stores then 1 else 0)
  }

  /** Every name some branch stores. */
  function AllStores(branches: seq<Scope>): set<string> {
    if branches == [] then {} else AllStores(branches[..|branches| - 1]) + branches[|branches| - 1].stores
  }

  lemma {:induction false} StoreCountPositive(branches: seq<Scope>, name: string)
    ensures StoreCount(branches, name) > 0 <==> name in AllStores(branches)
  {
    if branches != [] {
      StoreCountPositive(branches[..|branches| - 1], name);
    }
  }

  /** The names some but not all branches store, not stored in the scope before:
      after the branches they may or may not be set. */
  function PartialStores(s: Scope, branches: seq<Scope>): set<string> {
    set n | n in AllStores(branches) && n !in s.stores && StoreCount(branches, n) < |branches|
  }

  /** The load a partially stored name gets: an alias of an enclosing reference if
      there is one, else a lookup by name. */
  function BranchLoad(parents: seq<Scope>, name: string): Load {
    if parents != [] && FindRefIn(parents, name).Some? then Alias(FindRefIn(parents, name).value) else Resolve(name)
  }

  /** The scope after `refs.update`, `loads.update` and `stores.update` with each branch in turn. */
  function Merged(s: Scope, branches: seq<Scope>): Scope {
    if branches == [] then s
    else
      var m := Merged(s, branches[..|branches| - 1]);
      var b := branches[|branches| - 1];
      Scope(m.level, m.refs + b.refs, m.loads + b.loads, m.stores + b.stores)
  }

  /** The prefix `l_<level>_` every identifier of a level starts with. */
  function Prefix(level: nat): string {
    "l_" + NatToString(level) + "_"
  }

  /** The identifiers of `names` at `level`. */
  function Idents(level: nat, names: set<string>): set<string> {
    set n | n in names :: Ident(level, n)
  }

  /** The name an identifier of `level` stands for: what follows the prefix. */
  function NameOf(level: nat, ident: string): string {
    var p := Prefix(level);
    if |p| <= |ident| then ident[|p|..] else ident
  }

  lemma NameOfIdent(level: nat, name: string)
    ensures NameOf(level, Ident(level, name)) == name
  {
    assert Ident(level, name) == Prefix(level) + name;
  }

  /** The loads after the partially stored names in `names` got their branch load. */
  function Relinked(loads: map<string, Load>, level: nat, parents: seq<Scope>, names: set<string>): map<string, Load> {
    map t | t in loads.Keys + Idents(level, names) ::
      if t in Idents(level, names) then BranchLoad(parents, NameOf(level, t)) else loads[t]
  }

  /** `branch_update(branch_symbols)`, on a scope value with its enclosing scopes. */
  function BranchUpdated(s: Scope, parents: seq<Scope>, branches: seq<Scope>): Scope {
    var m := Merged(s, branches);
    m.(loads := Relinked(m.loads, s.level, parents, PartialStores(s, branches)))
  }

  lemma {:induction false} MergedFacts(s: Scope, branches: seq<Scope>)
    requires WellFormed(s)
    requires forall i :: 0 <= i < |branches| ==> branches[i].level == s.level && WellFormed(branches[i])
    ensures WellFormed(Merged(s, branches)) && Merged(s, branches).level == s.level
    ensures Merged(s, branches).stores == s.stores + AllStores(branches)
  {
    if branches != [] {
      MergedFacts(s, branches[..|branches| - 1]);
    }
  }

  /** After the branches, every load other than a partially stored name's keeps
      what the merge gave it, so a name every branch (or the scope itself) stores
      keeps the load the last branch gave it; a name only some branches store is
      re-linked to the enclosing scopes' reference, or else resolved by name; the
      stores are the union. */
  lemma BranchUpdateRelinks(s: Scope, parents: seq<Scope>, branches: seq<Scope>, name: string)
    requires WellFormed(s)
    requires forall i :: 0 <= i < |branches| ==> branches[i].level == s.level && WellFormed(branches[i])
    ensures var t := BranchUpdated(s, parents, branches);
      && WellFormed(t)
      && t.stores == s.stores + AllStores(branches)
      && (name in PartialStores(s, branches) ==> t.loads[Ident(s.level, name)] == BranchLoad(parents, name))
      && (forall u :: u in t.loads && u !in Idents(s.level, PartialStores(s, branches)) ==>
            u in Merged(s, branches).loads && t.loads[u] == Merged(s, branches).loads[u])
      && (branches != [] && name !in PartialStores(s, branches) && Ident(s.level, name) in branches[|branches| - 1].loads ==>
            t.loads[Ident(s.level, name)] == branches[|branches| - 1].loads[Ident(s.level, name)])
  {
    MergedFacts(s, branches);
    SameLevelIdentInjective(s.level);
  }

  /** Every name stored along the chain. */
  function ChainStores(chain: seq<Scope>): set<string> {
    if chain == [] then {} else ChainStores(chain[..|chain| - 1]) + chain[|chain| - 1].stores
  }

  /** The targets this scope loads as parameters. */
  function ParamTargets(s: Scope): set<string> {
    set t | t in s.loads && s.loads[t] == Param
  }

  lemma {:induction false} ChainStoresHaveRefs(chain: seq<Scope>, name: string)
    requires ChainValid(chain) && name in ChainStores(chain)
    ensures FindRefIn(chain, name).Some?
  {
    if name in chain[|chain| - 1].stores {
      FindRefFirst(chain, name);
      assert name in chain[|chain| - 1].refs;
    } else {
      var init := chain[..|chain| - 1];
      assert ChainStores(chain) == ChainStores(init) + chain[|chain| - 1].stores;
      assert forall i :: 0 <= i < |init| ==> init[i] == chain[i];
      ChainStoresHaveRefsIn(init, name);
      var i :| 0 <= i < |init| && name in init[i].refs;
      FindRefFirst(chain, name);
      assert name in chain[i].refs;
    }
  }

  lemma {:induction false} ChainStoresHaveRefsIn(chain: seq<Scope>, name: string)
    requires forall i :: 0 <= i < |chain| ==> chain[i].stores <= chain[i].refs.Keys
    requires name in ChainStores(chain)
    ensures exists i :: 0 <= i < |chain| && name in chain[i].refs
  {
    var last := |chain| - 1;
    if name !in chain[last].stores {
      var init := chain[..last];
      assert forall i :: 0 <= i < |init| ==> init[i] == chain[i];
      ChainStoresHaveRefsIn(init, name);
      var i :| 0 <= i < |init| && name in init[i].refs;
      assert name in chain[i].refs;
    }
  }

  /** One round of `dump_stores`: the names stored in frame `k` of the chain that
      are not in `rv` yet, each with its reference as seen from the first frame. */
  method AddStores(chain: seq<Scope>, k: nat, rv0: map<string, string>) returns (rv: map<string, string>)
    requires ChainValid(chain) && k < |chain|
    requires rv0.Keys == ChainStores(chain[..k])
    requires forall n :: n in rv0 ==> FindRefIn(chain, n) == Some(rv0[n])
    ensures rv.Keys == ChainStores(chain[..k + 1])
    ensures forall n :: n in rv ==> FindRefIn(chain, n) == Some(rv[n])
  {
    rv := rv0;
    assert chain[..k + 1][..k] == chain[..k];
    var todo := chain[k].stores;
    while todo != {}
      invariant todo <= chain[k].stores
      invariant rv.Keys == ChainStores(chain[..k]) + (chain[k].stores - todo)
      invariant forall n :: n in rv ==> FindRefIn(chain, n) == Some(rv[n])
      decreases todo
    {
      var name :| name in todo;
      if name !in rv {
        assert name in ChainStores(chain[..k + 1]);
        ChainPrefixValid(chain, k + 1);
        ChainStoresHaveRefsIn(chain[..k + 1], name);
        FindRefFirst(chain, name);
        rv := rv[name := FindRefIn(chain, name).value];
      }
      todo := todo - {name};
    }
  }

  lemma ChainPrefixValid(chain: seq<Scope>, k: nat)
    requires ChainValid(chain) && k <= |chain|
    ensures forall i :: 0 <= i < k ==> chain[..k][i].stores <= chain[..k][i].refs.Keys
  {
  }

  /** The symbol table of one frame, with a snapshot of the enclosing frames' tables. */
  class Symbols {
    const level: nat
    /** The enclosing frames' tables, parent first. */
    const parents: seq<Scope>
    var refs: map<string, string>
    var loads: map<string, Load>
    var stores: set<string>

    function Own(): Scope
      reads this
    {
      Scope(level, refs, loads, stores)
    }

    /** This frame followed by its enclosing frames. */
    function Chain(): seq<Scope>
      reads this
    {
      [Own()] + parents
    }

    ghost predicate Valid()
      reads this
    {
      ChainValid(Chain())
    }

    /** Everything `Valid` says except that each stored name has a reference: the
        state `store` passes through between recording a store and defining it. */
    ghost predicate RefsValid()
      reads this
    {
      && level == |parents| && ChainValid(parents)
      && forall n :: n in refs ==> refs[n] == Ident(level, n)
    }

    /** `Symbols(parent)`: level 0 at the root, one more than the parent's below it. */
    constructor (parent: Symbols?)
      requires parent != null ==> parent.Valid()
      ensures Valid()
      ensures level == (if parent == null then 0 else parent.level + 1)
      ensures parents == (if parent == null then [] else parent.Chain())
      ensures refs == map[] && loads == map[] && stores == {}
    {
      if parent != null {
        parent.OwnValid();
      }
      level := if parent == null then 0 else parent.level + 1;
      parents := if parent == null then [] else parent.Chain();
      refs, loads, stores := map[], map[], {};
      new;
      assert forall i :: 1 <= i < |Chain()| ==> Chain()[i] == parents[i - 1];
    }

    /** `copy()`: a new table with the same parents and copies of the three collections. */
    constructor CopyOf(other: Symbols)
      requires other.Valid()
      ensures Valid() && level == other.level && parents == other.parents
      ensures refs == other.refs && loads == other.loads && stores == other.stores
    {
      level, parents := other.level, other.parents;
      refs, loads, stores := other.refs, other.loads, other.stores;
      new;
      assert Chain() == other.Chain();
    }

    function FindRef(name: string): Option<string>
      reads this
    {
      FindRefIn(Chain(), name)
    }

    /** `find_load(target)`: the load of the innermost frame that has one for the
        target (this frame first), or None when no frame has one. */
    function FindLoad(target: string): (r: Option<Load>)
      reads this
      ensures r.None? <==> forall i :: 0 <= i < |Chain()| ==> target !in Chain()[i].loads
      ensures target in loads ==> r == Some(loads[target])
      ensures forall i :: 0 <= i < |Chain()| && target in Chain()[i].loads && (forall j :: 0 <= j < i ==> target !in Chain()[j].loads) ==>
        r == Some(Chain()[i].loads[target])
    {
      FindLoadFirst(Chain(), target);
      FindLoadIn(Chain(), target)
    }

    /** `ref(name)`: the reference of the innermost frame that knows the name (this
        one, else the first enclosing one), or AssertionError for a name no frame knows. */
    function Ref(name: string): (r: Result<string>)
      reads this
      ensures r.Raised? <==> forall i :: 0 <= i < |Chain()| ==> name !in Chain()[i].refs
      ensures r.Raised? ==> r.error == AssertionError
      ensures name in refs ==> r == Ok(refs[name])
      ensures forall i :: 0 <= i < |Chain()| && name in Chain()[i].refs && (forall j :: 0 <= j < i ==> name !in Chain()[j].refs) ==>
        r == Ok(Chain()[i].refs[name])
      ensures r.Ok? ==> FindRef(name) == Some(r.value)
    {
      FindRefFirst(Chain(), name);
      match FindRef(name)
      case None => Raised(AssertionError)
      case Some(ident) => Ok(ident)
    }

    lemma OwnValid()
      requires Valid()
      ensures WellFormed(Own()) && level == |parents| && ChainValid(parents)
    {
      assert Chain()[0] == Own();
      assert forall i :: 0 <= i < |parents| ==> parents[i] == Chain()[i + 1];
    }

    lemma ValidIsRefsValid()
      ensures Valid() <==> RefsValid() && stores <= refs.Keys
    {
      if Valid() {
        OwnValid();
      }
      if RefsValid() && stores <= refs.Keys {
        ValidFrom(Own());
      }
    }

    lemma ValidFrom(s: Scope)
      requires ChainValid(parents) && s.level == |parents| && WellFormed(s)
      ensures ChainValid([s] + parents)
    {
      assert forall i :: 1 <= i < |[s] + parents| ==> ([s] + parents)[i] == parents[i - 1];
    }

    /** `_define_ref(name, load)`. */
    method DefineRef(name: string, load: Option<Load>) returns (ident: string)
      requires RefsValid()
      modifies this
      ensures RefsValid()
      ensures ident == Ident(level, name)
      ensures Own() == Defined(old(Own()), name, load)
    {
      ident := "l_" + NatToString(level) + "_" + name;
      refs := refs[name := ident];
      if load.Some? {
        loads := loads[ident := load.value];
      }
    }

    /** `store(name)`. */
    method Store(name: string)
      requires Valid()
      modifies this
      ensures Valid()
      ensures Own() == Stored(old(Own()), parents, name)
    {
      ValidIsRefsValid();
      stores := stores + {name};
      if name !in refs {
        if parents != [] {
          var outerRef := FindRefIn(parents, name);
          if outerRef.Some? {
            var _ := DefineRef(name, Some(Alias(outerRef.value)));
            ValidIsRefsValid();
            return;
          }
        }
        var _ := DefineRef(name, Some(Undefined));
      }
      ValidIsRefsValid();
    }

    /** `declare_parameter(name)`. */
    method DeclareParameter(name: string) returns (ident: string)
      requires Valid()
      modifies this
      ensures Valid()
      ensures ident == Ident(level, name)
      ensures Own() == Declared(old(Own()), name)
    {
      ValidIsRefsValid();
      stores := stores + {name};
      ident := DefineRef(name, Some(Param));
      ValidIsRefsValid();
    }

    /** `load(name)`. */
    method Load(name: string)
      requires Valid()
      modifies this
      ensures Valid()
      ensures Own() == Loaded(old(Own()), parents, name)
    {
      ValidIsRefsValid();
      var target := FindRef(name);
      if target.None? {
        var _ := DefineRef(name, Some(Resolve(name)));
      }
      ValidIsRefsValid();
    }

    /** `dump_stores()`: every name stored in this frame or an enclosing one, with
        its reference as seen from this frame. */
    method DumpStores() returns (rv: map<string, string>)
      requires Valid()
      ensures rv.Keys == ChainStores(Chain())
      ensures forall n :: n in rv ==> FindRef(n) == Some(rv[n])
    {
      var chain := Chain();
      rv := map[];
      var k := 0;
      while k < |chain|
        invariant 0 <= k <= |chain|
        invariant rv.Keys == ChainStores(chain[..k])
        invariant forall n :: n in rv ==> FindRefIn(chain, n) == Some(rv[n])
      {
        rv := AddStores(chain, k, rv);
        k := k + 1;
      }
      assert chain[..k] == chain;
    }

    /** `dump_param_targets()`. The loop walks the enclosing frames but reads this
        frame's loads at every step, so the result is this frame's parameter
        targets only, whatever the enclosing frames hold. */
    method DumpParamTargets() returns (rv: set<string>)
      ensures rv == ParamTargets(Own())
    {
      rv := {};
      var chain := Chain();
      var k := 0;
      while k < |chain|
        invariant 0 <= k <= |chain|
        invariant rv == if k == 0 then {} else ParamTargets(Own())
      {
        var todo := loads.Keys;
        var seen: set<string> := {};
        while todo != {}
          invariant todo + seen == loads.Keys && todo !! seen
          invariant rv == (if k == 0 then {} else ParamTargets(Own())) + (set t | t in seen && loads[t] == Param)
          decreases todo
        {
          var target :| target in todo;
          if loads[target] == Param {
            rv := rv + {target};
          }
          todo := todo - {target};
          seen := seen + {target};
        }
        k := k + 1;
      }
    }

    /** The first loop of `branch_update`: for each name some branch stores and
        this frame does not, the number of branches that store it. */
    method CountStores(branches: seq<Scope>) returns (counts: map<string, nat>)
      ensures counts.Keys == AllStores(branches) - stores
      ensures forall n :: n in counts ==> counts[n] == StoreCount(branches, n)
    {
      counts := map[];
      var i := 0;
      while i < |branches|
        invariant 0 <= i <= |branches|
        invariant counts.Keys == AllStores(branches[..i]) - stores
        invariant forall n :: n in counts ==> counts[n] == StoreCount(branches[..i], n)
      {
        assert branches[..i + 1][..i] == branches[..i];
        var todo := branches[i].stores;
        while todo != {}
          invariant todo <= branches[i].stores
          invariant counts.Keys == AllStores(branches[..i]) + (branches[i].stores - todo) - stores
          invariant forall n :: n in counts ==>
            counts[n] == StoreCount(branches[..i], n) + (if n in branches[i].stores - todo then 1 else 0)
          decreases todo
        {
          var target :| target in todo;
          if target !in stores {
            StoreCountPositive(branches[..i], target);
            counts := counts[target := (if target in counts then counts[target] else 0) + 1];
          }
          todo := todo - {target};
        }
        i := i + 1;
      }
      assert branches[..i] == branches;
    }

    /** The second loop of `branch_update`: update the three collections with each branch in turn. */
    method MergeBranches(branches: seq<Scope>)
      modifies this
      ensures Own() == Merged(old(Own()), branches)
    {
      ghost var s0 := Own();
      var j := 0;
      while j < |branches|
        invariant 0 <= j <= |branches|
        invariant Own() == Merged(s0, branches[..j])
      {
        assert branches[..j + 1][..j] == branches[..j];
        refs := refs + branches[j].refs;
        loads := loads + branches[j].loads;
        stores := stores + branches[j].stores;
        j := j + 1;
      }
      assert branches[..j] == branches;
    }

    /** The third loop of `branch_update`: every counted name that not all `total`
        branches store is re-linked to the parent's reference, or resolved by name. */
    method RelinkPartial(counts: map<string, nat>, total: nat)
      requires Valid() && counts.Keys <= refs.Keys
      modifies this
      ensures Valid()
      ensures Own() == old(Own()).(loads := Relinked(old(loads), level, parents, set n | n in counts && counts[n] != total))
    {
      OwnValid();
      ghost var merged := Own();
      ghost var partial := set n | n in counts && counts[n] != total;
      var names := counts.Keys;
      ghost var done: set<string> := {};
      while names != {}
        invariant names + done == counts.Keys && names !! done
        invariant Own() == merged.(loads := Relinked(merged.loads, level, parents, done * partial))
        decreases names
      {
        var name :| name in names;
        if counts[name] != total {
          ValidFrom(Own());
          FindRefFirst(Chain(), name);
          var target := FindRef(name);
          assert target == Some(Ident(level, name));
          RelinkedStep(merged.loads, level, parents, done * partial, name);
          assert (done + {name}) * partial == done * partial + {name};
          if parents != [] {
            var outerTarget := FindRefIn(parents, name);
            if outerTarget.Some? {
              loads := loads[target.value := Alias(outerTarget.value)];
            } else {
              loads := loads[target.value := Resolve(name)];
            }
          } else {
            loads := loads[target.value := Resolve(name)];
          }
        } else {
          assert (done + {name}) * partial == done * partial;
        }
        names := names - {name};
        done := done + {name};
      }
      assert done * partial == partial;
      ValidFrom(Own());
    }

    /** `branch_update(branch_symbols)`: merge the branches' tables into this one and
        re-link the names only some branches store. */
    method BranchUpdate(branches: seq<Scope>)
      requires Valid()
      requires forall i :: 0 <= i < |branches| ==> branches[i].level == level && WellFormed(branches[i])
      modifies this
      ensures Valid()
      ensures Own() == BranchUpdated(old(Own()), parents, branches)
    {
      OwnValid();
      ghost var s0 := Own();
      var counts := CountStores(branches);
      MergeBranches(branches);
      MergedFacts(s0, branches);
      ValidFrom(Own());
      forall n | n in counts
        ensures n in refs
      {
        StoreCountPositive(branches, n);
      }
      assert (set n | n in counts && counts[n] != |branches|) == PartialStores(s0, branches) by {
        forall n | n in PartialStores(s0, branches)
          ensures n in counts
        {
          StoreCountPositive(branches, n);
        }
      }
      RelinkPartial(counts, |branches|);
    }
  }

  lemma RelinkedStep(loads: map<string, Load>, level: nat, parents: seq<Scope>, names: set<string>, name: string)
    ensures Relinked(loads, level, parents, names + {name}) ==
      Relinked(loads, level, parents, names)[Ident(level, name) := BranchLoad(parents, name)]
  {
    assert Idents(level, names + {name}) == Idents(level, names) + {Ident(level, name)};
    NameOfIdent(level, name);
  }
}

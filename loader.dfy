/**
 * Argument binding for the function under exploration (symbolic/loader.py).
 *
 * The loader derives a module name from the target file, then builds a
 * `FunctionInvocation`: a table from each parameter name of the entry
 * function to an initial value and a constructor that turns a (name, value)
 * pair into the argument actually passed to the function.  Parameters named
 * by `@concrete` get a constructor that always yields the declared value;
 * parameters named by `@symbolic` get the symbolic type of their declared
 * value; every other parameter becomes a symbolic integer starting at 0.
 */
module Loader {
  import opened Wrappers
  import opened Strings

  /** The Python values the model distinguishes: integers, strings, and values of any other type. */
  datatype Value = IntV(i: int) | StrV(s: string) | OtherV(typeName: string)

  /** The symbolic types that an argument can be bound to. */
  datatype SymType = SymbolicInteger | SymbolicStr

  /** An argument as passed to the target: a plain value, or a symbolic object with its name and concrete value. */
  datatype ArgValue = Plain(v: Value) | Symbolic(st: SymType, name: string, v: Value)

  /** The concrete value behind an argument (`_getConcrValue` in symbolic/explore.py). */
  function ConcreteValue(a: ArgValue): Value {
    a.v
  }

  /**
   * The two constructor closures the loader registers: `lambda n, v: val`
   * for a concrete argument and `lambda n, v: st(n, v)` for a symbolic one.
   */
  datatype Constructor = ConstantCtor(val: Value) | SymbolicCtor(st: SymType)

  /** Calling a constructor closure on a name and a value. */
  function Apply(c: Constructor, n: string, v: Value): ArgValue {
    match c
    case ConstantCtor(val) => Plain(val)
    case SymbolicCtor(st) => Symbolic(st, n, v)
  }

  /** `getSymbolic`: the symbolic type for the type of a value, if there is one. */
  function GetSymbolic(v: Value): Option<SymType> {
    match v
    case IntV(_) => Some(SymbolicInteger)
    case StrV(_) => Some(SymbolicStr)
    case OtherV(_) => None
  }

  /** The reasons `createInvocation` raises `ImportError`. */
  datatype LoadError =
    | UnknownConcreteArg(name: string)
    | UnknownSymbolicArg(name: string)
    | DeclaredTwice(name: string)
    | NoSymbolicType(name: string)

  predicate Distinct(s: seq<string>) {
    forall i, j :: 0 <= i < j < |s| ==> s[i] != s[j]
  }

  /** The names of a sequence of (name, value) declarations, in order. */
  function Keys(decls: seq<(string, Value)>): seq<string> {
    seq(|decls|, i requires 0 <= i < |decls| => decls[i].0)
  }

  /** The parameters, in order, that are not among the declared names. */
  function Undeclared(params: seq<string>, declared: seq<string>): seq<string> {
    if |params| == 0 then []
    else Undeclared(params[..|params| - 1], declared)
         + (if params[|params| - 1] in declared then [] else [params[|params| - 1]])
  }

  lemma {:induction false} UndeclaredMembers(params: seq<string>, declared: seq<string>)
    ensures forall x :: x in Undeclared(params, declared) <==> x in params && x !in declared
  {
    if |params| > 0 {
      var init := params[..|params| - 1];
      UndeclaredMembers(init, declared);
      assert params == init + [params[|params| - 1]];
    }
  }

  lemma {:induction false} UndeclaredDistinct(params: seq<string>, declared: seq<string>)
    requires Distinct(params)
    ensures Distinct(Undeclared(params, declared))
  {
    if |params| > 0 {
      var init := params[..|params| - 1];
      UndeclaredDistinct(init, declared);
      UndeclaredMembers(init, declared);
    }
  }

  /**
   * The name-to-(initial value, constructor) table of symbolic/loader.py:10-33.
   * `names` is the insertion order of the `arg_constructor` dictionary.
   */
  class FunctionInvocation {
    const name: string
    var names: seq<string>
    var argConstructor: map<string, Constructor>
    var initialValue: map<string, Value>

    ghost predicate Valid()
      reads this
    {
      Distinct(names) &&
      (forall n :: n in argConstructor <==> n in names) &&
      initialValue.Keys == argConstructor.Keys
    }

    /** Every constant constructor yields exactly the initial value recorded beside it. */
    ghost predicate ConstantsAgree()
      reads this
      requires Valid()
    {
      forall n :: n in argConstructor && argConstructor[n].ConstantCtor? ==> argConstructor[n].val == initialValue[n]
    }

    constructor (name: string)
      ensures Valid() && ConstantsAgree()
      ensures this.name == name && names == [] && argConstructor == map[] && initialValue == map[]
    {
      this.name := name;
      names := [];
      argConstructor := map[];
      initialValue := map[];
    }

    /** Records the initial value and the constructor of one argument; other names keep their entries. */
    method AddArgumentConstructor(n: string, init: Value, ctor: Constructor)
      requires Valid()
      modifies this
      ensures Valid()
      ensures initialValue == old(initialValue)[n := init]
      ensures argConstructor == old(argConstructor)[n := ctor]
      ensures names == if n in old(argConstructor) then old(names) else old(names) + [n]
    {
      initialValue := initialValue[n := init];
      argConstructor := argConstructor[n := ctor];
      if n !in names {
        names := names + [n];
      }
    }

    /** The bound argument names, in insertion order. */
    function GetNames(): (r: seq<string>)
      reads this
      requires Valid()
      ensures Distinct(r) && forall n :: n in r <==> n in argConstructor
    {
      names
    }

    /**
     * The argument for `n`: the recorded constructor applied to `n` and to
     * the supplied value, or to the initial value when none is supplied.  A
     * concrete argument ignores the value it is given.
     */
    function CreateArgumentValue(n: string, val: Option<Value>): (r: ArgValue)
      reads this
      requires Valid() && n in argConstructor
      ensures argConstructor[n].ConstantCtor? && ConstantsAgree() ==> r == Plain(initialValue[n])
      ensures argConstructor[n].SymbolicCtor? ==>
                r.Symbolic? && r.st == argConstructor[n].st && r.name == n
      ensures argConstructor[n].SymbolicCtor? && val.Some? ==> ConcreteValue(r) == val.value
      ensures val.None? ==> ConcreteValue(r) == initialValue[n] || argConstructor[n].ConstantCtor?
    {
      var v := if val.None? then initialValue[n] else val.value;
      Apply(argConstructor[n], n, v)
    }
  }

  /** Omitting the value is the same as supplying the recorded initial value. */
  lemma DefaultIsInitialValue(inv: FunctionInvocation, n: string)
    requires inv.Valid() && n in inv.argConstructor
    ensures inv.CreateArgumentValue(n, None) == inv.CreateArgumentValue(n, Some(inv.initialValue[n]))
  {
  }

  /** `_initializeArgumentConcrete`: bind `f` to a constructor that always yields `val`. */
  method InitializeArgumentConcrete(inv: FunctionInvocation, f: string, val: Value)
    requires inv.Valid() && inv.ConstantsAgree()
    modifies inv
    ensures inv.Valid() && inv.ConstantsAgree()
    ensures inv.initialValue == old(inv.initialValue)[f := val]
    ensures inv.argConstructor == old(inv.argConstructor)[f := ConstantCtor(val)]
    ensures inv.names == if f in old(inv.argConstructor) then old(inv.names) else old(inv.names) + [f]
  {
    inv.AddArgumentConstructor(f, val, ConstantCtor(val));
  }

  /** `_initializeArgumentSymbolic`: bind `f` to the symbolic type `st`, starting at `val`. */
  method InitializeArgumentSymbolic(inv: FunctionInvocation, f: string, val: Value, st: SymType)
    requires inv.Valid() && inv.ConstantsAgree()
    modifies inv
    ensures inv.Valid() && inv.ConstantsAgree()
    ensures inv.initialValue == old(inv.initialValue)[f := val]
    ensures inv.argConstructor == old(inv.argConstructor)[f := SymbolicCtor(st)]
    ensures inv.names == if f in old(inv.argConstructor) then old(inv.names) else old(inv.names) + [f]
  {
    inv.AddArgumentConstructor(f, val, SymbolicCtor(st));
  }

  /** A `@symbolic` declaration is acceptable: a parameter, not also concrete, with a symbolic type. */
  predicate SymbolicOk(params: seq<string>, concreteNames: seq<string>, d: (string, Value)) {
    d.0 in params && d.0 !in concreteNames && GetSymbolic(d.1).Some?
  }

  predicate ConcreteAllOk(params: seq<string>, concreteArgs: seq<(string, Value)>) {
    forall i :: 0 <= i < |concreteArgs| ==> concreteArgs[i].0 in params
  }

  predicate SymbolicOkBefore(params: seq<string>, concreteArgs: seq<(string, Value)>, symbolicArgs: seq<(string, Value)>, k: int) {
    forall j :: 0 <= j < k && j < |symbolicArgs| ==> SymbolicOk(params, Keys(concreteArgs), symbolicArgs[j])
  }

  /** Both decorators' declarations pass every check. */
  predicate Accepted(params: seq<string>, concreteArgs: seq<(string, Value)>, symbolicArgs: seq<(string, Value)>) {
    ConcreteAllOk(params, concreteArgs) && SymbolicOkBefore(params, concreteArgs, symbolicArgs, |symbolicArgs|)
  }

  /** `e` names the first `@concrete` declaration that is not a parameter. */
  predicate ConcreteFailure(e: LoadError, params: seq<string>, concreteArgs: seq<(string, Value)>) {
    e.UnknownConcreteArg? &&
    exists i :: 0 <= i < |concreteArgs| && concreteArgs[i].0 == e.name && e.name !in params &&
      forall j :: 0 <= j < i ==> concreteArgs[j].0 in params
  }

  /** `e` names the first failing `@symbolic` declaration, with the first check it fails. */
  predicate SymbolicFailure(e: LoadError, params: seq<string>, concreteArgs: seq<(string, Value)>, symbolicArgs: seq<(string, Value)>) {
    !e.UnknownConcreteArg? &&
    exists i :: 0 <= i < |symbolicArgs| && symbolicArgs[i].0 == e.name &&
      SymbolicOkBefore(params, concreteArgs, symbolicArgs, i) &&
      match e
      case UnknownSymbolicArg(f) => f !in params
      case DeclaredTwice(f) => f in params && f in Keys(concreteArgs)
      case NoSymbolicType(f) => f in params && f !in Keys(concreteArgs) && GetSymbolic(symbolicArgs[i].1).None?
      case UnknownConcreteArg(_) => false
  }

  /** The error a rejected declaration set reports: concrete declarations are checked before symbolic ones. */
  predicate Witnessed(e: LoadError, params: seq<string>, concreteArgs: seq<(string, Value)>, symbolicArgs: seq<(string, Value)>) {
    ConcreteFailure(e, params, concreteArgs) ||
    (ConcreteAllOk(params, concreteArgs) && SymbolicFailure(e, params, concreteArgs, symbolicArgs))
  }

  /** After a successful binding, the bound names are exactly the parameters. */
  lemma NamesAreParameters(params: seq<string>, concreteArgs: seq<(string, Value)>, symbolicArgs: seq<(string, Value)>)
    requires Accepted(params, concreteArgs, symbolicArgs)
    ensures var declared := Keys(concreteArgs) + Keys(symbolicArgs);
            forall n :: n in declared + Undeclared(params, declared) <==> n in params
  {
    var declared := Keys(concreteArgs) + Keys(symbolicArgs);
    UndeclaredMembers(params, declared);
    forall n | n in declared ensures n in params {
      var i :| 0 <= i < |declared| && declared[i] == n;
      if i < |concreteArgs| {
        assert concreteArgs[i].0 == n;
      } else {
        assert SymbolicOk(params, Keys(concreteArgs), symbolicArgs[i - |concreteArgs|]);
      }
    }
  }

  /** The first `k` `@concrete` declarations are bound to a constant constructor of its value. */
  predicate ConcreteBound(ctors: map<string, Constructor>, values: map<string, Value>, concreteArgs: seq<(string, Value)>, k: int) {
    forall j :: 0 <= j < k && j < |concreteArgs| ==>
      var (f, v) := concreteArgs[j];
      f in ctors && f in values && ctors[f] == ConstantCtor(v) && values[f] == v
  }

  /** The first `k` `@symbolic` declarations are bound to the symbolic type of their value. */
  predicate SymbolicBound(ctors: map<string, Constructor>, values: map<string, Value>, symbolicArgs: seq<(string, Value)>, k: int) {
    forall j :: 0 <= j < k && j < |symbolicArgs| ==>
      var (f, v) := symbolicArgs[j];
      f in ctors && f in values && GetSymbolic(v).Some? && ctors[f] == SymbolicCtor(GetSymbolic(v).value) && values[f] == v
  }

  lemma ConcreteBoundStep(ctors: map<string, Constructor>, values: map<string, Value>, concreteArgs: seq<(string, Value)>, i: nat)
    requires i < |concreteArgs| && ConcreteBound(ctors, values, concreteArgs, i)
    requires concreteArgs[i].0 !in Keys(concreteArgs)[..i]
    ensures var (f, v) := concreteArgs[i];
            ConcreteBound(ctors[f := ConstantCtor(v)], values[f := v], concreteArgs, i + 1)
  {
    var (f, v) := concreteArgs[i];
    forall j | 0 <= j < i ensures concreteArgs[j].0 != f {
      assert Keys(concreteArgs)[..i][j] == concreteArgs[j].0;
    }
  }

  /** The first loop of `createInvocation`: the `@concrete` declarations (symbolic/loader.py:72-78). */
  method BindConcrete(inv: FunctionInvocation, params: seq<string>, concreteArgs: seq<(string, Value)>)
    returns (err: Option<LoadError>)
    requires inv.Valid() && inv.ConstantsAgree() && inv.names == []
    requires Distinct(Keys(concreteArgs))
    modifies inv
    ensures inv.Valid() && inv.ConstantsAgree()
    ensures err.None? <==> ConcreteAllOk(params, concreteArgs)
    ensures err.Some? ==> ConcreteFailure(err.value, params, concreteArgs)
    ensures err.None? ==> inv.names == Keys(concreteArgs) && ConcreteBound(inv.argConstructor, inv.initialValue, concreteArgs, |concreteArgs|)
  {
    var concreteNames := Keys(concreteArgs);
    var i := 0;
    while i < |concreteArgs|
      invariant 0 <= i <= |concreteArgs|
      invariant inv.Valid() && inv.ConstantsAgree()
      invariant inv.names == concreteNames[..i]
      invariant forall j :: 0 <= j < i ==> concreteArgs[j].0 in params
      invariant ConcreteBound(inv.argConstructor, inv.initialValue, concreteArgs, i)
    {
      var (f, v) := concreteArgs[i];
      if f !in params {
        assert concreteArgs[i].0 == f;
        return Some(UnknownConcreteArg(f));
      }
      KeyFresh(concreteArgs, i);
      BindConcreteAt(inv, concreteArgs, i);
      i := i + 1;
    }
    assert concreteNames[..i] == concreteNames;
    return None;
  }

  /** With distinct names, the `i`th declared name is not among the earlier ones, and follows them in the key list. */
  lemma KeyFresh(decls: seq<(string, Value)>, i: nat)
    requires i < |decls| && Distinct(Keys(decls))
    ensures var f := decls[i].0;
            f !in Keys(decls)[..i] && Keys(decls)[..i + 1] == Keys(decls)[..i] + [f]
  {
    var names := Keys(decls);
    assert names[i] == decls[i].0;
    assert names[..i + 1] == names[..i] + [names[i]];
  }

  /** One round of the first loop of `createInvocation`: bind the `i`th `@concrete` declaration. */
  method BindConcreteAt(inv: FunctionInvocation, concreteArgs: seq<(string, Value)>, i: nat)
    requires i < |concreteArgs| && concreteArgs[i].0 !in Keys(concreteArgs)[..i]
    requires inv.Valid() && inv.ConstantsAgree() && inv.names == Keys(concreteArgs)[..i]
    requires ConcreteBound(inv.argConstructor, inv.initialValue, concreteArgs, i)
    modifies inv
    ensures inv.Valid() && inv.ConstantsAgree()
    ensures inv.names == Keys(concreteArgs)[..i] + [concreteArgs[i].0]
    ensures ConcreteBound(inv.argConstructor, inv.initialValue, concreteArgs, i + 1)
  {
    var (f, v) := concreteArgs[i];
    ghost var ctors, values := inv.argConstructor, inv.initialValue;
    InitializeArgumentConcrete(inv, f, v);
    ConcreteBoundStep(ctors, values, concreteArgs, i);
  }

  /** The second loop of `createInvocation`: the `@symbolic` declarations (symbolic/loader.py:79-94). */
  method BindSymbolic(inv: FunctionInvocation, params: seq<string>,
                      concreteArgs: seq<(string, Value)>, symbolicArgs: seq<(string, Value)>)
    returns (err: Option<LoadError>)
    requires inv.Valid() && inv.ConstantsAgree() && inv.names == Keys(concreteArgs)
    requires ConcreteBound(inv.argConstructor, inv.initialValue, concreteArgs, |concreteArgs|)
    requires Distinct(Keys(symbolicArgs))
    modifies inv
    ensures inv.Valid() && inv.ConstantsAgree()
    ensures err.None? <==> SymbolicOkBefore(params, concreteArgs, symbolicArgs, |symbolicArgs|)
    ensures err.Some? ==> SymbolicFailure(err.value, params, concreteArgs, symbolicArgs)
    ensures err.None? ==> inv.names == Keys(concreteArgs) + Keys(symbolicArgs)
    ensures err.None? ==> ConcreteBound(inv.argConstructor, inv.initialValue, concreteArgs, |concreteArgs|) && SymbolicBound(inv.argConstructor, inv.initialValue, symbolicArgs, |symbolicArgs|)
  {
    var concreteNames := Keys(concreteArgs);
    var symbolicNames := Keys(symbolicArgs);
    var i := 0;
    while i < |symbolicArgs|
      invariant 0 <= i <= |symbolicArgs|
      invariant inv.Valid() && inv.ConstantsAgree()
      invariant inv.names == concreteNames + symbolicNames[..i]
      invariant SymbolicOkBefore(params, concreteArgs, symbolicArgs, i)
      invariant ConcreteBound(inv.argConstructor, inv.initialValue, concreteArgs, |concreteArgs|) && SymbolicBound(inv.argConstructor, inv.initialValue, symbolicArgs, i)
    {
      err := BindSymbolicAt(inv, params, concreteArgs, symbolicArgs, i);
      if err.Some? {
        return;
      }
      i := i + 1;
    }
    assert symbolicNames[..i] == symbolicNames;
    return None;
  }

  /** One round of the second loop of `createInvocation`: check and bind the `i`th `@symbolic` declaration. */
  method BindSymbolicAt(inv: FunctionInvocation, params: seq<string>,
                        concreteArgs: seq<(string, Value)>, symbolicArgs: seq<(string, Value)>, i: nat)
    returns (err: Option<LoadError>)
    requires i < |symbolicArgs| && Distinct(Keys(symbolicArgs))
    requires inv.Valid() && inv.ConstantsAgree() && inv.names == Keys(concreteArgs) + Keys(symbolicArgs)[..i]
    requires SymbolicOkBefore(params, concreteArgs, symbolicArgs, i)
    requires ConcreteBound(inv.argConstructor, inv.initialValue, concreteArgs, |concreteArgs|) && SymbolicBound(inv.argConstructor, inv.initialValue, symbolicArgs, i)
    modifies inv
    ensures inv.Valid() && inv.ConstantsAgree()
    ensures err.Some? ==> SymbolicFailure(err.value, params, concreteArgs, symbolicArgs) &&
                          !SymbolicOkBefore(params, concreteArgs, symbolicArgs, |symbolicArgs|)
    ensures err.None? ==> inv.names == Keys(concreteArgs) + Keys(symbolicArgs)[..i + 1] &&
                          SymbolicOkBefore(params, concreteArgs, symbolicArgs, i + 1) &&
                          ConcreteBound(inv.argConstructor, inv.initialValue, concreteArgs, |concreteArgs|) &&
                          SymbolicBound(inv.argConstructor, inv.initialValue, symbolicArgs, i + 1)
  {
    var (f, v) := symbolicArgs[i];
    KeyFresh(symbolicArgs, i);
    assert f in Keys(concreteArgs) + Keys(symbolicArgs)[..i] <==> f in Keys(concreteArgs);
    if f !in params {
      err := Some(UnknownSymbolicArg(f));
    } else if f in inv.GetNames() {
      err := Some(DeclaredTwice(f));
    } else {
      var s := GetSymbolic(v);
      if s.None? {
        err := Some(NoSymbolicType(f));
      } else {
        ghost var ctors, values := inv.argConstructor, inv.initialValue;
        InitializeArgumentSymbolic(inv, f, v, s.value);
        SymbolicBoundStep(ctors, values, params, concreteArgs, symbolicArgs, i);
        return None;
      }
    }
    assert !SymbolicOk(params, Keys(concreteArgs), symbolicArgs[i]);
    assert SymbolicFailure(err.value, params, concreteArgs, symbolicArgs);
  }

  /** Binding the `i`th `@symbolic` declaration extends both binding facts by one. */
  lemma SymbolicBoundStep(ctors: map<string, Constructor>, values: map<string, Value>, params: seq<string>,
                          concreteArgs: seq<(string, Value)>, symbolicArgs: seq<(string, Value)>, i: nat)
    requires i < |symbolicArgs| && Distinct(Keys(symbolicArgs))
    requires ConcreteBound(ctors, values, concreteArgs, |concreteArgs|) && SymbolicBound(ctors, values, symbolicArgs, i)
    requires SymbolicOkBefore(params, concreteArgs, symbolicArgs, i)
    requires SymbolicOk(params, Keys(concreteArgs), symbolicArgs[i])
    ensures var (f, v) := symbolicArgs[i];
            var ctors', values' := ctors[f := SymbolicCtor(GetSymbolic(v).value)], values[f := v];
            ConcreteBound(ctors', values', concreteArgs, |concreteArgs|) && SymbolicBound(ctors', values', symbolicArgs, i + 1) &&
            SymbolicOkBefore(params, concreteArgs, symbolicArgs, i + 1)
  {
    var (f, v) := symbolicArgs[i];
    forall j | 0 <= j < |concreteArgs| ensures concreteArgs[j].0 != f {
      assert Keys(concreteArgs)[j] == concreteArgs[j].0;
    }
    forall j | 0 <= j < i ensures symbolicArgs[j].0 != f {
      assert Keys(symbolicArgs)[j] == symbolicArgs[j].0 && Keys(symbolicArgs)[i] == f;
    }
  }

  /**
   * `ctors`/`values` keep every entry of `ctors0`/`values0` and bind each
   * name of `added` to a symbolic integer starting at 0.
   */
  predicate Extends(ctors0: map<string, Constructor>, values0: map<string, Value>,
                    ctors: map<string, Constructor>, values: map<string, Value>, added: seq<string>) {
    (forall n :: n in ctors0 ==> n in ctors && ctors[n] == ctors0[n]) &&
    (forall n :: n in values0 ==> n in values && values[n] == values0[n]) &&
    (forall n :: n in added ==> n in ctors && ctors[n] == SymbolicCtor(SymbolicInteger) && n in values && values[n] == IntV(0))
  }

  lemma ExtendsStep(ctors0: map<string, Constructor>, values0: map<string, Value>,
                    ctors: map<string, Constructor>, values: map<string, Value>, added: seq<string>, a: string)
    requires Extends(ctors0, values0, ctors, values, added) && a !in ctors0 && a !in values0
    ensures Extends(ctors0, values0, ctors[a := SymbolicCtor(SymbolicInteger)], values[a := IntV(0)], added + [a])
  {
  }

  lemma UndeclaredStep(params: seq<string>, i: nat, declared: seq<string>)
    requires i < |params|
    ensures Undeclared(params[..i + 1], declared) ==
            Undeclared(params[..i], declared) + (if params[i] in declared then [] else [params[i]])
  {
    assert params[..i + 1][..i] == params[..i];
  }

  /** The last loop of `createInvocation`: every undeclared parameter becomes a symbolic integer at 0 (symbolic/loader.py:95-97). */
  method BindDefaults(inv: FunctionInvocation, params: seq<string>, declared: seq<string>)
    requires inv.Valid() && inv.ConstantsAgree() && inv.names == declared
    requires Distinct(params)
    modifies inv
    ensures inv.Valid() && inv.ConstantsAgree()
    ensures inv.names == declared + Undeclared(params, declared)
    ensures Extends(old(inv.argConstructor), old(inv.initialValue), inv.argConstructor, inv.initialValue, Undeclared(params, declared))
  {
    ghost var ctors0, values0 := inv.argConstructor, inv.initialValue;
    assert params[..0] == [];
    var i := 0;
    while i < |params|
      invariant 0 <= i <= |params|
      invariant inv.Valid() && inv.ConstantsAgree()
      invariant inv.names == declared + Undeclared(params[..i], declared)
      invariant Extends(ctors0, values0, inv.argConstructor, inv.initialValue, Undeclared(params[..i], declared))
    {
      DistinctFresh(params, i);
      DefaultStep(params, declared, i);
      BindDefaultAt(inv, params[i], declared, Undeclared(params[..i], declared), ctors0, values0);
      i := i + 1;
    }
    assert params[..i] == params;
  }

  /**
   * One round of the last loop of `createInvocation`: bind parameter `a`
   * to a symbolic integer at 0 unless it is declared.
   */
  method BindDefaultAt(inv: FunctionInvocation, a: string, declared: seq<string>, ghost added: seq<string>,
                       ghost ctors0: map<string, Constructor>, ghost values0: map<string, Value>)
    requires a !in added
    requires inv.Valid() && inv.ConstantsAgree() && inv.names == declared + added
    requires Extends(ctors0, values0, inv.argConstructor, inv.initialValue, added)
    modifies inv
    ensures inv.Valid() && inv.ConstantsAgree()
    ensures var added' := if a in declared then added else added + [a];
            inv.names == declared + added' && Extends(ctors0, values0, inv.argConstructor, inv.initialValue, added')
  {
    ghost var ctors, values := inv.argConstructor, inv.initialValue;
    var bound := a in inv.GetNames();
    if !bound {
      InitializeArgumentSymbolic(inv, a, IntV(0), SymbolicInteger);
      ExtendsStep(ctors0, values0, ctors, values, added, a);
      assert declared + added + [a] == declared + (added + [a]);
    }
  }

  /** How the undeclared parameters grow by `params[i]`. */
  lemma DefaultStep(params: seq<string>, declared: seq<string>, i: nat)
    requires i < |params| && params[i] !in params[..i]
    ensures var a, u := params[i], Undeclared(params[..i], declared);
            a !in u && (a in declared + u <==> a in declared) &&
            Undeclared(params[..i + 1], declared) == if a in declared then u else u + [a]
  {
    UndeclaredStep(params, i, declared);
    UndeclaredMembers(params[..i], declared);
  }

  /** In a list without repetitions no element occurs before its own position. */
  lemma DistinctFresh(s: seq<string>, i: nat)
    requires i < |s| && Distinct(s)
    ensures s[i] !in s[..i]
  {
  }

  /** Extending a table keeps the bindings of the declarations already in it. */
  lemma ExtendsKeepsBindings(ctors0: map<string, Constructor>, values0: map<string, Value>,
                             ctors: map<string, Constructor>, values: map<string, Value>, added: seq<string>,
                             concreteArgs: seq<(string, Value)>, symbolicArgs: seq<(string, Value)>)
    requires Extends(ctors0, values0, ctors, values, added)
    requires ConcreteBound(ctors0, values0, concreteArgs, |concreteArgs|) && SymbolicBound(ctors0, values0, symbolicArgs, |symbolicArgs|)
    ensures ConcreteBound(ctors, values, concreteArgs, |concreteArgs|) && SymbolicBound(ctors, values, symbolicArgs, |symbolicArgs|)
  {
  }

  /**
   * `FunctionLoader.createInvocation` over the entry function's parameter
   * list and the `@concrete` / `@symbolic` declarations, in dictionary order.
   */
  method CreateInvocation(entrypoint: string, params: seq<string>,
                          concreteArgs: seq<(string, Value)>, symbolicArgs: seq<(string, Value)>)
    returns (r: Result<FunctionInvocation, LoadError>)
    requires Distinct(params) && Distinct(Keys(concreteArgs)) && Distinct(Keys(symbolicArgs))
    ensures r.Ok? <==> Accepted(params, concreteArgs, symbolicArgs)
    ensures r.Err? ==> Witnessed(r.error, params, concreteArgs, symbolicArgs)
    ensures r.Ok? ==> fresh(r.value) && r.value.Valid() && r.value.ConstantsAgree() && r.value.name == entrypoint
    ensures r.Ok? ==> (forall n :: n in r.value.argConstructor <==> n in params)
    ensures r.Ok? ==> (var declared := Keys(concreteArgs) + Keys(symbolicArgs);
                       r.value.names == declared + Undeclared(params, declared))
    ensures r.Ok? ==> ConcreteBound(r.value.argConstructor, r.value.initialValue, concreteArgs, |concreteArgs|) && SymbolicBound(r.value.argConstructor, r.value.initialValue, symbolicArgs, |symbolicArgs|)
    ensures r.Ok? ==> (forall p :: p in params && p !in Keys(concreteArgs) && p !in Keys(symbolicArgs) ==>
                         p in r.value.argConstructor && r.value.argConstructor[p] == SymbolicCtor(SymbolicInteger) &&
                         p in r.value.initialValue && r.value.initialValue[p] == IntV(0))
  {
    var inv := new FunctionInvocation(entrypoint);
    var err := BindConcrete(inv, params, concreteArgs);
    if err.Some? {
      return Err(err.value);
    }
    err := BindSymbolic(inv, params, concreteArgs, symbolicArgs);
    if err.Some? {
      return Err(err.value);
    }
    var declared := Keys(concreteArgs) + Keys(symbolicArgs);
    ghost var ctors1, values1 := inv.argConstructor, inv.initialValue;
    BindDefaults(inv, params, declared);
    ExtendsKeepsBindings(ctors1, values1, inv.argConstructor, inv.initialValue, Undeclared(params, declared), concreteArgs, symbolicArgs);
    NamesAreParameters(params, concreteArgs, symbolicArgs);
    UndeclaredMembers(params, declared);
    return Ok(inv);
  }

  // ---------------------------------------------------------------------
  // Module-name derivation (Loader.__init__)
  // ---------------------------------------------------------------------

  /** Where the last path component of `p` starts: just after its last '/', or at 0. */
  function ComponentStart(p: string): (k: nat)
    ensures k <= |p| && forall j :: k <= j < |p| ==> p[j] != '/'
    ensures 0 < k ==> p[k - 1] == '/'
  {
    match LastIndexOf(p, '/')
    case None => 0
    case Some(i) => i + 1
  }

  /** `os.path.basename` for POSIX paths: everything after the last '/'. */
  function Basename(p: string): (r: string)
    ensures '/' !in r
    ensures |r| <= |p| && p[|p| - |r|..] == r
    ensures |r| < |p| ==> p[|p| - |r| - 1] == '/'
  {
    p[ComponentStart(p)..]
  }

  predicate HasNonDot(s: string) {
    exists i :: 0 <= i < |s| && s[i] != '.'
  }

  /**
   * A path component has an extension: it holds a '.' with some character
   * other than '.' before it (so ".bashrc" and "..." have none).
   */
  predicate HasExtension(b: string) {
    exists i :: 0 < i < |b| && b[i] == '.' && HasNonDot(b[..i])
  }

  /**
   * `os.path.splitext` for POSIX paths: the extension runs from the last '.'
   * of the last path component, provided a character other than '.' comes
   * before it in that component; otherwise the extension is empty.
   */
  function SplitExt(p: string): (r: (string, string))
    ensures r.0 + r.1 == p
    ensures r.1 != [] <==> HasExtension(Basename(p))
    ensures r.1 != [] ==> r.1[0] == '.' && '.' !in r.1[1..] && '/' !in r.1
    ensures r.1 != [] ==> HasNonDot(Basename(r.0))
  {
    var start := ComponentStart(p);
    match LastIndexOf(p, '.')
    case None =>
      NoDotNoExtension(p, start);
      (p, [])
    case Some(dot) =>
      ExtensionAtLastDot(p, start, dot);
      if start < dot && HasNonDot(p[start..dot]) then
        assert p[..dot] + p[dot..] == p;
        BasenameOfPrefix(p, start, dot);
        (p[..dot], p[dot..])
      else (p, [])
  }

  /** A path without any '.' has no extension. */
  lemma NoDotNoExtension(p: string, start: nat)
    requires start <= |p| && forall j :: 0 <= j < |p| ==> p[j] != '.'
    ensures !HasExtension(p[start..])
  {
    var b := p[start..];
    forall i | 0 < i < |b| ensures b[i] != '.' {
      assert b[i] == p[start + i];
    }
  }

  /**
   * With `dot` the last '.' of `p`, the component starting at `start` has an
   * extension exactly when `dot` lies inside it after a non-dot character.
   */
  lemma ExtensionAtLastDot(p: string, start: nat, dot: nat)
    requires start <= |p| && dot < |p| && p[dot] == '.'
    requires forall j :: dot < j < |p| ==> p[j] != '.'
    ensures HasExtension(p[start..]) <==> start < dot && HasNonDot(p[start..dot])
  {
    var b := p[start..];
    if start < dot && HasNonDot(p[start..dot]) {
      var i := dot - start;
      assert b[i] == p[dot] && b[..i] == p[start..dot];
    }
    if HasExtension(b) {
      var i :| 0 < i < |b| && b[i] == '.' && HasNonDot(b[..i]);
      assert p[start + i] == b[i];
      var k :| 0 <= k < i && b[..i][k] != '.';
      assert p[start..dot][k] == b[..i][k];
    }
  }

  lemma BasenameOfPrefix(p: string, start: nat, dot: nat)
    requires start < dot <= |p|
    requires forall j :: start <= j < |p| ==> p[j] != '/'
    requires HasNonDot(p[start..dot])
    ensures HasNonDot(Basename(p[..dot]))
  {
    var q := p[..dot];
    var k :| 0 <= k < dot - start && p[start..dot][k] != '.';
    assert q[start + k] == p[start..dot][k];
    BasenameReaches(q, start);
    NonDotSuffix(q, Basename(q), start + k);
  }

  /** The base name reaches back at least to the first index after which no '/' occurs. */
  lemma BasenameReaches(q: string, start: nat)
    requires start <= |q| && forall j :: start <= j < |q| ==> q[j] != '/'
    ensures |q| - |Basename(q)| <= start
  {
    var b := Basename(q);
    if |b| < |q| {
      assert q[|q| - |b| - 1] == '/';
    }
  }

  /** A suffix of `q` that reaches back to a character other than '.' holds that character. */
  lemma NonDotSuffix(q: string, b: string, pos: nat)
    requires |b| <= |q| && q[|q| - |b|..] == b
    requires |q| - |b| <= pos < |q| && q[pos] != '.'
    ensures HasNonDot(b)
  {
    assert b[pos - (|q| - |b|)] == q[pos];
  }

  /** The data a `Loader` keeps about its target file. */
  datatype LoaderInfo = LoaderInfo(filename: string, modulename: string, entrypoint: string)

  /**
   * `Loader.__init__` without the import: the module name is the file's
   * base name without its extension, and the entry point has that name.
   */
  function NewLoader(filename: string): (l: LoaderInfo)
    ensures l.filename == filename && l.entrypoint == l.modulename
    ensures l.modulename == SplitExt(Basename(filename)).0
    ensures '/' !in l.modulename
    ensures exists ext :: Basename(filename) == l.modulename + ext && (ext == [] || (ext[0] == '.' && '.' !in ext[1..]))
    ensures l.modulename == Basename(filename) <==> !HasExtension(Basename(filename))
  {
    var base := Basename(filename);
    var (root, ext) := SplitExt(base);
    assert base == root + ext;
    assert forall j :: 0 <= j < |root| ==> root[j] == base[j];
    LoaderInfo(filename, root, root)
  }

  /** "dir/target.py" is loaded as module "target", whose function `target` is the entry point. */
  lemma NewLoaderExample()
    ensures NewLoader("dir/target.py").modulename == "target"
    ensures NewLoader("dir/target.py").entrypoint == "target"
  {
    var p := "dir/target.py";
    assert p[3] == '/' && forall j :: 3 < j < |p| ==> p[j] != '/';
    assert LastIndexOf(p, '/') == Some(3);
    var b := Basename(p);
    assert b == "target.py";
    assert b[6] == '.' && forall j :: 6 < j < |b| ==> b[j] != '.';
    assert LastIndexOf(b, '.') == Some(6);
    assert forall j :: 0 <= j < |b| ==> b[j] != '/';
    assert LastIndexOf(b, '/') == None;
    assert ComponentStart(b) == 0;
    assert b[0..6][0] != '.';
    assert HasNonDot(b[0..6]);
    assert b[..6] == "target" && b[6..] == ".py";
  }
}

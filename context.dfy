/**
 * The dependency-injection container: bean definitions registered by name,
 * a type-to-name index, and resolution that caches singletons and creates
 * a prototype on every request.
 *
 * Classes are identified by their names. A constructor's signature arrives
 * as its parameter list (name, annotated type, default), and an instance is
 * a value recording its class, a creation serial number and the arguments
 * it was constructed with. A factory is described by what calling it does.
 * The `instance` field Python keeps on each definition is the `singletons`
 * cache here: registering a name starts it afresh, exactly as a new
 * definition object does.
 */
module Context {
  import opened Wrappers
  import opened Dicts
  import opened Values

  datatype Scope = Singleton | Prototype

  /** A constructor parameter: its name, the class its annotation names, its default. */
  datatype Param = Param(name: string, typ: Option<string>, default: Option<Value>)

  datatype BeanClass = BeanClass(name: string, params: seq<Param>)

  /**
   * A factory, by what calling it does: make a new instance of some class,
   * return a fixed value (`None` among them), or raise.
   */
  datatype Factory = NewInstance(cls: string) | Fixed(value: Value) | Raises

  datatype BeanDef = BeanDef(beanClass: BeanClass, scope: Scope, factory: Option<Factory>)

  /** What a constructor argument was: another bean, or the parameter's default. */
  datatype Arg = Injected(bean: Bean) | DefaultArg(value: Value)

  /** An instance made by the class from keyword arguments, a new one made by the factory, or a fixed value the factory returns. */
  datatype Bean =
    | Constructed(cls: string, serial: nat, args: Dict<string, Arg>)
    | Produced(cls: string, serial: nat)
    | Returned(value: Value)

  datatype BeanError = NoBean(cls: string) | RecursionLimit | FactoryRaised

  /** What `bean_def.instance is None` sees: a factory that returned `None` leaves nothing cached. */
  predicate Cacheable(b: Bean) {
    b != Returned(NoneV)
  }

  /** The part of the container that resolution changes. */
  datatype Cache = Cache(singletons: map<string, Bean>, created: nat)

  /** Python's call-depth limit, which a dependency cycle reaches. */
  const MaxDepth := 1000

  /** `name or fallback` */
  function BeanName(name: Option<string>, fallback: Option<string>): (r: Option<string>)
    ensures name.Some? && name.value != "" ==> r == name
    ensures (name.None? || name.value == "") ==> r == fallback
  {
    if name.Some? && name.value != "" then name else fallback
  }

  /** The name `register_bean` stores a definition under. */
  function RegisteredName(name: Option<string>, cls: BeanClass): string {
    BeanName(name, Some(cls.name)).value
  }

  /** Resolution only creates: the counter never goes back and a cached singleton stays as it was. */
  predicate Extends(c: Cache, c': Cache) {
    c.created <= c'.created &&
    forall k :: k in c.singletons ==> k in c'.singletons && c'.singletons[k] == c.singletons[k]
  }

  /** A parameter `_create_bean` passes: it is not `self` and its type is registered or it has a default. */
  predicate Supplied(types: Dict<string, string>, p: Param) {
    p.name != "self" && ((p.typ.Some? && HasKey(types, p.typ.value)) || p.default.Some?)
  }

  /** `get_bean(cls, name)` with `fuel` calls left before the depth limit. */
  function Resolve(beans: Dict<string, BeanDef>, types: Dict<string, string>, cls: string, name: Option<string>, c: Cache, fuel: nat)
    : (r: (Result<Bean, BeanError>, Cache))
    ensures Extends(c, r.1)
    decreases fuel, 0
  {
    var n := BeanName(name, Get(types, cls));
    if n.None? || n.value == "" || !HasKey(beans, n.value) then (Err(NoBean(cls)), c)
    else if fuel == 0 then (Err(RecursionLimit), c)
    else
      var def := Get(beans, n.value).value;
      if def.scope == Singleton then
        if n.value in c.singletons then (Ok(c.singletons[n.value]), c)
        else
          var (res, c') := Create(beans, types, def, c, fuel - 1);
          if res.Ok? && Cacheable(res.value) then (res, c'.(singletons := c'.singletons[n.value := res.value])) else (res, c')
      else Create(beans, types, def, c, fuel - 1)
  }

  /** `_create_bean`: the factory's product, or the class called with the injected keyword arguments. */
  function Create(beans: Dict<string, BeanDef>, types: Dict<string, string>, def: BeanDef, c: Cache, fuel: nat)
    : (r: (Result<Bean, BeanError>, Cache))
    ensures Extends(c, r.1)
    ensures r.0.Ok? && !r.0.value.Returned? ==> c.created <= r.0.value.serial && r.1.created == r.0.value.serial + 1
    ensures r.0.Ok? ==> (r.0.value.Returned? <==> def.factory.Some? && def.factory.value.Fixed?)
    ensures r.0.Ok? && def.factory.None? ==> r.0.value.Constructed? && r.0.value.cls == def.beanClass.name
    ensures def.factory.Some? ==> r.1.singletons == c.singletons
    ensures def.factory == Some(Raises) ==> r.0 == Err(FactoryRaised)
    decreases fuel, 1, |def.beanClass.params| + 1
  {
    if def.factory.Some? then
      match def.factory.value
      case NewInstance(k) => (Ok(Produced(k, c.created)), c.(created := c.created + 1))
      case Fixed(v) => (Ok(Returned(v)), c)
      case Raises => (Err(FactoryRaised), c)
    else
      var (res, c') := Inject(beans, types, def.beanClass.params, 0, [], c, fuel);
      if res.Ok? then (Ok(Constructed(def.beanClass.name, c'.created, res.value)), c'.(created := c'.created + 1))
      else (Err(res.error), c')
  }

  /** The parameter loop of `_create_bean` from parameter `i` on, with `args` filled so far. */
  function Inject(beans: Dict<string, BeanDef>, types: Dict<string, string>, params: seq<Param>, i: nat, args: Dict<string, Arg>, c: Cache, fuel: nat)
    : (r: (Result<Dict<string, Arg>, BeanError>, Cache))
    requires i <= |params|
    ensures Extends(c, r.1)
    decreases fuel, 1, |params| - i
  {
    if i == |params| then (Ok(args), c)
    else
      var p := params[i];
      if p.name == "self" then Inject(beans, types, params, i + 1, args, c, fuel)
      else if p.typ.Some? && HasKey(types, p.typ.value) then
        var (dep, c') := Resolve(beans, types, p.typ.value, None, c, fuel);
        if dep.Ok? then Inject(beans, types, params, i + 1, Set(args, p.name, Injected(dep.value)), c', fuel)
        else (Err(dep.error), c')
      else if p.default.Some? then Inject(beans, types, params, i + 1, Set(args, p.name, DefaultArg(p.default.value)), c, fuel)
      else Inject(beans, types, params, i + 1, args, c, fuel)
  }

  /** `has_bean(cls, name)` */
  predicate HasBeanIn(beans: Dict<string, BeanDef>, types: Dict<string, string>, cls: string, name: Option<string>) {
    var n := BeanName(name, Get(types, cls));
    n.Some? && HasKey(beans, n.value)
  }

  /** The names of the singleton definitions, in registration order. */
  function SingletonNames(beans: Dict<string, BeanDef>): (r: seq<string>)
    ensures forall x :: x in r ==> x in Keys(beans)
  {
    if beans == [] then []
    else
      var init := beans[..|beans| - 1];
      assert forall x :: x in Keys(init) ==> x in Keys(beans) by {
        forall x | x in Keys(init) ensures x in Keys(beans) {
          var j :| 0 <= j < |init| && Keys(init)[j] == x;
          assert Keys(beans)[j] == x;
        }
      }
      assert Keys(beans)[|beans| - 1] == beans[|beans| - 1].0;
      SingletonNames(init) + (if beans[|beans| - 1].1.scope == Singleton then [beans[|beans| - 1].0] else [])
  }

  /** The definition `get_bean(cls, name)` uses, when the name check passes. */
  function Target(beans: Dict<string, BeanDef>, types: Dict<string, string>, cls: string, name: Option<string>): Option<BeanDef> {
    var n := BeanName(name, Get(types, cls));
    if n.None? || n.value == "" || !HasKey(beans, n.value) then None else Get(beans, n.value)
  }

  /** The loop of `get_all_beans` from entry `i` on, with `acc` collected so far. */
  function AllBeans(beans: Dict<string, BeanDef>, types: Dict<string, string>, i: nat, acc: Dict<string, Bean>, c: Cache)
    : (r: (Result<Dict<string, Bean>, BeanError>, Cache))
    requires i <= |beans|
    ensures Extends(c, r.1)
    decreases |beans| - i
  {
    if i == |beans| then (Ok(acc), c)
    else
      var (name, def) := beans[i];
      if def.scope == Singleton then
        var (b, c') := Resolve(beans, types, def.beanClass.name, Some(name), c, MaxDepth);
        if b.Ok? then AllBeans(beans, types, i + 1, Set(acc, name, b.value), c') else (Err(b.error), c')
      else AllBeans(beans, types, i + 1, acc, c)
  }

  class ApplicationContext {
    var beans: Dict<string, BeanDef>
    var typeToName: Dict<string, string>
    var singletons: map<string, Bean>
    var created: nat

    function CacheState(): Cache
      reads this
    {
      Cache(singletons, created)
    }

    /** Every registered type points at a registered name, and no name or type occurs twice. */
    predicate Valid()
      reads this
    {
      Dicts.Valid(beans) && Dicts.Valid(typeToName) &&
      forall i :: 0 <= i < |typeToName| ==> HasKey(beans, typeToName[i].1)
    }

    constructor ()
      ensures beans == [] && typeToName == [] && singletons == map[] && created == 0
      ensures Valid()
    {
      beans := [];
      typeToName := [];
      singletons := map[];
      created := 0;
    }

    /** `register_bean`: a fresh definition under the given or class name, and the class mapped to that name. */
    method RegisterBean(cls: BeanClass, scope: Scope, factory: Option<Factory>, name: Option<string>)
      modifies this
      ensures var n := RegisteredName(name, cls);
        beans == Set(old(beans), n, BeanDef(cls, scope, factory)) &&
        typeToName == Set(old(typeToName), cls.name, n) &&
        singletons == old(singletons) - {n} && created == old(created)
      ensures old(Valid()) ==> Valid()
    {
      var n := RegisteredName(name, cls);
      if Valid() {
        RegisterValid(beans, typeToName, cls, scope, factory, name);
      }
      beans := Set(beans, n, BeanDef(cls, scope, factory));
      typeToName := Set(typeToName, cls.name, n);
      singletons := singletons - {n};
    }

    /** `get_bean(cls, name)` */
    method GetBean(cls: string, name: Option<string>) returns (r: Result<Bean, BeanError>)
      requires Valid()
      modifies this
      ensures (r, CacheState()) == Resolve(beans, typeToName, cls, name, old(CacheState()), MaxDepth)
      ensures beans == old(beans) && typeToName == old(typeToName)
      ensures Valid()
    {
      r := GetBeanAt(cls, name, MaxDepth);
    }

    method GetBeanAt(cls: string, name: Option<string>, fuel: nat) returns (r: Result<Bean, BeanError>)
      requires Valid()
      modifies this
      ensures (r, CacheState()) == Resolve(beans, typeToName, cls, name, old(CacheState()), fuel)
      ensures beans == old(beans) && typeToName == old(typeToName)
      ensures Valid()
      decreases fuel, 0
    {
      var n := BeanName(name, Get(typeToName, cls));
      if n.None? || n.value == "" || !HasKey(beans, n.value) {
        return Err(NoBean(cls));
      }
      if fuel == 0 {
        return Err(RecursionLimit);
      }
      var def := Get(beans, n.value).value;
      if def.scope == Singleton {
        if n.value !in singletons {
          r := CreateBean(def, fuel - 1);
          if r.Ok? && Cacheable(r.value) {
            singletons := singletons[n.value := r.value];
          }
          return;
        }
        return Ok(singletons[n.value]);
      }
      r := CreateBean(def, fuel - 1);
    }

    method CreateBean(def: BeanDef, fuel: nat) returns (r: Result<Bean, BeanError>)
      requires Valid()
      modifies this
      ensures (r, CacheState()) == Create(beans, typeToName, def, old(CacheState()), fuel)
      ensures beans == old(beans) && typeToName == old(typeToName)
      ensures Valid()
      decreases fuel, 1, |def.beanClass.params| + 1
    {
      if def.factory.Some? {
        match def.factory.value {
          case NewInstance(k) =>
            r := Ok(Produced(k, created));
            created := created + 1;
          case Fixed(v) =>
            r := Ok(Returned(v));
          case Raises =>
            r := Err(FactoryRaised);
        }
        return;
      }
      var params := def.beanClass.params;
      var args: Dict<string, Arg> := [];
      var i := 0;
      while i < |params|
        invariant 0 <= i <= |params|
        invariant beans == old(beans) && typeToName == old(typeToName)
        invariant Inject(beans, typeToName, params, i, args, CacheState(), fuel)
          == Inject(beans, typeToName, params, 0, [], old(CacheState()), fuel)
        decreases |params| - i
      {
        var p := params[i];
        if p.name != "self" {
          if p.typ.Some? && HasKey(typeToName, p.typ.value) {
            var dep := GetBeanAt(p.typ.value, None, fuel);
            if dep.Err? {
              return Err(dep.error);
            }
            args := Set(args, p.name, Injected(dep.value));
          } else if p.default.Some? {
            args := Set(args, p.name, DefaultArg(p.default.value));
          }
        }
        i := i + 1;
      }
      r := Ok(Constructed(def.beanClass.name, created, args));
      created := created + 1;
    }

    /** `has_bean(cls, name)` */
    predicate HasBean(cls: string, name: Option<string>)
      reads this
    {
      HasBeanIn(beans, typeToName, cls, name)
    }

    /** `get_all_beans()` */
    method GetAllBeans() returns (r: Result<Dict<string, Bean>, BeanError>)
      requires Valid()
      modifies this
      ensures (r, CacheState()) == AllBeans(beans, typeToName, 0, [], old(CacheState()))
      ensures beans == old(beans) && typeToName == old(typeToName)
      ensures Valid()
    {
      var result: Dict<string, Bean> := [];
      for i := 0 to |beans|
        invariant beans == old(beans) && typeToName == old(typeToName)
        invariant AllBeans(beans, typeToName, i, result, CacheState())
          == AllBeans(beans, typeToName, 0, [], old(CacheState()))
      {
        var (name, def) := beans[i];
        if def.scope == Singleton {
          var b := GetBeanAt(def.beanClass.name, Some(name), MaxDepth);
          if b.Err? {
            return Err(b.error);
          }
          result := Set(result, name, b.value);
        }
      }
      r := Ok(result);
    }

    /** `clear()` */
    method Clear()
      modifies this
      ensures beans == [] && typeToName == [] && singletons == map[] && created == old(created)
      ensures Valid()
    {
      beans := [];
      typeToName := [];
      singletons := map[];
    }
  }

  /** Registration keeps every registered type pointing at a registered name. */
  lemma RegisterValid(beans: Dict<string, BeanDef>, types: Dict<string, string>, cls: BeanClass, scope: Scope, factory: Option<Factory>, name: Option<string>)
    requires Dicts.Valid(beans) && Dicts.Valid(types)
    requires forall i :: 0 <= i < |types| ==> HasKey(beans, types[i].1)
    ensures var n := RegisteredName(name, cls);
      var beans' := Set(beans, n, BeanDef(cls, scope, factory));
      var types' := Set(types, cls.name, n);
      Dicts.Valid(beans') && Dicts.Valid(types') &&
      forall i :: 0 <= i < |types'| ==> HasKey(beans', types'[i].1)
  {
    var n := RegisteredName(name, cls);
    var beans' := Set(beans, n, BeanDef(cls, scope, factory));
    var types' := Set(types, cls.name, n);
    SetValid(beans, n, BeanDef(cls, scope, factory));
    SetValid(types, cls.name, n);
    assert HasKey(beans', n) by { GetSet(beans, n, BeanDef(cls, scope, factory), n); }
    forall i | 0 <= i < |types'| ensures HasKey(beans', types'[i].1) {
      if types'[i].1 != n {
        assert Get(types', types'[i].0) == Some(types'[i].1) by { SetValid(types, cls.name, n); GetIndex(types', i); }
        GetSet(types, cls.name, n, types'[i].0);
        var j :| 0 <= j < |types| && types[j] == (types'[i].0, types'[i].1);
        GetSet(beans, n, BeanDef(cls, scope, factory), types'[i].1);
      }
    }
  }

  /** An explicit non-empty name picks the definition registered under it, whatever class is asked for. */
  lemma TargetByName(beans: Dict<string, BeanDef>, types: Dict<string, string>, cls: string, n: string)
    requires n != ""
    ensures Target(beans, types, cls, Some(n)) == Get(beans, n)
  {
  }

  /** Without a name (or with `""`) the class's registered name picks the definition; an unregistered class picks none. */
  lemma TargetByClass(beans: Dict<string, BeanDef>, types: Dict<string, string>, cls: string, name: Option<string>)
    requires name.None? || name.value == ""
    ensures !HasKey(types, cls) ==> Target(beans, types, cls, name).None?
    ensures HasKey(types, cls) && Get(types, cls).value != "" ==>
      Target(beans, types, cls, name) == Get(beans, Get(types, cls).value)
  {
  }

  /** `get_bean` raises `ValueError` when no name resolves or the name is not registered; nothing is created. */
  lemma GetBeanMissing(beans: Dict<string, BeanDef>, types: Dict<string, string>, cls: string, name: Option<string>, c: Cache, fuel: nat)
    requires Target(beans, types, cls, name).None?
    ensures Resolve(beans, types, cls, name, c, fuel) == (Err(NoBean(cls)), c)
  {
  }

  /** A bean `has_bean` does not see cannot be got. */
  lemma HasBeanGetBean(beans: Dict<string, BeanDef>, types: Dict<string, string>, cls: string, name: Option<string>, c: Cache, fuel: nat)
    requires !HasBeanIn(beans, types, cls, name)
    ensures Resolve(beans, types, cls, name, c, fuel) == (Err(NoBean(cls)), c)
  {
  }

  /**
   * A singleton is created by the first `get_bean` that succeeds with an
   * instance other than `None`: it is then cached under its name, and every
   * later `get_bean` returns that same instance and creates nothing.
   */
  lemma SingletonCached(beans: Dict<string, BeanDef>, types: Dict<string, string>, cls: string, name: Option<string>, c: Cache, fuel: nat, fuel': nat)
    requires Target(beans, types, cls, name).Some? && Target(beans, types, cls, name).value.scope == Singleton
    requires Resolve(beans, types, cls, name, c, fuel).0.Ok? && Cacheable(Resolve(beans, types, cls, name, c, fuel).0.value)
    requires fuel' > 0
    ensures var (r, c') := Resolve(beans, types, cls, name, c, fuel);
      BeanName(name, Get(types, cls)).value in c'.singletons &&
      c'.singletons[BeanName(name, Get(types, cls)).value] == r.value &&
      Resolve(beans, types, cls, name, c', fuel') == (r, c')
  {
  }

  /**
   * A singleton whose factory returns `None` is never cached: `get_bean`
   * returns `None` and leaves the state as it was, so the next call runs the
   * factory again.
   */
  lemma SingletonNoneNotCached(beans: Dict<string, BeanDef>, types: Dict<string, string>, cls: string, name: Option<string>, c: Cache, fuel: nat)
    requires Target(beans, types, cls, name).Some? && Target(beans, types, cls, name).value.scope == Singleton
    requires Target(beans, types, cls, name).value.factory == Some(Fixed(NoneV))
    requires BeanName(name, Get(types, cls)).value !in c.singletons && fuel > 0
    ensures Resolve(beans, types, cls, name, c, fuel) == (Ok(Returned(NoneV)), c)
  {
  }

  /**
   * A prototype is created anew by every `get_bean`: when the class itself
   * or a factory making new instances builds it, two successive calls give
   * two different instances.
   */
  lemma PrototypeFresh(beans: Dict<string, BeanDef>, types: Dict<string, string>, cls: string, name: Option<string>, c: Cache, fuel: nat, fuel': nat)
    requires Target(beans, types, cls, name).Some? && Target(beans, types, cls, name).value.scope == Prototype
    requires var f := Target(beans, types, cls, name).value.factory; f.None? || f.value.NewInstance?
    requires Resolve(beans, types, cls, name, c, fuel).0.Ok?
    requires Resolve(beans, types, cls, name, Resolve(beans, types, cls, name, c, fuel).1, fuel').0.Ok?
    ensures var (r1, c1) := Resolve(beans, types, cls, name, c, fuel);
      var (r2, c2) := Resolve(beans, types, cls, name, c1, fuel');
      r1.value != r2.value && c.created < c1.created < c2.created
  {
    var (r1, c1) := Resolve(beans, types, cls, name, c, fuel);
    var (r2, c2) := Resolve(beans, types, cls, name, c1, fuel');
    assert r1.value.serial < c1.created <= r2.value.serial;
  }

  /** The keyword arguments `_create_bean` passes: exactly the parameters that are not `self` and have a registered type or a default. */
  lemma {:induction false} InjectKeys(beans: Dict<string, BeanDef>, types: Dict<string, string>, params: seq<Param>, i: nat, args: Dict<string, Arg>, c: Cache, fuel: nat, q: string)
    requires i <= |params|
    requires Inject(beans, types, params, i, args, c, fuel).0.Ok?
    ensures HasKey(Inject(beans, types, params, i, args, c, fuel).0.value, q) <==>
      HasKey(args, q) || exists j :: i <= j < |params| && params[j].name == q && Supplied(types, params[j])
    decreases |params| - i
  {
    if i < |params| {
      var p := params[i];
      if p.name == "self" {
        InjectKeys(beans, types, params, i + 1, args, c, fuel, q);
      } else if p.typ.Some? && HasKey(types, p.typ.value) {
        var (dep, c') := Resolve(beans, types, p.typ.value, None, c, fuel);
        InjectKeys(beans, types, params, i + 1, Set(args, p.name, Injected(dep.value)), c', fuel, q);
        assert HasKey(Set(args, p.name, Injected(dep.value)), q) <==> HasKey(args, q) || q == p.name;
      } else if p.default.Some? {
        InjectKeys(beans, types, params, i + 1, Set(args, p.name, DefaultArg(p.default.value)), c, fuel, q);
        assert HasKey(Set(args, p.name, DefaultArg(p.default.value)), q) <==> HasKey(args, q) || q == p.name;
      } else {
        InjectKeys(beans, types, params, i + 1, args, c, fuel, q);
      }
    }
  }

  /** A keyword argument no later parameter names keeps the value it has. */
  lemma {:induction false} InjectKeeps(beans: Dict<string, BeanDef>, types: Dict<string, string>, params: seq<Param>, i: nat, args: Dict<string, Arg>, c: Cache, fuel: nat, q: string)
    requires i <= |params|
    requires Inject(beans, types, params, i, args, c, fuel).0.Ok?
    requires forall j :: i <= j < |params| ==> params[j].name != q
    ensures Get(Inject(beans, types, params, i, args, c, fuel).0.value, q) == Get(args, q)
    decreases |params| - i
  {
    if i < |params| {
      var p := params[i];
      if p.name == "self" {
        InjectKeeps(beans, types, params, i + 1, args, c, fuel, q);
      } else if p.typ.Some? && HasKey(types, p.typ.value) {
        var (dep, c') := Resolve(beans, types, p.typ.value, None, c, fuel);
        InjectKeeps(beans, types, params, i + 1, Set(args, p.name, Injected(dep.value)), c', fuel, q);
        GetSet(args, p.name, Injected(dep.value), q);
      } else if p.default.Some? {
        InjectKeeps(beans, types, params, i + 1, Set(args, p.name, DefaultArg(p.default.value)), c, fuel, q);
        GetSet(args, p.name, DefaultArg(p.default.value), q);
      } else {
        InjectKeeps(beans, types, params, i + 1, args, c, fuel, q);
      }
    }
  }

  /**
   * With distinct parameter names, a parameter whose type is registered gets
   * an injected bean even when it also has a default; otherwise a parameter
   * with a default gets that default.
   */
  lemma {:induction false} InjectValues(beans: Dict<string, BeanDef>, types: Dict<string, string>, params: seq<Param>, i: nat, args: Dict<string, Arg>, c: Cache, fuel: nat, j: nat)
    requires i <= j < |params| && Supplied(types, params[j])
    requires forall a, b :: i <= a < b < |params| ==> params[a].name != params[b].name
    requires Inject(beans, types, params, i, args, c, fuel).0.Ok?
    ensures var v := Get(Inject(beans, types, params, i, args, c, fuel).0.value, params[j].name);
      if params[j].typ.Some? && HasKey(types, params[j].typ.value) then v.Some? && v.value.Injected?
      else v == Some(DefaultArg(params[j].default.value))
    decreases |params| - i
  {
    var p := params[i];
    DistinctFrom(params, i);
    if i < j {
      if p.name == "self" {
        InjectValues(beans, types, params, i + 1, args, c, fuel, j);
      } else if p.typ.Some? && HasKey(types, p.typ.value) {
        var (dep, c') := Resolve(beans, types, p.typ.value, None, c, fuel);
        InjectValues(beans, types, params, i + 1, Set(args, p.name, Injected(dep.value)), c', fuel, j);
      } else if p.default.Some? {
        InjectValues(beans, types, params, i + 1, Set(args, p.name, DefaultArg(p.default.value)), c, fuel, j);
      } else {
        InjectValues(beans, types, params, i + 1, args, c, fuel, j);
      }
    } else {
      InjectValueAt(beans, types, params, i, args, c, fuel);
    }
  }

  /** The parameter at `i` itself, when no later parameter shares its name. */
  lemma InjectValueAt(beans: Dict<string, BeanDef>, types: Dict<string, string>, params: seq<Param>, i: nat, args: Dict<string, Arg>, c: Cache, fuel: nat)
    requires i < |params| && Supplied(types, params[i])
    requires forall b :: i + 1 <= b < |params| ==> params[b].name != params[i].name
    requires Inject(beans, types, params, i, args, c, fuel).0.Ok?
    ensures var v := Get(Inject(beans, types, params, i, args, c, fuel).0.value, params[i].name);
      if params[i].typ.Some? && HasKey(types, params[i].typ.value) then v.Some? && v.value.Injected?
      else v == Some(DefaultArg(params[i].default.value))
  {
    var p := params[i];
    if p.typ.Some? && HasKey(types, p.typ.value) {
      var (dep, c') := Resolve(beans, types, p.typ.value, None, c, fuel);
      var args' := Set(args, p.name, Injected(dep.value));
      InjectKeeps(beans, types, params, i + 1, args', c', fuel, p.name);
      GetSet(args, p.name, Injected(dep.value), p.name);
    } else {
      var args' := Set(args, p.name, DefaultArg(p.default.value));
      InjectKeeps(beans, types, params, i + 1, args', c, fuel, p.name);
      GetSet(args, p.name, DefaultArg(p.default.value), p.name);
    }
  }

  /** Distinct names from `i` on: distinct from `i + 1` on, and none of those is the name at `i`. */
  lemma DistinctFrom(params: seq<Param>, i: nat)
    requires i < |params|
    requires forall a, b :: i <= a < b < |params| ==> params[a].name != params[b].name
    ensures forall a, b :: i + 1 <= a < b < |params| ==> params[a].name != params[b].name
    ensures forall b :: i + 1 <= b < |params| ==> params[b].name != params[i].name
  {
  }

  lemma NotYetCollected(beans: Dict<string, BeanDef>, i: nat)
    requires Dicts.Valid(beans) && i < |beans|
    ensures beans[i].0 !in SingletonNames(beans[..i])
  {
    var pre := beans[..i];
    forall x | x in Keys(pre) ensures x != beans[i].0 {
      var j :| 0 <= j < |pre| && Keys(pre)[j] == x;
      assert pre[j] == beans[j];
    }
  }

  /** `get_all_beans` returns exactly the singleton names, in registration order. */
  lemma {:induction false} AllBeansKeys(beans: Dict<string, BeanDef>, types: Dict<string, string>, i: nat, acc: Dict<string, Bean>, c: Cache)
    requires Dicts.Valid(beans) && i <= |beans| && Keys(acc) == SingletonNames(beans[..i])
    requires AllBeans(beans, types, i, acc, c).0.Ok?
    ensures Keys(AllBeans(beans, types, i, acc, c).0.value) == SingletonNames(beans)
    decreases |beans| - i
  {
    if i == |beans| {
      assert beans[..i] == beans;
    } else {
      var (name, def) := beans[i];
      NotYetCollected(beans, i);
      SingletonNamesStep(beans, i);
      if def.scope == Singleton {
        var (b, c') := Resolve(beans, types, def.beanClass.name, Some(name), c, MaxDepth);
        AllBeansKeys(beans, types, i + 1, Set(acc, name, b.value), c');
      } else {
        AllBeansKeys(beans, types, i + 1, acc, c);
      }
    }
  }

  lemma SingletonNamesStep(beans: Dict<string, BeanDef>, i: nat)
    requires i < |beans|
    ensures SingletonNames(beans[..i + 1])
      == SingletonNames(beans[..i]) + (if beans[i].1.scope == Singleton then [beans[i].0] else [])
  {
    assert beans[..i + 1][..i] == beans[..i];
  }

  /** `get_all_beans()`: when it succeeds its keys are the singleton names. */
  lemma GetAllBeansKeys(beans: Dict<string, BeanDef>, types: Dict<string, string>, c: Cache)
    requires Dicts.Valid(beans) && AllBeans(beans, types, 0, [], c).0.Ok?
    ensures Keys(AllBeans(beans, types, 0, [], c).0.value) == SingletonNames(beans)
  {
    AllBeansKeys(beans, types, 0, [], c);
  }

  /**
   * After `register_bean`, the class and the stored name both resolve to the
   * new definition, and the class maps to that name.
   */
  lemma RegisterResolves(beans: Dict<string, BeanDef>, types: Dict<string, string>, cls: BeanClass, scope: Scope, factory: Option<Factory>, name: Option<string>)
    requires RegisteredName(name, cls) != ""
    ensures var n := RegisteredName(name, cls);
      var beans' := Set(beans, n, BeanDef(cls, scope, factory));
      var types' := Set(types, cls.name, n);
      Get(types', cls.name) == Some(n) &&
      Target(beans', types', cls.name, None) == Some(BeanDef(cls, scope, factory)) &&
      forall other :: Target(beans', types', other, Some(n)) == Some(BeanDef(cls, scope, factory))
  {
    var n := RegisteredName(name, cls);
    GetSet(types, cls.name, n, cls.name);
    GetSet(beans, n, BeanDef(cls, scope, factory), n);
  }
}

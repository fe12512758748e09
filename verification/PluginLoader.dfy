/**
 Loading plugins in order into the write-once service container of
 packages/core.
 */
module PluginLoader {
  import opened Wrappers
  import PluginCycles

  /** What a factory returned, or that it threw. */
  datatype Made<V> = Instance(value: V) | Threw

  datatype Service<!V> = Service(name: string, factory: map<string, V> -> Made<V>)

  datatype Plugin<!V> = Plugin(name: string, dependencies: seq<string>, services: seq<Service<V>>)

  datatype LoadError =
    | Circular(cycle: seq<string>)
    | MissingDependency(plugin: string, key: string)
    | ServiceFailed(plugin: string, service: string)

  // ---------- The container ----------

  class Container<V> {
    var services: map<string, V>

    constructor ()
      ensures services == map[]
    {
      services := map[];
    }

    method Register(key: string, value: V) returns (ok: bool)
      modifies this
      ensures ok <==> key !in old(services)
      ensures services == if ok then old(services)[key := value] else old(services)
    {
      if key in services {
        return false;
      }
      services := services[key := value];
      return true;
    }

    method SandboxedView(allowedKeys: seq<string>) returns (view: map<string, V>)
      ensures forall k :: k in view <==> k in allowedKeys && k in services
      ensures forall k :: k in view ==> view[k] == services[k]
    {
      view := map[];
      for i := 0 to |allowedKeys|
        invariant view == View(services, allowedKeys[..i])
      {
        var key := allowedKeys[i];
        assert allowedKeys[..i + 1] == allowedKeys[..i] + [key];
        if key in services {
          view := view[key := services[key]];
        }
      }
      assert allowedKeys[..|allowedKeys|] == allowedKeys;
    }
  }

  /** The services restricted to the allowed keys. */
  function View<V>(services: map<string, V>, allowedKeys: seq<string>): map<string, V> {
    map k | k in services && k in allowedKeys :: services[k]
  }

  // ---------- One plugin ----------

  datatype Loaded<V> = Loaded(services: map<string, V>, error: Option<LoadError>)

  function Qualified(plugin: string, service: string): string {
    plugin + "." + service
  }

  /** Registers services in order under their qualified name, and under the bare name when it is free. */
  function RegisterServices<V>(services: map<string, V>, plugin: string, view: map<string, V>, list: seq<Service<V>>)
    : (r: Loaded<V>)
    ensures r.error.Some? ==> r.error.value.ServiceFailed?
    decreases |list|
  {
    if list == [] then Loaded(services, None)
    else
      var key := Qualified(plugin, list[0].name);
      match list[0].factory(view)
      case Threw => Loaded(services, Some(ServiceFailed(plugin, list[0].name)))
      case Instance(value) =>
        if key in services then Loaded(services, Some(ServiceFailed(plugin, list[0].name)))
        else
          var named := services[key := value];
          var both := if list[0].name in named then named else named[list[0].name := value];
          RegisterServices(both, plugin, view, list[1..])
  }

  function FirstMissing<V>(services: map<string, V>, deps: seq<string>): (missing: Option<string>)
    ensures missing.None? ==> forall d :: d in deps ==> d in services
    ensures missing.Some? ==> exists i :: 0 <= i < |deps| && missing == Some(deps[i]) && deps[i] !in services
                                          && forall j :: 0 <= j < i ==> deps[j] in services
  {
    if deps == [] then None
    else if deps[0] !in services then Some(deps[0])
    else FirstMissing(services, deps[1..])
  }

  /** `load` of a plugin whose name is not loaded yet. */
  function LoadOne<V>(services: map<string, V>, plugin: Plugin<V>): (r: Loaded<V>)
    ensures r.error.Some? ==> !r.error.value.Circular?
    ensures (exists d :: d in plugin.dependencies && d !in services)
       <==> r.error.Some? && r.error.value.MissingDependency?
  {
    match FirstMissing(services, plugin.dependencies)
    case Some(key) => Loaded(services, Some(MissingDependency(plugin.name, key)))
    case None => RegisterServices(services, plugin.name, View(services, plugin.dependencies), plugin.services)
  }

  /** The loop of `loadAll` from a state in which `loaded` are the loaded names. */
  function LoadFrom<V>(services: map<string, V>, loaded: seq<string>, plugins: seq<Plugin<V>>): Loaded<V>
    decreases |plugins|
  {
    if plugins == [] then Loaded(services, None)
    else if plugins[0].name in loaded then LoadFrom(services, loaded, plugins[1..])
    else
      var one := LoadOne(services, plugins[0]);
      if one.error.Some? then one
      else LoadFrom(one.services, loaded + [plugins[0].name], plugins[1..])
  }

  class Registry<V> {
    const container: Container<V>
    var loaded: seq<string>

    constructor ()
      ensures fresh(container) && container.services == map[] && loaded == []
    {
      container := new Container<V>();
      loaded := [];
    }

    method CheckDependencies(plugin: Plugin<V>) returns (missing: Option<string>)
      ensures missing == FirstMissing(container.services, plugin.dependencies)
    {
      var deps := plugin.dependencies;
      for i := 0 to |deps|
        invariant FirstMissing(container.services, deps) == FirstMissing(container.services, deps[i..])
      {
        if deps[i] !in container.services {
          return Some(deps[i]);
        }
      }
      return None;
    }

    method RegisterAll(plugin: Plugin<V>, deps: map<string, V>) returns (error: Option<LoadError>)
      modifies container
      ensures Loaded(container.services, error)
           == RegisterServices(old(container.services), plugin.name, deps, plugin.services)
    {
      var list := plugin.services;
      error := None;
      for i := 0 to |list|
        invariant error.None?
        invariant RegisterServices(old(container.services), plugin.name, deps, list)
               == RegisterServices(container.services, plugin.name, deps, list[i..])
      {
        var serviceName := list[i].name;
        assert list[i..][1..] == list[i + 1..];
        match list[i].factory(deps) {
          case Threw =>
            return Some(ServiceFailed(plugin.name, serviceName));
          case Instance(instance) =>
            var ok := container.Register(Qualified(plugin.name, serviceName), instance);
            if !ok {
              return Some(ServiceFailed(plugin.name, serviceName));
            }
            if serviceName !in container.services {
              ok := container.Register(serviceName, instance);
            }
        }
      }
    }

    method Load(plugin: Plugin<V>) returns (error: Option<LoadError>)
      modifies this, container
      ensures var one := if plugin.name in old(loaded) then Loaded(old(container.services), None)
                         else LoadOne(old(container.services), plugin);
              error == one.error && container.services == one.services
      ensures loaded == if plugin.name in old(loaded) || error.Some? then old(loaded) else old(loaded) + [plugin.name]
    {
      if plugin.name in loaded {
        return None;
      }
      var missing := CheckDependencies(plugin);
      if missing.Some? {
        return Some(MissingDependency(plugin.name, missing.value));
      }
      var deps := container.SandboxedView(plugin.dependencies);
      assert deps == View(container.services, plugin.dependencies);
      error := RegisterAll(plugin, deps);
      if error.None? {
        loaded := loaded + [plugin.name];
      }
    }

    /** Nothing is loaded when the names form a cycle. */
    method LoadAll(plugins: seq<Plugin<V>>) returns (error: Option<LoadError>)
      modifies this, container
      ensures if error.Some? && error.value.Circular? then
                ClosedWalk(plugins, error.value.cycle)
                && container.services == old(container.services) && loaded == old(loaded)
              else
                (forall w :: !ClosedWalk(plugins, w))
                && Loaded(container.services, error) == LoadFrom(old(container.services), old(loaded), plugins)
    {
      var cycle := PluginCycles.DetectCircular(Declarations(plugins));
      forall w ensures PluginCycles.ClosedWalk(Declarations(plugins), w) <==> ClosedWalk(plugins, w) {
        DeclaredWalk(plugins, w);
      }
      if cycle.Some? {
        return Some(Circular(cycle.value));
      }
      error := LoadInOrder(plugins);
    }

    method LoadInOrder(plugins: seq<Plugin<V>>) returns (error: Option<LoadError>)
      modifies this, container
      ensures Loaded(container.services, error) == LoadFrom(old(container.services), old(loaded), plugins)
      ensures error.Some? ==> !error.value.Circular?
    {
      error := None;
      for i := 0 to |plugins|
        invariant error.None?
        invariant LoadFrom(old(container.services), old(loaded), plugins)
               == LoadFrom(container.services, loaded, plugins[i..])
      {
        assert plugins[i..][1..] == plugins[i + 1..];
        error := Load(plugins[i]);
        if error.Some? {
          return;
        }
      }
    }
  }

  function Declarations<V>(plugins: seq<Plugin<V>>): seq<PluginCycles.Declaration> {
    seq(|plugins|, i requires 0 <= i < |plugins| => PluginCycles.Declaration(plugins[i].name, plugins[i].dependencies))
  }

  ghost predicate LastNamed<V>(plugins: seq<Plugin<V>>, i: nat)
    requires i < |plugins|
  {
    forall j :: i < j < |plugins| ==> plugins[j].name != plugins[i].name
  }

  /** The last plugin named `name` lists `dependency`. */
  ghost predicate Lists<V>(plugins: seq<Plugin<V>>, name: string, dependency: string) {
    exists i :: 0 <= i < |plugins| && plugins[i].name == name && LastNamed(plugins, i)
                && dependency in plugins[i].dependencies
  }

  ghost predicate Leads<V>(plugins: seq<Plugin<V>>, w: seq<string>, i: nat)
    requires i + 1 < |w|
  {
    Lists(plugins, w[i], w[i + 1])
  }

  /** A walk from a plugin's name back to it, along the plugins' own dependencies. */
  ghost predicate ClosedWalk<V>(plugins: seq<Plugin<V>>, w: seq<string>) {
    && |w| >= 2 && w[0] == w[|w| - 1]
    && forall i {:trigger Leads(plugins, w, i)} :: 0 <= i < |w| - 1 ==> Leads(plugins, w, i)
  }

  lemma DeclaredLists<V>(plugins: seq<Plugin<V>>, name: string, dependency: string)
    ensures PluginCycles.Lists(Declarations(plugins), name, dependency) <==> Lists(plugins, name, dependency)
  {
    var declared := Declarations(plugins);
    forall i | 0 <= i < |plugins| ensures PluginCycles.LastNamed(declared, i) <==> LastNamed(plugins, i) {
      assert forall j :: 0 <= j < |plugins| ==> declared[j].name == plugins[j].name;
    }
  }

  lemma DeclaredWalk<V>(plugins: seq<Plugin<V>>, w: seq<string>)
    ensures PluginCycles.ClosedWalk(Declarations(plugins), w) <==> ClosedWalk(plugins, w)
  {
    forall i | 0 <= i < |w| - 1
      ensures PluginCycles.Leads(Declarations(plugins), w, i) <==> Leads(plugins, w, i)
    {
      DeclaredLists(plugins, w[i], w[i + 1]);
    }
  }

  /** A cycle starts at a plugin's name, and ends at something a plugin lists. */
  lemma WalkEnds<V>(plugins: seq<Plugin<V>>, w: seq<string>)
    requires ClosedWalk(plugins, w)
    ensures exists p :: p in plugins && p.name == w[0]
    ensures exists p :: p in plugins && w[0] in p.dependencies
  {
    assert Leads(plugins, w, 0) && Leads(plugins, w, |w| - 2);
  }

  // ---------- What a successful load means ----------

  datatype Offer<V> = Offer(key: string, value: V)

  /** What a plugin's services offer, in order, when its factories see `view`. */
  function Offers<V>(plugin: string, view: map<string, V>, list: seq<Service<V>>): seq<Offer<V>>
    decreases |list|
  {
    if list == [] then []
    else (match list[0].factory(view)
          case Threw => []
          case Instance(v) => [Offer(Qualified(plugin, list[0].name), v), Offer(list[0].name, v)])
         + Offers(plugin, view, list[1..])
  }

  /** All offers in declaration order, every factory seeing the values of `services`. */
  function AllOffers<V>(plugins: seq<Plugin<V>>, services: map<string, V>): seq<Offer<V>>
    decreases |plugins|
  {
    if plugins == [] then []
    else Offers(plugins[0].name, View(services, plugins[0].dependencies), plugins[0].services)
         + AllOffers(plugins[1..], services)
  }

  /** Takes each offer whose key is still free. */
  function Accept<V>(services: map<string, V>, offers: seq<Offer<V>>): (r: map<string, V>)
    ensures forall k :: k in services ==> k in r && r[k] == services[k]
    decreases |offers|
  {
    if offers == [] then services
    else Accept(if offers[0].key in services then services else services[offers[0].key := offers[0].value], offers[1..])
  }

  function FirstOffer<V>(offers: seq<Offer<V>>, key: string): Option<V>
    decreases |offers|
  {
    if offers == [] then None
    else if offers[0].key == key then Some(offers[0].value)
    else FirstOffer(offers[1..], key)
  }

  function Find<V>(services: map<string, V>, key: string): Option<V> {
    if key in services then Some(services[key]) else None
  }

  lemma {:induction false} AcceptIsFirstOffer<V>(services: map<string, V>, offers: seq<Offer<V>>, key: string)
    ensures Find(Accept(services, offers), key)
         == if key in services then Find(services, key) else FirstOffer(offers, key)
    decreases |offers|
  {
    if offers != [] {
      AcceptIsFirstOffer(if offers[0].key in services then services else services[offers[0].key := offers[0].value],
                         offers[1..], key);
    }
  }

  lemma {:induction false} AcceptAppend<V>(services: map<string, V>, a: seq<Offer<V>>, b: seq<Offer<V>>)
    ensures Accept(services, a + b) == Accept(Accept(services, a), b)
    decreases |a|
  {
    if a == [] {
      assert a + b == b;
    } else {
      assert (a + b)[1..] == a[1..] + b;
      AcceptAppend(if a[0].key in services then services else services[a[0].key := a[0].value], a[1..], b);
    }
  }

  /** Each service was made, and is bound to its own qualified name. */
  ghost predicate AllBound<V>(services: map<string, V>, plugin: string, view: map<string, V>, list: seq<Service<V>>) {
    forall s :: s in list ==>
      && s.factory(view).Instance?
      && Find(services, plugin + "." + s.name) == Some(s.factory(view).value)
      && s.name in services
  }

  lemma {:induction false} RegisterServicesAccepts<V>(
      services: map<string, V>, plugin: string, view: map<string, V>, list: seq<Service<V>>)
    requires RegisterServices(services, plugin, view, list).error.None?
    ensures RegisterServices(services, plugin, view, list).services == Accept(services, Offers(plugin, view, list))
    ensures AllBound(Accept(services, Offers(plugin, view, list)), plugin, view, list)
    decreases |list|
  {
    if list != [] {
      var v := list[0].factory(view).value;
      var key := Qualified(plugin, list[0].name);
      var named := services[key := v];
      var both := if list[0].name in named then named else named[list[0].name := v];
      RegisterServicesAccepts(both, plugin, view, list[1..]);
      var two := [Offer(key, v), Offer(list[0].name, v)];
      assert two[1..] == [Offer(list[0].name, v)] && two[1..][1..] == [];
      assert Accept(named, two[1..]) == both;
      assert Accept(services, two) == both;
      AcceptAppend(services, two, Offers(plugin, view, list[1..]));
    }
  }

  /** The services before the failing one are registered without an error. */
  lemma {:induction false} FailingService<V>(
      services: map<string, V>, plugin: string, view: map<string, V>, list: seq<Service<V>>) returns (k: nat)
    requires RegisterServices(services, plugin, view, list).error.Some?
    ensures k < |list|
    ensures var r := RegisterServices(services, plugin, view, list);
            && RegisterServices(services, plugin, view, list[..k]) == Loaded(r.services, None)
            && r.error == Some(ServiceFailed(plugin, list[k].name))
            && (list[k].factory(view).Threw? || Qualified(plugin, list[k].name) in r.services)
    decreases |list|
  {
    k := 0;
    var key := Qualified(plugin, list[0].name);
    if list[0].factory(view).Instance? && key !in services {
      var named := services[key := list[0].factory(view).value];
      var both := if list[0].name in named then named else named[list[0].name := list[0].factory(view).value];
      k := FailingService(both, plugin, view, list[1..]);
      assert list[..k + 1][1..] == list[1..][..k];
      k := k + 1;
    }
  }

  ghost predicate FailsAt<V>(
      services: map<string, V>, plugin: string, view: map<string, V>, list: seq<Service<V>>, k: nat, r: Loaded<V>)
    requires k < |list|
  {
    && r.services == Accept(services, Offers(plugin, view, list[..k]))
    && AllBound(r.services, plugin, view, list[..k])
    && r.error == Some(ServiceFailed(plugin, list[k].name))
    && (list[k].factory(view).Threw? || Qualified(plugin, list[k].name) in r.services)
  }

  /** A failure is at the first service that cannot be made or bound, and leaves the services before it registered. */
  lemma {:induction false} RegisterServicesFails<V>(
      services: map<string, V>, plugin: string, view: map<string, V>, list: seq<Service<V>>)
    requires RegisterServices(services, plugin, view, list).error.Some?
    ensures exists k :: 0 <= k < |list|
                        && FailsAt(services, plugin, view, list, k, RegisterServices(services, plugin, view, list))
    decreases |list|
  {
    var r := RegisterServices(services, plugin, view, list);
    var k := FailingService(services, plugin, view, list);
    RegisterServicesAccepts(services, plugin, view, list[..k]);
    assert FailsAt(services, plugin, view, list, k, r);
  }

  /** What held when `plugin` was loaded into `before`, given the container's final `services`. */
  ghost predicate LoadedInOrder<V>(before: map<string, V>, services: map<string, V>, plugin: Plugin<V>) {
    && (forall d :: d in plugin.dependencies ==> d in before && Find(services, d) == Find(before, d))
    && AllBound(services, plugin.name, View(services, plugin.dependencies), plugin.services)
  }

  ghost predicate DistinctNames<V>(plugins: seq<Plugin<V>>) {
    forall i, j :: 0 <= i < j < |plugins| ==> plugins[i].name != plugins[j].name
  }

  lemma LoadOneAccepts<V>(services: map<string, V>, plugin: Plugin<V>, final: map<string, V>)
    requires LoadOne(services, plugin).error.None?
    requires forall k :: k in LoadOne(services, plugin).services ==>
               Find(final, k) == Find(LoadOne(services, plugin).services, k)
    ensures LoadOne(services, plugin).services
         == Accept(services, Offers(plugin.name, View(final, plugin.dependencies), plugin.services))
    ensures LoadedInOrder(services, final, plugin)
  {
    var view := View(services, plugin.dependencies);
    RegisterServicesAccepts(services, plugin.name, view, plugin.services);
    var after := Accept(services, Offers(plugin.name, view, plugin.services));
    forall k | k in services ensures Find(final, k) == Find(services, k) {
      assert k in after;
    }
    assert View(final, plugin.dependencies) == view;
  }

  lemma PrefixOffers<V>(services: map<string, V>, plugins: seq<Plugin<V>>, i: nat, final: map<string, V>)
    requires 0 < i <= |plugins|
    ensures var offers := Offers(plugins[0].name, View(final, plugins[0].dependencies), plugins[0].services);
            && Accept(services, AllOffers(plugins[..i], final))
               == Accept(Accept(services, offers), AllOffers(plugins[1..][..i - 1], final))
  {
    var offers := Offers(plugins[0].name, View(final, plugins[0].dependencies), plugins[0].services);
    assert plugins[..i][1..] == plugins[1..][..i - 1];
    AcceptAppend(services, offers, AllOffers(plugins[1..][..i - 1], final));
  }

  ghost predicate NewNames<V>(plugins: seq<Plugin<V>>, loaded: seq<string>) {
    forall p :: p in plugins ==> p.name !in loaded
  }

  /** The container ends up with what its factories offer when they see just that. */
  lemma {:induction false} LoadFromAccepts<V>(services: map<string, V>, loaded: seq<string>, plugins: seq<Plugin<V>>)
    requires LoadFrom(services, loaded, plugins).error.None?
    requires DistinctNames(plugins) && NewNames(plugins, loaded)
    ensures var final := LoadFrom(services, loaded, plugins).services;
            final == Accept(services, AllOffers(plugins, final))
    decreases |plugins|
  {
    if plugins != [] {
      var first, rest := plugins[0], plugins[1..];
      var final := LoadFrom(services, loaded, plugins).services;
      LoadFromAccepts(LoadOne(services, first).services, loaded + [first.name], rest);
      LoadOneAccepts(services, first, final);
      PrefixOffers(services, plugins, |plugins|, final);
      assert plugins[..|plugins|] == plugins && rest[..|plugins| - 1] == rest;
    }
  }

  lemma {:induction false} LoadFromOrdered<V>(
      services: map<string, V>, loaded: seq<string>, plugins: seq<Plugin<V>>, i: nat)
    requires LoadFrom(services, loaded, plugins).error.None? && i < |plugins|
    requires DistinctNames(plugins) && NewNames(plugins, loaded)
    ensures var final := LoadFrom(services, loaded, plugins).services;
            LoadedInOrder(Accept(services, AllOffers(plugins[..i], final)), final, plugins[i])
    decreases i
  {
    var first, rest := plugins[0], plugins[1..];
    var one := LoadOne(services, first).services;
    var final := LoadFrom(services, loaded, plugins).services;
    LoadFromAccepts(one, loaded + [first.name], rest);
    LoadOneAccepts(services, first, final);
    if i == 0 {
      assert plugins[..0] == [];
    } else {
      LoadFromOrdered(one, loaded + [first.name], rest, i - 1);
      PrefixOffers(services, plugins, i, final);
    }
  }

  /** The plugins before the `i`-th had offered the key, and the container has kept that offer. */
  ghost predicate OfferedBefore<V>(plugins: seq<Plugin<V>>, final: map<string, V>, i: nat, key: string)
    requires i <= |plugins|
  {
    var offered := FirstOffer(AllOffers(plugins[..i], final), key);
    offered.Some? && Find(final, key) == offered
  }

  /**
   A successful load into an empty container, with distinct plugin names: the
   container binds every key to its first offer; every plugin's dependencies
   had been offered by the plugins before it, and its factories saw their
   final values; every service is bound under its qualified name.
   */
  lemma {:induction false} LoadAllInOrder<V>(plugins: seq<Plugin<V>>)
    requires DistinctNames(plugins) && LoadFrom(map[], [], plugins).error.None?
    ensures var final := LoadFrom(map[], [], plugins).services;
            && (forall key :: Find(final, key) == FirstOffer(AllOffers(plugins, final), key))
            && (forall i, d :: 0 <= i < |plugins| && d in plugins[i].dependencies ==>
                  OfferedBefore(plugins, final, i, d))
            && (forall i :: 0 <= i < |plugins| ==>
                  AllBound(final, plugins[i].name, View(final, plugins[i].dependencies), plugins[i].services))
  {
    var final := LoadFrom(map[], [], plugins).services;
    LoadFromAccepts(map[], [], plugins);
    forall key ensures Find(final, key) == FirstOffer(AllOffers(plugins, final), key) {
      AcceptIsFirstOffer(map[], AllOffers(plugins, final), key);
    }
    forall i, d | 0 <= i < |plugins| && d in plugins[i].dependencies
      ensures OfferedBefore(plugins, final, i, d)
    {
      LoadFromOrdered(map[], [], plugins, i);
      AcceptIsFirstOffer(map[], AllOffers(plugins[..i], final), d);
    }
    forall i | 0 <= i < |plugins|
      ensures AllBound(final, plugins[i].name, View(final, plugins[i].dependencies), plugins[i].services)
    {
      LoadFromOrdered(map[], [], plugins, i);
    }
  }

  // ---------- Cycles through services ----------

  predicate Names(plugin: string, service: string, key: string) {
    key == Qualified(plugin, service) || key == service
  }

  ghost predicate Provides<V>(plugin: Plugin<V>, key: string) {
    exists k :: 0 <= k < |plugin.services| && Names(plugin.name, plugin.services[k].name, key)
  }

  lemma {:induction false} OfferProvided<V>(plugin: string, view: map<string, V>, list: seq<Service<V>>, key: string)
    requires FirstOffer(Offers(plugin, view, list), key).Some?
    ensures exists k :: 0 <= k < |list| && Names(plugin, list[k].name, key)
    decreases |list|
  {
    if !Names(plugin, list[0].name, key) {
      NotOffered(plugin, view, list, key);
      OfferProvided(plugin, view, list[1..], key);
      var k :| 0 <= k < |list[1..]| && Names(plugin, list[1..][k].name, key);
      assert list[1..][k] == list[k + 1];
    }
  }

  lemma NotOffered<V>(plugin: string, view: map<string, V>, list: seq<Service<V>>, key: string)
    requires list != [] && !Names(plugin, list[0].name, key)
    ensures FirstOffer(Offers(plugin, view, list), key) == FirstOffer(Offers(plugin, view, list[1..]), key)
  {
    match list[0].factory(view)
    case Threw => assert [] + Offers(plugin, view, list[1..]) == Offers(plugin, view, list[1..]);
    case Instance(v) =>
      var two := [Offer(Qualified(plugin, list[0].name), v), Offer(list[0].name, v)];
      FirstOfferAppend(two, Offers(plugin, view, list[1..]), key);
      assert two[1..] == [two[1]] && two[1..][1..] == [];
  }

  lemma {:induction false} FirstOfferAppend<V>(a: seq<Offer<V>>, b: seq<Offer<V>>, key: string)
    ensures FirstOffer(a + b, key) == if FirstOffer(a, key).Some? then FirstOffer(a, key) else FirstOffer(b, key)
    decreases |a|
  {
    if a == [] {
      assert a + b == b;
    } else {
      assert (a + b)[1..] == a[1..] + b;
      FirstOfferAppend(a[1..], b, key);
    }
  }

  /** What is offered is provided by one of the plugins. */
  lemma {:induction false} OfferedBy<V>(plugins: seq<Plugin<V>>, services: map<string, V>, key: string)
    requires FirstOffer(AllOffers(plugins, services), key).Some?
    ensures exists j :: 0 <= j < |plugins| && Provides(plugins[j], key)
    decreases |plugins|
  {
    var first := plugins[0];
    var offers := Offers(first.name, View(services, first.dependencies), first.services);
    FirstOfferAppend(offers, AllOffers(plugins[1..], services), key);
    if FirstOffer(offers, key).Some? {
      OfferProvided(first.name, View(services, first.dependencies), first.services, key);
    } else {
      OfferedBy(plugins[1..], services, key);
      var j :| 0 <= j < |plugins[1..]| && Provides(plugins[1..][j], key);
      assert plugins[1..][j] == plugins[j + 1];
    }
  }

  /** The plugin needs a service that only members of the group provide. */
  ghost predicate NeedsGroup<V>(plugins: seq<Plugin<V>>, group: set<nat>, i: nat) {
    && i < |plugins|
    && exists d :: d in plugins[i].dependencies
                   && forall j :: 0 <= j < |plugins| && Provides(plugins[j], d) ==> j in group
  }

  /** Plugins that cannot be put in order: each needs a service only they provide. */
  ghost predicate ServiceCycle<V>(plugins: seq<Plugin<V>>, group: set<nat>) {
    group != {} && forall i :: i in group ==> NeedsGroup(plugins, group, i)
  }

  lemma {:induction false} NotInCycle<V>(plugins: seq<Plugin<V>>, group: set<nat>, i: nat)
    requires DistinctNames(plugins) && LoadFrom(map[], [], plugins).error.None? && ServiceCycle(plugins, group)
    ensures i !in group
  {
    if i in group {
      var final := LoadFrom(map[], [], plugins).services;
      assert NeedsGroup(plugins, group, i);
      LoadAllInOrder(plugins);
      var d :| d in plugins[i].dependencies && forall j :: 0 <= j < |plugins| && Provides(plugins[j], d) ==> j in group;
      assert OfferedBefore(plugins, final, i, d);
      OfferedBy(plugins[..i], final, d);
      var j :| 0 <= j < i && Provides(plugins[..i][j], d);
      assert plugins[..i][j] == plugins[j];
      NotInCycle(plugins, group, j);
    }
  }

  /** Plugins with a cycle through their services never load. */
  lemma ServiceCycleNeverLoads<V>(plugins: seq<Plugin<V>>, group: set<nat>)
    requires DistinctNames(plugins) && ServiceCycle(plugins, group)
    ensures LoadFrom(map[], [], plugins).error.Some?
  {
    if LoadFrom(map[], [], plugins).error.None? {
      var i :| i in group;
      NotInCycle(plugins, group, i);
    }
  }

  /**
   The cycle check looks at plugin names, while dependencies are service keys:
   two plugins needing each other's services pass it, and fail only while loading.
   */
  lemma ServiceCycleUndetected<V>(make: map<string, V> -> Made<V>)
    ensures var a := Plugin("a", ["b.s"], [Service("s", make)]);
            var b := Plugin("b", ["a.s"], [Service("s", make)]);
            && (forall w :: !ClosedWalk([a, b], w))
            && LoadFrom(map[], [], [a, b]).error == Some(MissingDependency("a", "b.s"))
  {
    var a := Plugin("a", ["b.s"], [Service("s", make)]);
    var b := Plugin("b", ["a.s"], [Service("s", make)]);
    forall w ensures !ClosedWalk([a, b], w) {
      if ClosedWalk([a, b], w) {
        WalkEnds([a, b], w);
      }
    }
  }
}

/**
  The name-to-method table of `UnsafeSelenideElementOf`: built from the methods
  `SelenideElement` declares, keyed by name, keeping the first method seen when
  overloads share a name, and cached after its first build.
 */
module MethodTable {
  import opened Jvm

  /**
    Reference definition of a lookup: the first method of `methods` named
    `name`, in declaration order.
   */
  function FirstNamed(methods: seq<Method>, name: string): (r: Option<Method>)
    ensures r.Some? <==> exists i :: 0 <= i < |methods| && methods[i].name == name
    ensures r.Some? ==> r.value.name == name
    ensures r.Some? ==>
      exists i :: 0 <= i < |methods| && methods[i] == r.value &&
        forall j :: 0 <= j < i ==> methods[j].name != name
  {
    if |methods| == 0 then None
    else if methods[0].name == name then Some(methods[0])
    else
      var r := FirstNamed(methods[1..], name);
      assert forall i :: 0 <= i < |methods| - 1 ==> methods[1..][i] == methods[i + 1];
      r
  }

  /**
    The stream collector: walks `rest` in order and adds each method under its
    name unless the name is already present (the merge function keeps the
    method that came first).
   */
  function Collect(acc: map<string, Method>, rest: seq<Method>): map<string, Method>
    decreases |rest|
  {
    if |rest| == 0 then acc
    else
      var m := rest[0];
      Collect(if m.name in acc then acc else acc[m.name := m], rest[1..])
  }

  /** Looking a name up in a table built by `Collect`: earlier entries win. */
  lemma {:induction false} CollectKeepsFirst(acc: map<string, Method>, rest: seq<Method>, name: string)
    ensures var t := Collect(acc, rest);
      if name in acc then name in t && t[name] == acc[name]
      else (name in t <==> FirstNamed(rest, name).Some?) &&
           (name in t ==> t[name] == FirstNamed(rest, name).value)
    decreases |rest|
  {
    if |rest| > 0 {
      var m := rest[0];
      CollectKeepsFirst(if m.name in acc then acc else acc[m.name := m], rest[1..], name);
    }
  }

  /** The table as `UnsafeSelenideElementOf` builds it from `getMethods()`. */
  function BuildTable(methods: seq<Method>): (t: map<string, Method>)
    ensures forall name :: name in t <==> FirstNamed(methods, name).Some?
    ensures forall name :: name in t ==> t[name] == FirstNamed(methods, name).value
  {
    forall name ensures var t := Collect(map[], methods);
      (name in t <==> FirstNamed(methods, name).Some?) &&
      (name in t ==> t[name] == FirstNamed(methods, name).value)
    {
      CollectKeepsFirst(map[], methods, name);
    }
    Collect(map[], methods)
  }

  /** Every declared name is a key, every key is a declared name, and each maps to a method of that name. */
  lemma TableKeysAreDeclaredNames(methods: seq<Method>)
    ensures BuildTable(methods).Keys == set m | m in methods :: m.name
    ensures forall name :: name in BuildTable(methods) ==>
      BuildTable(methods)[name] in methods && BuildTable(methods)[name].name == name
  {
  }

  /** A later overload never displaces an earlier one with the same name. */
  lemma {:induction false} OverloadKeepsFirst(front: seq<Method>, m: Method, back: seq<Method>, later: Method)
    requires later.name == m.name
    requires forall j :: 0 <= j < |front| ==> front[j].name != m.name
    ensures var t := BuildTable(front + [m] + back + [later]); m.name in t && t[m.name] == m
  {
    var ms := front + [m] + back + [later];
    assert ms[|front|] == m;
    var r := FirstNamed(ms, m.name);
    var i :| 0 <= i < |ms| && ms[i] == r.value && forall j :: 0 <= j < i ==> ms[j].name != m.name;
    assert forall j :: 0 <= j < |front| ==> ms[j] == front[j];
    assert i == |front|;
  }

  /**
    The process-wide cache: `None` until first use. Selenide's method list is a
    constant, so the only table the cache can ever hold is `BuildTable(methods)`.
   */
  datatype MethodCache = MethodCache(mapping: Option<map<string, Method>>)

  ghost predicate Valid(cache: MethodCache, methods: seq<Method>) {
    cache.mapping.None? || cache.mapping.value == BuildTable(methods)
  }

  /** What one `get()` of the cache yields: the table, the cache afterwards, and whether it built. */
  datatype Fetched = Fetched(table: map<string, Method>, cache: MethodCache, built: bool)

  /**
    `CACHED_METHODS_MAPPING.get()`, sequentialised: the double-checked locking
    collapses to "build when absent, otherwise return the stored table".
   */
  function Get(cache: MethodCache, methods: seq<Method>): (r: Fetched)
    ensures Valid(cache, methods) ==>
      r.table == BuildTable(methods) && Valid(r.cache, methods) && r.cache.mapping == Some(r.table)
    ensures cache.mapping.Some? ==> !r.built && r.cache == cache
    ensures cache.mapping.None? ==> r.built
  {
    match cache.mapping
    case Some(t) => Fetched(t, cache, false)
    case None =>
      var t := BuildTable(methods);
      Fetched(t, MethodCache(Some(t)), true)
  }

  /** The cache after `n` successive `get()` calls, and how many of them built the table. */
  datatype Fetches = Fetches(cache: MethodCache, builds: nat)

  function FetchTimes(cache: MethodCache, methods: seq<Method>, n: nat): Fetches
    decreases n
  {
    if n == 0 then Fetches(cache, 0)
    else
      var f := Get(cache, methods);
      var rest := FetchTimes(f.cache, methods, n - 1);
      Fetches(rest.cache, rest.builds + if f.built then 1 else 0)
  }

  /** However many lookups happen, the table is built at most once, and only if it was absent. */
  lemma {:induction false} BuildsAtMostOnce(cache: MethodCache, methods: seq<Method>, n: nat)
    requires Valid(cache, methods)
    ensures var r := FetchTimes(cache, methods, n);
      r.builds == (if n > 0 && cache.mapping.None? then 1 else 0) &&
      Valid(r.cache, methods) &&
      (n > 0 ==> r.cache.mapping == Some(BuildTable(methods)))
    decreases n
  {
    if n > 0 {
      var f := Get(cache, methods);
      BuildsAtMostOnce(f.cache, methods, n - 1);
    }
  }
}

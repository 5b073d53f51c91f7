/**
 * The compile-time environment (morel compile.Environment and Environments): an immutable
 * chain of (name, type, value) bindings made of empty, single-binding and map-backed nodes.
 * Immutability comes with the model: an environment is a value, so binding never changes
 * the environment bound onto.
 */
module Environments {
  import opened Wrappers

  /** The types a binding carries; only BOOL is named here (morel's Type hierarchy is not part of this model). */
  datatype Type = Bool | OtherType(description: string)

  /** The values a binding carries; Unit.INSTANCE is told apart because forEachValue skips it. */
  datatype Value = UnitValue | BoolValue(b: bool) | OtherValue(id: int)

  /** Binding.of(name, type, value). */
  datatype Binding = Binding(name: string, typ: Type, value: Value)

  /**
   * EmptyEnvironment, SubEnvironment (one binding over a parent) and MapEnvironment (a batch
   * over a parent). The map-backed node keeps its bindings in insertion order, the order in
   * which an ImmutableMap hands back its values.
   */
  datatype Environment =
    | EmptyEnvironment
    | SubEnvironment(parent: Environment, binding: Binding)
    | MapEnvironment(parent: Environment, entries: seq<Binding>)

  /** The first binding of `name` in `bs`, if any. */
  function FirstNamed(bs: seq<Binding>, name: string): (r: Option<Binding>)
    ensures r.Some? ==> r.value in bs && r.value.name == name
    ensures r.None? <==> forall i | 0 <= i < |bs| :: bs[i].name != name
  {
    if |bs| == 0 then None
    else if bs[0].name == name then Some(bs[0])
    else FirstNamed(bs[1..], name)
  }

  /** The last binding of `name` in `bs`, if any. */
  function LastNamed(bs: seq<Binding>, name: string): (r: Option<Binding>)
    ensures r.Some? ==> r.value in bs && r.value.name == name
    ensures r.None? <==> forall i | 0 <= i < |bs| :: bs[i].name != name
  {
    if |bs| == 0 then None
    else if bs[|bs| - 1].name == name then Some(bs[|bs| - 1])
    else LastNamed(bs[..|bs| - 1], name)
  }

  /** The names in `bs` are pairwise distinct. */
  predicate DistinctNames(bs: seq<Binding>)
  {
    forall i, j | 0 <= i < j < |bs| :: bs[i].name != bs[j].name
  }

  /** getOpt: the newest binding of `name`; a map-backed node is checked before its parent. */
  function GetOpt(env: Environment, name: string): Option<Binding>
  {
    match env
    case EmptyEnvironment => None
    case SubEnvironment(parent, binding) => if name == binding.name then Some(binding) else GetOpt(parent, name)
    case MapEnvironment(parent, entries) =>
      var found := FirstNamed(entries, name);
      if found.Some? then found else GetOpt(parent, name)
  }

  /** get: getOpt's binding, or AssertionError "expected value for <name>". */
  function Get(env: Environment, name: string): (r: Result<Binding>)
    ensures r.Ok? <==> GetOpt(env, name).Some?
    ensures r.Ok? ==> Some(r.value) == GetOpt(env, name) && r.value.name == name
    ensures r.Err? ==> r.message == "expected value for " + name
  {
    match GetOpt(env, name)
    case Some(b) =>
      GetOptNamesMatch(env, name);
      Ok(b)
    case None => Err("expected value for " + name)
  }

  /** A binding found for `name` is a binding of `name`. */
  lemma {:induction false} GetOptNamesMatch(env: Environment, name: string)
    ensures GetOpt(env, name).Some? ==> GetOpt(env, name).value.name == name
  {
    match env
    case EmptyEnvironment =>
    case SubEnvironment(parent, _) => GetOptNamesMatch(parent, name);
    case MapEnvironment(parent, _) => GetOptNamesMatch(parent, name);
  }

  /** visit: every binding, obscured ones included; a node's own bindings come before its parent's. */
  function Visit(env: Environment): seq<Binding>
  {
    match env
    case EmptyEnvironment => []
    case SubEnvironment(parent, binding) => [binding] + Visit(parent)
    case MapEnvironment(parent, entries) => entries + Visit(parent)
  }

  /** bind(name, type, value): a new single-binding node over `env`. The new binding shadows
    * `name`, every other name is looked up as before, and it is visited first. */
  function Bind(env: Environment, name: string, typ: Type, value: Value): (r: Environment)
    ensures GetOpt(r, name) == Some(Binding(name, typ, value))
    ensures forall other | other != name :: GetOpt(r, other) == GetOpt(env, other)
    ensures Visit(r) == [Binding(name, typ, value)] + Visit(env)
  {
    SubEnvironment(env, Binding(name, typ, value))
  }

  /** empty(): the basic environment, binding exactly true and false to BOOL. */
  function Empty(): (r: Environment)
    ensures GetOpt(r, "true") == Some(Binding("true", Bool, BoolValue(true)))
    ensures GetOpt(r, "false") == Some(Binding("false", Bool, BoolValue(false)))
    ensures forall n | n != "true" && n != "false" :: GetOpt(r, n) == None
    ensures Visit(r) == [Binding("false", Bool, BoolValue(false)), Binding("true", Bool, BoolValue(true))]
  {
    Bind(Bind(EmptyEnvironment, "true", Bool, BoolValue(true)), "false", Bool, BoolValue(false))
  }

  /** Where the first binding of a name in `a + b` comes from. */
  lemma {:induction false} FirstNamedAppend(a: seq<Binding>, b: seq<Binding>, name: string)
    ensures FirstNamed(a + b, name) == if FirstNamed(a, name).Some? then FirstNamed(a, name) else FirstNamed(b, name)
  {
    if |a| > 0 {
      assert (a + b)[1..] == a[1..] + b;
      FirstNamedAppend(a[1..], b, name);
    } else {
      assert a + b == b;
    }
  }

  /** Lookup agrees with enumeration: getOpt finds the first binding of the name that visit reaches,
    * so every binding visited before it has another name, and obscured bindings come later. */
  lemma {:induction false} GetOptIsFirstVisited(env: Environment, name: string)
    ensures GetOpt(env, name) == FirstNamed(Visit(env), name)
  {
    match env
    case EmptyEnvironment =>
    case SubEnvironment(parent, binding) =>
      GetOptIsFirstVisited(parent, name);
      FirstNamedAppend([binding], Visit(parent), name);
    case MapEnvironment(parent, entries) =>
      GetOptIsFirstVisited(parent, name);
      FirstNamedAppend(entries, Visit(parent), name);
  }

  /** The first binding of a name in a one-longer prefix. */
  lemma FirstNamedSnoc(bs: seq<Binding>, i: nat, name: string)
    requires i < |bs|
    ensures FirstNamed(bs[..i + 1], name)
         == if FirstNamed(bs[..i], name).Some? then FirstNamed(bs[..i], name)
            else if bs[i].name == name then Some(bs[i]) else None
  {
    assert bs[..i + 1] == bs[..i] + [bs[i]];
    FirstNamedAppend(bs[..i], [bs[i]], name);
  }

  /** The consumer calls forEachType makes while visiting `bs`, given the names already seen. */
  function TypeCalls(bs: seq<Binding>, seen: set<string>): seq<(string, Type)>
  {
    if |bs| == 0 then []
    else if bs[0].name in seen then TypeCalls(bs[1..], seen)
    else [(bs[0].name, bs[0].typ)] + TypeCalls(bs[1..], seen + {bs[0].name})
  }

  /** The consumer calls forEachValue makes while visiting `bs`: a Unit binding marks its name
    * seen without a call. */
  function ValueCalls(bs: seq<Binding>, seen: set<string>): seq<(string, Value)>
  {
    if |bs| == 0 then []
    else if bs[0].name in seen then ValueCalls(bs[1..], seen)
    else if bs[0].value == UnitValue then ValueCalls(bs[1..], seen + {bs[0].name})
    else [(bs[0].name, bs[0].value)] + ValueCalls(bs[1..], seen + {bs[0].name})
  }

  /** Past a binding whose name is not `n`, the first binding of `n` is the same. */
  lemma FirstNamedTail(bs: seq<Binding>, n: string)
    requires |bs| > 0 && bs[0].name != n
    ensures FirstNamed(bs, n) == FirstNamed(bs[1..], n)
  {
  }

  /** Each name occurs at most once among the calls. */
  predicate NamesDistinct<T>(calls: seq<(string, T)>)
  {
    forall i, j | 0 <= i < j < |calls| :: calls[i].0 != calls[j].0
  }

  /** forEachType's calls: distinct names not seen before, each with the type of its first binding in `bs`. */
  lemma {:induction false} TypeCallsSound(bs: seq<Binding>, seen: set<string>)
    ensures NamesDistinct(TypeCalls(bs, seen))
    ensures forall c | c in TypeCalls(bs, seen) ::
      c.0 !in seen && FirstNamed(bs, c.0).Some? && FirstNamed(bs, c.0).value.typ == c.1
  {
    if |bs| > 0 {
      var n0 := bs[0].name;
      var seen' := if n0 in seen then seen else seen + {n0};
      TypeCallsSound(bs[1..], seen');
      var calls, rest := TypeCalls(bs, seen), TypeCalls(bs[1..], seen');
      forall c | c in rest ensures c.0 !in seen' && FirstNamed(bs, c.0) == FirstNamed(bs[1..], c.0) {
        FirstNamedTail(bs, c.0);
      }
      if n0 !in seen {
        assert calls == [(n0, bs[0].typ)] + rest;
        forall i, j | 0 <= i < j < |calls| ensures calls[i].0 != calls[j].0 {
          assert calls[j] == rest[j - 1] && calls[j] in rest;
          if i > 0 {
            assert calls[i] == rest[i - 1];
          }
        }
      } else {
        assert calls == rest;
      }
    }
  }

  /** forEachType calls every name that is bound in `bs` and not seen before. */
  lemma {:induction false} TypeCallsComplete(bs: seq<Binding>, seen: set<string>, n: string)
    requires n !in seen && FirstNamed(bs, n).Some?
    ensures exists i | 0 <= i < |TypeCalls(bs, seen)| :: TypeCalls(bs, seen)[i].0 == n
  {
    var n0 := bs[0].name;
    var calls := TypeCalls(bs, seen);
    if n0 == n {
      assert calls[0].0 == n;
    } else {
      FirstNamedTail(bs, n);
      var seen' := if n0 in seen then seen else seen + {n0};
      TypeCallsComplete(bs[1..], seen', n);
      var rest := TypeCalls(bs[1..], seen');
      var k :| 0 <= k < |rest| && rest[k].0 == n;
      if n0 in seen {
        assert calls[k].0 == n;
      } else {
        assert calls[k + 1].0 == n;
      }
    }
  }

  /** forEachValue's calls: distinct names not seen before, each with the non-Unit value of its first binding in `bs`. */
  lemma {:induction false} ValueCallsSound(bs: seq<Binding>, seen: set<string>)
    ensures NamesDistinct(ValueCalls(bs, seen))
    ensures forall c | c in ValueCalls(bs, seen) ::
      c.0 !in seen && FirstNamed(bs, c.0).Some? && FirstNamed(bs, c.0).value.value == c.1 && c.1 != UnitValue
  {
    if |bs| > 0 {
      var n0 := bs[0].name;
      var seen' := if n0 in seen then seen else seen + {n0};
      ValueCallsSound(bs[1..], seen');
      var calls, rest := ValueCalls(bs, seen), ValueCalls(bs[1..], seen');
      forall c | c in rest ensures c.0 !in seen' && FirstNamed(bs, c.0) == FirstNamed(bs[1..], c.0) {
        FirstNamedTail(bs, c.0);
      }
      if n0 !in seen && bs[0].value != UnitValue {
        assert calls == [(n0, bs[0].value)] + rest;
        forall i, j | 0 <= i < j < |calls| ensures calls[i].0 != calls[j].0 {
          assert calls[j] == rest[j - 1] && calls[j] in rest;
          if i > 0 {
            assert calls[i] == rest[i - 1];
          }
        }
      } else {
        assert calls == rest;
      }
    }
  }

  /** forEachValue calls every name not seen before whose first binding in `bs` is not Unit. */
  lemma {:induction false} ValueCallsComplete(bs: seq<Binding>, seen: set<string>, n: string)
    requires n !in seen && FirstNamed(bs, n).Some? && FirstNamed(bs, n).value.value != UnitValue
    ensures exists i | 0 <= i < |ValueCalls(bs, seen)| :: ValueCalls(bs, seen)[i].0 == n
  {
    var n0 := bs[0].name;
    var calls := ValueCalls(bs, seen);
    if n0 == n {
      assert calls[0].0 == n;
    } else {
      FirstNamedTail(bs, n);
      var seen' := if n0 in seen then seen else seen + {n0};
      ValueCallsComplete(bs[1..], seen', n);
      var rest := ValueCalls(bs[1..], seen');
      var k :| 0 <= k < |rest| && rest[k].0 == n;
      if n0 in seen || bs[0].value == UnitValue {
        assert calls[k].0 == n;
      } else {
        assert calls[k + 1].0 == n;
      }
    }
  }

  /** One step of forEachType's walk: the binding at `i` is reported unless its name was seen. */
  lemma TypeCallsStep(bs: seq<Binding>, i: nat, seen: set<string>)
    requires i < |bs|
    ensures TypeCalls(bs[i..], seen)
         == (if bs[i].name in seen then [] else [(bs[i].name, bs[i].typ)]) + TypeCalls(bs[i + 1..], seen + {bs[i].name})
  {
    assert bs[i..][0] == bs[i] && bs[i..][1..] == bs[i + 1..];
    if bs[i].name in seen {
      assert seen + {bs[i].name} == seen;
    }
  }

  /** One step of forEachValue's walk: the binding at `i` is reported unless its name was seen
    * or its value is Unit; either way its name is seen afterwards. */
  lemma ValueCallsStep(bs: seq<Binding>, i: nat, seen: set<string>)
    requires i < |bs|
    ensures ValueCalls(bs[i..], seen)
         == (if bs[i].name in seen || bs[i].value == UnitValue then [] else [(bs[i].name, bs[i].value)])
            + ValueCalls(bs[i + 1..], seen + {bs[i].name})
  {
    assert bs[i..][0] == bs[i] && bs[i..][1..] == bs[i + 1..];
    if bs[i].name in seen {
      assert seen + {bs[i].name} == seen;
    }
  }

  /** The loop of forEachType keeps "calls so far, then the calls still to come" equal to all calls. */
  lemma TypeCallsAdvance(bs: seq<Binding>, i: nat, seen: set<string>, calls: seq<(string, Type)>, total: seq<(string, Type)>)
    requires i < |bs| && calls + TypeCalls(bs[i..], seen) == total
    ensures (if bs[i].name in seen then calls else calls + [(bs[i].name, bs[i].typ)])
            + TypeCalls(bs[i + 1..], seen + {bs[i].name}) == total
  {
    var rest := TypeCalls(bs[i + 1..], seen + {bs[i].name});
    TypeCallsStep(bs, i, seen);
    if bs[i].name in seen {
      assert [] + rest == rest;
    } else {
      ConcatAssociates(calls, [(bs[i].name, bs[i].typ)], rest);
    }
  }

  /** The loop of forEachValue keeps the same equation. */
  lemma ValueCallsAdvance(bs: seq<Binding>, i: nat, seen: set<string>, calls: seq<(string, Value)>, total: seq<(string, Value)>)
    requires i < |bs| && calls + ValueCalls(bs[i..], seen) == total
    ensures (if bs[i].name in seen || bs[i].value == UnitValue then calls else calls + [(bs[i].name, bs[i].value)])
            + ValueCalls(bs[i + 1..], seen + {bs[i].name}) == total
  {
    var rest := ValueCalls(bs[i + 1..], seen + {bs[i].name});
    ValueCallsStep(bs, i, seen);
    if bs[i].name in seen || bs[i].value == UnitValue {
      assert [] + rest == rest;
    } else {
      ConcatAssociates(calls, [(bs[i].name, bs[i].value)], rest);
    }
  }

  /** forEachType: one call per distinct name, with the type of that name's newest binding. */
  method ForEachType(env: Environment) returns (calls: seq<(string, Type)>)
    ensures forall i, j | 0 <= i < j < |calls| :: calls[i].0 != calls[j].0
    ensures forall i | 0 <= i < |calls| ::
      GetOpt(env, calls[i].0).Some? && GetOpt(env, calls[i].0).value.typ == calls[i].1
    ensures forall n | GetOpt(env, n).Some? :: exists i | 0 <= i < |calls| :: calls[i].0 == n
  {
    var bs := Visit(env);
    var names: set<string> := {};
    calls := [];
    ghost var total := TypeCalls(bs, {});
    var i := 0;
    while i < |bs|
      invariant 0 <= i <= |bs|
      invariant calls + TypeCalls(bs[i..], names) == total
      decreases |bs| - i
    {
      var binding := bs[i];
      TypeCallsAdvance(bs, i, names, calls, total);
      if binding.name !in names {
        calls := calls + [(binding.name, binding.typ)];
      }
      names := names + {binding.name};
      i := i + 1;
    }
    assert bs[i..] == [] && calls + [] == calls;
    TypeCallsOfEnv(env, calls);
  }

  /** The calls forEachType makes on `env`, stated in terms of lookup. */
  lemma TypeCallsOfEnv(env: Environment, calls: seq<(string, Type)>)
    requires calls == TypeCalls(Visit(env), {})
    ensures && (forall i, j | 0 <= i < j < |calls| :: calls[i].0 != calls[j].0)
      && (forall i | 0 <= i < |calls| :: GetOpt(env, calls[i].0).Some? && GetOpt(env, calls[i].0).value.typ == calls[i].1)
      && (forall n | GetOpt(env, n).Some? :: exists i | 0 <= i < |calls| :: calls[i].0 == n)
  {
    var bs := Visit(env);
    TypeCallsSound(bs, {});
    assert NamesDistinct(calls);
    forall i | 0 <= i < |calls|
      ensures GetOpt(env, calls[i].0).Some? && GetOpt(env, calls[i].0).value.typ == calls[i].1
    {
      assert calls[i] in calls;
      GetOptIsFirstVisited(env, calls[i].0);
    }
    forall n | GetOpt(env, n).Some?
      ensures exists k | 0 <= k < |calls| :: calls[k].0 == n
    {
      GetOptIsFirstVisited(env, n);
      TypeCallsComplete(bs, {}, n);
    }
  }

  /** forEachValue: each name at most once, with its newest value; a name whose newest binding
    * holds Unit is skipped, and its older bindings are not reported either. */
  method ForEachValue(env: Environment) returns (calls: seq<(string, Value)>)
    ensures forall i, j | 0 <= i < j < |calls| :: calls[i].0 != calls[j].0
    ensures forall i | 0 <= i < |calls| ::
      GetOpt(env, calls[i].0).Some? && GetOpt(env, calls[i].0).value.value == calls[i].1 && calls[i].1 != UnitValue
    ensures forall n | GetOpt(env, n).Some? && GetOpt(env, n).value.value != UnitValue ::
      exists i | 0 <= i < |calls| :: calls[i].0 == n
  {
    var bs := Visit(env);
    var names: set<string> := {};
    calls := [];
    ghost var total := ValueCalls(bs, {});
    var i := 0;
    while i < |bs|
      invariant 0 <= i <= |bs|
      invariant calls + ValueCalls(bs[i..], names) == total
      decreases |bs| - i
    {
      var binding := bs[i];
      ValueCallsAdvance(bs, i, names, calls, total);
      if binding.name !in names && binding.value != UnitValue {
        calls := calls + [(binding.name, binding.value)];
      }
      names := names + {binding.name};
      i := i + 1;
    }
    assert bs[i..] == [] && calls + [] == calls;
    ValueCallsOfEnv(env, calls);
  }

  /** The calls forEachValue makes on `env`, stated in terms of lookup. */
  lemma ValueCallsOfEnv(env: Environment, calls: seq<(string, Value)>)
    requires calls == ValueCalls(Visit(env), {})
    ensures && (forall i, j | 0 <= i < j < |calls| :: calls[i].0 != calls[j].0)
      && (forall i | 0 <= i < |calls| ::
            GetOpt(env, calls[i].0).Some? && GetOpt(env, calls[i].0).value.value == calls[i].1 && calls[i].1 != UnitValue)
      && (forall n | GetOpt(env, n).Some? && GetOpt(env, n).value.value != UnitValue ::
            exists i | 0 <= i < |calls| :: calls[i].0 == n)
  {
    var bs := Visit(env);
    ValueCallsSound(bs, {});
    assert NamesDistinct(calls);
    forall i | 0 <= i < |calls|
      ensures GetOpt(env, calls[i].0).Some? && GetOpt(env, calls[i].0).value.value == calls[i].1 && calls[i].1 != UnitValue
    {
      assert calls[i] in calls;
      GetOptIsFirstVisited(env, calls[i].0);
    }
    forall n | GetOpt(env, n).Some? && GetOpt(env, n).value.value != UnitValue
      ensures exists k | 0 <= k < |calls| :: calls[k].0 == n
    {
      GetOptIsFirstVisited(env, n);
      ValueCallsComplete(bs, {}, n);
    }
  }

  /** getValueMap: every bound name mapped to its newest binding, and nothing else. */
  method GetValueMap(env: Environment) returns (valueMap: map<string, Binding>)
    ensures forall n :: n in valueMap <==> GetOpt(env, n).Some?
    ensures forall n | n in valueMap :: valueMap[n] == GetOpt(env, n).value
  {
    var bs := Visit(env);
    valueMap := map[];
    var i := 0;
    while i < |bs|
      invariant 0 <= i <= |bs|
      invariant forall n :: n in valueMap <==> FirstNamed(bs[..i], n).Some?
      invariant forall n | n in valueMap :: valueMap[n] == FirstNamed(bs[..i], n).value
      decreases |bs| - i
    {
      var binding := bs[i];
      forall n ensures FirstNamed(bs[..i + 1], n) == if FirstNamed(bs[..i], n).Some? then FirstNamed(bs[..i], n)
                                                   else if binding.name == n then Some(binding) else None {
        FirstNamedSnoc(bs, i, n);
      }
      if binding.name !in valueMap {
        valueMap := valueMap[binding.name := binding];
      }
      i := i + 1;
    }
    assert bs[..i] == bs;
    forall n ensures GetOpt(env, n) == FirstNamed(bs, n) {
      GetOptIsFirstVisited(env, n);
    }
  }

  // ---------------------------------------------------------------------------
  // Binding a batch

  /** The batch bound one at a time with `Bind`, in order. */
  function BindEach(env: Environment, bindings: seq<Binding>): Environment
  {
    if |bindings| == 0 then env
    else
      var last := bindings[|bindings| - 1];
      Bind(BindEach(env, bindings[..|bindings| - 1]), last.name, last.typ, last.value)
  }

  /** The sequence backwards. */
  function Reverse(bs: seq<Binding>): (r: seq<Binding>)
    ensures |r| == |bs| && forall i | 0 <= i < |bs| :: r[i] == bs[|bs| - 1 - i]
  {
    if |bs| == 0 then [] else [bs[|bs| - 1]] + Reverse(bs[..|bs| - 1])
  }

  /** Binding one at a time: the last binding of a name in the batch wins, other names come from
    * the parent, and the batch is visited newest first. */
  lemma {:induction false} BindEachMeaning(env: Environment, bindings: seq<Binding>)
    ensures forall n :: GetOpt(BindEach(env, bindings), n)
                     == if LastNamed(bindings, n).Some? then LastNamed(bindings, n) else GetOpt(env, n)
    ensures Visit(BindEach(env, bindings)) == Reverse(bindings) + Visit(env)
  {
    if |bindings| > 0 {
      BindEachMeaning(env, bindings[..|bindings| - 1]);
      var last := bindings[|bindings| - 1];
      assert Reverse(bindings) == [last] + Reverse(bindings[..|bindings| - 1]);
    }
  }

  /** With distinct names the last binding of a name is its first. */
  lemma {:induction false} LastIsFirstWhenDistinct(bs: seq<Binding>, name: string)
    requires DistinctNames(bs)
    ensures LastNamed(bs, name) == FirstNamed(bs, name)
  {
    if FirstNamed(bs, name).Some? {
      var i :| 0 <= i < |bs| && bs[i] == FirstNamed(bs, name).value;
      assert LastNamed(bs, name).Some?;
      var j :| 0 <= j < |bs| && bs[j] == LastNamed(bs, name).value;
      assert bs[i].name == name == bs[j].name;
      assert i == j;
    }
  }

  /**
   * Environments.bind(env, bindings): fewer than five bindings are chained one by one, in
   * iteration order; five or more become one map-backed node, whose builder rejects a
   * repeated name. Either way a name takes its newest binding from the batch, else from `env`.
   */
  method BindBatch(env: Environment, bindings: seq<Binding>) returns (r: Result<Environment>)
    ensures r.Ok? <==> |bindings| < 5 || DistinctNames(bindings)
    ensures r.Ok? ==> forall n :: GetOpt(r.value, n)
                              == if LastNamed(bindings, n).Some? then LastNamed(bindings, n) else GetOpt(env, n)
    ensures r.Ok? ==> Visit(r.value) == (if |bindings| < 5 then Reverse(bindings) else bindings) + Visit(env)
  {
    if |bindings| < 5 {
      var e := env;
      var i := 0;
      while i < |bindings|
        invariant 0 <= i <= |bindings|
        invariant e == BindEach(env, bindings[..i])
        decreases |bindings| - i
      {
        assert bindings[..i + 1][..i] == bindings[..i];
        e := Bind(e, bindings[i].name, bindings[i].typ, bindings[i].value);
        i := i + 1;
      }
      assert bindings[..i] == bindings;
      BindEachMeaning(env, bindings);
      return Ok(e);
    }
    var names: set<string> := {};
    var i := 0;
    var duplicate := false;
    while i < |bindings|
      invariant 0 <= i <= |bindings|
      invariant names == set k | 0 <= k < i :: bindings[k].name
      invariant duplicate <==> !DistinctNames(bindings[..i])
      decreases |bindings| - i
    {
      if bindings[i].name in names {
        var k :| 0 <= k < i && bindings[k].name == bindings[i].name;
        assert bindings[..i + 1][k].name == bindings[..i + 1][i].name;
        duplicate := true;
      }
      names := names + {bindings[i].name};
      i := i + 1;
    }
    assert bindings[..i] == bindings;
    if duplicate {
      return Err("IllegalArgumentException");
    }
    var m := MapEnvironment(env, bindings);
    forall n ensures LastNamed(bindings, n) == FirstNamed(bindings, n) {
      LastIsFirstWhenDistinct(bindings, n);
    }
    return Ok(m);
  }

  /** bindAll: delegates to the batch bind. */
  method BindAll(env: Environment, bindings: seq<Binding>) returns (r: Result<Environment>)
    ensures r.Ok? <==> |bindings| < 5 || DistinctNames(bindings)
    ensures r.Ok? ==> forall n :: GetOpt(r.value, n)
                              == if LastNamed(bindings, n).Some? then LastNamed(bindings, n) else GetOpt(env, n)
  {
    r := BindBatch(env, bindings);
  }

  /** For distinct names, a bulk bind of any size is looked up exactly like binding the names one by one. */
  lemma BulkBindAgreesWithOneByOne(env: Environment, bindings: seq<Binding>, n: string)
    requires DistinctNames(bindings)
    ensures GetOpt(MapEnvironment(env, bindings), n) == GetOpt(BindEach(env, bindings), n)
  {
    BindEachMeaning(env, bindings);
    LastIsFirstWhenDistinct(bindings, n);
  }
}

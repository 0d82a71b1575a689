/**
  Normalization as the source carries it out: a local set filled element by element, and signatures
  whose fields are replaced one after the other.
 */
module NormalizeSteps {
  import opened Ordering
  import opened Types
  import opened Normalization

  function Prepend<T>(done: seq<T>, rest: Result<seq<T>>): Result<seq<T>> {
    if rest.Ok? then Ok(done + rest.value) else rest
  }

  lemma PrependEnds<T>(done: seq<T>, rest: Result<seq<T>>)
    ensures Prepend([], rest) == rest && Prepend(done, Ok([])) == Ok(done)
  {
    assert done + [] == done;
    if rest.Ok? { assert [] + rest.value == rest.value; }
  }

  lemma {:induction false} IncludeAllAppend(xs: seq<StaticType>, ys: seq<StaticType>, s: seq<StaticType>)
    ensures IncludeAll(xs + ys, s, TypeKey) == IncludeAll(ys, IncludeAll(xs, s, TypeKey), TypeKey)
  {
    if xs == [] {
      assert xs + ys == ys;
    } else {
      assert (xs + ys)[0] == xs[0] && (xs + ys)[1..] == xs[1..] + ys;
      IncludeAllAppend(xs[1..], ys, Include(xs[0], s, TypeKey));
    }
  }

  lemma {:induction false} FlattenAppend(ts: seq<StaticType>, t: StaticType)
    ensures Flatten(ts + [t]) == Flatten(ts) + Members(t)
  {
    if ts == [] {
      assert ts + [t] == [t];
      assert [t][1..] == [];
    } else {
      assert (ts + [t])[0] == ts[0] && (ts + [t])[1..] == ts[1..] + [t];
      FlattenAppend(ts[1..], t);
    }
  }

  lemma EachStep(es: seq<StaticType>, depth: nat, i: nat, done: seq<StaticType>, n: Result<StaticType>)
    requires i < |es| && n == NormalizeAtDepth(es[i], depth)
    requires NormalizeEach(es, depth) == Prepend(done, NormalizeEach(es[i..], depth))
    ensures n.Err? ==> NormalizeEach(es, depth) == Err(n.error)
    ensures n.Ok? ==> NormalizeEach(es, depth) == Prepend(done + [n.value], NormalizeEach(es[i + 1..], depth))
  {
    assert es[i..][0] == es[i] && es[i..][1..] == es[i + 1..];
    if n.Ok? && NormalizeEach(es[i + 1..], depth).Ok? {
      var rest := NormalizeEach(es[i + 1..], depth).value;
      assert (done + [n.value]) + rest == done + ([n.value] + rest);
    }
  }

  lemma ParameterStep(ps: seq<ParameterTypeFact>, depth: nat, i: nat, done: seq<ParameterTypeFact>,
                      v: Result<StaticType>, d: Result<DefaultFact>)
    requires i < |ps| && v == NormalizeAtDepth(ps[i].valueType, depth) && d == NormalizeDefault(ps[i].default, depth)
    requires NormalizeParameters(ps, depth) == Prepend(done, NormalizeParameters(ps[i..], depth))
    ensures v.Err? ==> NormalizeParameters(ps, depth) == Err(v.error)
    ensures v.Ok? && d.Err? ==> NormalizeParameters(ps, depth) == Err(d.error)
    ensures v.Ok? && d.Ok? ==>
              var p := ps[i].(valueType := v.value, default := d.value);
              NormalizeParameters(ps, depth) == Prepend(done + [p], NormalizeParameters(ps[i + 1..], depth))
  {
    assert ps[i..][0] == ps[i] && ps[i..][1..] == ps[i + 1..];
    if v.Ok? && d.Ok? && NormalizeParameters(ps[i + 1..], depth).Ok? {
      var p, rest := ps[i].(valueType := v.value, default := d.value), NormalizeParameters(ps[i + 1..], depth).value;
      assert (done + [p]) + rest == done + ([p] + rest);
    }
  }

  method Normalize(t: StaticType, depth: nat) returns (r: Result<StaticType>)
    ensures r == NormalizeAtDepth(t, depth)
    decreases Rank(depth), 0, 1
  {
    if depth > 64 {
      return Err(TooDeep);
    }
    match t {
      case Optional(e) =>
        r := Normalize(Union([e, NoneType]), depth + 1);
      case Union(es) =>
        r := NormalizeUnion(es, depth);
      case Literal(LiteralNone) =>
        r := Ok(NoneType);
      case Callable(s) =>
        var s' := NormalizeSignatureFields(s, depth + 1);
        r := if s'.Ok? then Ok(Callable(s'.value)) else Err(s'.error);
      case TypeVariable(_, _, _) =>
        r := NormalizeVariable(t, depth);
      case _ =>
        r := Ok(t);
    }
  }

  /** Each normalized element, or each member of a nested union, goes into one sorted set. */
  method NormalizeUnion(es: seq<StaticType>, depth: nat) returns (r: Result<StaticType>)
    requires depth <= 64
    ensures r == NormalizeAtDepth(Union(es), depth)
    decreases Rank(depth), 0, 0
  {
    if es == [] {
      return Err(EmptyUnion);
    }
    var normalized: seq<StaticType> := [];
    ghost var done: seq<StaticType> := [];
    assert es[0..] == es;
    PrependEnds(done, NormalizeEach(es, depth + 1));
    for i := 0 to |es|
      invariant NormalizeEach(es, depth + 1) == Prepend(done, NormalizeEach(es[i..], depth + 1))
      invariant normalized == IncludeAll(Flatten(done), [], TypeKey)
    {
      var n := Normalize(es[i], depth + 1);
      EachStep(es, depth + 1, i, done, n);
      if n.Err? {
        return Err(n.error);
      }
      FlattenAppend(done, n.value);
      IncludeAllAppend(Flatten(done), Members(n.value), []);
      normalized := IncludeAll(Members(n.value), normalized, TypeKey);
      done := done + [n.value];
    }
    PrependEnds(done, Ok([]));
    r := Ok(if |normalized| == 1 then normalized[0] else Union(normalized));
  }

  method NormalizeVariable(t: StaticType, depth: nat) returns (r: Result<StaticType>)
    requires t.TypeVariable? && depth <= 64
    ensures r == NormalizeAtDepth(t, depth)
    decreases Rank(depth), 0, 0
  {
    var bound := t.upperBound;
    if bound.Some? {
      var n := Normalize(bound.value, depth + 1);
      if n.Err? {
        return Err(n.error);
      }
      bound := Some(n.value);
    }
    var cs := t.constraints;
    var constraints: seq<StaticType> := [];
    assert cs[0..] == cs;
    PrependEnds(constraints, NormalizeEach(cs, depth + 1));
    for i := 0 to |cs|
      invariant NormalizeEach(cs, depth + 1) == Prepend(constraints, NormalizeEach(cs[i..], depth + 1))
    {
      var n := Normalize(cs[i], depth + 1);
      EachStep(cs, depth + 1, i, constraints, n);
      if n.Err? {
        return Err(n.error);
      }
      constraints := constraints + [n.value];
    }
    PrependEnds(constraints, Ok([]));
    r := Ok(TypeVariable(t.binder, bound, Dedup(SortBy(constraints, TypeKey))));
  }

  method NormalizeSignatureFields(s: CallableSignature, depth: nat) returns (r: Result<CallableSignature>)
    ensures r == NormalizeSignature(s, depth)
    decreases Rank(depth), 4, 0
  {
    var returnType := Normalize(s.returnType, depth + 1);
    if returnType.Err? {
      return Err(returnType.error);
    }
    var parameters := NormalizeParameterFields(s.parameters, depth + 1);
    if parameters.Err? {
      return Err(parameters.error);
    }
    r := Ok(s.(returnType := returnType.value, parameters := parameters.value));
  }

  method NormalizeParameterFields(ps: seq<ParameterTypeFact>, depth: nat) returns (r: Result<seq<ParameterTypeFact>>)
    ensures r == NormalizeParameters(ps, depth)
    decreases Rank(depth), 3, |ps|
  {
    var parameters := ps;
    ghost var done: seq<ParameterTypeFact> := [];
    assert ps[0..] == ps;
    PrependEnds(done, NormalizeParameters(ps, depth));
    for i := 0 to |ps|
      invariant |done| == i && |parameters| == |ps|
      invariant forall k :: 0 <= k < |ps| ==> parameters[k] == if k < i then done[k] else ps[k]
      invariant NormalizeParameters(ps, depth) == Prepend(done, NormalizeParameters(ps[i..], depth))
    {
      var valueType := Normalize(parameters[i].valueType, depth);
      ParameterStep(ps, depth, i, done, valueType, NormalizeDefault(ps[i].default, depth));
      if valueType.Err? {
        return Err(valueType.error);
      }
      parameters := parameters[i := parameters[i].(valueType := valueType.value)];
      var default := NormalizeDefaultField(parameters[i].default, depth);
      if default.Err? {
        return Err(default.error);
      }
      parameters := parameters[i := parameters[i].(default := default.value)];
      done := done + [parameters[i]];
    }
    PrependEnds(done, Ok([]));
    assert parameters == done;
    r := Ok(parameters);
  }

  method NormalizeDefaultField(d: DefaultFact, depth: nat) returns (r: Result<DefaultFact>)
    ensures r == NormalizeDefault(d, depth)
    decreases Rank(depth), 2, 0
  {
    r := Ok(d);
    match d {
      case DefaultValue(v, _) =>
        var n := Normalize(v, depth + 1);
        r := if n.Ok? then Ok(d.(valueType := n.value)) else Err(n.error);
      case DefaultFactory(_, f) =>
        var n := Normalize(f, depth + 1);
        r := if n.Ok? then Ok(d.(returnType := n.value)) else Err(n.error);
      case _ =>
    }
  }
}

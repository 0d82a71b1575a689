/**
  Canonicalization of static types: unions are flattened, sorted and deduplicated, `Optional`
  becomes a union with `None`, and nesting deeper than 64 is refused.

  The recursion is not structural, since `Optional` is rewritten into a fresh union; the depth is
  what bounds it. `Norm` is the same rewriting without the bound, `Fits` says when the bound is met,
  and `NormalizeExact` connects the three.
 */
module Normalization {
  import opened Ordering
  import opened Types

  datatype TypeError = TooDeep | EmptyUnion

  datatype Result<+T> = Ok(value: T) | Err(error: TypeError) {
    predicate IsFailure() { Err? }
    function PropagateFailure<U>(): Result<U> requires Err? { Err(error) }
    function Extract(): T requires Ok? { value }
  }

  // ----- Building a union -----

  function Members(t: StaticType): seq<StaticType> {
    if t.Union? then t.elements else [t]
  }

  function Flatten(ts: seq<StaticType>): seq<StaticType> {
    if ts == [] then [] else Members(ts[0]) + Flatten(ts[1..])
  }

  function AsUnion(ts: seq<StaticType>): StaticType {
    if |ts| == 1 then ts[0] else Union(ts)
  }

  function Assemble(ts: seq<StaticType>): StaticType {
    AsUnion(IncludeAll(Flatten(ts), [], TypeKey))
  }

  lemma {:induction false} FlattenMembers(ts: seq<StaticType>, y: StaticType)
    ensures y in Flatten(ts) <==> exists i :: 0 <= i < |ts| && y in Members(ts[i])
  {
    if ts == [] {
    } else {
      FlattenMembers(ts[1..], y);
      if y in Flatten(ts[1..]) {
        var i :| 0 <= i < |ts[1..]| && y in Members(ts[1..][i]);
        assert y in Members(ts[i + 1]);
      }
      if exists i :: 0 <= i < |ts| && y in Members(ts[i]) {
        var i :| 0 <= i < |ts| && y in Members(ts[i]);
        if i > 0 { assert y in Members(ts[1..][i - 1]); }
      }
    }
  }

  /** No union directly inside a union. */
  predicate Flat(t: StaticType) {
    t.Union? ==> forall i :: 0 <= i < |t.elements| ==> !t.elements[i].Union?
  }

  /** The members of the assembled union are those of the parts, sorted and without repetition. */
  lemma AssembleMembers(ts: seq<StaticType>)
    requires forall i :: 0 <= i < |ts| ==> Flat(ts[i])
    ensures Strict(Members(Assemble(ts)), TypeKey) && Flat(Assemble(ts))
    ensures forall y :: y in Members(Assemble(ts)) <==> exists i :: 0 <= i < |ts| && y in Members(ts[i])
    ensures Assemble(ts).Union? ==> |Assemble(ts).elements| != 1
  {
    TypeKeyIsInjective();
    IncludeAllFacts(Flatten(ts), [], TypeKey);
    var es := IncludeAll(Flatten(ts), [], TypeKey);
    forall y ensures y in es <==> exists i :: 0 <= i < |ts| && y in Members(ts[i]) {
      FlattenMembers(ts, y);
    }
    forall y | y in es ensures !y.Union? {
      var i :| 0 <= i < |ts| && y in Members(ts[i]);
    }
    if |es| == 1 {
      assert es[0] in es;
    }
  }

  // ----- The bounded rewriting -----

  function Rank(depth: nat): nat {
    if depth > 64 then 0 else 65 - depth
  }

  function NormalizeAtDepth(t: StaticType, depth: nat): Result<StaticType>
    decreases Rank(depth), 0, 0
  {
    if depth > 64 then Err(TooDeep)
    else
      match t
      case Optional(e) => NormalizeAtDepth(Union([e, NoneType]), depth + 1)
      case Union(es) =>
        if es == [] then Err(EmptyUnion)
        else
          var ns :- NormalizeEach(es, depth + 1);
          Ok(Assemble(ns))
      case Literal(LiteralNone) => Ok(NoneType)
      case Callable(s) =>
        var s' :- NormalizeSignature(s, depth + 1);
        Ok(Callable(s'))
      case TypeVariable(binder, bound, cs) =>
        var bound' :- NormalizeBound(bound, depth + 1);
        var cs' :- NormalizeEach(cs, depth + 1);
        Ok(TypeVariable(binder, bound', SortedSet(cs', TypeKey)))
      case _ => Ok(t)
  }

  function NormalizeEach(ts: seq<StaticType>, depth: nat): (r: Result<seq<StaticType>>)
    decreases Rank(depth), 1, |ts|
  {
    if ts == [] then Ok([])
    else
      var n :- NormalizeAtDepth(ts[0], depth);
      var ns :- NormalizeEach(ts[1..], depth);
      Ok([n] + ns)
  }

  function NormalizeBound(bound: Option<StaticType>, depth: nat): Result<Option<StaticType>>
    decreases Rank(depth), 1, 0
  {
    if bound.None? then Ok(Option.None)
    else
      var n :- NormalizeAtDepth(bound.value, depth);
      Ok(Some(n))
  }

  function NormalizeSignature(s: CallableSignature, depth: nat): Result<CallableSignature>
    decreases Rank(depth), 4, 0
  {
    var returnType :- NormalizeAtDepth(s.returnType, depth + 1);
    var parameters :- NormalizeParameters(s.parameters, depth + 1);
    Ok(s.(returnType := returnType, parameters := parameters))
  }

  function NormalizeParameters(ps: seq<ParameterTypeFact>, depth: nat): Result<seq<ParameterTypeFact>>
    decreases Rank(depth), 3, |ps|
  {
    if ps == [] then Ok([])
    else
      var valueType :- NormalizeAtDepth(ps[0].valueType, depth);
      var default :- NormalizeDefault(ps[0].default, depth);
      var rest :- NormalizeParameters(ps[1..], depth);
      Ok([ps[0].(valueType := valueType, default := default)] + rest)
  }

  function NormalizeDefault(d: DefaultFact, depth: nat): Result<DefaultFact>
    decreases Rank(depth), 2, 0
  {
    match d
    case DefaultValue(v, _) =>
      var v' :- NormalizeAtDepth(v, depth + 1);
      Ok(d.(valueType := v'))
    case DefaultFactory(_, r) =>
      var r' :- NormalizeAtDepth(r, depth + 1);
      Ok(d.(returnType := r'))
    case _ => Ok(d)
  }

  function Normalized(t: StaticType): Result<StaticType> {
    NormalizeAtDepth(t, 0)
  }

  // ----- The rewriting without the bound -----

  function Norm(t: StaticType): StaticType
    decreases t
  {
    match t
    case Optional(e) => Assemble([Norm(e), NoneType])
    case Union(es) => Assemble(NormEach(es))
    case Literal(LiteralNone) => NoneType
    case Callable(s) => Callable(NormSignature(s))
    case TypeVariable(binder, bound, cs) =>
      TypeVariable(binder, if bound.None? then bound else Some(Norm(bound.value)), SortedSet(NormEach(cs), TypeKey))
    case _ => t
  }

  function NormEach(ts: seq<StaticType>): (ns: seq<StaticType>)
    ensures |ns| == |ts|
    decreases ts
  {
    seq(|ts|, i requires 0 <= i < |ts| => Norm(ts[i]))
  }

  function NormSignature(s: CallableSignature): CallableSignature
    decreases s
  {
    s.(returnType := Norm(s.returnType), parameters := NormParameters(s.parameters))
  }

  function NormParameters(ps: seq<ParameterTypeFact>): (ns: seq<ParameterTypeFact>)
    ensures |ns| == |ps|
    decreases ps
  {
    seq(|ps|, i requires 0 <= i < |ps| => NormParameter(ps[i]))
  }

  function NormParameter(p: ParameterTypeFact): ParameterTypeFact
    decreases p
  {
    p.(valueType := Norm(p.valueType), default := NormDefault(p.default))
  }

  function NormDefault(d: DefaultFact): DefaultFact
    decreases d
  {
    match d
    case DefaultValue(v, _) => d.(valueType := Norm(v))
    case DefaultFactory(_, r) => d.(returnType := Norm(r))
    case _ => d
  }

  /** The nesting below `t` needs no more than `b` levels, and no union in it is empty. */
  predicate Fits(t: StaticType, b: int)
    decreases t
  {
    && b >= 0
    && match t
       case Optional(e) => b >= 2 && Fits(e, b - 2)
       case Union(es) => es != [] && forall i :: 0 <= i < |es| ==> Fits(es[i], b - 1)
       case Callable(s) => FitsSignature(s, b - 1)
       case TypeVariable(_, bound, cs) =>
         && (bound.Some? ==> Fits(bound.value, b - 1))
         && forall i :: 0 <= i < |cs| ==> Fits(cs[i], b - 1)
       case _ => true
  }

  predicate FitsSignature(s: CallableSignature, b: int)
    decreases s
  {
    Fits(s.returnType, b - 1) && forall i :: 0 <= i < |s.parameters| ==> FitsParameter(s.parameters[i], b - 1)
  }

  predicate FitsParameter(p: ParameterTypeFact, b: int)
    decreases p
  {
    Fits(p.valueType, b) && FitsDefault(p.default, b)
  }

  predicate FitsDefault(d: DefaultFact, b: int)
    decreases d
  {
    match d
    case DefaultValue(v, _) => Fits(v, b - 1)
    case DefaultFactory(_, r) => Fits(r, b - 1)
    case _ => true
  }

  lemma LeafExact(t: StaticType, depth: nat)
    requires depth > 64 || !(t.Optional? || t.Union? || t.Callable? || t.TypeVariable?)
    ensures Exact(t, depth)
  {
  }

  /**
    Normalization succeeds exactly when the nesting fits into what the depth leaves of 64 and no
    union is empty; the result then does not depend on the depth.
   */
  lemma {:induction false} NormalizeExact(t: StaticType, depth: nat)
    ensures Exact(t, depth)
    decreases Rank(depth), 0, 1
  {
    hide Exact, Fits, Norm;
    if depth > 64 {
      LeafExact(t, depth);
    } else {
      match t {
        case Optional(e) =>
          NormalizeExact(Union([e, NoneType]), depth + 1);
          OptionalAsUnion(e, 64 - depth);
          OptionalExact(e, depth);
        case Union(es) => NormalizeUnionExact(es, depth);
        case Callable(s) => NormalizeCallableExact(s, depth);
        case TypeVariable(binder, bound, cs) => NormalizeVariableExact(binder, bound, cs, depth);
        case _ => LeafExact(t, depth);
      }
    }
  }

  ghost predicate Exact(t: StaticType, depth: nat) {
    && (NormalizeAtDepth(t, depth).Ok? <==> Fits(t, 64 - depth))
    && (NormalizeAtDepth(t, depth).Ok? ==> NormalizeAtDepth(t, depth).value == Norm(t))
  }

  lemma {:induction false} OptionalExact(e: StaticType, depth: nat)
    requires depth <= 64 && Exact(Union([e, NoneType]), depth + 1)
    requires Fits(Optional(e), 64 - depth) <==> Fits(Union([e, NoneType]), 64 - depth - 1)
    requires Norm(Optional(e)) == Norm(Union([e, NoneType]))
    ensures Exact(Optional(e), depth)
  {
  }

  lemma {:induction false} NormalizeUnionExact(es: seq<StaticType>, depth: nat)
    requires depth <= 64
    ensures Exact(Union(es), depth)
    decreases Rank(depth), 0, 0
  {
    NormalizeEachExact(es, depth + 1);
  }

  lemma {:induction false} NormalizeCallableExact(s: CallableSignature, depth: nat)
    requires depth <= 64
    ensures Exact(Callable(s), depth)
    decreases Rank(depth), 0, 0
  {
    NormalizeSignatureExact(s, depth + 1);
  }

  lemma {:induction false} NormalizeVariableExact(
    binder: SourceIdentity, bound: Option<StaticType>, cs: seq<StaticType>, depth: nat)
    requires depth <= 64
    ensures Exact(TypeVariable(binder, bound, cs), depth)
    decreases Rank(depth), 0, 0
  {
    hide SortedSet, NormalizeBound, NormalizeEach;
    NormalizeBoundExact(bound, depth + 1);
    NormalizeEachExact(cs, depth + 1);
  }

  lemma {:induction false} NormalizeBoundExact(bound: Option<StaticType>, depth: nat)
    ensures NormalizeBound(bound, depth).Ok? <==> (bound.Some? ==> Fits(bound.value, 64 - depth))
    ensures NormalizeBound(bound, depth).Ok? ==>
              NormalizeBound(bound, depth).value == if bound.None? then bound else Some(Norm(bound.value))
    decreases Rank(depth), 1, 0
  {
    if bound.Some? { NormalizeExact(bound.value, depth); }
  }

  lemma OptionalAsUnion(e: StaticType, b: int)
    ensures Fits(Optional(e), b) <==> b >= 0 && Fits(Union([e, NoneType]), b - 1)
    ensures Norm(Optional(e)) == Norm(Union([e, NoneType]))
  {
    var es := [e, NoneType];
    assert es[0] == e && es[1] == NoneType;
    assert NormEach(es) == [Norm(e), NoneType];
  }

  lemma {:induction false} NormalizeEachExact(ts: seq<StaticType>, depth: nat)
    ensures NormalizeEach(ts, depth).Ok? <==> forall i :: 0 <= i < |ts| ==> Fits(ts[i], 64 - depth)
    ensures NormalizeEach(ts, depth).Ok? ==> NormalizeEach(ts, depth).value == NormEach(ts)
    decreases Rank(depth), 1, |ts|
  {
    if ts == [] {
    } else {
      var rest := ts[1..];
      NormalizeExact(ts[0], depth);
      NormalizeEachExact(rest, depth);
      assert NormEach(ts) == [Norm(ts[0])] + NormEach(rest);
      if forall i :: 0 <= i < |rest| ==> Fits(rest[i], 64 - depth) {
        forall i | 0 < i < |ts| ensures Fits(ts[i], 64 - depth) { assert ts[i] == rest[i - 1]; }
      }
      if forall i :: 0 <= i < |ts| ==> Fits(ts[i], 64 - depth) {
        forall i | 0 <= i < |rest| ensures Fits(rest[i], 64 - depth) { assert rest[i] == ts[i + 1]; }
      }
    }
  }

  lemma {:induction false} NormalizeSignatureExact(s: CallableSignature, depth: nat)
    ensures NormalizeSignature(s, depth).Ok? <==> FitsSignature(s, 64 - depth)
    ensures NormalizeSignature(s, depth).Ok? ==> NormalizeSignature(s, depth).value == NormSignature(s)
    decreases Rank(depth), 4, 0
  {
    NormalizeExact(s.returnType, depth + 1);
    NormalizeParametersExact(s.parameters, depth + 1);
  }

  lemma {:induction false} NormalizeParametersExact(ps: seq<ParameterTypeFact>, depth: nat)
    ensures NormalizeParameters(ps, depth).Ok? <==> forall i :: 0 <= i < |ps| ==> FitsParameter(ps[i], 64 - depth)
    ensures NormalizeParameters(ps, depth).Ok? ==> NormalizeParameters(ps, depth).value == NormParameters(ps)
    decreases Rank(depth), 3, |ps|
  {
    if ps == [] {
    } else {
      var rest := ps[1..];
      NormalizeExact(ps[0].valueType, depth);
      NormalizeDefaultExact(ps[0].default, depth);
      NormalizeParametersExact(rest, depth);
      assert NormParameters(ps) == [NormParameter(ps[0])] + NormParameters(rest);
      if forall i :: 0 <= i < |rest| ==> FitsParameter(rest[i], 64 - depth) {
        forall i | 0 < i < |ps| ensures FitsParameter(ps[i], 64 - depth) { assert ps[i] == rest[i - 1]; }
      }
      if forall i :: 0 <= i < |ps| ==> FitsParameter(ps[i], 64 - depth) {
        forall i | 0 <= i < |rest| ensures FitsParameter(rest[i], 64 - depth) { assert rest[i] == ps[i + 1]; }
      }
    }
  }

  lemma {:induction false} NormalizeDefaultExact(d: DefaultFact, depth: nat)
    ensures NormalizeDefault(d, depth).Ok? <==> FitsDefault(d, 64 - depth)
    ensures NormalizeDefault(d, depth).Ok? ==> NormalizeDefault(d, depth).value == NormDefault(d)
    decreases Rank(depth), 2, 0
  {
    match d {
      case DefaultValue(v, _) => NormalizeExact(v, depth + 1);
      case DefaultFactory(_, r) => NormalizeExact(r, depth + 1);
      case _ =>
    }
  }

  // ----- The canonical form -----

  /** No `Optional`, no literal `None`, no one-element or nested union; unions and constraints sorted. */
  ghost predicate Normal(t: StaticType)
    decreases t
  {
    match t
    case Optional(_) => false
    case Union(es) =>
      && |es| >= 2 && Flat(t) && Strict(es, TypeKey)
      && forall i :: 0 <= i < |es| ==> Normal(es[i])
    case Literal(v) => !v.LiteralNone?
    case Callable(s) => NormalSignature(s)
    case TypeVariable(_, bound, cs) =>
      && (bound.Some? ==> Normal(bound.value))
      && Strict(cs, TypeKey)
      && forall i :: 0 <= i < |cs| ==> Normal(cs[i])
    case _ => true
  }

  ghost predicate NormalSignature(s: CallableSignature)
    decreases s
  {
    Normal(s.returnType) && forall i :: 0 <= i < |s.parameters| ==> NormalParameter(s.parameters[i])
  }

  ghost predicate NormalParameter(p: ParameterTypeFact)
    decreases p
  {
    Normal(p.valueType) && NormalDefault(p.default)
  }

  ghost predicate NormalDefault(d: DefaultFact)
    decreases d
  {
    match d
    case DefaultValue(v, _) => Normal(v)
    case DefaultFactory(_, r) => Normal(r)
    case _ => true
  }

  lemma {:induction false} FitsMore(t: StaticType, b: int, b': int)
    requires Fits(t, b) && b <= b'
    ensures Fits(t, b')
    decreases t
  {
    match t {
      case Optional(e) => FitsMore(e, b - 2, b' - 2);
      case Union(es) =>
        forall i | 0 <= i < |es| ensures Fits(es[i], b' - 1) { FitsMore(es[i], b - 1, b' - 1); }
      case Callable(s) => FitsMoreSignature(s, b - 1, b' - 1);
      case TypeVariable(_, bound, cs) =>
        if bound.Some? { FitsMore(bound.value, b - 1, b' - 1); }
        forall i | 0 <= i < |cs| ensures Fits(cs[i], b' - 1) { FitsMore(cs[i], b - 1, b' - 1); }
      case _ =>
    }
  }

  lemma {:induction false} FitsMoreSignature(s: CallableSignature, b: int, b': int)
    requires FitsSignature(s, b) && b <= b'
    ensures FitsSignature(s, b')
    decreases s
  {
    FitsMore(s.returnType, b - 1, b' - 1);
    forall i | 0 <= i < |s.parameters| ensures FitsParameter(s.parameters[i], b' - 1) {
      var p := s.parameters[i];
      assert FitsParameter(p, b - 1);
      FitsMore(p.valueType, b - 1, b' - 1);
      FitsMoreDefault(p.default, b - 1, b' - 1);
    }
  }

  lemma {:induction false} FitsMoreDefault(d: DefaultFact, b: int, b': int)
    requires FitsDefault(d, b) && b <= b'
    ensures FitsDefault(d, b')
    decreases d
  {
    match d {
      case DefaultValue(v, _) => FitsMore(v, b - 1, b' - 1);
      case DefaultFactory(_, r) => FitsMore(r, b - 1, b' - 1);
      case _ =>
    }
  }

  ghost predicate Canonical(t: StaticType, b: int) {
    Normal(t) && Fits(t, b)
  }

  lemma NormalFlat(t: StaticType)
    requires Normal(t)
    ensures Flat(t)
  {
  }

  /** Assembling canonical parts gives a canonical union. */
  lemma {:induction false} AssembleCanonical(ts: seq<StaticType>, b: int)
    requires ts != [] && b >= 1 && forall i :: 0 <= i < |ts| ==> Canonical(ts[i], b - 1)
    ensures Canonical(Assemble(ts), b)
  {
    hide Normal, Fits, Assemble;
    forall i | 0 <= i < |ts| ensures Flat(ts[i]) { NormalFlat(ts[i]); }
    AssembleMembers(ts);
    forall y | y in Members(Assemble(ts)) ensures Canonical(y, b - 1) {
      var i :| 0 <= i < |ts| && y in Members(ts[i]);
      MemberCanonical(ts[i], y, b - 1);
    }
    MemberExists(ts[0], b - 1);
    var y :| y in Members(ts[0]);
    UnionCanonical(Assemble(ts), y, b);
  }

  lemma UnionCanonical(r: StaticType, y: StaticType, b: int)
    requires b >= 1 && Flat(r) && Strict(Members(r), TypeKey) && (r.Union? ==> |r.elements| != 1)
    requires y in Members(r) && forall x :: x in Members(r) ==> Canonical(x, b - 1)
    ensures Canonical(r, b)
  {
    if r.Union? {
      forall i | 0 <= i < |r.elements| ensures Canonical(r.elements[i], b - 1) {
        assert r.elements[i] in Members(r);
      }
    } else {
      assert r in Members(r);
      FitsMore(r, b - 1, b);
    }
  }

  lemma MemberCanonical(t: StaticType, y: StaticType, b: int)
    requires Canonical(t, b) && y in Members(t)
    ensures Canonical(y, b)
  {
    if t.Union? {
      FitsMore(y, b - 1, b);
    }
  }

  lemma MemberExists(t: StaticType, b: int)
    requires Fits(t, b)
    ensures exists y :: y in Members(t)
  {
    if t.Union? { assert t.elements[0] in Members(t); } else { assert t in Members(t); }
  }

  /** The normal form is canonical and needs no more depth than the type it came from. */
  lemma {:induction false} NormCanonical(t: StaticType, b: int)
    requires Fits(t, b)
    ensures Canonical(Norm(t), b)
    decreases t
  {
    match t {
      case Optional(e) =>
        NormCanonical(e, b - 2);
        FitsMore(Norm(e), b - 2, b - 1);
        AssembleCanonical([Norm(e), NoneType], b);
      case Union(es) =>
        NormEachCanonical(es, b - 1);
        assert b >= 1 by { assert Fits(es[0], b - 1); }
        AssembleCanonical(NormEach(es), b);
      case Callable(s) =>
        NormSignatureCanonical(s, b - 1);
      case TypeVariable(_, bound, cs) =>
        if bound.Some? { NormCanonical(bound.value, b - 1); }
        NormEachCanonical(cs, b - 1);
        SortedSetCanonical(NormEach(cs), b - 1);
      case _ =>
    }
  }

  lemma SortedSetCanonical(ts: seq<StaticType>, b: int)
    requires forall i :: 0 <= i < |ts| ==> Canonical(ts[i], b)
    ensures Strict(SortedSet(ts, TypeKey), TypeKey)
    ensures forall i :: 0 <= i < |SortedSet(ts, TypeKey)| ==> Canonical(SortedSet(ts, TypeKey)[i], b)
  {
    TypeKeyIsInjective();
    SortedSetFacts(ts, TypeKey);
    var s := SortedSet(ts, TypeKey);
    forall i | 0 <= i < |s| ensures Canonical(s[i], b) {
      assert s[i] in ts;
    }
  }

  lemma {:induction false} NormEachCanonical(ts: seq<StaticType>, b: int)
    requires forall i :: 0 <= i < |ts| ==> Fits(ts[i], b)
    ensures forall i :: 0 <= i < |ts| ==> Canonical(NormEach(ts)[i], b)
    decreases ts
  {
    forall i | 0 <= i < |ts| ensures Canonical(NormEach(ts)[i], b) {
      NormCanonical(ts[i], b);
    }
  }

  lemma {:induction false} NormSignatureCanonical(s: CallableSignature, b: int)
    requires FitsSignature(s, b)
    ensures NormalSignature(NormSignature(s)) && FitsSignature(NormSignature(s), b)
    decreases s
  {
    NormCanonical(s.returnType, b - 1);
    forall i | 0 <= i < |s.parameters|
      ensures NormalParameter(NormParameters(s.parameters)[i])
      ensures FitsParameter(NormParameters(s.parameters)[i], b - 1)
    {
      var p := s.parameters[i];
      assert FitsParameter(p, b - 1);
      NormCanonical(p.valueType, b - 1);
      NormDefaultCanonical(p.default, b - 1);
    }
  }

  lemma {:induction false} NormDefaultCanonical(d: DefaultFact, b: int)
    requires FitsDefault(d, b)
    ensures NormalDefault(NormDefault(d)) && FitsDefault(NormDefault(d), b)
    decreases d
  {
    match d {
      case DefaultValue(v, _) => NormCanonical(v, b - 1);
      case DefaultFactory(_, r) => NormCanonical(r, b - 1);
      case _ =>
    }
  }

  /** A canonical type is its own normal form. */
  lemma {:induction false} NormalFixed(t: StaticType)
    requires Normal(t)
    ensures Norm(t) == t
    decreases t
  {
    match t {
      case Union(es) =>
        NormalEachFixed(es);
        AssembleMembers(es);
        forall y ensures y in Members(Assemble(es)) <==> y in es {
          if y in es {
            var i :| 0 <= i < |es| && es[i] == y;
            assert y in Members(es[i]);
          }
        }
        StrictUnique(Members(Assemble(es)), es, TypeKey);
      case Callable(s) =>
        NormalSignatureFixed(s);
      case TypeVariable(_, bound, cs) =>
        if bound.Some? { NormalFixed(bound.value); }
        NormalEachFixed(cs);
        SortedSetFixed(cs, TypeKey);
      case _ =>
    }
  }

  lemma {:induction false} NormalEachFixed(ts: seq<StaticType>)
    requires forall i :: 0 <= i < |ts| ==> Normal(ts[i])
    ensures NormEach(ts) == ts
    decreases ts
  {
    forall i | 0 <= i < |ts| ensures NormEach(ts)[i] == ts[i] {
      NormalFixed(ts[i]);
    }
  }

  lemma {:induction false} NormalSignatureFixed(s: CallableSignature)
    requires NormalSignature(s)
    ensures NormSignature(s) == s
    decreases s
  {
    NormalFixed(s.returnType);
    forall i | 0 <= i < |s.parameters| ensures NormParameters(s.parameters)[i] == s.parameters[i] {
      var p := s.parameters[i];
      assert NormalParameter(p);
      NormalFixed(p.valueType);
      NormalDefaultFixed(p.default);
    }
    assert NormParameters(s.parameters) == s.parameters;
  }

  lemma {:induction false} NormalDefaultFixed(d: DefaultFact)
    requires NormalDefault(d)
    ensures NormDefault(d) == d
    decreases d
  {
    match d {
      case DefaultValue(v, _) => NormalFixed(v);
      case DefaultFactory(_, r) => NormalFixed(r);
      case _ =>
    }
  }

  /**
    The canonical form: what normalization returns is normal, is its own normalization at that depth
    and every shallower one, and the type itself normalizes to it there too.
   */
  lemma {:induction false} NormalizationCanonical(t: StaticType, depth: nat, shallower: nat)
    requires NormalizeAtDepth(t, depth).Ok? && shallower <= depth
    ensures var n := NormalizeAtDepth(t, depth).value;
            && Normal(n)
            && NormalizeAtDepth(t, shallower) == Ok(n)
            && NormalizeAtDepth(n, shallower) == Ok(n)
  {
    NormalizeExact(t, depth);
    NormalizeExact(t, shallower);
    FitsMore(t, 64 - depth, 64 - shallower);
    CanonicalNormalizes(t, shallower);
  }

  lemma {:induction false} CanonicalNormalizes(t: StaticType, depth: nat)
    requires Fits(t, 64 - depth)
    ensures Normal(Norm(t)) && NormalizeAtDepth(Norm(t), depth) == Ok(Norm(t))
  {
    NormCanonical(t, 64 - depth);
    NormalFixed(Norm(t));
    NormalizeExact(Norm(t), depth);
  }

  lemma SignatureNormalizationCanonical(s: CallableSignature, depth: nat)
    requires NormalizeSignature(s, depth).Ok?
    ensures var n := NormalizeSignature(s, depth).value; NormalSignature(n) && NormalizeSignature(n, depth) == Ok(n)
  {
    NormalizeSignatureExact(s, depth);
    NormSignatureCanonical(s, 64 - depth);
    NormalizeSignatureExact(NormSignature(s), depth);
    NormalSignatureFixed(NormSignature(s));
  }

  lemma DefaultNormalizationCanonical(d: DefaultFact, depth: nat)
    requires NormalizeDefault(d, depth).Ok?
    ensures var n := NormalizeDefault(d, depth).value; NormalDefault(n) && NormalizeDefault(n, depth) == Ok(n)
  {
    NormalizeDefaultExact(d, depth);
    NormDefaultCanonical(d, 64 - depth);
    NormalizeDefaultExact(NormDefault(d), depth);
    NormalDefaultFixed(NormDefault(d));
  }

  // ----- Equal alternatives, equal result -----

  /** The alternatives of a type once unions and `Optional` are looked through, nothing rewritten. */
  function Alternatives(t: StaticType): set<StaticType>
    decreases t
  {
    match t
    case Optional(e) => Alternatives(e) + {NoneType}
    case Union(es) => set i, x | 0 <= i < |es| && x in Alternatives(es[i]) :: x
    case _ => {t}
  }

  ghost predicate NormOfSome(xs: set<StaticType>, y: StaticType) {
    exists x :: x in xs && y == Norm(x)
  }

  lemma {:induction false} OptionalAlternatives(e: StaticType, b: int, y: StaticType)
    requires Fits(e, b) && (y in Members(Norm(e)) <==> NormOfSome(Alternatives(e), y))
    ensures y in Members(Norm(Optional(e))) <==> NormOfSome(Alternatives(Optional(e)), y)
  {
    OptionalMembers(e, b, y);
    assert Alternatives(Optional(e)) == Alternatives(e) + {NoneType};
    assert Norm(NoneType) == NoneType;
    if y == NoneType {
      assert NoneType in Alternatives(Optional(e));
    }
    if NormOfSome(Alternatives(e), y) {
      var x :| x in Alternatives(e) && y == Norm(x);
      assert x in Alternatives(Optional(e));
    }
  }

  lemma {:induction false} UnionAlternatives(es: seq<StaticType>, b: int, y: StaticType)
    requires Fits(Union(es), b)
    requires forall i :: 0 <= i < |es| ==> (y in Members(Norm(es[i])) <==> NormOfSome(Alternatives(es[i]), y))
    ensures y in Members(Norm(Union(es))) <==> NormOfSome(Alternatives(Union(es)), y)
  {
    UnionMembers(es, b, y);
    if y in Members(Norm(Union(es))) {
      var i :| 0 <= i < |es| && y in Members(Norm(es[i]));
      var x :| x in Alternatives(es[i]) && y == Norm(x);
      assert x in Alternatives(Union(es));
    }
    if NormOfSome(Alternatives(Union(es)), y) {
      var x :| x in Alternatives(Union(es)) && y == Norm(x);
      var i :| 0 <= i < |es| && x in Alternatives(es[i]);
      assert NormOfSome(Alternatives(es[i]), y);
    }
  }

  lemma {:induction false} NormAlternatives(t: StaticType, b: int, y: StaticType)
    requires Fits(t, b)
    ensures y in Members(Norm(t)) <==> NormOfSome(Alternatives(t), y)
    decreases t, 1
  {
    match t {
      case Optional(e) =>
        NormAlternatives(e, b - 2, y);
        OptionalAlternatives(e, b - 2, y);
      case Union(es) =>
        forall i | 0 <= i < |es| ensures y in Members(Norm(es[i])) <==> NormOfSome(Alternatives(es[i]), y) {
          NormAlternatives(es[i], b - 1, y);
        }
        UnionAlternatives(es, b, y);
      case _ =>
        assert t in Alternatives(t);
        assert !Norm(t).Union?;
    }
  }

  lemma {:induction false} OptionalMembers(e: StaticType, b: int, y: StaticType)
    requires Fits(e, b)
    ensures y in Members(Norm(Optional(e))) <==> y in Members(Norm(e)) || y == NoneType
  {
    NormCanonical(e, b);
    NormalFlat(Norm(e));
    var ns := [Norm(e), NoneType];
    AssembleMembers(ns);
    assert ns[0] == Norm(e) && ns[1] == NoneType;
    if y == NoneType { assert y in Members(ns[1]); }
  }

  lemma UnionMembers(es: seq<StaticType>, b: int, y: StaticType)
    requires Fits(Union(es), b)
    ensures y in Members(Norm(Union(es))) <==> exists i :: 0 <= i < |es| && y in Members(Norm(es[i]))
  {
    NormEachCanonical(es, b - 1);
    var ns := NormEach(es);
    forall i | 0 <= i < |ns| ensures Flat(ns[i]) { NormalFlat(ns[i]); }
    AssembleMembers(ns);
    if exists i :: 0 <= i < |es| && y in Members(Norm(es[i])) {
      var i :| 0 <= i < |es| && y in Members(Norm(es[i]));
      assert y in Members(ns[i]);
    }
  }

  /** Two types with the same alternatives normalize to the same type, whatever their depths. */
  lemma {:induction false} NormalizedIsNorm(t: StaticType, depth: nat)
    requires NormalizeAtDepth(t, depth).Ok?
    ensures Fits(t, 64 - depth) && NormalizeAtDepth(t, depth).value == Norm(t)
  {
    NormalizeExact(t, depth);
  }

  lemma {:induction false} SameAlternatives(s: StaticType, t: StaticType, depth: nat, depth': nat)
    requires NormalizeAtDepth(s, depth).Ok? && NormalizeAtDepth(t, depth').Ok?
    requires Alternatives(s) == Alternatives(t)
    ensures NormalizeAtDepth(s, depth).value == NormalizeAtDepth(t, depth').value
  {
    hide Norm, Fits, Alternatives;
    NormalizedIsNorm(s, depth);
    NormalizedIsNorm(t, depth');
    SameAlternativesNorm(s, t, 64 - depth, 64 - depth');
  }

  lemma SameAlternativesNorm(s: StaticType, t: StaticType, b: int, b': int)
    requires Fits(s, b) && Fits(t, b') && Alternatives(s) == Alternatives(t)
    ensures Norm(s) == Norm(t)
  {
    NormCanonical(s, b);
    NormCanonical(t, b');
    forall y ensures y in Members(Norm(s)) <==> y in Members(Norm(t)) {
      NormAlternatives(s, b, y);
      NormAlternatives(t, b', y);
    }
    SameMembers(Norm(s), Norm(t));
  }

  lemma SameMembers(s: StaticType, t: StaticType)
    requires Normal(s) && Normal(t) && forall y :: y in Members(s) <==> y in Members(t)
    ensures s == t
  {
    StrictUnique(Members(s), Members(t), TypeKey);
  }
}

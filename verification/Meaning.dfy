/**
  What normalization preserves: the values a type accepts, whether it contains uncertainty, and
  whether a runtime predicate can represent it.
 */
module Meaning {
  import opened Ordering
  import opened Types
  import opened Normalization

  // ----- Accepted values -----

  datatype DefaultMeaning<!V> =
    | NoDefault
    | ValueDefault(values: iset<V>, literal: Option<LiteralValue>)
    | FactoryDefault(implementation: Option<SourceIdentity>, values: iset<V>)
    | SomeDefault

  datatype ParameterMeaning<!V> = ParameterMeaning(
    name: string, kind: ParameterKind, values: iset<V>, origin: AnnotationOrigin, default: DefaultMeaning<V>)

  /**
    An interpretation says which values a leaf type accepts, and which callables and type variables
    accept given what their components accept. It sees constraints only as a set of alternatives.
   */
  datatype Interpretation<!V> = Interpretation(
    leaf: StaticType -> iset<V>,
    callable: (seq<ParameterMeaning<V>>, iset<V>, AnnotationOrigin, set<UncertaintyReason>) -> iset<V>,
    variable: (SourceIdentity, Option<iset<V>>, iset<iset<V>>) -> iset<V>)

  ghost function Accepts<V(!new)>(m: Interpretation<V>, t: StaticType): iset<V>
    decreases t
  {
    match t
    case Optional(e) => Accepts(m, e) + m.leaf(NoneType)
    case Union(es) => iset i, v | 0 <= i < |es| && v in Accepts(m, es[i]) :: v
    case Literal(LiteralNone) => m.leaf(NoneType)
    case Callable(s) => AcceptsCallable(m, s)
    case TypeVariable(binder, bound, cs) =>
      m.variable(binder, if bound.None? then Option.None else Some(Accepts(m, bound.value)), AcceptsEach(m, cs))
    case _ => m.leaf(t)
  }

  ghost function AcceptsEach<V(!new)>(m: Interpretation<V>, ts: seq<StaticType>): iset<iset<V>>
    decreases ts
  {
    iset i | 0 <= i < |ts| :: Accepts(m, ts[i])
  }

  ghost function AcceptsCallable<V(!new)>(m: Interpretation<V>, s: CallableSignature): iset<V>
    decreases s
  {
    m.callable(ParametersMean(m, s.parameters), Accepts(m, s.returnType), s.returnOrigin, s.uncertainty)
  }

  ghost function ParametersMean<V(!new)>(m: Interpretation<V>, ps: seq<ParameterTypeFact>): seq<ParameterMeaning<V>>
    decreases ps
  {
    seq(|ps|, i requires 0 <= i < |ps| => ParameterMeans(m, ps[i]))
  }

  ghost function ParameterMeans<V(!new)>(m: Interpretation<V>, p: ParameterTypeFact): ParameterMeaning<V>
    decreases p
  {
    ParameterMeaning(p.name, p.kind, Accepts(m, p.valueType), p.origin, DefaultMeans(m, p.default))
  }

  ghost function DefaultMeans<V(!new)>(m: Interpretation<V>, d: DefaultFact): DefaultMeaning<V>
    decreases d
  {
    match d
    case Missing => NoDefault
    case DefaultValue(v, l) => ValueDefault(Accepts(m, v), l)
    case DefaultFactory(i, r) => FactoryDefault(i, Accepts(m, r))
    case DefaultUnknown => SomeDefault
  }

  ghost predicate AcceptedBySome<V(!new)>(m: Interpretation<V>, ts: seq<StaticType>, v: V) {
    exists i :: 0 <= i < |ts| && v in Accepts(m, ts[i])
  }

  lemma MembersAccept<V(!new)>(m: Interpretation<V>, t: StaticType, v: V)
    ensures v in Accepts(m, t) <==> AcceptedBySome(m, Members(t), v)
  {
    if t.Union? {
      if v in Accepts(m, t) {
        var i :| 0 <= i < |t.elements| && v in Accepts(m, t.elements[i]);
      }
    } else {
      assert Members(t)[0] == t;
    }
  }

  /** An assembled union accepts what one of its parts accepts. */
  lemma AssembleAccepts<V(!new)>(m: Interpretation<V>, ts: seq<StaticType>, v: V)
    requires forall i :: 0 <= i < |ts| ==> Flat(ts[i])
    ensures v in Accepts(m, Assemble(ts)) <==> AcceptedBySome(m, ts, v)
  {
    AssembleMembers(ts);
    var r := Members(Assemble(ts));
    MembersAccept(m, Assemble(ts), v);
    if AcceptedBySome(m, r, v) {
      var k :| 0 <= k < |r| && v in Accepts(m, r[k]);
      assert r[k] in r;
      var i :| 0 <= i < |ts| && r[k] in Members(ts[i]);
      var j :| 0 <= j < |Members(ts[i])| && Members(ts[i])[j] == r[k];
      MembersAccept(m, ts[i], v);
    }
    if AcceptedBySome(m, ts, v) {
      var i :| 0 <= i < |ts| && v in Accepts(m, ts[i]);
      MembersAccept(m, ts[i], v);
      var j :| 0 <= j < |Members(ts[i])| && v in Accepts(m, Members(ts[i])[j]);
      assert Members(ts[i])[j] in Members(ts[i]);
      assert Members(ts[i])[j] in r;
    }
  }

  lemma SortedSetAccepts<V(!new)>(m: Interpretation<V>, ts: seq<StaticType>)
    ensures AcceptsEach(m, SortedSet(ts, TypeKey)) == AcceptsEach(m, ts)
  {
    TypeKeyIsInjective();
    SortedSetFacts(ts, TypeKey);
    var s := SortedSet(ts, TypeKey);
    forall d ensures d in AcceptsEach(m, s) <==> d in AcceptsEach(m, ts) {
      if d in AcceptsEach(m, s) {
        var i :| 0 <= i < |s| && d == Accepts(m, s[i]);
        assert s[i] in ts;
      }
      if d in AcceptsEach(m, ts) {
        var i :| 0 <= i < |ts| && d == Accepts(m, ts[i]);
        assert ts[i] in s;
      }
    }
  }

  /** Normalization changes no type's meaning, under any interpretation of the leaves. */
  lemma {:induction false} NormAccepts<V(!new)>(m: Interpretation<V>, t: StaticType, b: int)
    requires Fits(t, b)
    ensures Accepts(m, Norm(t)) == Accepts(m, t)
    decreases t
  {
    match t {
      case Optional(e) =>
        NormAccepts(m, e, b - 2);
        NormCanonical(e, b - 2);
        NormalFlat(Norm(e));
        OptionalAccepts(m, Norm(e));
      case Union(es) =>
        NormEachCanonical(es, b - 1);
        var ns := NormEach(es);
        forall i | 0 <= i < |es| ensures Flat(ns[i]) && Accepts(m, ns[i]) == Accepts(m, es[i]) {
          NormalFlat(ns[i]);
          NormAccepts(m, es[i], b - 1);
        }
        UnionAccepts(m, es, ns);
      case Callable(s) =>
        NormCallableAccepts(m, s, b - 1);
      case TypeVariable(_, bound, cs) =>
        if bound.Some? { NormAccepts(m, bound.value, b - 1); }
        NormEachAccepts(m, cs, b - 1);
        SortedSetAccepts(m, NormEach(cs));
      case _ =>
    }
  }

  lemma OptionalAccepts<V(!new)>(m: Interpretation<V>, n: StaticType)
    requires Flat(n)
    ensures Accepts(m, Assemble([n, NoneType])) == Accepts(m, n) + m.leaf(NoneType)
  {
    var ns := [n, NoneType];
    forall v ensures v in Accepts(m, Assemble(ns)) <==> v in Accepts(m, n) + m.leaf(NoneType) {
      AssembleAccepts(m, ns, v);
      assert ns[0] == n && ns[1] == NoneType;
    }
  }

  lemma UnionAccepts<V(!new)>(m: Interpretation<V>, es: seq<StaticType>, ns: seq<StaticType>)
    requires |ns| == |es| && forall i :: 0 <= i < |es| ==> Flat(ns[i]) && Accepts(m, ns[i]) == Accepts(m, es[i])
    ensures Accepts(m, Assemble(ns)) == Accepts(m, Union(es))
  {
    forall v ensures v in Accepts(m, Assemble(ns)) <==> v in Accepts(m, Union(es)) {
      AssembleAccepts(m, ns, v);
      MembersAccept(m, Union(es), v);
      if AcceptedBySome(m, es, v) {
        var i :| 0 <= i < |es| && v in Accepts(m, es[i]);
        assert v in Accepts(m, ns[i]);
      }
    }
  }

  lemma {:induction false} NormEachAccepts<V(!new)>(m: Interpretation<V>, ts: seq<StaticType>, b: int)
    requires forall i :: 0 <= i < |ts| ==> Fits(ts[i], b)
    ensures AcceptsEach(m, NormEach(ts)) == AcceptsEach(m, ts)
    decreases ts
  {
    forall i | 0 <= i < |ts| ensures Accepts(m, NormEach(ts)[i]) == Accepts(m, ts[i]) {
      NormAccepts(m, ts[i], b);
    }
  }

  lemma {:induction false} NormCallableAccepts<V(!new)>(m: Interpretation<V>, s: CallableSignature, b: int)
    requires FitsSignature(s, b)
    ensures AcceptsCallable(m, NormSignature(s)) == AcceptsCallable(m, s)
    decreases s
  {
    NormAccepts(m, s.returnType, b - 1);
    var ps, ns := s.parameters, NormParameters(s.parameters);
    forall i | 0 <= i < |ps| ensures ParameterMeans(m, ns[i]) == ParameterMeans(m, ps[i]) {
      assert FitsParameter(ps[i], b - 1) && ns[i] == NormParameter(ps[i]);
      NormAccepts(m, ps[i].valueType, b - 1);
      NormDefaultMeans(m, ps[i].default, b - 1);
    }
    assert ParametersMean(m, ns) == ParametersMean(m, ps);
  }

  lemma {:induction false} NormDefaultMeans<V(!new)>(m: Interpretation<V>, d: DefaultFact, b: int)
    requires FitsDefault(d, b)
    ensures DefaultMeans(m, NormDefault(d)) == DefaultMeans(m, d)
    decreases d
  {
    match d {
      case DefaultValue(v, _) => NormAccepts(m, v, b - 1);
      case DefaultFactory(_, r) => NormAccepts(m, r, b - 1);
      case _ =>
    }
  }

  lemma {:induction false} NormalizationPreservesMeaning<V(!new)>(m: Interpretation<V>, t: StaticType, depth: nat)
    requires NormalizeAtDepth(t, depth).Ok?
    ensures Accepts(m, NormalizeAtDepth(t, depth).value) == Accepts(m, t)
  {
    NormalizeExact(t, depth);
    NormAccepts(m, t, 64 - depth);
  }

  // ----- Uncertainty -----

  predicate ContainsUncertainty(t: StaticType)
    decreases t
  {
    match t
    case AnyType | Unknown | Todo | Divergent => true
    case Unsupported(_, _) => true
    case TypeVariable(_, _, _) => true
    case StructuralProtocol(_, _) => true
    case Union(es) => exists i :: 0 <= i < |es| && ContainsUncertainty(es[i])
    case Optional(e) => ContainsUncertainty(e)
    case Callable(s) =>
      || ContainsUncertainty(s.returnType)
      || exists i :: 0 <= i < |s.parameters| && ContainsUncertainty(s.parameters[i].valueType)
    case _ => false
  }

  predicate SomeUncertain(ts: seq<StaticType>) {
    exists i :: 0 <= i < |ts| && ContainsUncertainty(ts[i])
  }

  lemma MembersUncertain(t: StaticType)
    ensures ContainsUncertainty(t) <==> exists y :: y in Members(t) && ContainsUncertainty(y)
  {
    if t.Union? {
      if ContainsUncertainty(t) {
        var i :| 0 <= i < |t.elements| && ContainsUncertainty(t.elements[i]);
        assert t.elements[i] in Members(t);
      }
    } else {
      assert t in Members(t);
    }
  }

  lemma AssembleUncertain(ts: seq<StaticType>)
    requires forall i :: 0 <= i < |ts| ==> Flat(ts[i])
    ensures ContainsUncertainty(Assemble(ts)) <==> SomeUncertain(ts)
  {
    AssembleMembers(ts);
    MembersUncertain(Assemble(ts));
    if ContainsUncertainty(Assemble(ts)) {
      var y :| y in Members(Assemble(ts)) && ContainsUncertainty(y);
      var i :| 0 <= i < |ts| && y in Members(ts[i]);
      MembersUncertain(ts[i]);
    }
    if SomeUncertain(ts) {
      var i :| 0 <= i < |ts| && ContainsUncertainty(ts[i]);
      MembersUncertain(ts[i]);
      var y :| y in Members(ts[i]) && ContainsUncertainty(y);
      assert y in Members(Assemble(ts));
    }
  }

  /** Uncertainty is neither lost nor invented, however unions are merged. */
  lemma {:induction false} NormUncertain(t: StaticType, b: int)
    requires Fits(t, b)
    ensures ContainsUncertainty(Norm(t)) <==> ContainsUncertainty(t)
    decreases t
  {
    match t {
      case Optional(e) =>
        NormUncertain(e, b - 2);
        NormCanonical(e, b - 2);
        NormalFlat(Norm(e));
        var ns := [Norm(e), NoneType];
        AssembleUncertain(ns);
        assert ns[0] == Norm(e) && ns[1] == NoneType;
      case Union(es) =>
        NormEachCanonical(es, b - 1);
        var ns := NormEach(es);
        forall i | 0 <= i < |es| ensures Flat(ns[i]) && ContainsUncertainty(ns[i]) == ContainsUncertainty(es[i]) {
          NormalFlat(ns[i]);
          NormUncertain(es[i], b - 1);
        }
        AssembleUncertain(ns);
        if ContainsUncertainty(t) {
          var i :| 0 <= i < |es| && ContainsUncertainty(es[i]);
          assert ContainsUncertainty(ns[i]);
        }
      case Callable(s) =>
        NormCallableUncertain(s, b - 1);
      case _ =>
    }
  }

  lemma {:induction false} NormCallableUncertain(s: CallableSignature, b: int)
    requires FitsSignature(s, b)
    ensures ContainsUncertainty(Callable(NormSignature(s))) <==> ContainsUncertainty(Callable(s))
    decreases s
  {
    NormUncertain(s.returnType, b - 1);
    var ps, ns := s.parameters, NormParameters(s.parameters);
    forall i | 0 <= i < |ps| ensures ContainsUncertainty(ns[i].valueType) == ContainsUncertainty(ps[i].valueType) {
      assert FitsParameter(ps[i], b - 1) && ns[i] == NormParameter(ps[i]);
      NormUncertain(ps[i].valueType, b - 1);
    }
    if i :| 0 <= i < |ps| && ContainsUncertainty(ps[i].valueType) {
      assert ContainsUncertainty(ns[i].valueType);
    }
  }

  lemma {:induction false} NormalizationPreservesUncertainty(t: StaticType, depth: nat)
    requires NormalizeAtDepth(t, depth).Ok?
    ensures ContainsUncertainty(NormalizeAtDepth(t, depth).value) <==> ContainsUncertainty(t)
  {
    NormalizeExact(t, depth);
    NormUncertain(t, 64 - depth);
  }

  // ----- Supported value shapes -----

  predicate SupportedShape(t: StaticType)
    decreases t
  {
    match t
    case NoneType => true
    case ExactBuiltin(_) => true
    case NominalBuiltin(_, _) => true
    case NumericWidening(_, _) => true
    case NominalClass(_) => true
    case ExactClass(_) => true
    case Union(es) => es != [] && forall i :: 0 <= i < |es| ==> SupportedShape(es[i])
    case Optional(e) => SupportedShape(e)
    case _ => false
  }

  /** The shape once `Literal[None]` is read as `None`. */
  predicate SupportedReading(t: StaticType)
    decreases t
  {
    match t
    case Literal(v) => v.LiteralNone?
    case Union(es) => es != [] && forall i :: 0 <= i < |es| ==> SupportedReading(es[i])
    case Optional(e) => SupportedReading(e)
    case _ => SupportedShape(t)
  }

  lemma MembersSupported(t: StaticType, b: int)
    requires Fits(t, b)
    ensures SupportedShape(t) <==> forall y :: y in Members(t) ==> SupportedShape(y)
  {
    if t.Union? {
      if forall y :: y in Members(t) ==> SupportedShape(y) {
        forall i | 0 <= i < |t.elements| ensures SupportedShape(t.elements[i]) {
          assert t.elements[i] in Members(t);
        }
      }
    } else {
      assert t in Members(t);
    }
  }

  /** Exactly the types that are supported once `Literal[None]` is read as `None` normalize to a supported shape. */
  lemma {:induction false} NormSupported(t: StaticType, b: int)
    requires Fits(t, b)
    ensures SupportedShape(Norm(t)) <==> SupportedReading(t)
    decreases t, 1
  {
    match t {
      case Optional(e) =>
        NormSupported(e, b - 2);
        OptionalSupported(e, b - 2);
      case Union(es) =>
        NormUnionSupported(es, b);
      case _ =>
    }
  }

  lemma {:induction false} OptionalSupported(e: StaticType, b: int)
    requires Fits(e, b)
    ensures SupportedShape(Norm(Optional(e))) <==> SupportedShape(Norm(e))
  {
    NormCanonical(e, b);
    NormCanonical(Optional(e), b + 2);
    MembersSupported(Norm(e), b);
    MembersSupported(Norm(Optional(e)), b + 2);
    forall y ensures y in Members(Norm(Optional(e))) <==> y in Members(Norm(e)) || y == NoneType {
      OptionalMembers(e, b, y);
    }
  }

  lemma {:induction false} NormUnionSupported(es: seq<StaticType>, b: int)
    requires Fits(Union(es), b)
    ensures SupportedShape(Norm(Union(es))) <==> forall i :: 0 <= i < |es| ==> SupportedReading(es[i])
    decreases es
  {
    var n := Norm(Union(es));
    NormCanonical(Union(es), b);
    MembersSupported(n, b);
    forall i | 0 <= i < |es|
      ensures SupportedReading(es[i]) <==> forall y :: y in Members(Norm(es[i])) ==> SupportedShape(y)
    {
      NormSupported(es[i], b - 1);
      NormCanonical(es[i], b - 1);
      MembersSupported(Norm(es[i]), b - 1);
    }
    forall y ensures y in Members(n) <==> exists i :: 0 <= i < |es| && y in Members(Norm(es[i])) {
      UnionMembers(es, b, y);
    }
    if SupportedShape(n) {
      forall i | 0 <= i < |es| ensures SupportedReading(es[i]) {
        assert forall y :: y in Members(Norm(es[i])) ==> y in Members(n);
      }
    }
  }

  lemma {:induction false} SupportedReads(t: StaticType)
    requires SupportedShape(t)
    ensures SupportedReading(t)
    decreases t
  {
    match t {
      case Optional(e) => SupportedReads(e);
      case Union(es) =>
        forall i | 0 <= i < |es| ensures SupportedReading(es[i]) { SupportedReads(es[i]); }
      case _ =>
    }
  }

  /** A supported shape stays supported; the converse fails only through `Literal[None]`. */
  lemma NormalizationKeepsShape(t: StaticType, depth: nat)
    requires NormalizeAtDepth(t, depth).Ok?
    ensures SupportedShape(NormalizeAtDepth(t, depth).value) <==> SupportedReading(t)
    ensures SupportedShape(t) ==> SupportedShape(NormalizeAtDepth(t, depth).value)
  {
    NormalizeExact(t, depth);
    NormSupported(t, 64 - depth);
    if SupportedShape(t) { SupportedReads(t); }
  }

  lemma LiteralNoneGainsShape()
    ensures !SupportedShape(Literal(LiteralNone))
    ensures Normalized(Literal(LiteralNone)) == Ok(NoneType) && SupportedShape(NoneType)
  {
  }
}

/**
  Source identities and static types, with the derived orders that unions are sorted by.

  An enumeration of which no modelled code inspects a single value is represented by its variant
  index. A fingerprint is the big-endian number its 32 bytes spell.
 */
module Types {
  import opened Ordering

  datatype Option<+T> = None | Some(value: T)

  type Fingerprint = nat

  // ----- Identities -----

  datatype ModuleContentId = ModuleContentId(moduleName: string, sourceHash: nat)

  datatype SourceRange = SourceRange(start: nat, end: nat)

  datatype DefinitionKind = Module | Class | Function | Lambda | Assignment | Parameter | TypeAlias

  datatype SourceIdentity = SourceIdentity(
    inModule: ModuleContentId,
    qualname: string,
    range: SourceRange,
    kind: DefinitionKind)

  datatype ClassReference = ClassReference(definition: SourceIdentity, sourceDigest: Fingerprint)

  // ----- Types -----

  type BuiltinType = nat
  type ParameterKind = nat
  type UnsupportedTypeKind = nat
  type UnsupportedReasonCode = nat

  /** `UncertaintyReason`, of which only `IgnoredDiagnostic` is named by the code modelled here. */
  type UncertaintyReason = nat
  const IGNORED_DIAGNOSTIC: UncertaintyReason := 3

  datatype AnnotationOrigin = Explicit | Inferred | Absent | Unresolved

  datatype LiteralValue =
    | LiteralNone
    | LiteralBool(b: bool)
    | LiteralInt(digits: string)
    | LiteralFloat(bits: nat)
    | LiteralStr(text: string)
    | LiteralBytes(bytes: seq<nat>)

  datatype StaticType =
    | NoneType
    | ExactBuiltin(exact: BuiltinType)
    | NominalBuiltin(builtin: BuiltinType, allowSubclasses: bool)
    | NumericWidening(target: BuiltinType, accepted: set<BuiltinType>)
    | NominalClass(nominal: ClassReference)
    | ExactClass(exactly: ClassReference)
    | Union(elements: seq<StaticType>)
    | Optional(element: StaticType)
    | Callable(signature: CallableSignature)
    | Literal(literal: LiteralValue)
    | TypeVariable(binder: SourceIdentity, upperBound: Option<StaticType>, constraints: seq<StaticType>)
    | StructuralProtocol(protocol: Option<ClassReference>, runtimeCheckable: bool)
    | AnyType
    | Unknown
    | Todo
    | Divergent
    | Unsupported(unsupported: UnsupportedTypeKind, reason: UnsupportedReasonCode)

  datatype CallableSignature = CallableSignature(
    parameters: seq<ParameterTypeFact>,
    returnType: StaticType,
    returnOrigin: AnnotationOrigin,
    uncertainty: set<UncertaintyReason>)

  datatype ParameterTypeFact = ParameterTypeFact(
    name: string,
    kind: ParameterKind,
    valueType: StaticType,
    origin: AnnotationOrigin,
    default: DefaultFact)

  datatype DefaultFact =
    | Missing
    | DefaultValue(valueType: StaticType, literal: Option<LiteralValue>)
    | DefaultFactory(implementation: Option<SourceIdentity>, returnType: StaticType)
    | DefaultUnknown

  // ----- Keys -----

  function ModuleKey(m: ModuleContentId): Key { Node([StringKey(m.moduleName), Atom(m.sourceHash)]) }

  function RangeKey(r: SourceRange): Key { Node([Atom(r.start), Atom(r.end)]) }

  function DefinitionKindKey(k: DefinitionKind): Key {
    Atom(match k
         case Module => 0 case Class => 1 case Function => 2 case Lambda => 3
         case Assignment => 4 case Parameter => 5 case TypeAlias => 6)
  }

  function IdentityKey(i: SourceIdentity): Key {
    Node([ModuleKey(i.inModule), StringKey(i.qualname), RangeKey(i.range), DefinitionKindKey(i.kind)])
  }

  function ClassKey(c: ClassReference): Key { Node([IdentityKey(c.definition), Atom(c.sourceDigest)]) }

  function OriginKey(o: AnnotationOrigin): Key {
    Atom(match o case Explicit => 0 case Inferred => 1 case Absent => 2 case Unresolved => 3)
  }

  function LiteralKey(v: LiteralValue): Key {
    match v
    case LiteralNone => Node([Atom(0)])
    case LiteralBool(b) => Node([Atom(1), BoolKey(b)])
    case LiteralInt(d) => Node([Atom(2), StringKey(d)])
    case LiteralFloat(bits) => Node([Atom(3), Atom(bits)])
    case LiteralStr(t) => Node([Atom(4), StringKey(t)])
    case LiteralBytes(bs) => Node([Atom(5), NatsKey(bs)])
  }

  function OptionalKey<T>(o: Option<T>, key: T -> Key): Key {
    if o.None? then Node([]) else Node([key(o.value)])
  }

  function TypeKey(t: StaticType): Key
    decreases t
  {
    match t
    case NoneType => Node([Atom(0)])
    case ExactBuiltin(b) => Node([Atom(1), Atom(b)])
    case NominalBuiltin(b, allow) => Node([Atom(2), Atom(b), BoolKey(allow)])
    case NumericWidening(target, accepted) => Node([Atom(3), Atom(target), SetKey(accepted)])
    case NominalClass(c) => Node([Atom(4), ClassKey(c)])
    case ExactClass(c) => Node([Atom(5), ClassKey(c)])
    case Union(es) => Node([Atom(6), TypesKey(es)])
    case Optional(e) => Node([Atom(7), TypeKey(e)])
    case Callable(s) => Node([Atom(8), SignatureKey(s)])
    case Literal(v) => Node([Atom(9), LiteralKey(v)])
    case TypeVariable(b, bound, cs) =>
      Node([Atom(10), IdentityKey(b), if bound.None? then Node([]) else Node([TypeKey(bound.value)]), TypesKey(cs)])
    case StructuralProtocol(p, runtime) => Node([Atom(11), OptionalKey(p, ClassKey), BoolKey(runtime)])
    case AnyType => Node([Atom(12)])
    case Unknown => Node([Atom(13)])
    case Todo => Node([Atom(14)])
    case Divergent => Node([Atom(15)])
    case Unsupported(k, r) => Node([Atom(16), Atom(k), Atom(r)])
  }

  function TypesKey(ts: seq<StaticType>): Key
    decreases ts
  {
    Node(seq(|ts|, i requires 0 <= i < |ts| => TypeKey(ts[i])))
  }

  function SignatureKey(s: CallableSignature): Key
    decreases s
  {
    Node([Node(seq(|s.parameters|, i requires 0 <= i < |s.parameters| => ParameterKey(s.parameters[i]))),
          TypeKey(s.returnType), OriginKey(s.returnOrigin), SetKey(s.uncertainty)])
  }

  function ParameterKey(p: ParameterTypeFact): Key
    decreases p
  {
    Node([StringKey(p.name), Atom(p.kind), TypeKey(p.valueType), OriginKey(p.origin), DefaultKey(p.default)])
  }

  function DefaultKey(d: DefaultFact): Key
    decreases d
  {
    match d
    case Missing => Node([Atom(0)])
    case DefaultValue(v, l) => Node([Atom(1), TypeKey(v), OptionalKey(l, LiteralKey)])
    case DefaultFactory(i, r) => Node([Atom(2), OptionalKey(i, IdentityKey), TypeKey(r)])
    case DefaultUnknown => Node([Atom(3)])
  }

  // ----- Keys tell values apart: the orders are total -----

  lemma ModuleKeyInjective(a: ModuleContentId, b: ModuleContentId)
    requires ModuleKey(a) == ModuleKey(b)
    ensures a == b
  {
    assert ModuleKey(a).items[0] == ModuleKey(b).items[0] && ModuleKey(a).items[1] == ModuleKey(b).items[1];
    StringKeyInjective(a.moduleName, b.moduleName);
  }

  lemma IdentityKeyInjective(a: SourceIdentity, b: SourceIdentity)
    requires IdentityKey(a) == IdentityKey(b)
    ensures a == b
  {
    var x, y := IdentityKey(a).items, IdentityKey(b).items;
    assert x[0] == y[0] && x[1] == y[1] && x[2] == y[2] && x[3] == y[3];
    ModuleKeyInjective(a.inModule, b.inModule);
    StringKeyInjective(a.qualname, b.qualname);
    assert RangeKey(a.range).items[0] == RangeKey(b.range).items[0];
    assert RangeKey(a.range).items[1] == RangeKey(b.range).items[1];
  }

  lemma ClassKeyInjective(a: ClassReference, b: ClassReference)
    requires ClassKey(a) == ClassKey(b)
    ensures a == b
  {
    assert ClassKey(a).items[0] == ClassKey(b).items[0] && ClassKey(a).items[1] == ClassKey(b).items[1];
    IdentityKeyInjective(a.definition, b.definition);
  }

  lemma LiteralKeyInjective(a: LiteralValue, b: LiteralValue)
    requires LiteralKey(a) == LiteralKey(b)
    ensures a == b
  {
    var x, y := LiteralKey(a).items, LiteralKey(b).items;
    assert x[0] == y[0];
    if |x| > 1 {
      assert x[1] == y[1];
      match a
      case LiteralInt(d) => StringKeyInjective(d, b.digits);
      case LiteralStr(t) => StringKeyInjective(t, b.text);
      case LiteralBytes(bs) => NatsKeyInjective(bs, b.bytes);
      case _ =>
    }
  }

  lemma {:induction false} TypeKeyInjective(a: StaticType, b: StaticType)
    requires TypeKey(a) == TypeKey(b)
    ensures a == b
    decreases a
  {
    var x, y := TypeKey(a).items, TypeKey(b).items;
    assert |x| == |y| && x[0] == y[0];
    if |x| > 1 {
      assert x[1] == y[1];
      match a {
        case ExactBuiltin(_) =>
        case NominalBuiltin(_, _) => assert x[2] == y[2];
        case NumericWidening(_, s) =>
          assert x[2] == y[2];
          SetKeyInjective(s, b.accepted);
        case NominalClass(c) => ClassKeyInjective(c, b.nominal);
        case ExactClass(c) => ClassKeyInjective(c, b.exactly);
        case Union(es) => TypesKeyInjective(es, b.elements);
        case Optional(e) => TypeKeyInjective(e, b.element);
        case Callable(s) => SignatureKeyInjective(s, b.signature);
        case Literal(v) => LiteralKeyInjective(v, b.literal);
        case TypeVariable(i, bound, cs) =>
          assert x[2] == y[2] && x[3] == y[3];
          IdentityKeyInjective(i, b.binder);
          if bound.Some? {
            assert x[2].items[0] == y[2].items[0];
            TypeKeyInjective(bound.value, b.upperBound.value);
          }
          TypesKeyInjective(cs, b.constraints);
        case StructuralProtocol(p, _) =>
          assert x[2] == y[2];
          if p.Some? {
            assert x[1].items[0] == y[1].items[0];
            ClassKeyInjective(p.value, b.protocol.value);
          }
        case Unsupported(_, _) => assert x[2] == y[2];
      }
    }
  }

  lemma {:induction false} TypesKeyInjective(a: seq<StaticType>, b: seq<StaticType>)
    requires TypesKey(a) == TypesKey(b)
    ensures a == b
    decreases a
  {
    var x, y := TypesKey(a).items, TypesKey(b).items;
    assert |x| == |a| && |y| == |b|;
    forall i | 0 <= i < |a| ensures a[i] == b[i] {
      assert x[i] == TypeKey(a[i]) && y[i] == TypeKey(b[i]);
      TypeKeyInjective(a[i], b[i]);
    }
  }

  lemma {:induction false} SignatureKeyInjective(a: CallableSignature, b: CallableSignature)
    requires SignatureKey(a) == SignatureKey(b)
    ensures a == b
    decreases a
  {
    var x, y := SignatureKey(a).items, SignatureKey(b).items;
    assert x[0] == y[0] && x[1] == y[1] && x[2] == y[2] && x[3] == y[3];
    TypeKeyInjective(a.returnType, b.returnType);
    SetKeyInjective(a.uncertainty, b.uncertainty);
    var p, q := x[0].items, y[0].items;
    assert |p| == |a.parameters| && |q| == |b.parameters|;
    forall i | 0 <= i < |a.parameters| ensures a.parameters[i] == b.parameters[i] {
      assert p[i] == ParameterKey(a.parameters[i]) && q[i] == ParameterKey(b.parameters[i]);
      ParameterKeyInjective(a.parameters[i], b.parameters[i]);
    }
    assert a.parameters == b.parameters;
  }

  lemma {:induction false} ParameterKeyInjective(a: ParameterTypeFact, b: ParameterTypeFact)
    requires ParameterKey(a) == ParameterKey(b)
    ensures a == b
    decreases a
  {
    var x, y := ParameterKey(a).items, ParameterKey(b).items;
    assert x[0] == y[0] && x[1] == y[1] && x[2] == y[2] && x[3] == y[3] && x[4] == y[4];
    StringKeyInjective(a.name, b.name);
    TypeKeyInjective(a.valueType, b.valueType);
    DefaultKeyInjective(a.default, b.default);
  }

  lemma {:induction false} DefaultKeyInjective(a: DefaultFact, b: DefaultFact)
    requires DefaultKey(a) == DefaultKey(b)
    ensures a == b
    decreases a
  {
    var x, y := DefaultKey(a).items, DefaultKey(b).items;
    assert |x| == |y| && x[0] == y[0];
    if |x| > 1 {
      assert x[1] == y[1] && x[2] == y[2];
      match a {
        case DefaultValue(v, l) =>
          TypeKeyInjective(v, b.valueType);
          if l.Some? {
            assert x[2].items[0] == y[2].items[0];
            LiteralKeyInjective(l.value, b.literal.value);
          }
        case DefaultFactory(i, r) =>
          TypeKeyInjective(r, b.returnType);
          if i.Some? {
            assert x[1].items[0] == y[1].items[0];
            IdentityKeyInjective(i.value, b.implementation.value);
          }
      }
    }
  }

  /** `StaticType` is totally ordered, so a union's members have one sorted order. */
  lemma TypeOrderTotal(a: StaticType, b: StaticType)
    ensures a == b || Less(TypeKey(a), TypeKey(b)) || Less(TypeKey(b), TypeKey(a))
  {
    LessTotal(TypeKey(a), TypeKey(b));
    if TypeKey(a) == TypeKey(b) {
      TypeKeyInjective(a, b);
    }
  }

  lemma TypeKeyIsInjective()
    ensures Injective(TypeKey)
  {
    forall a, b | TypeKey(a) == TypeKey(b) ensures a == b {
      TypeKeyInjective(a, b);
    }
  }
}

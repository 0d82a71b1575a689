/** The module fact catalogues that the offline checker proposes. */
module Facts {
  import opened Types

  type DynamicClassReason = nat
  const DYNAMIC_IGNORED_DIAGNOSTIC: DynamicClassReason := 9

  // The variants that demotion writes, by index in their enumerations.
  const DICTIONARY_UNKNOWN: nat := 2
  const OPENNESS_UNKNOWN: nat := 2
  const READ_PYTHON_ATTRIBUTE: nat := 0
  const WRITE_DYNAMIC: nat := 5
  const INITIALIZATION_UNKNOWN: nat := 3
  const OVERRIDE_DYNAMIC: nat := 2
  const MEMBER_DYNAMIC: nat := 4
  const BINDING_DYNAMIC: nat := 6
  const CALL_DYNAMIC: nat := 6

  datatype ClassPolicyOverride = ClassPolicyOverride(classRange: SourceRange, checkedAttr: bool)

  datatype ResolvedStrictPolicy = ResolvedStrictPolicy(
    strictAssign: bool, checkedAttr: bool, overrides: seq<ClassPolicyOverride>)

  datatype DependencyFingerprint = DependencyFingerprint(
    ofModule: ModuleContentId,
    sourceDigest: Fingerprint,
    sourceSize: nat,
    importResolution: Fingerprint,
    effectiveConfiguration: Fingerprint,
    strictPolicy: Option<Fingerprint>,
    typeContract: Option<Fingerprint>)

  datatype GlobalBindingFact = GlobalBindingFact(
    name: string,
    mutability: nat,
    valueType: StaticType,
    definition: Option<SourceIdentity>,
    uncertainty: set<UncertaintyReason>)

  datatype DecoratorFact = DecoratorFact(
    kind: nat,
    expressionRange: SourceRange,
    definition: Option<SourceIdentity>,
    sourceDigest: Option<Fingerprint>,
    arguments: map<string, LiteralValue>,
    uncertainty: set<UncertaintyReason>)

  datatype FunctionTypeFact = FunctionTypeFact(
    identity: SourceIdentity,
    functionKind: nat,
    signature: CallableSignature,
    decorators: seq<DecoratorFact>,
    uncertainty: set<UncertaintyReason>)

  datatype DescriptorKind = NotADescriptor | Property | NonData | Data | CachedProperty | UnknownDescriptor

  datatype DescriptorFact = DescriptorFact(
    kind: DescriptorKind,
    descriptorType: Option<StaticType>,
    getter: Option<SourceIdentity>,
    setter: Option<SourceIdentity>,
    deleter: Option<SourceIdentity>)

  datatype FieldKind =
    | InstanceField
    | CallableInstanceField
    | ShadowableClassDefault
    | CachedDescriptorField
    | ClassVariable
    | InitOnly
    | FrameworkPrivate
    | DynamicField

  datatype FieldTypeFact = FieldTypeFact(
    name: string,
    declaringClass: ClassReference,
    valueType: StaticType,
    origin: AnnotationOrigin,
    annotationDefinition: Option<SourceIdentity>,
    fieldKind: FieldKind,
    readPolicy: nat,
    writePolicy: nat,
    initialization: nat,
    default: DefaultFact,
    descriptor: DescriptorFact,
    uncertainty: set<UncertaintyReason>)

  datatype GeneratedFunctionFact = GeneratedFunctionFact(ofClass: ClassReference, transform: nat, name: string)

  datatype MethodTypeFact = MethodTypeFact(
    name: string,
    declaringClass: ClassReference,
    binding: nat,
    signature: CallableSignature,
    declaredFinal: bool,
    overridePolicy: nat,
    implementation: Option<SourceIdentity>,
    generated: Option<GeneratedFunctionFact>,
    uncertainty: set<UncertaintyReason>)

  datatype ClassMemberFact = ClassMemberFact(
    name: string,
    kind: nat,
    valueType: StaticType,
    definition: Option<SourceIdentity>,
    descriptor: DescriptorFact,
    uncertainty: set<UncertaintyReason>)

  datatype ParticipationProposal = Candidate | Dynamic(reasons: set<DynamicClassReason>)

  datatype MetaclassFact = BuiltinMetaclass | ClassMetaclass(metaclass: ClassReference) | DynamicMetaclass

  datatype BaseReference = ClassBase(base: ClassReference) | BuiltinBase(builtin: BuiltinType)

  datatype InheritanceFact = InheritanceFact(linearizedBases: seq<BaseReference>, complete: bool)

  datatype ClassTransformFact = ClassTransformFact(
    kind: nat,
    provenance: Option<SourceIdentity>,
    dataclassOptions: Option<seq<bool>>,
    generatedMethods: set<string>)

  datatype ClassTypeFact = ClassTypeFact(
    identity: SourceIdentity,
    bases: seq<BaseReference>,
    metaclass: MetaclassFact,
    decorators: seq<DecoratorFact>,
    participation: ParticipationProposal,
    dictionary: nat,
    instanceFields: seq<FieldTypeFact>,
    methods: seq<MethodTypeFact>,
    classMembers: seq<ClassMemberFact>,
    inheritance: InheritanceFact,
    openness: nat,
    transform: Option<ClassTransformFact>,
    uncertainty: set<UncertaintyReason>)

  datatype AnnotationTarget = ParameterTarget(index: nat) | ReturnTarget

  datatype FieldReference = FieldReference(
    declaringClass: ClassReference, annotationDefinition: SourceIdentity, name: string)

  datatype NominalBindingOwner =
    | FunctionOwner(function_: SourceIdentity, annotation: AnnotationTarget)
    | FieldOwner(field: FieldReference)

  datatype NominalBindingFact = NominalBindingFact(
    owner: NominalBindingOwner,
    expressionRange: SourceRange,
    name: string,
    ofClass: ClassReference,
    binding: SourceIdentity,
    bindingScope: SourceIdentity)

  datatype AttributeSiteIdentity = AttributeSiteIdentity(
    inModule: ModuleContentId, sourceDigest: Fingerprint, enclosing: SourceIdentity, expressionRange: SourceRange)

  datatype AttributeSiteFact = AttributeSiteFact(
    identity: AttributeSiteIdentity,
    name: string,
    access: nat,
    receiverType: StaticType,
    valueType: Option<StaticType>,
    declaringClass: Option<ClassReference>,
    uncertainty: set<UncertaintyReason>)

  datatype CallSiteIdentity = CallSiteIdentity(
    inModule: ModuleContentId, sourceDigest: Fingerprint, enclosing: SourceIdentity,
    expressionRange: SourceRange, expressionKind: nat)

  datatype ReceiverTypeFact = ReceiverTypeFact(valueType: StaticType, uncertainty: set<UncertaintyReason>)

  datatype CallableTargetFact =
    | SourceFunction(identity: SourceIdentity)
    | MethodTarget(ofClass: ClassReference, name: string, implementation: Option<SourceIdentity>)
    | GeneratedTarget(generated: GeneratedFunctionFact)
    | DynamicTarget

  datatype CallSiteFact = CallSiteFact(
    identity: CallSiteIdentity,
    receiver: Option<ReceiverTypeFact>,
    attributeName: Option<string>,
    candidateTargets: seq<CallableTargetFact>,
    binding: nat,
    signature: CallableSignature,
    resultType: StaticType,
    uncertainty: nat)

  datatype DiagnosticScope = ModuleScope | DefinitionScope(definition: SourceIdentity) | SiteScope(site: SourceRange)

  datatype StrictDiagnostic = StrictDiagnostic(
    code: nat,
    severity: nat,
    sourceRange: SourceRange,
    scope: DiagnosticScope,
    relatedDefinitions: seq<SourceIdentity>,
    suppressed: bool,
    message: string)

  datatype ModuleTypeFacts = ModuleTypeFacts(
    schemaVersion: nat,
    ofModule: ModuleContentId,
    sourceDigest: Fingerprint,
    sourceSize: nat,
    sourceDialect: nat,
    languagePolicy: ResolvedStrictPolicy,
    consumedDependencies: seq<DependencyFingerprint>,
    globalBindings: seq<GlobalBindingFact>,
    classes: seq<ClassTypeFact>,
    functions: seq<FunctionTypeFact>,
    nominalBindings: seq<NominalBindingFact>,
    attributeSites: seq<AttributeSiteFact>,
    callSites: seq<CallSiteFact>,
    diagnostics: seq<StrictDiagnostic>)
}

/**
  Demotion as the source carries it out: entry by entry, each catalogue edited in place, with the
  signature rewriting reporting whether it changed anything.
 */
module DemotionSteps {
  import opened Types
  import opened Facts
  import opened Closure
  import opened Demotion

  /** `IgnoredDefinitions::signature`: replaces types and defaults one by one and reports any change. */
  method RewriteSignature(ig: IgnoredDefinitions, s: CallableSignature, full: bool)
    returns (r: CallableSignature, affected: bool)
    ensures r == DemoteSignature(ig, s, full)
    ensures affected == SignatureAffected(ig, s, full)
  {
    var ps := s.parameters;
    affected := ValueAffected(ig, s.returnType, full);
    for i := 0 to |ps|
      invariant |ps| == |s.parameters|
      invariant forall k :: 0 <= k < |ps| ==>
        ps[k] == if k < i then DemoteParameter(ig, s.parameters[k], full) else s.parameters[k]
      invariant affected <==>
        || ValueAffected(ig, s.returnType, full)
        || exists k :: 0 <= k < i && ParameterAffected(ig, s.parameters[k], full)
    {
      affected := affected || ValueAffected(ig, ps[i].valueType, full);
      ps := ps[i := ps[i].(valueType := DemoteValue(ig, ps[i].valueType, full))];
      affected := affected || DefaultAffected(ig, ps[i].default, full);
      ps := ps[i := ps[i].(default := DemoteDefault(ig, ps[i].default, full))];
      assert ParameterAffected(ig, s.parameters[i], full) ==> affected;
    }
    assert ps == DemoteParameters(ig, s.parameters, full);
    r := s.(returnType := DemoteValue(ig, s.returnType, full), parameters := ps,
            uncertainty := if affected then s.uncertainty + {IGNORED_DIAGNOSTIC} else s.uncertainty);
  }

  method RewriteField(ig: IgnoredDefinitions, field: FieldTypeFact, full: bool) returns (f: FieldTypeFact)
    ensures f == DemoteField(ig, field, full)
  {
    f := field;
    var fieldFull := FieldFull(ig, f, full);
    var affected := ValueAffected(ig, f.valueType, fieldFull);
    f := f.(valueType := DemoteValue(ig, f.valueType, fieldFull));
    affected := affected || DefaultAffected(ig, f.default, fieldFull);
    f := f.(default := DemoteDefault(ig, f.default, fieldFull));
    affected := affected || DescriptorAffected(ig, f.descriptor, fieldFull);
    f := f.(descriptor := DemoteDescriptor(ig, f.descriptor, fieldFull));
    if fieldFull {
      f := f.(fieldKind := DynamicField, readPolicy := READ_PYTHON_ATTRIBUTE,
              writePolicy := WRITE_DYNAMIC, initialization := INITIALIZATION_UNKNOWN);
    }
    if affected {
      f := f.(uncertainty := f.uncertainty + {IGNORED_DIAGNOSTIC});
    }
  }

  method RewriteClass(ig: IgnoredDefinitions, before: ClassTypeFact) returns (c: ClassTypeFact)
    ensures c == DemoteClass(ig, before)
  {
    c := before;
    var full := ig.Identity(c.identity);
    if full {
      match c.participation {
        case Candidate => c := c.(participation := Dynamic({DYNAMIC_IGNORED_DIAGNOSTIC}));
        case Dynamic(reasons) => c := c.(participation := Dynamic(reasons + {DYNAMIC_IGNORED_DIAGNOSTIC}));
      }
      c := c.(dictionary := DICTIONARY_UNKNOWN, inheritance := c.inheritance.(complete := false),
              openness := OPENNESS_UNKNOWN, uncertainty := c.uncertainty + {IGNORED_DIAGNOSTIC});
    }
    var fields := RewriteFields(ig, before.instanceFields, full);
    var methods := RewriteMethods(ig, before.methods, full);
    var members := RewriteMembers(ig, before.classMembers, full);
    c := c.(instanceFields := fields, methods := methods, classMembers := members);
  }

  method RewriteFields(ig: IgnoredDefinitions, fs: seq<FieldTypeFact>, full: bool) returns (r: seq<FieldTypeFact>)
    ensures r == DemoteFields(ig, fs, full)
  {
    r := fs;
    for i := 0 to |fs|
      invariant |r| == |fs|
      invariant forall k :: 0 <= k < |fs| ==> r[k] == if k < i then DemoteField(ig, fs[k], full) else fs[k]
    {
      var f := RewriteField(ig, r[i], full);
      r := r[i := f];
    }
  }

  method RewriteMethods(ig: IgnoredDefinitions, ms: seq<MethodTypeFact>, full: bool) returns (r: seq<MethodTypeFact>)
    ensures r == DemoteMethods(ig, ms, full)
  {
    r := ms;
    for i := 0 to |ms|
      invariant |r| == |ms|
      invariant forall k :: 0 <= k < |ms| ==> r[k] == if k < i then DemoteMethod(ig, ms[k], full) else ms[k]
    {
      var m := r[i];
      var signature, affected := RewriteSignature(ig, m.signature, full);
      m := m.(signature := signature);
      if affected {
        m := m.(uncertainty := m.uncertainty + {IGNORED_DIAGNOSTIC});
      }
      if full {
        m := m.(overridePolicy := OVERRIDE_DYNAMIC);
      }
      r := r[i := m];
    }
  }

  method RewriteMembers(ig: IgnoredDefinitions, ms: seq<ClassMemberFact>, full: bool) returns (r: seq<ClassMemberFact>)
    ensures r == DemoteClassMembers(ig, ms, full)
  {
    r := ms;
    for i := 0 to |ms|
      invariant |r| == |ms|
      invariant forall k :: 0 <= k < |ms| ==> r[k] == if k < i then DemoteMember(ig, ms[k], full) else ms[k]
    {
      var m := r[i];
      var affected := ValueAffected(ig, m.valueType, full) || DescriptorAffected(ig, m.descriptor, full);
      m := m.(valueType := DemoteValue(ig, m.valueType, full), descriptor := DemoteDescriptor(ig, m.descriptor, full));
      if affected {
        m := m.(uncertainty := m.uncertainty + {IGNORED_DIAGNOSTIC});
      }
      if full {
        m := m.(kind := MEMBER_DYNAMIC);
      }
      r := r[i := m];
    }
  }

  method RewriteFunctions(ig: IgnoredDefinitions, fs: seq<FunctionTypeFact>) returns (r: seq<FunctionTypeFact>)
    ensures r == DemoteFunctions(ig, fs)
  {
    r := fs;
    for i := 0 to |fs|
      invariant |r| == |fs|
      invariant forall k :: 0 <= k < |fs| ==> r[k] == if k < i then DemoteFunction(ig, fs[k]) else fs[k]
    {
      var signature, affected := RewriteSignature(ig, r[i].signature, ig.Identity(r[i].identity));
      r := r[i := r[i].(signature := signature)];
      if affected {
        r := r[i := r[i].(uncertainty := r[i].uncertainty + {IGNORED_DIAGNOSTIC})];
      }
    }
  }

  /** `Vec::retain` */
  method RetainBindings(ig: IgnoredDefinitions, bs: seq<NominalBindingFact>) returns (r: seq<NominalBindingFact>)
    ensures r == Retained(ig, bs)
  {
    r := [];
    for i := 0 to |bs|
      invariant r == Retained(ig, bs[..i])
    {
      assert bs[..i + 1][..i] == bs[..i];
      if Keeps(ig, bs[i]) {
        r := r + [bs[i]];
      }
    }
    assert bs[..|bs|] == bs;
  }

  method RewriteCalls(ig: IgnoredDefinitions, ss: seq<CallSiteFact>) returns (r: seq<CallSiteFact>)
    ensures r == DemoteCalls(ig, ss)
  {
    r := ss;
    for i := 0 to |ss|
      invariant |r| == |ss|
      invariant forall k :: 0 <= k < |ss| ==> r[k] == if k < i then DemoteCall(ig, ss[k]) else ss[k]
    {
      var s := r[i];
      if CallAffected(ig, s) {
        if s.receiver.Some? {
          s := s.(receiver := Some(ReceiverTypeFact(Unknown, s.receiver.value.uncertainty + {IGNORED_DIAGNOSTIC})));
        }
        var signature, _ := RewriteSignature(ig, s.signature, true);
        s := s.(candidateTargets := [DynamicTarget], binding := BINDING_DYNAMIC, signature := signature,
                resultType := Unknown, uncertainty := CALL_DYNAMIC);
        r := r[i := s];
      }
    }
  }

  /** The whole pass, with its early return. */
  method DemoteSuppressedRegions(facts: ModuleTypeFacts) returns (r: ModuleTypeFacts)
    ensures r == Demoted(facts)
  {
    r := facts;
    if !HasSuppressed(facts) {
      return;
    }
    var ig, _ := CloseIgnored(facts);
    var bindings := RewriteBindings(ig, facts.globalBindings);
    var classes := RewriteClasses(ig, facts.classes);
    var functions := RewriteFunctions(ig, facts.functions);
    var nominal := RetainBindings(ig, facts.nominalBindings);
    var sites := RewriteSites(ig, facts.attributeSites);
    var calls := RewriteCalls(ig, facts.callSites);
    r := r.(globalBindings := bindings, classes := classes, functions := functions, nominalBindings := nominal,
            attributeSites := sites, callSites := calls);
  }

  method RewriteBindings(ig: IgnoredDefinitions, bs: seq<GlobalBindingFact>) returns (r: seq<GlobalBindingFact>)
    ensures r == DemoteBindings(ig, bs)
  {
    r := bs;
    for i := 0 to |bs|
      invariant |r| == |bs|
      invariant forall k :: 0 <= k < |bs| ==> r[k] == if k < i then DemoteBinding(ig, bs[k]) else bs[k]
    {
      var b := r[i];
      if ig.wholeModule || ig.Some(b.definition) || ValueReferences(ig, b.valueType) {
        b := b.(valueType := Unknown);
        b := b.(uncertainty := b.uncertainty + {IGNORED_DIAGNOSTIC});
      }
      r := r[i := b];
    }
  }

  method RewriteClasses(ig: IgnoredDefinitions, cs: seq<ClassTypeFact>) returns (r: seq<ClassTypeFact>)
    ensures r == DemoteClasses(ig, cs)
  {
    r := cs;
    for i := 0 to |cs|
      invariant |r| == |cs|
      invariant forall k :: 0 <= k < |cs| ==> r[k] == if k < i then DemoteClass(ig, cs[k]) else cs[k]
    {
      var c := RewriteClass(ig, r[i]);
      r := r[i := c];
    }
  }

  method RewriteSites(ig: IgnoredDefinitions, ss: seq<AttributeSiteFact>) returns (r: seq<AttributeSiteFact>)
    ensures r == DemoteSites(ig, ss)
  {
    r := ss;
    for i := 0 to |ss|
      invariant |r| == |ss|
      invariant forall k :: 0 <= k < |ss| ==> r[k] == if k < i then DemoteSite(ig, ss[k]) else ss[k]
    {
      var s := r[i];
      if SiteAffected(ig, s) {
        s := s.(receiverType := Unknown, declaringClass := Option.None,
                uncertainty := s.uncertainty + {IGNORED_DIAGNOSTIC});
        if s.valueType.Some? {
          s := s.(valueType := Some(Unknown));
        }
        r := r[i := s];
      }
    }
  }
}

/**
  Display labels and image adornments for Java content-assist proposals.
  What the Java `Signature` utilities derive from a proposal's signatures, and the
  translated messages, are foreign here: they arrive as the functions of a
  `SignatureOps` value. Each `Flags.isX` test is a boolean of `Flags`.
*/
module ProposalLabels {
  import opened Wrappers
  import opened Strings

  /** The proposal kinds the label and image dispatch name, and any other kind code. */
  datatype Kind =
    | AnonymousClassDeclaration | FieldRef | Keyword | LabelRef | LocalVariableRef
    | MethodRef | MethodDeclaration | PackageRef | TypeRef | VariableDeclaration
    | PotentialMethodDeclaration | MethodNameReference | AnnotationAttributeRef
    | OtherKind(code: int)

  /** The modifier tests the adornments consult. */
  datatype Flags = Flags(isDeprecated: bool, isStatic: bool, isFinal: bool,
                         isSynchronized: bool, isAbstract: bool, isInterface: bool)

  /** A completion proposal: `parameterTypes` are the parameter type signatures of its
      signature, `parameterNames` what findParameterNames answers (the array or any of
      its entries may be null), `declarationSignature` may be null. */
  datatype Proposal = Proposal(
    kind: Kind, flags: Flags, name: string, completion: string, signature: string,
    parameterTypes: seq<string>, parameterNames: Option<seq<Option<string>>>,
    declarationSignature: Option<string>)

  /** The foreign derivations a label uses. */
  datatype SignatureOps = SignatureOps(
    parameterDisplayName: string -> string,   // display name of the lower bound of a parameter type
    returnTypeDisplayName: string -> string,  // display name of the upper bound of a signature's return type
    simpleName: string -> string,             // Signature.getSimpleName
    signatureSimpleName: string -> string,    // Signature.getSignatureSimpleName
    simpleNameOfNull: Result<string, LabelError>, // Signature.getSignatureSimpleName on a null signature
    signatureQualifier: string -> string,     // Signature.getSignatureQualifier
    stripSignatureToFQN: string -> string,    // SignatureUtil.stripSignatureToFQN
    overridingMethodText: string -> string,   // the formatted "ResultCollector.overridingmethod" message
    anonymousTypeText: string)                // the "ResultCollector.anonymous_type" message

  /** The runtime exceptions a label or image request can end in. */
  datatype LabelError = AssertionFailed | NullPointer

  // ---------------------------------------------------------------------------
  // Parameter lists

  /** Every parameter type has a name slot when there is a names array at all. */
  predicate NamesCover(types: seq<string>, names: Option<seq<Option<string>>>)
  {
    names.None? || |types| <= |names.value|
  }

  /** Parameter `i`: its type, then a space and its name when there is one. */
  function Parameter(types: seq<string>, names: Option<seq<Option<string>>>, i: nat): string
    requires i < |types| && NamesCover(types, names)
  {
    types[i] + (if names.Some? && names.value[i].Some? then " " + names.value[i].value else "")
  }

  function Parameters(types: seq<string>, names: Option<seq<Option<string>>>): (r: seq<string>)
    requires NamesCover(types, names)
    ensures |r| == |types|
    ensures forall i :: 0 <= i < |types| ==> r[i] == Parameter(types, names, i)
  {
    seq(|types|, i requires 0 <= i < |types| => Parameter(types, names, i))
  }

  /** What appendParameterSignature appends: nothing for a null types array, else the
      parameters separated by ", ". */
  function ParameterSignature(types: Option<seq<string>>, names: Option<seq<Option<string>>>): string
    requires types.Some? ==> NamesCover(types.value, names)
  {
    if types.None? then "" else Join(Parameters(types.value, names), ", ")
  }

  /** appendParameterSignature. */
  method AppendParameterSignature(buffer: string, parameterTypes: Option<seq<string>>,
                                  parameterNames: Option<seq<Option<string>>>) returns (r: string)
    requires parameterTypes.Some? ==> NamesCover(parameterTypes.value, parameterNames)
    ensures parameterTypes.None? ==> r == buffer
    ensures r == buffer + ParameterSignature(parameterTypes, parameterNames)
  {
    r := buffer;
    if parameterTypes.Some? {
      var types := parameterTypes.value;
      ghost var ps := Parameters(types, parameterNames);
      for i := 0 to |types|
        invariant r == buffer + Join(ps[..i], ", ")
      {
        JoinSnoc(ps[..i], ps[i], ", ");
        assert ps[..i + 1] == ps[..i] + [ps[i]];
        r := AppendParameter(r, types, parameterNames, i);
      }
      assert ps[..|types|] == ps;
    }
  }

  /** One step of appendParameterSignature's loop: ", " before every parameter but the
      first, the type, then a space and the name when there is one. */
  method AppendParameter(buffer: string, types: seq<string>, names: Option<seq<Option<string>>>, i: nat)
    returns (r: string)
    requires i < |types| && NamesCover(types, names)
    ensures r == buffer + (if i > 0 then ", " else "") + Parameter(types, names, i)
  {
    r := buffer;
    if i > 0 {
      r := r + [','];
      r := r + [' '];
    }
    r := r + types[i];
    if names.Some? && names.value[i].Some? {
      r := r + [' '];
      r := r + names.value[i].value;
    }
  }

  /** With no names array, or only null names, the list is the types alone. */
  lemma NamesAbsent(types: seq<string>, names: Option<seq<Option<string>>>)
    requires NamesCover(types, names)
    requires names.Some? ==> forall i :: 0 <= i < |types| ==> names.value[i].None?
    ensures ParameterSignature(Some(types), names) == Join(types, ", ")
  {
    var ps := Parameters(types, names);
    forall i | 0 <= i < |types|
      ensures ps[i] == types[i]
    {
      if names.Some? {
        assert names.value[i].None?;
      }
    }
    assert ps == types;
  }

  /** The list starts with the first parameter and ends with the last. */
  lemma ParameterSignatureEnds(types: seq<string>, names: Option<seq<Option<string>>>)
    requires NamesCover(types, names) && types != []
    ensures var r, first, last := ParameterSignature(Some(types), names),
        Parameter(types, names, 0), Parameter(types, names, |types| - 1);
      && |first| <= |r| && r[..|first|] == first
      && |last| <= |r| && r[|r| - |last|..] == last
  {
    JoinEnds(Parameters(types, names), ", ");
  }

  /** A parameter with no comma of its own is told from the next by exactly one comma:
      n parameters give n - 1 commas. */
  lemma ParameterSignatureCommas(types: seq<string>, names: Option<seq<Option<string>>>)
    requires NamesCover(types, names)
    requires forall i :: 0 <= i < |types| ==> ',' !in Parameter(types, names, i)
    ensures Count(ParameterSignature(Some(types), names), ',') == if types == [] then 0 else |types| - 1
  {
    if types != [] {
      assert Count(", ", ',') == 1 by {
        assert ", "[1..] == " ";
        assert " "[1..] == "";
      }
      CountJoin(Parameters(types, names), ", ", ',');
    }
  }

  /** The display names the parameter types are overwritten with. */
  function DisplayNames(types: seq<string>, ops: SignatureOps): (r: seq<string>)
    ensures |r| == |types|
    ensures forall i :: 0 <= i < |types| ==> r[i] == ops.parameterDisplayName(types[i])
  {
    seq(|types|, i requires 0 <= i < |types| => ops.parameterDisplayName(types[i]))
  }

  /** What appendUnboundedParameterList appends. */
  function UnboundedParameterList(p: Proposal, ops: SignatureOps): string
    requires NamesCover(p.parameterTypes, p.parameterNames)
  {
    ParameterSignature(Some(DisplayNames(p.parameterTypes, ops)), p.parameterNames)
  }

  /** appendUnboundedParameterList: the types array is overwritten in place with the
      display names, then appended with the names. */
  method AppendUnboundedParameterList(buffer: string, p: Proposal, ops: SignatureOps) returns (r: string)
    requires NamesCover(p.parameterTypes, p.parameterNames)
    ensures r == buffer + UnboundedParameterList(p, ops)
  {
    var n := |p.parameterTypes|;
    var parameterTypes := new string[n](i requires 0 <= i < n => p.parameterTypes[i]);
    for i := 0 to n
      invariant forall k :: 0 <= k < i ==> parameterTypes[k] == ops.parameterDisplayName(p.parameterTypes[k])
      invariant forall k :: i <= k < n ==> parameterTypes[k] == p.parameterTypes[k]
    {
      parameterTypes[i] := ops.parameterDisplayName(parameterTypes[i]);
    }
    assert parameterTypes[..] == DisplayNames(p.parameterTypes, ops);
    r := AppendParameterSignature(buffer, Some(parameterTypes[..]), p.parameterNames);
  }

  /** createUnboundedParameterList: only for method references. */
  method CreateUnboundedParameterList(p: Proposal, ops: SignatureOps) returns (r: Result<string, LabelError>)
    requires NamesCover(p.parameterTypes, p.parameterNames)
    ensures p.kind != MethodRef ==> r == Failure(AssertionFailed)
    ensures p.kind == MethodRef ==> r == Success(UnboundedParameterList(p, ops))
  {
    if p.kind != MethodRef {
      return Failure(AssertionFailed);
    }
    var list := AppendUnboundedParameterList("", p, ops);
    assert "" + UnboundedParameterList(p, ops) == UnboundedParameterList(p, ops);
    r := Success(list);
  }

  // ---------------------------------------------------------------------------
  // Labels

  /** extractDeclaringTypeFQN: methods without a declaring type (those of arrays) are
      taken to be declared by java.lang.Object. */
  function DeclaringTypeFQN(p: Proposal, ops: SignatureOps): (r: string)
    ensures p.declarationSignature.None? ==> r == "java.lang.Object"
    ensures p.declarationSignature.Some? ==> r == ops.stripSignatureToFQN(p.declarationSignature.value)
  {
    match p.declarationSignature
    case None => "java.lang.Object"
    case Some(d) => ops.stripSignatureToFQN(d)
  }

  /** The label of a method proposal: name, parameter list, return type, declaring type. */
  function MethodLabel(p: Proposal, ops: SignatureOps): string
    requires NamesCover(p.parameterTypes, p.parameterNames)
  {
    p.name + "(" + UnboundedParameterList(p, ops) + ")  " + ops.returnTypeDisplayName(p.signature)
    + " - " + ops.simpleName(DeclaringTypeFQN(p, ops))
  }

  /** The label of an overriding method declaration: as a method label, with the
      declaring type put into the "overriding" message. */
  function OverrideMethodLabel(p: Proposal, ops: SignatureOps): string
    requires NamesCover(p.parameterTypes, p.parameterNames)
  {
    p.name + "(" + UnboundedParameterList(p, ops) + ")  " + ops.returnTypeDisplayName(p.signature)
    + " - " + ops.overridingMethodText(ops.simpleName(DeclaringTypeFQN(p, ops)))
  }

  /** createMethodProposalLabel. */
  method CreateMethodProposalLabel(p: Proposal, ops: SignatureOps) returns (text: string)
    requires NamesCover(p.parameterTypes, p.parameterNames)
    ensures text == MethodLabel(p, ops)
  {
    var nameBuffer := "";
    nameBuffer := nameBuffer + p.name;
    nameBuffer := nameBuffer + "(";
    nameBuffer := AppendUnboundedParameterList(nameBuffer, p, ops);
    nameBuffer := nameBuffer + ")  ";
    var returnType := ops.returnTypeDisplayName(p.signature);
    nameBuffer := nameBuffer + returnType;
    nameBuffer := nameBuffer + " - ";
    var declaringType := DeclaringTypeFQN(p, ops);
    declaringType := ops.simpleName(declaringType);
    nameBuffer := nameBuffer + declaringType;
    text := nameBuffer;
  }

  /** createOverrideMethodProposalLabel. */
  method CreateOverrideMethodProposalLabel(p: Proposal, ops: SignatureOps) returns (text: string)
    requires NamesCover(p.parameterTypes, p.parameterNames)
    ensures text == OverrideMethodLabel(p, ops)
  {
    var nameBuffer := "";
    nameBuffer := nameBuffer + p.name;
    nameBuffer := nameBuffer + "(";
    nameBuffer := AppendUnboundedParameterList(nameBuffer, p, ops);
    nameBuffer := nameBuffer + ")  ";
    var returnType := ops.returnTypeDisplayName(p.signature);
    nameBuffer := nameBuffer + returnType;
    nameBuffer := nameBuffer + " - ";
    var declaringType := DeclaringTypeFQN(p, ops);
    declaringType := ops.simpleName(declaringType);
    nameBuffer := nameBuffer + ops.overridingMethodText(declaringType);
    text := nameBuffer;
  }

  /** The method label begins with the name and an opening parenthesis, and ends with
      the declaring type's simple name after " - ". */
  lemma MethodLabelEnds(p: Proposal, ops: SignatureOps)
    requires NamesCover(p.parameterTypes, p.parameterNames)
    ensures var text, head, decl := MethodLabel(p, ops), p.name + "(", " - " + ops.simpleName(DeclaringTypeFQN(p, ops));
      && |head| <= |text| && text[..|head|] == head
      && |decl| <= |text| && text[|text| - |decl|..] == decl
  {
    var head := p.name + "(";
    var rest := UnboundedParameterList(p, ops) + ")  " + ops.returnTypeDisplayName(p.signature);
    var decl := " - " + ops.simpleName(DeclaringTypeFQN(p, ops));
    assert MethodLabel(p, ops) == head + rest + decl;
  }

  /** An array method, with no declaring type, is labelled as declared by Object. */
  lemma ArrayMethodLabel(p: Proposal, ops: SignatureOps)
    requires NamesCover(p.parameterTypes, p.parameterNames)
    requires p.declarationSignature.None?
    requires ops.simpleName("java.lang.Object") == "Object"
    ensures var text := MethodLabel(p, ops); |text| >= 9 && text[|text| - 9..] == " - Object"
  {
    MethodLabelEnds(p, ops);
  }

  /** When no part but the parameter list can hold a comma, the method label has one
      comma between each two parameters and no other. */
  lemma MethodLabelCommas(p: Proposal, ops: SignatureOps)
    requires NamesCover(p.parameterTypes, p.parameterNames)
    requires forall i :: 0 <= i < |p.parameterTypes| ==>
      ',' !in Parameter(DisplayNames(p.parameterTypes, ops), p.parameterNames, i)
    requires ',' !in p.name && ',' !in ops.returnTypeDisplayName(p.signature)
    requires ',' !in ops.simpleName(DeclaringTypeFQN(p, ops))
    ensures Count(MethodLabel(p, ops), ',') == if p.parameterTypes == [] then 0 else |p.parameterTypes| - 1
  {
    var types := DisplayNames(p.parameterTypes, ops);
    ParameterSignatureCommas(types, p.parameterNames);
    var params := UnboundedParameterList(p, ops);
    var ret := ops.returnTypeDisplayName(p.signature);
    var decl := ops.simpleName(DeclaringTypeFQN(p, ops));
    CountAppend(p.name + "(", params, ',');
    CountAppend(p.name, "(", ',');
    CountAppend(p.name + "(" + params, ")  ", ',');
    CountAppend(p.name + "(" + params + ")  ", ret, ',');
    CountAppend(p.name + "(" + params + ")  " + ret, " - ", ',');
    CountAppend(p.name + "(" + params + ")  " + ret + " - ", decl, ',');
  }

  /** `base`, then `sep` and `extra` only when `extra` is not empty. */
  function Suffixed(base: string, sep: string, extra: string): string
  {
    if |extra| > 0 then base + sep + extra else base
  }

  /** The suffix rule: the label is its base exactly when there is nothing to add, and
      otherwise grows by the separator and the addition. */
  lemma SuffixedShape(base: string, sep: string, extra: string)
    ensures var r := Suffixed(base, sep, extra);
      && |r| == |base| + (if extra == [] then 0 else |sep| + |extra|)
      && r[..|base|] == base
      && (r == base <==> extra == [])
      && (extra != [] ==> r[|base|..] == sep + extra)
  {
    var r := Suffixed(base, sep, extra);
    if extra != [] {
      assert r == base + (sep + extra);
      assert |r| > |base|;
    }
  }

  /** createTypeProposalLabel: the simple type name, then " - " and the package when it
      has one. */
  function TypeLabel(p: Proposal, ops: SignatureOps): (r: string)
    ensures var typeName, packageName := ops.signatureSimpleName(p.signature), ops.signatureQualifier(p.signature);
      && |typeName| <= |r| && r[..|typeName|] == typeName
      && (r == typeName <==> packageName == [])
      && (packageName != [] ==> r[|typeName|..] == " - " + packageName)
  {
    var typeName := ops.signatureSimpleName(p.signature);
    var packageName := ops.signatureQualifier(p.signature);
    SuffixedShape(typeName, " - ", packageName);
    Suffixed(typeName, " - ", packageName)
  }

  /** createSimpleLabelWithType: the completion, then four spaces and the simple type name
      when it has one. */
  function SimpleLabelWithType(p: Proposal, ops: SignatureOps): (r: string)
    ensures var typeName := ops.signatureSimpleName(p.signature);
      && |p.completion| <= |r| && r[..|p.completion|] == p.completion
      && (r == p.completion <==> typeName == [])
      && (typeName != [] ==> r[|p.completion|..] == "    " + typeName)
  {
    var typeName := ops.signatureSimpleName(p.signature);
    SuffixedShape(p.completion, "    ", typeName);
    Suffixed(p.completion, "    ", typeName)
  }

  /** The simple name of the declaration a field label adds, empty for a null declaration. */
  function DeclarationName(p: Proposal, ops: SignatureOps): string
  {
    if p.declarationSignature.Some? then ops.signatureSimpleName(p.declarationSignature.value) else ""
  }

  /** createLabelWithTypeAndDeclaration: the simple label with type, then " - " and the
      declaration's simple name when there is a declaration and its name is not empty. */
  function LabelWithTypeAndDeclaration(p: Proposal, ops: SignatureOps): (r: string)
    ensures var simple := SimpleLabelWithType(p, ops);
      && |simple| <= |r| && r[..|simple|] == simple
      && (r == simple <==> (p.declarationSignature.None? || ops.signatureSimpleName(p.declarationSignature.value) == []))
      && (p.declarationSignature.Some? && ops.signatureSimpleName(p.declarationSignature.value) != [] ==>
            r[|simple|..] == " - " + ops.signatureSimpleName(p.declarationSignature.value))
  {
    var simple := SimpleLabelWithType(p, ops);
    SuffixedShape(simple, " - ", DeclarationName(p, ops));
    Suffixed(simple, " - ", DeclarationName(p, ops))
  }

  /** createPackageProposalLabel: asserts the kind and answers the declaration signature,
      which must not be null. */
  function PackageLabel(p: Proposal): (r: Result<string, LabelError>)
    ensures p.kind != PackageRef ==> r == Failure(AssertionFailed)
    ensures p.kind == PackageRef && p.declarationSignature.None? ==> r == Failure(NullPointer)
    ensures p.kind == PackageRef && p.declarationSignature.Some? ==> r == Success(p.declarationSignature.value)
  {
    if p.kind != PackageRef then Failure(AssertionFailed)
    else if p.declarationSignature.None? then Failure(NullPointer)
    else Success(p.declarationSignature.value)
  }

  /** Signature.getSignatureSimpleName on a declaration signature that may be null: what it
      answers for null is whatever its implementation does, a name or an exception. */
  function SignatureSimpleName(signature: Option<string>, ops: SignatureOps): Result<string, LabelError>
  {
    match signature
    case None => ops.simpleNameOfNull
    case Some(d) => Success(ops.signatureSimpleName(d))
  }

  /** The label of an anonymous class declaration: the simple name of the declaring type,
      the parameter list in parentheses, two spaces and the anonymous-type message. */
  function AnonymousTypeLabel(p: Proposal, ops: SignatureOps): Result<string, LabelError>
    requires NamesCover(p.parameterTypes, p.parameterNames)
  {
    match SignatureSimpleName(p.declarationSignature, ops)
    case Failure(e) => Failure(e)
    case Success(name) =>
      Success(name + "(" + UnboundedParameterList(p, ops) + ")" + "  " + ops.anonymousTypeText)
  }

  /** createAnonymousTypeLabel. */
  method CreateAnonymousTypeLabel(p: Proposal, ops: SignatureOps) returns (r: Result<string, LabelError>)
    requires NamesCover(p.parameterTypes, p.parameterNames)
    ensures r == AnonymousTypeLabel(p, ops)
    ensures r.Failure? <==> p.declarationSignature.None? && ops.simpleNameOfNull.Failure?
    ensures p.declarationSignature.Some? ==>
      var name := ops.signatureSimpleName(p.declarationSignature.value);
      r.Success? && |name| + 1 <= |r.value| && r.value[..|name| + 1] == name + "("
    ensures r.Success? ==>
      var text := ops.anonymousTypeText;
      |text| + 3 <= |r.value| && r.value[|r.value| - |text| - 3..] == ")  " + text
  {
    var declaringTypeSignature := p.declarationSignature;
    var simpleName := SignatureSimpleName(declaringTypeSignature, ops);
    if simpleName.Failure? {
      return Failure(simpleName.error);
    }
    var buffer := "";
    buffer := buffer + simpleName.value;
    buffer := buffer + "(";
    buffer := AppendUnboundedParameterList(buffer, p, ops);
    buffer := buffer + ")";
    buffer := buffer + "  ";
    buffer := buffer + ops.anonymousTypeText;
    r := Success(buffer);
    assert buffer == simpleName.value + "(" + UnboundedParameterList(p, ops) + ")" + "  " + ops.anonymousTypeText;
  }

  predicate IsMethodLabelKind(k: Kind)
  {
    k == MethodNameReference || k == MethodRef || k == AnnotationAttributeRef || k == PotentialMethodDeclaration
  }

  /** createLabel: the label builder for each kind. */
  function CreateLabel(p: Proposal, ops: SignatureOps): (r: Result<string, LabelError>)
    requires NamesCover(p.parameterTypes, p.parameterNames)
    ensures p.kind.OtherKind? ==> r == Failure(AssertionFailed)
    ensures IsMethodLabelKind(p.kind) ==> r == Success(MethodLabel(p, ops))
    ensures p.kind == MethodDeclaration ==> r == Success(OverrideMethodLabel(p, ops))
    ensures p.kind == AnonymousClassDeclaration ==> r == AnonymousTypeLabel(p, ops)
    ensures p.kind == TypeRef ==> r == Success(TypeLabel(p, ops))
    ensures p.kind == PackageRef ==> r == PackageLabel(p)
    ensures p.kind == FieldRef ==> r == Success(LabelWithTypeAndDeclaration(p, ops))
    ensures p.kind == LocalVariableRef || p.kind == VariableDeclaration ==> r == Success(SimpleLabelWithType(p, ops))
    ensures p.kind == Keyword || p.kind == LabelRef ==> r == Success(p.completion)
  {
    match p.kind
    case MethodNameReference | MethodRef | AnnotationAttributeRef | PotentialMethodDeclaration =>
      Success(MethodLabel(p, ops))
    case MethodDeclaration => Success(OverrideMethodLabel(p, ops))
    case AnonymousClassDeclaration => AnonymousTypeLabel(p, ops)
    case TypeRef => Success(TypeLabel(p, ops))
    case PackageRef => PackageLabel(p)
    case FieldRef => Success(LabelWithTypeAndDeclaration(p, ops))
    case LocalVariableRef | VariableDeclaration => Success(SimpleLabelWithType(p, ops))
    case Keyword | LabelRef => Success(p.completion)
    case OtherKind(_) => Failure(AssertionFailed)
  }

  /** createLabel fails exactly for an unlisted kind, for a package reference whose
      declaration signature is null, and for an anonymous class declaration whose null
      declaration signature Signature.getSignatureSimpleName refuses. */
  lemma CreateLabelFails(p: Proposal, ops: SignatureOps)
    requires NamesCover(p.parameterTypes, p.parameterNames)
    ensures CreateLabel(p, ops).Failure? <==>
      || p.kind.OtherKind?
      || (p.kind == PackageRef && p.declarationSignature.None?)
      || (p.kind == AnonymousClassDeclaration && p.declarationSignature.None? && ops.simpleNameOfNull.Failure?)
  {
  }

  // ---------------------------------------------------------------------------
  // Images

  /** Adornment bits: placeholders, distinct single bits standing for those of JavaElementImageDescriptor. */
  const ABSTRACT: bv32 := 0x001
  const FINAL: bv32 := 0x002
  const SYNCHRONIZED: bv32 := 0x004
  const STATIC: bv32 := 0x008
  const DEPRECATED: bv32 := 0x400

  /** The kinds whose static flag shows. */
  predicate ShowsStatic(k: Kind)
  {
    k == FieldRef || k == MethodDeclaration || k == MethodNameReference || k == MethodRef
  }

  /** The kinds whose synchronized flag shows. */
  predicate ShowsSynchronized(k: Kind)
  {
    k == MethodDeclaration || k == MethodNameReference || k == MethodRef
  }

  /** The adornments of decorateImageDescriptor, bit by bit. */
  function Adornments(kind: Kind, flags: Flags): (r: bv32)
    ensures (r & DEPRECATED != 0) <==> flags.isDeprecated
    ensures (r & STATIC != 0) <==> flags.isStatic && ShowsStatic(kind)
    ensures (r & FINAL != 0) <==> flags.isFinal
    ensures (r & SYNCHRONIZED != 0) <==> flags.isSynchronized && ShowsSynchronized(kind)
    ensures (r & ABSTRACT != 0) <==> flags.isAbstract && !flags.isInterface
    ensures r & !(DEPRECATED | STATIC | FINAL | SYNCHRONIZED | ABSTRACT) == 0
  {
    (if flags.isDeprecated then DEPRECATED else 0)
    | (if flags.isStatic && ShowsStatic(kind) then STATIC else 0)
    | (if flags.isFinal then FINAL else 0)
    | (if flags.isSynchronized && ShowsSynchronized(kind) then SYNCHRONIZED else 0)
    | (if flags.isAbstract && !flags.isInterface then ABSTRACT else 0)
  }

  /** The undecorated images the dispatch picks; those from JavaElementImageProvider
      depend on the flags. */
  datatype BaseImage = MethodImage(flags: Flags) | TypeImage(flags: Flags) | FieldImage(flags: Flags)
                     | LocalVariableImage | PackageImage

  /** A JavaElementImageDescriptor: a base image and its adornments, at the small size. */
  datatype Decorated = Decorated(base: BaseImage, adornments: bv32)

  /** decorateImageDescriptor. */
  method DecorateImageDescriptor(descriptor: BaseImage, p: Proposal) returns (d: Decorated)
    ensures d == Decorated(descriptor, Adornments(p.kind, p.flags))
  {
    var adornments: bv32 := 0;
    var flags := p.flags;
    var kind := p.kind;
    if flags.isDeprecated {
      adornments := adornments | DEPRECATED;
    }
    // the same kind is tested twice here, as decorateImageDescriptor does
    if kind == FieldRef || kind == MethodDeclaration || kind == MethodDeclaration || kind == MethodNameReference || kind == MethodRef {
      if flags.isStatic {
        adornments := adornments | STATIC;
      }
    }
    if flags.isFinal {
      adornments := adornments | FINAL;
    }
    if kind == MethodDeclaration || kind == MethodDeclaration || kind == MethodNameReference || kind == MethodRef {
      if flags.isSynchronized {
        adornments := adornments | SYNCHRONIZED;
      }
    }
    if flags.isAbstract && !flags.isInterface {
      adornments := adornments | ABSTRACT;
    }
    d := Decorated(descriptor, adornments);
  }

  /** createImageDescriptor: the base image for the kind, decorated; null for keywords and
      labels; an assertion failure for an unlisted kind. */
  function ImageDescriptor(p: Proposal): (r: Result<Option<Decorated>, LabelError>)
    ensures r.Failure? <==> p.kind.OtherKind?
    ensures r.Success? ==> (r.value.None? <==> p.kind == Keyword || p.kind == LabelRef)
    ensures r.Success? && r.value.Some? ==> r.value.value.adornments == Adornments(p.kind, p.flags)
    ensures p.kind == MethodDeclaration || IsMethodLabelKind(p.kind) ==>
      r == Success(Some(Decorated(MethodImage(p.flags), Adornments(p.kind, p.flags))))
    ensures p.kind == AnonymousClassDeclaration || p.kind == TypeRef ==>
      r == Success(Some(Decorated(TypeImage(p.flags), Adornments(p.kind, p.flags))))
    ensures p.kind == FieldRef ==>
      r == Success(Some(Decorated(FieldImage(p.flags), Adornments(p.kind, p.flags))))
    ensures p.kind == LocalVariableRef || p.kind == VariableDeclaration ==>
      r == Success(Some(Decorated(LocalVariableImage, Adornments(p.kind, p.flags))))
    ensures p.kind == PackageRef ==>
      r == Success(Some(Decorated(PackageImage, Adornments(p.kind, p.flags))))
  {
    var base := match p.kind
      case MethodDeclaration | MethodNameReference | MethodRef | AnnotationAttributeRef | PotentialMethodDeclaration =>
        Some(MethodImage(p.flags))
      case AnonymousClassDeclaration | TypeRef => Some(TypeImage(p.flags))
      case FieldRef => Some(FieldImage(p.flags))
      case LocalVariableRef | VariableDeclaration => Some(LocalVariableImage)
      case PackageRef => Some(PackageImage)
      case Keyword | LabelRef | OtherKind(_) => None;
    if p.kind.OtherKind? then Failure(AssertionFailed)
    else if base.None? then Success(None)
    else Success(Some(Decorated(base.value, Adornments(p.kind, p.flags))))
  }
}

/** `TarkovMaterialExportContext.BeforeMaterialExport`: classify the source
    material's shader name, run the selected rule, and write its effect on the
    glTF material node. The result says whether the exporter should skip its
    default conversion (`true`) or carry on with it (`false`). */
module TarkovMaterialExport {
  import opened Optional
  import opened Colors
  import opened Strings
  import opened TextureConverter
  import opened MaterialSource
  import opened GltfMaterial
  import opened ShaderRules
  import opened MaterialRules

  /** The rule a kind selects. The cutout rule and the fall-through write
      nothing and leave the call unhandled; every other rule handles it. */
  function Convert(host: Host, kind: RuleKind, m: Material): (e: Effect)
    ensures e.handled <==> kind != Unhandled && kind != CutoutBumpedDiffuse
    ensures kind == Unhandled ==> e == NoEffect
    ensures kind == CutoutBumpedDiffuse ==> e == NoEffect.(keywords := ["_BUMPMAP"])
    ensures e.keywords == if kind == CutoutBumpedDiffuse then ["_BUMPMAP"] else []
  {
    match kind
    case AnimatedEmissiveSpecular => AnimatedEmissiveRule(host, m)
    case ReflectiveSMap => ReflectiveSMapRule(host, m)
    case BumpedSpecular => BumpedSpecularRule(host, m)
    case CutoutBumpedDiffuse => CutoutBumpedDiffuseRule()
    case GlobalFog => GlobalFogRule(host, m)
    case Collimator => CollimatorRule()
    case OpticGlass => OpticGlassRule(host)
    case DepthZwrite => DepthZwriteRule(host, m)
    case Cloth => ClothRule(host, m)
    case VertexPaint => VertexPaintRule(m)
    case WaterDecal => WaterDecalRule(m)
    case UltraDecal => UltraDecalRule(host, m)
    case Unhandled => NoEffect
  }

  /** A kind that writes nothing: the cutout rule and the fall-through. */
  predicate PassesThrough(kind: RuleKind) {
    kind == Unhandled || kind == CutoutBumpedDiffuse
  }

  /** The plugin hook. It returns `true` exactly when a rule other than the
      cutout rule was selected; extensions it stores are declared and
      declared ones are stored; extensions it does not declare keep their
      blocks; and a pass-through leaves the node as it was and exports nothing. */
  function BeforeMaterialExport(host: Host, m: Material, node: MaterialNode): (o: Outcome)
    ensures o.handled <==> !PassesThrough(Classify(m.shader))
    ensures ExtensionsDeclared(node, o.node, o.declared)
    ensures forall n | n in node.extensions && n !in o.declared ::
              n in o.node.extensions && o.node.extensions[n] == node.extensions[n]
    ensures PassesThrough(Classify(m.shader)) ==> o.node == node && o.exports == [] && o.declared == []
    ensures o.keywords == if Classify(m.shader) == CutoutBumpedDiffuse then ["_BUMPMAP"] else []
  {
    var o := Apply(node, Convert(host, Classify(m.shader), m));
    assert PassesThrough(Classify(m.shader)) ==> o.node.extensions == node.extensions;
    o
  }

  /** A name no predicate holds of falls through: not handled, the node as it
      was, nothing exported, declared or enabled. */
  lemma UnmatchedNameFallsThrough(host: Host, m: Material, node: MaterialNode)
    requires forall i :: 0 <= i < |Catalog| ==> !Matches(Catalog[i].pattern, m.shader)
    ensures BeforeMaterialExport(host, m, node) == Outcome(false, node, [], [], [])
  {
    ClassifyFirstMatch(m.shader);
  }

  /** Conversely, a name some predicate holds of is not left to fall through:
      it selects a rule, which handles it unless it is the cutout rule. */
  lemma MatchedNameSelectsRule(host: Host, m: Material, node: MaterialNode, i: nat)
    requires i < |Catalog| && Matches(Catalog[i].pattern, m.shader)
    ensures Classify(m.shader) != Unhandled
    ensures BeforeMaterialExport(host, m, node).handled <==> Classify(m.shader) != CutoutBumpedDiffuse
  {
    ClassifyFirstMatch(m.shader);
  }

  /** The exact name of the animated rule also satisfies the SMap rule's
      predicate (it contains both `SMap` and `Reflective`), and the earlier
      animated rule wins. */
  lemma AnimatedNameShadowsSMapRule()
    ensures Matches(Catalog[1].pattern, AnimatedEmissiveName)
    ensures Classify(AnimatedEmissiveName) == AnimatedEmissiveSpecular
  {
    var name := AnimatedEmissiveName;
    assert name[48..52] == "SMap";
    ContainsAt(name, "SMap", 48);
    assert name[3..13] == "Reflective";
    ContainsAt(name, "Reflective", 3);
    CatalogPatternsHead(name);
  }

  /** The exact names of the bumped-specular, cutout and global-fog rules
      select those rules: none of them contains `SMap`, because the
      bumped-specular and global-fog names have no `M` and the cutout name has
      no `S`. */
  lemma ExactNamesClassifyHead()
    ensures Classify(BumpedSpecularName) == BumpedSpecular
    ensures Classify(BumpedEmissiveSpecularName) == BumpedSpecular
    ensures Classify(CutoutBumpedDiffuseName) == CutoutBumpedDiffuse
    ensures Classify(GlobalFogName) == GlobalFog
  {
    assert forall j :: 0 <= j < |BumpedSpecularName| ==> BumpedSpecularName[j] != 'M';
    NotContainsByAbsentChar(BumpedSpecularName, "SMap", 1);
    assert forall j :: 0 <= j < |BumpedEmissiveSpecularName| ==> BumpedEmissiveSpecularName[j] != 'M';
    NotContainsByAbsentChar(BumpedEmissiveSpecularName, "SMap", 1);
    assert forall j :: 0 <= j < |CutoutBumpedDiffuseName| ==> CutoutBumpedDiffuseName[j] != 'S';
    NotContainsByAbsentChar(CutoutBumpedDiffuseName, "SMap", 0);
    assert forall j :: 0 <= j < |GlobalFogName| ==> GlobalFogName[j] != 'M';
    NotContainsByAbsentChar(GlobalFogName, "SMap", 1);
  }

  /** The exact names of the two decal rules select them: neither contains
      `SMap` (no `M`), `CW FX/Collimator`, `Custom/OpticGlass`,
      `Cloth/ClothShader` (no `C`), `Transparent/DepthZwrite` (no `T`) or
      `Vert Paint Shader` (no `V`). */
  lemma ExactNamesClassifyDecals()
    ensures Classify(WaterDecalName) == WaterDecal
    ensures Classify(UltraDecalName) == UltraDecal
  {
    ContainsNoRulePart(WaterDecalName);
    ContainsNoRulePart(UltraDecalName);
  }

  /** A name without `M`, `C`, `T` and `V` contains none of the parts the
      containment rules look for. */
  lemma ContainsNoRulePart(name: string)
    requires forall j :: 0 <= j < |name| ==> name[j] != 'M' && name[j] != 'C' && name[j] != 'T' && name[j] != 'V'
    ensures !Contains(name, "SMap") && !Contains(name, "CW FX/Collimator") && !Contains(name, "Custom/OpticGlass")
    ensures !Contains(name, "Transparent/DepthZwrite") && !Contains(name, "Cloth/ClothShader")
    ensures !Contains(name, "Vert Paint Shader")
  {
    NotContainsByAbsentChar(name, "SMap", 1);
    NotContainsByAbsentChar(name, "CW FX/Collimator", 0);
    NotContainsByAbsentChar(name, "Custom/OpticGlass", 0);
    NotContainsByAbsentChar(name, "Transparent/DepthZwrite", 0);
    NotContainsByAbsentChar(name, "Cloth/ClothShader", 0);
    NotContainsByAbsentChar(name, "Vert Paint Shader", 0);
  }

  /** The cutout rule only enables `_BUMPMAP` on the source material and
      returns `false`: the node is untouched and nothing is exported. */
  lemma CutoutOnlyEnablesBumpMap(host: Host, m: Material, node: MaterialNode)
    requires m.shader == CutoutBumpedDiffuseName
    ensures BeforeMaterialExport(host, m, node) == Outcome(false, node, [], [], ["_BUMPMAP"])
  {
    ExactNamesClassifyHead();
  }

  /** A shader name no rule knows, exported as the default conversion would. */
  lemma StandardShaderFallsThrough(host: Host, m: Material, node: MaterialNode)
    requires m.shader == "Standard"
    ensures BeforeMaterialExport(host, m, node) == Outcome(false, node, [], [], [])
  {
    ContainsNoRulePart(m.shader);
    assert Classify(m.shader) == Unhandled;
  }

  /** The three specular rules make the surface non-metallic and scale the
      red, green and blue of `_Color` by `_DefVals.x`, keeping its alpha. The
      two SMap rules scale the linear colour; the bumped-specular rule scales
      first and makes the result linear. */
  lemma SpecularRulesBaseColour(host: Host, m: Material, node: MaterialNode)
    requires Classify(m.shader) in {AnimatedEmissiveSpecular, ReflectiveSMap, BumpedSpecular}
    ensures var o := BeforeMaterialExport(host, m, node);
            && o.handled && o.node.pbr.Some? && o.node.pbr.value.metallicFactor == 0.0
            && o.node.pbr.value.baseColorFactor
               == if Classify(m.shader) == BumpedSpecular
                  then host.toLinear(ScaleRgb(GetColor(m, "_Color"), GetVector(m, "_DefVals").x))
                  else ScaleRgb(host.toLinear(GetColor(m, "_Color")), GetVector(m, "_DefVals").x)
  {
  }

  /** The stored specular block of a rule whose blocks are the specular block
      followed by blocks of other extensions. */
  lemma SpecularBlockStored(node: MaterialNode, e: Effect)
    requires |e.blocks| >= 1 && e.blocks[0].0 == SpecularExt
    requires forall i | 1 <= i < |e.blocks| :: e.blocks[i].0 == EmissiveStrengthExt
    ensures var o := Apply(node, e);
            SpecularExt in o.declared && SpecularExt in o.node.extensions
            && o.node.extensions[SpecularExt] == e.blocks[0].1
  {
    ExtensionNamesDistinct();
    assert LastWithName(e.blocks, 0);
  }

  /** The two SMap rules take roughness from `_Specularness` clamped to
      [0, 1]. */
  lemma SMapRoughness(host: Host, m: Material, node: MaterialNode)
    requires Classify(m.shader) in {AnimatedEmissiveSpecular, ReflectiveSMap}
    ensures var o := BeforeMaterialExport(host, m, node);
            && o.node.pbr.Some?
            && o.node.pbr.value.roughnessFactor == Clamp01(GetFloat(m, "_Specularness"))
            && 0.0 <= o.node.pbr.value.roughnessFactor <= 1.0
  {
  }

  /** The SMap rule stores a specular factor of `_Glossness` clamped, times
      `_SpecVals.x`. */
  lemma SMapScalars(host: Host, m: Material, node: MaterialNode)
    requires Classify(m.shader) == ReflectiveSMap
    ensures var o := BeforeMaterialExport(host, m, node);
            && SpecularExt in o.declared && SpecularExt in o.node.extensions
            && o.node.extensions[SpecularExt].Specular?
            && o.node.extensions[SpecularExt].specularFactor == SMapSpecularFactor(m)
  {
    SpecularBlockStored(node, ReflectiveSMapRule(host, m));
  }

  /** The animated rule computes the specular factor as the SMap rule does. */
  lemma AnimatedScalars(host: Host, m: Material, node: MaterialNode)
    requires Classify(m.shader) == AnimatedEmissiveSpecular
    ensures var o := BeforeMaterialExport(host, m, node);
            && SpecularExt in o.declared && SpecularExt in o.node.extensions
            && o.node.extensions[SpecularExt].Specular?
            && o.node.extensions[SpecularExt].specularFactor == SMapSpecularFactor(m)
  {
    SpecularBlockStored(node, AnimatedEmissiveRule(host, m));
  }

  /** The SMap specular factor is not clamped after the multiplication: full
      gloss times a `_SpecVals.x` of two stores two. */
  lemma SMapSpecularFactorExceedsOne(host: Host, m: Material, node: MaterialNode)
    requires Classify(m.shader) == ReflectiveSMap
    requires GetFloat(m, "_Glossness") == 1.0 && GetVector(m, "_SpecVals").x == 2.0
    ensures var o := BeforeMaterialExport(host, m, node);
            SpecularExt in o.node.extensions && o.node.extensions[SpecularExt].Specular?
            && o.node.extensions[SpecularExt].specularFactor == 2.0
  {
    SMapScalars(host, m, node);
  }

  /** The bumped-specular rule: the stored specular factor is a tenth of
      `_SpecPower` clamped to [0, 1] and its colour is `_SpecColor` made
      linear; the specular texture is the alpha of `_MainTex` (or white) as
      gray, with the `_MainTex` transform; the base colour texture is
      `_MainTex` (or white); roughness is `1 - _SpecPower * _Shininess`; there
      is no metal-rough texture; and the textures are exported in call order. */
  lemma BumpedSpecularScalars(host: Host, m: Material, node: MaterialNode)
    requires m.shader == BumpedSpecularName || m.shader == BumpedEmissiveSpecularName
    ensures var o := BeforeMaterialExport(host, m, node);
            && o.node.pbr.Some?
            && o.node.pbr.value.roughnessFactor == BumpedRoughness(m)
            && o.node.pbr.value.metallicRoughnessTexture.None?
            && SpecularExt in o.declared && SpecularExt in o.node.extensions
            && o.node.extensions[SpecularExt].Specular?
            && o.node.extensions[SpecularExt].specularFactor == BumpedSpecularFactor(m)
            && 0.0 <= o.node.extensions[SpecularExt].specularFactor <= 1.0
            && o.node.extensions[SpecularExt].specularColorFactor == host.toLinear(GetColor(m, "_SpecColor"))
            && o.node.extensions[SpecularExt].specularTexture == Some(BumpedSpecTexture(m))
            && o.node.pbr.value.baseColorTexture == Some(BumpedBase(m))
            && o.exports == BumpedExports(m)
  {
    ExactNamesClassifyHead();
    SpecularBlockStored(node, BumpedSpecularRule(host, m));
  }

  /** A `_SpecPower` of 5 and a `_Shininess` of 0.1 give a specular factor of
      0.5 and a roughness of 0.5. */
  lemma BumpedSpecularExample(host: Host, m: Material, node: MaterialNode)
    requires m.shader == BumpedSpecularName || m.shader == BumpedEmissiveSpecularName
    requires GetFloat(m, "_SpecPower") == 5.0 && GetFloat(m, "_Shininess") == 0.1
    ensures var o := BeforeMaterialExport(host, m, node);
            && o.node.pbr.Some? && o.node.pbr.value.roughnessFactor == 0.5
            && SpecularExt in o.node.extensions && o.node.extensions[SpecularExt].Specular?
            && o.node.extensions[SpecularExt].specularFactor == 0.5
  {
    BumpedSpecularScalars(host, m, node);
  }

  /** The bumped-specular roughness is not clamped: a `_SpecPower` of 10 and a
      `_Shininess` of 1 give -9. */
  lemma BumpedRoughnessUnclamped(host: Host, m: Material, node: MaterialNode)
    requires m.shader == BumpedSpecularName || m.shader == BumpedEmissiveSpecularName
    requires GetFloat(m, "_SpecPower") == 10.0 && GetFloat(m, "_Shininess") == 1.0
    ensures var o := BeforeMaterialExport(host, m, node);
            o.node.pbr.Some? && o.node.pbr.value.roughnessFactor == -9.0
  {
    BumpedSpecularScalars(host, m, node);
  }

  /** A specular block followed by an emissive strength block: both are
      declared and stored. */
  lemma EmissionBlockStored(node: MaterialNode, e: Effect)
    requires |e.blocks| == 2 && e.blocks[0].0 == SpecularExt && e.blocks[1].0 == EmissiveStrengthExt
    ensures var o := Apply(node, e);
            EmissiveStrengthExt in o.declared && EmissiveStrengthExt in o.node.extensions
            && o.node.extensions[EmissiveStrengthExt] == e.blocks[1].1
  {
    assert LastWithName(e.blocks, 1);
    assert Names(e.blocks)[1] == EmissiveStrengthExt;
  }

  /** A lone specular block: no emissive strength is declared, and whether
      the node has one is as before. */
  lemma NoEmissionBlock(node: MaterialNode, e: Effect)
    requires |e.blocks| == 1 && e.blocks[0].0 == SpecularExt
    ensures var o := Apply(node, e);
            EmissiveStrengthExt !in o.declared
            && (EmissiveStrengthExt in o.node.extensions <==> EmissiveStrengthExt in node.extensions)
  {
    ExtensionNamesDistinct();
    assert Names(e.blocks) == [SpecularExt];
  }

  /** The animated rule always stores an emissive strength, `_EmissionPower`
      as it is; the first animation map, when the material has that property,
      becomes the emissive texture with `_EmAnim1Color` as emissive colour. */
  lemma AnimatedEmission(host: Host, m: Material, node: MaterialNode)
    requires Classify(m.shader) == AnimatedEmissiveSpecular
    ensures var o := BeforeMaterialExport(host, m, node);
            && EmissiveStrengthExt in o.declared && EmissiveStrengthExt in o.node.extensions
            && o.node.extensions[EmissiveStrengthExt] == EmissiveStrength(GetFloat(m, "_EmissionPower"))
            && (HasTexture(m, "_EmissionMapAnim1") ==>
                  && o.node.emissiveTexture == Some(TransformedRef(GetTexture(m, "_EmissionMapAnim1"), "_EmissionMapAnim1", BaseColorSlot))
                  && o.node.emissiveFactor == host.toLinear(GetColor(m, "_EmAnim1Color")))
            && (!HasTexture(m, "_EmissionMapAnim1") ==>
                  o.node.emissiveTexture == node.emissiveTexture && o.node.emissiveFactor == node.emissiveFactor)
  {
    EmissionBlockStored(node, AnimatedEmissiveRule(host, m));
  }

  /** The SMap rule writes emission exactly when the shader name contains
      `Emissive` and the material has `_EmissiveColor`: then the strength is a
      tenth of `_EmissionPower`, unclamped, and the colour `_EmissiveColor` made
      linear; otherwise the node's emission is as it was. */
  lemma SMapEmissionGate(host: Host, m: Material, node: MaterialNode)
    requires Classify(m.shader) == ReflectiveSMap
    ensures var o := BeforeMaterialExport(host, m, node);
            && (EmissiveStrengthExt in o.declared <==> SMapEmissive(m))
            && (SMapEmissive(m) ==>
                  && EmissiveStrengthExt in o.node.extensions
                  && o.node.extensions[EmissiveStrengthExt] == EmissiveStrength(EmissionPowerTenth(m))
                  && o.node.emissiveTexture == Some(TransformedRef(GetTexture(m, "_EmissionMap"), "_EmissionMap", SRgbSlot))
                  && o.node.emissiveFactor == host.toLinear(GetColor(m, "_EmissiveColor")))
            && (!SMapEmissive(m) ==>
                  && o.node.emissiveTexture == node.emissiveTexture && o.node.emissiveFactor == node.emissiveFactor
                  && (EmissiveStrengthExt in o.node.extensions <==> EmissiveStrengthExt in node.extensions))
  {
    var e := ReflectiveSMapRule(host, m);
    if SMapEmissive(m) {
      EmissionBlockStored(node, e);
    } else {
      NoEmissionBlock(node, e);
    }
  }

  /** The bumped-specular rule writes emission exactly when the material has
      `_EmissionVisibility`: `_EmissionMap` as emissive texture and a tenth of
      `_EmissionPower` as strength; it never sets the emissive colour. */
  lemma BumpedSpecularEmissionGate(host: Host, m: Material, node: MaterialNode)
    requires m.shader == BumpedSpecularName || m.shader == BumpedEmissiveSpecularName
    ensures var o := BeforeMaterialExport(host, m, node);
            && (EmissiveStrengthExt in o.declared <==> HasFloat(m, "_EmissionVisibility"))
            && o.node.emissiveFactor == node.emissiveFactor
            && (HasFloat(m, "_EmissionVisibility") ==>
                  && EmissiveStrengthExt in o.node.extensions
                  && o.node.extensions[EmissiveStrengthExt] == EmissiveStrength(EmissionPowerTenth(m))
                  && o.node.emissiveTexture == Some(TransformedRef(GetTexture(m, "_EmissionMap"), "_EmissionMap", BaseColorSlot)))
            && (!HasFloat(m, "_EmissionVisibility") ==> o.node.emissiveTexture == node.emissiveTexture)
  {
    ExactNamesClassifyHead();
    var e := BumpedSpecularRule(host, m);
    if HasFloat(m, "_EmissionVisibility") {
      EmissionBlockStored(node, e);
    } else {
      NoEmissionBlock(node, e);
    }
  }

  /** The bumped-specular rule does not clamp the emissive strength: with
      `_EmissionVisibility` set, an `_EmissionPower` of 50 stores 5. */
  lemma BumpedEmissionStrengthUnclamped(host: Host, m: Material, node: MaterialNode)
    requires m.shader == BumpedSpecularName || m.shader == BumpedEmissiveSpecularName
    requires HasFloat(m, "_EmissionVisibility") && GetFloat(m, "_EmissionPower") == 50.0
    ensures var o := BeforeMaterialExport(host, m, node);
            EmissiveStrengthExt in o.node.extensions && o.node.extensions[EmissiveStrengthExt] == EmissiveStrength(5.0)
  {
    BumpedSpecularEmissionGate(host, m, node);
  }

  /** Neither does the SMap rule: with its emission gate open, an
      `_EmissionPower` of 50 stores 5. */
  lemma SMapEmissionStrengthUnclamped(host: Host, m: Material, node: MaterialNode)
    requires Classify(m.shader) == ReflectiveSMap && SMapEmissive(m)
    requires GetFloat(m, "_EmissionPower") == 50.0
    ensures var o := BeforeMaterialExport(host, m, node);
            EmissiveStrengthExt in o.node.extensions && o.node.extensions[EmissiveStrengthExt] == EmissiveStrength(5.0)
  {
    SMapEmissionGate(host, m, node);
  }

  /** The kinds whose rule writes a transmission block. */
  predicate Transmissive(kind: RuleKind) {
    kind == GlobalFog || kind == Collimator || kind == DepthZwrite || kind == WaterDecal
  }

  /** A specular block, possibly followed by an emissive strength block,
      declares no transmission. */
  lemma SpecularBlocksNoTransmission(node: MaterialNode, e: Effect)
    requires 1 <= |e.blocks| <= 2 && e.blocks[0].0 == SpecularExt
    requires |e.blocks| == 2 ==> e.blocks[1].0 == EmissiveStrengthExt
    ensures TransmissionExt !in Apply(node, e).declared
  {
    ExtensionNamesDistinct();
    assert forall i | 0 <= i < |e.blocks| :: e.blocks[i].0 != TransmissionExt;
  }

  /** Transmission is declared exactly by the global-fog, collimator,
      depth-write and water-decal rules, and the block they store always has
      factor one. */
  lemma TransmissionDeclaredExactly(host: Host, m: Material, node: MaterialNode)
    ensures var o := BeforeMaterialExport(host, m, node);
            && (TransmissionExt in o.declared <==> Transmissive(Classify(m.shader)))
            && (Transmissive(Classify(m.shader)) ==> StoresFullTransmission(o))
  {
    AnimatedDeclaresNoTransmission(host, m, node);
    SMapDeclaresNoTransmission(host, m, node);
    BumpedSpecularDeclaresNoTransmission(host, m, node);
    GlobalFogStoresTransmission(host, m, node);
    CollimatorStoresTransmission(host, m, node);
    DepthZwriteStoresTransmission(host, m, node);
    WaterDecalStoresTransmission(host, m, node);
    OtherKindsNoBlocks(host, m, node);
  }

  /** The hook declared transmission and nothing else, and stored a
      transmission block with factor one. */
  predicate StoresFullTransmission(o: Outcome) {
    && o.declared == [TransmissionExt]
    && TransmissionExt in o.node.extensions && o.node.extensions[TransmissionExt].Transmission?
    && o.node.extensions[TransmissionExt].transmissionFactor == 1.0
  }

  /** A lone transmission block is declared and stored. */
  lemma TransmissionBlockStored(node: MaterialNode, e: Effect, texture: Option<TexRef>)
    requires e.blocks == [TransmissionBlock(texture)]
    ensures StoresFullTransmission(Apply(node, e))
  {
    assert LastWithName(e.blocks, 0);
  }

  lemma AnimatedDeclaresNoTransmission(host: Host, m: Material, node: MaterialNode)
    ensures Classify(m.shader) == AnimatedEmissiveSpecular ==>
              TransmissionExt !in BeforeMaterialExport(host, m, node).declared
  {
    if Classify(m.shader) == AnimatedEmissiveSpecular {
      SpecularBlocksNoTransmission(node, AnimatedEmissiveRule(host, m));
    }
  }

  lemma SMapDeclaresNoTransmission(host: Host, m: Material, node: MaterialNode)
    ensures Classify(m.shader) == ReflectiveSMap ==>
              TransmissionExt !in BeforeMaterialExport(host, m, node).declared
  {
    if Classify(m.shader) == ReflectiveSMap {
      SpecularBlocksNoTransmission(node, ReflectiveSMapRule(host, m));
    }
  }

  lemma BumpedSpecularDeclaresNoTransmission(host: Host, m: Material, node: MaterialNode)
    ensures Classify(m.shader) == BumpedSpecular ==>
              TransmissionExt !in BeforeMaterialExport(host, m, node).declared
  {
    if Classify(m.shader) == BumpedSpecular {
      SpecularBlocksNoTransmission(node, BumpedSpecularRule(host, m));
    }
  }

  lemma GlobalFogStoresTransmission(host: Host, m: Material, node: MaterialNode)
    ensures Classify(m.shader) == GlobalFog ==> StoresFullTransmission(BeforeMaterialExport(host, m, node))
  {
    if Classify(m.shader) == GlobalFog {
      TransmissionBlockStored(node, GlobalFogRule(host, m), None);
    }
  }

  lemma CollimatorStoresTransmission(host: Host, m: Material, node: MaterialNode)
    ensures Classify(m.shader) == Collimator ==> StoresFullTransmission(BeforeMaterialExport(host, m, node))
  {
    if Classify(m.shader) == Collimator {
      TransmissionBlockStored(node, CollimatorRule(), None);
    }
  }

  lemma DepthZwriteStoresTransmission(host: Host, m: Material, node: MaterialNode)
    ensures Classify(m.shader) == DepthZwrite ==> StoresFullTransmission(BeforeMaterialExport(host, m, node))
  {
    if Classify(m.shader) == DepthZwrite {
      var e := DepthZwriteRule(host, m);
      TransmissionBlockStored(node, e, e.blocks[0].1.transmissionTexture);
    }
  }

  lemma WaterDecalStoresTransmission(host: Host, m: Material, node: MaterialNode)
    ensures Classify(m.shader) == WaterDecal ==> StoresFullTransmission(BeforeMaterialExport(host, m, node))
  {
    if Classify(m.shader) == WaterDecal {
      TransmissionBlockStored(node, WaterDecalRule(m), None);
    }
  }

  /** The remaining kinds write no extension blocks at all. */
  lemma OtherKindsNoBlocks(host: Host, m: Material, node: MaterialNode)
    ensures var o := BeforeMaterialExport(host, m, node);
            Classify(m.shader) in {CutoutBumpedDiffuse, OpticGlass, Cloth, VertexPaint, UltraDecal, Unhandled} ==>
            o.declared == [] && o.node.extensions == node.extensions
  {
    var o := BeforeMaterialExport(host, m, node);
    if Classify(m.shader) in {CutoutBumpedDiffuse, OpticGlass, Cloth, VertexPaint, UltraDecal, Unhandled} {
      assert o.node.extensions == node.extensions;
    }
  }

  /** Global fog: the main texture is both base colour and metal-rough
      texture, `_Color` made linear and opaque the base colour, metallic 0,
      roughness 1, full transmission without a texture, alpha mode BLEND. */
  lemma GlobalFogConstants(host: Host, m: Material, node: MaterialNode)
    requires Classify(m.shader) == GlobalFog
    ensures var o := BeforeMaterialExport(host, m, node);
            && o.node.pbr.Some?
            && o.node.pbr.value.metallicFactor == 0.0 && o.node.pbr.value.roughnessFactor == 1.0
            && o.node.pbr.value.baseColorTexture == Some(TransformedRef(GetTexture(m, "_MainTex"), "_MainTex", BaseColorSlot))
            && o.node.pbr.value.metallicRoughnessTexture == o.node.pbr.value.baseColorTexture
            && o.node.pbr.value.baseColorFactor == OpaqueAlpha(host.toLinear(GetColor(m, "_Color")))
            && o.node.alphaMode == AlphaBlend
            && o.declared == [TransmissionExt] && TransmissionExt in o.node.extensions
            && o.node.extensions[TransmissionExt] == Transmission(1.0, None)
  {
    assert LastWithName(GlobalFogRule(host, m).blocks, 0);
  }

  /** Collimator: metallic 0, roughness 0, full transmission; nothing is
      exported, and the alpha mode, normal texture, emission and extras are
      left as they were. */
  lemma CollimatorConstants(host: Host, m: Material, node: MaterialNode)
    requires Classify(m.shader) == Collimator
    ensures var o := BeforeMaterialExport(host, m, node);
            && o.node.pbr == Some(DefaultPbr.(metallicFactor := 0.0, roughnessFactor := 0.0))
            && o.node.alphaMode == node.alphaMode && o.exports == []
            && o.declared == [TransmissionExt] && TransmissionExt in o.node.extensions
            && o.node.extensions[TransmissionExt] == Transmission(1.0, None)
            && o.node.normalTexture == node.normalTexture && o.node.extras == node.extras
            && o.node.emissiveTexture == node.emissiveTexture && o.node.emissiveFactor == node.emissiveFactor
  {
    assert LastWithName(CollimatorRule().blocks, 0);
  }

  /** Optic glass: black base colour, metallic 1, roughness 0.05, no
      extensions and no exports. */
  lemma OpticGlassConstants(host: Host, m: Material, node: MaterialNode)
    requires Classify(m.shader) == OpticGlass
    ensures var o := BeforeMaterialExport(host, m, node);
            && o.node.pbr.Some?
            && o.node.pbr.value.baseColorFactor == host.toLinear(Black)
            && o.node.pbr.value.metallicFactor == 1.0 && o.node.pbr.value.roughnessFactor == 0.05
            && o.declared == [] && o.exports == [] && o.node.extensions == node.extensions
  {
    var o := BeforeMaterialExport(host, m, node);
    assert o.node.extensions == node.extensions;
  }

  /** Depth-write transparency: the transmission texture is `_MainTex` with
      red, green and blue inverted, exported from the `_MainTex` transform
      before the normal map; base colour is `_Color` made linear and opaque,
      metallic and roughness 0; emission is left as it was. */
  lemma DepthZwriteTransmission(host: Host, m: Material, node: MaterialNode)
    requires Classify(m.shader) == DepthZwrite
    ensures var o := BeforeMaterialExport(host, m, node);
            var texMain := TransformedRef(InvertRgb(GetTexture(m, "_MainTex")), "_MainTex", CustomUnknownSlot);
            && o.node.pbr.Some?
            && o.node.pbr.value.metallicFactor == 0.0 && o.node.pbr.value.roughnessFactor == 0.0
            && o.node.pbr.value.baseColorFactor == OpaqueAlpha(host.toLinear(GetColor(m, "_Color")))
            && o.declared == [TransmissionExt] && TransmissionExt in o.node.extensions
            && o.node.extensions[TransmissionExt] == Transmission(1.0, Some(texMain))
            && o.exports == [texMain] + NormalExports(GetTexture(m, "_BumpMap"), true)
            && o.node.emissiveTexture == node.emissiveTexture && o.node.emissiveFactor == node.emissiveFactor
  {
    assert LastWithName(DepthZwriteRule(host, m).blocks, 0);
  }

  /** Cloth: metallic `(_Metallic + 1) / 2`, roughness `1 - _Glossiness`,
      alpha mode MASK, no extensions. */
  lemma ClothConstants(host: Host, m: Material, node: MaterialNode)
    requires Classify(m.shader) == Cloth
    ensures var o := BeforeMaterialExport(host, m, node);
            && o.node.pbr.Some?
            && o.node.pbr.value.metallicFactor == (GetFloat(m, "_Metallic") + 1.0) / 2.0
            && o.node.pbr.value.roughnessFactor == 1.0 - GetFloat(m, "_Glossiness")
            && o.node.alphaMode == AlphaMask
            && o.declared == [] && o.node.extensions == node.extensions
  {
    var o := BeforeMaterialExport(host, m, node);
    assert o.node.extensions == node.extensions;
  }

  /** Vertex paint: the call is handled but the node is left as it was; only
      the textures are exported, three more when the name contains `Gloss`. */
  lemma VertexPaintLeavesNode(host: Host, m: Material, node: MaterialNode)
    requires Classify(m.shader) == VertexPaint
    ensures var o := BeforeMaterialExport(host, m, node);
            && o.handled && o.node == node && o.declared == []
            && |o.exports| == (if Contains(m.shader, "Gloss") then 10 else 7)
            && o.exports == VertexPaintExports(m)
  {
    var o := BeforeMaterialExport(host, m, node);
    assert o.node.extensions == node.extensions;
  }

  /** Water decal: metallic 0, roughness 0, white base colour, full
      transmission, alpha mode BLEND, and extras replaced by
      `disabledShadow: true`; `_MainTex` as a `Texture2D`, in the linear slot,
      is the base colour texture and the only export. */
  lemma WaterDecalConstants(host: Host, m: Material, node: MaterialNode)
    requires Classify(m.shader) == WaterDecal
    ensures var o := BeforeMaterialExport(host, m, node);
            && o.node.pbr.Some?
            && o.node.pbr.value.metallicFactor == 0.0 && o.node.pbr.value.roughnessFactor == 0.0
            && o.node.pbr.value.baseColorFactor == White
            && o.node.alphaMode == AlphaBlend && o.node.extras == DisabledShadowExtras
            && o.declared == [TransmissionExt] && TransmissionExt in o.node.extensions
            && o.node.extensions[TransmissionExt] == Transmission(1.0, None)
            && o.node.pbr.value.baseColorTexture == Some(TransformedRef(AsTexture2D(GetTexture(m, "_MainTex")), "_MainTex", LinearSlot))
            && o.exports == [o.node.pbr.value.baseColorTexture.value]
            && o.node.normalTexture == node.normalTexture
  {
    assert LastWithName(WaterDecalRule(m).blocks, 0);
  }

  /** Ultra decal: the `_Color` vector read as a colour and made linear is the
      base colour, metallic 0, roughness 0.85, alpha mode BLEND, extras
      replaced by `disabledShadow: true`, no extensions; the main texture, when
      present, and then the normal map are exported. */
  lemma UltraDecalConstants(host: Host, m: Material, node: MaterialNode)
    requires Classify(m.shader) == UltraDecal
    ensures var o := BeforeMaterialExport(host, m, node);
            && o.node.pbr.Some?
            && o.node.pbr.value.baseColorFactor == host.toLinear(Vector4ToColor(GetVector(m, "_Color")))
            && o.node.pbr.value.metallicFactor == 0.0 && o.node.pbr.value.roughnessFactor == 0.85
            && o.node.alphaMode == AlphaBlend && o.node.extras == DisabledShadowExtras
            && o.declared == [] && o.node.extensions == node.extensions
            && o.exports == (if GetTexture(m, "_MainTex").Some?
                             then [TransformedRef(GetTexture(m, "_MainTex"), "_MainTex", BaseColorSlot)] else [])
                            + NormalExports(GetTexture(m, "_BumpMap"), true)
  {
    var o := BeforeMaterialExport(host, m, node);
    assert o.node.extensions == node.extensions;
  }
}

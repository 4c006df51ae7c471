/** The twelve conversion rules of `BeforeMaterialExport`, one function per
    shader family. A rule reads the source material and returns the `Effect`
    it has on the glTF node and the exporter; `Apply` writes it. Library calls
    the model cannot see are the fields of `Host`. */
module MaterialRules {
  import opened Optional
  import opened Colors
  import opened Strings
  import opened TextureConverter
  import opened MaterialSource
  import opened GltfMaterial

  /** The library functions the rules call: `Color.ToNumericsColorLinear`,
      `ColorUtility.ToHtmlStringRGB`, and `TextureConverter.Convert` (input,
      configured pass, optional name), whose source is not part of this model. */
  datatype Host = Host(
    toLinear: Color -> Color,
    htmlRgb: Color -> string,
    convert: (Option<Texture>, Pass, Option<string>) -> Option<Texture>)

  /** `Vector4ToColor`: the components in order. */
  function Vector4ToColor(v: Vector4): (c: Color)
    ensures c.r == v.x && c.g == v.y && c.b == v.z && c.a == v.w
  {
    Color(v.x, v.y, v.z, v.w)
  }

  /** The inverse reading of a colour as a vector. */
  function ColorToVector4(c: Color): Vector4 {
    Vector4(c.r, c.g, c.b, c.a)
  }

  /** `Vector4ToColor` loses nothing, in both directions. */
  lemma Vector4ToColorRoundTrip(v: Vector4, c: Color)
    ensures ColorToVector4(Vector4ToColor(v)) == v
    ensures Vector4ToColor(ColorToVector4(c)) == c
  {
  }

  /** The normal-map step qualifies `normal`: when `need2D` it must be a
      non-null `Texture2D` (`normalTex && normalTex is Texture2D`), otherwise
      only non-null (`normalTex != null`). */
  predicate NormalQualifies(normal: Option<Texture>, need2D: bool) {
    normal.Some? && (need2D ==> normal.value.is2D)
  }

  /** The normal texture the normal-map step sets, if the map qualifies. */
  function NormalSet(normal: Option<Texture>, need2D: bool): (r: Option<TexRef>)
    ensures r.Some? <==> NormalQualifies(normal, need2D)
    ensures r.Some? ==> r.value == NormalRef(normal.value)
  {
    if NormalQualifies(normal, need2D) then Some(NormalRef(normal.value)) else None
  }

  /** The export call of the normal-map step, if the map qualifies. */
  function NormalExports(normal: Option<Texture>, need2D: bool): (rs: seq<TexRef>)
    ensures rs == if NormalQualifies(normal, need2D) then [NormalRef(normal.value)] else []
  {
    if NormalQualifies(normal, need2D) then [NormalRef(normal.value)] else []
  }

  /** The metal-rough texture the two SMap rules build from a gloss map:
      the gloss inverted (alpha kept) in green, black red and blue, white
      alpha, named after the gloss map with `_METROUGH`. Unlike
      `GlosToMetRough`, no grayscale pass comes between. */
  function GlossMetRough(glos: Texture): (r: Option<Texture>)
    ensures r.Some? && r.value.name == glos.name + "_METROUGH"
    ensures r.value.width == glos.width && r.value.height == glos.height
    ensures r.value.pixels == Rendered(CombinePass(Some(BlackTexture), Invert(Some(glos), false),
                                                   Some(BlackTexture), Some(WhiteTexture)))
  {
    var texRoughness := Invert(Some(glos), false);
    Renamed(CombineR(Some(BlackTexture), texRoughness, Some(BlackTexture), Some(WhiteTexture)), glos.name + "_METROUGH")
  }

  /** The specular texture the specular rules build: the alpha of the
      albedo-specular map as gray, named after it with `_SPEC`. */
  function SpecFromAlbedoAlpha(albedoSpec: Texture): (r: Option<Texture>)
    ensures r.Some? && r.value.name == albedoSpec.name + "_SPEC"
    ensures r.value.pixels == Rendered(GrayscalePass(Some(albedoSpec), 3))
  {
    Renamed(ChannelToGrayscale(Some(albedoSpec), 3), albedoSpec.name + "_SPEC")
  }

  /** The specular factor of the animated and SMap rules: `_Glossness`
      clamped to [0, 1], times `_SpecVals.x`; the product is not clamped
      again. */
  function SMapSpecularFactor(m: Material): (f: real)
    ensures GetFloat(m, "_Glossness") <= 0.0 ==> f == 0.0
    ensures 0.0 <= GetFloat(m, "_Glossness") <= 1.0 ==> f == GetFloat(m, "_Glossness") * GetVector(m, "_SpecVals").x
    ensures 0.0 <= GetVector(m, "_SpecVals").x ==> 0.0 <= f <= GetVector(m, "_SpecVals").x
  {
    Clamp01(GetFloat(m, "_Glossness")) * GetVector(m, "_SpecVals").x
  }

  /** The emissive strength of the SMap and bumped-specular rules: a tenth of
      `_EmissionPower`, not clamped. */
  function EmissionPowerTenth(m: Material): (t: real)
    ensures t * 10.0 == GetFloat(m, "_EmissionPower")
    ensures 0.0 <= t <==> 0.0 <= GetFloat(m, "_EmissionPower")
  {
    GetFloat(m, "_EmissionPower") / 10.0
  }

  /** The specular factor of the bumped-specular rule: a tenth of `_SpecPower`,
      clamped to [0, 1]. */
  function BumpedSpecularFactor(m: Material): (f: real)
    ensures 0.0 <= f <= 1.0
  {
    Clamp01(GetFloat(m, "_SpecPower") / 10.0)
  }

  /** The roughness of the bumped-specular rule: one minus `_SpecPower` times
      `_Shininess`, not clamped. */
  function BumpedRoughness(m: Material): (r: real)
    ensures r + GetFloat(m, "_SpecPower") * GetFloat(m, "_Shininess") == 1.0
    ensures r < 0.0 <==> GetFloat(m, "_SpecPower") * GetFloat(m, "_Shininess") > 1.0
    ensures r > 1.0 <==> GetFloat(m, "_SpecPower") * GetFloat(m, "_Shininess") < 0.0
  {
    1.0 - GetFloat(m, "_SpecPower") * GetFloat(m, "_Shininess")
  }

  /** What the two SMap rules compute alike: the metallic-roughness block, the
      specular block, and the metal-rough and specular texture references. */
  datatype SpecularSurface = SpecularSurface(pbr: Pbr, specular: Extension, metRough: TexRef, specTex: TexRef)

  /** The shared part of the two SMap rules, given the albedo-specular map, the
      gloss map, the properties their transforms are read from, and the base
      colour reference. Metallic is zero; base colour is `_Color` in linear
      space with red, green and blue scaled by `_DefVals.x`; roughness is
      `_Specularness` clamped to [0, 1]; the specular factor is `_Glossness`
      clamped, times `_SpecVals.x`, and that product is not clamped again. */
  function SMapSurface(host: Host, m: Material, albedoSpec: Texture, glos: Texture,
                       glosProperty: string, albedoProperty: string, base: TexRef): (s: SpecularSurface)
    ensures s.pbr.metallicFactor == 0.0
    ensures s.pbr.baseColorFactor == ScaleRgb(host.toLinear(GetColor(m, "_Color")), GetVector(m, "_DefVals").x)
    ensures 0.0 <= s.pbr.roughnessFactor <= 1.0
    ensures s.pbr.roughnessFactor == Clamp01(GetFloat(m, "_Specularness"))
    ensures s.pbr.baseColorTexture == Some(base)
    ensures s.pbr.metallicRoughnessTexture == Some(s.metRough)
    ensures s.metRough.TransformedRef? && s.metRough.transformProperty == glosProperty
    ensures s.metRough.tex.Some? && s.metRough.tex.value.name == glos.name + "_METROUGH"
    ensures s.specular.Specular?
    ensures s.specular.specularFactor == SMapSpecularFactor(m)
    ensures s.specular.specularColorFactor == host.toLinear(GetColor(m, "_SpecColor"))
    ensures s.specular.specularTexture == Some(s.specTex)
    ensures s.specTex.TransformedRef? && s.specTex.transformProperty == albedoProperty
    ensures s.specTex.tex.Some? && s.specTex.tex.value.name == albedoSpec.name + "_SPEC"
  {
    var metRough := TransformedRef(GlossMetRough(glos), glosProperty, CustomUnknownSlot);
    var specTex := TransformedRef(SpecFromAlbedoAlpha(albedoSpec), albedoProperty, CustomUnknownSlot);
    var factor := SMapSpecularFactor(m);
    SpecularSurface(
      Pbr(ScaleRgb(host.toLinear(GetColor(m, "_Color")), GetVector(m, "_DefVals").x),
          Some(base), 0.0, Clamp01(GetFloat(m, "_Specularness")), Some(metRough)),
      Specular(factor, host.toLinear(GetColor(m, "_SpecColor")), Some(specTex)),
      metRough, specTex)
  }

  /** Rule 1, `p0/Reflective/Bumped Animated Emissive Specular SMap`. Null main
      and gloss maps are replaced by white. The emissive strength block is
      always written, from `_EmissionPower` as it is; the first animation map
      becomes the emissive texture when the material has that property, and
      the second is only exported. */
  function AnimatedEmissiveRule(host: Host, m: Material): (e: Effect)
    ensures e.handled && e.keywords == [] && e.alphaMode.None? && e.extras.None?
    ensures e.pbr.Some? && e.pbr.value.metallicFactor == 0.0
    ensures e.pbr.value.baseColorFactor == ScaleRgb(host.toLinear(GetColor(m, "_Color")), GetVector(m, "_DefVals").x)
    ensures 0.0 <= e.pbr.value.roughnessFactor <= 1.0
    ensures e.pbr.value.roughnessFactor == Clamp01(GetFloat(m, "_Specularness"))
    ensures |e.blocks| == 2 && e.blocks[0].0 == SpecularExt && e.blocks[0].1.Specular?
    ensures e.blocks[0].1.specularFactor == SMapSpecularFactor(m)
    ensures e.blocks[1] == (EmissiveStrengthExt, EmissiveStrength(GetFloat(m, "_EmissionPower")))
    ensures e.emissiveTexture.Some? <==> HasTexture(m, "_EmissionMapAnim1")
    ensures e.emissiveFactor.Some? <==> HasTexture(m, "_EmissionMapAnim1")
    ensures e.normalTexture.Some? <==> NormalQualifies(GetTexture(m, "_BumpMap"), true)
    ensures |e.exports| == 3 + |NormalExports(GetTexture(m, "_BumpMap"), true)|
                             + (if HasTexture(m, "_EmissionMapAnim1") then 1 else 0)
                             + (if HasTexture(m, "_EmissionMapAnim2") then 1 else 0)
  {
    var albedoSpec := OrWhite(GetTexture(m, "_MainTex"));
    var glos := OrWhite(GetTexture(m, "_SpecMap"));
    var base := TransformedRef(FillAlpha(Some(albedoSpec), 1.0), "_MainTex", BaseColorSlot);
    var s := SMapSurface(host, m, albedoSpec, glos, "_SpecMap", "_MainTex", base);
    var normal := GetTexture(m, "_BumpMap");
    var hasAnim1 := HasTexture(m, "_EmissionMapAnim1");
    var anim1 := TransformedRef(GetTexture(m, "_EmissionMapAnim1"), "_EmissionMapAnim1", BaseColorSlot);
    var anim2 := TransformedRef(GetTexture(m, "_EmissionMapAnim2"), "_EmissionMapAnim2", BaseColorSlot);
    Effect(
      true, Some(s.pbr), None, NormalSet(normal, true),
      if hasAnim1 then Some(anim1) else None,
      if hasAnim1 then Some(host.toLinear(GetColor(m, "_EmAnim1Color"))) else None,
      [(SpecularExt, s.specular), (EmissiveStrengthExt, EmissiveStrength(GetFloat(m, "_EmissionPower")))],
      None,
      [s.metRough, base, s.specTex] + NormalExports(normal, true)
        + (if hasAnim1 then [anim1] else [])
        + (if HasTexture(m, "_EmissionMapAnim2") then [anim2] else []),
      [])
  }

  /** The base colour texture of the SMap rule. With `_HasTint` above one half
      the albedo is overlaid with a 2x2 texture of `_BaseTintColor` through the
      `_TintMask` and renamed after the albedo-specular map, `_` and the tint's
      hex code; otherwise it is the albedo as it is. A null albedo stays null
      (the source would fail renaming it); the albedo is null exactly when the
      albedo-specular map is not a `Texture2D`. */
  function SMapBaseTexture(host: Host, m: Material, albedoSpec: Texture): (r: Option<Texture>)
    ensures r.Some? <==> albedoSpec.is2D
    ensures !(HasFloat(m, "_HasTint") && GetFloat(m, "_HasTint") > 0.5) ==> r == FillAlpha(Some(albedoSpec), 1.0)
    ensures HasFloat(m, "_HasTint") && GetFloat(m, "_HasTint") > 0.5 && r.Some? ==>
              && r.value.name == albedoSpec.name + "_" + host.htmlRgb(GetColor(m, "_BaseTintColor"))
              && r.value.pixels.Rendered? && r.value.pixels.pass.OverlayPass?
              && r.value.pixels.pass.top == Some(SolidColor(2, 2, GetColor(m, "_BaseTintColor")))
  {
    var texAlbedo := FillAlpha(Some(albedoSpec), 1.0);
    if HasFloat(m, "_HasTint") && GetFloat(m, "_HasTint") > 0.5 then
      var tint := GetColor(m, "_BaseTintColor");
      var tinted := BlendOverlay(AsTexture2D(texAlbedo), Some(SolidColor(2, 2, tint)),
                                 AsTexture2D(GetTexture(m, "_TintMask")), 1.0);
      Renamed(tinted, albedoSpec.name + "_" + host.htmlRgb(tint))
    else texAlbedo
  }

  /** The gate of the SMap rule's emission: the shader name contains
      `Emissive` and the material has `_EmissiveColor`. */
  predicate SMapEmissive(m: Material) {
    Contains(m.shader, "Emissive") && HasColor(m, "_EmissiveColor")
  }

  /** What an emission step writes: the emissive texture and colour, if any,
      the extension blocks, and the textures it exports. */
  datatype Emission = Emission(texture: Option<TexRef>, factor: Option<Color>,
                               blocks: seq<(string, Extension)>, exports: seq<TexRef>)

  /** The emission step of the SMap rule: when the gate holds, `_EmissionMap`
      in the sRGB slot, `_EmissiveColor` made linear, and an emissive strength
      of `_EmissionPower / 10`; otherwise nothing. */
  function SMapEmission(host: Host, m: Material): (em: Emission)
    ensures em.texture.Some? <==> SMapEmissive(m)
    ensures em.texture.Some? ==> em.texture.value == TransformedRef(GetTexture(m, "_EmissionMap"), "_EmissionMap", SRgbSlot)
    ensures em.factor == if SMapEmissive(m) then Some(host.toLinear(GetColor(m, "_EmissiveColor"))) else None
    ensures em.blocks == if SMapEmissive(m) then [(EmissiveStrengthExt, EmissiveStrength(EmissionPowerTenth(m)))] else []
    ensures em.exports == if SMapEmissive(m) then [em.texture.value] else []
  {
    if SMapEmissive(m) then
      var emission := TransformedRef(GetTexture(m, "_EmissionMap"), "_EmissionMap", SRgbSlot);
      Emission(Some(emission), Some(host.toLinear(GetColor(m, "_EmissiveColor"))),
               [(EmissiveStrengthExt, EmissiveStrength(EmissionPowerTenth(m)))], [emission])
    else Emission(None, None, [], [])
  }

  /** The effect of a specular rule: a metallic-roughness block, the specular
      block followed by the emission's blocks, the normal-map step, and the
      exports in the order the rule makes them. */
  function SpecularEffect(pbr: Pbr, specular: Extension, alphaMode: Option<AlphaMode>, head: seq<TexRef>,
                          normal: Option<Texture>, need2D: bool, em: Emission): (e: Effect)
    ensures e.handled && e.keywords == [] && e.extras.None?
    ensures e.pbr == Some(pbr) && e.alphaMode == alphaMode
    ensures e.blocks == [(SpecularExt, specular)] + em.blocks
    ensures e.normalTexture == NormalSet(normal, need2D)
    ensures e.emissiveTexture == em.texture && e.emissiveFactor == em.factor
    ensures e.exports == head + NormalExports(normal, need2D) + em.exports
  {
    Effect(true, Some(pbr), alphaMode, NormalSet(normal, need2D), em.texture, em.factor,
           [(SpecularExt, specular)] + em.blocks, None, head + NormalExports(normal, need2D) + em.exports, [])
  }

  /** The SMap rule once the albedo-specular and gloss properties and the
      alpha mode are chosen. */
  function SMapEffect(host: Host, m: Material, albedoProperty: string, glosProperty: string,
                      alphaMode: Option<AlphaMode>): (e: Effect)
    ensures e.handled && e.keywords == [] && e.extras.None? && e.alphaMode == alphaMode
    ensures e.pbr.Some? && e.pbr.value.metallicFactor == 0.0
    ensures e.pbr.value.baseColorFactor == ScaleRgb(host.toLinear(GetColor(m, "_Color")), GetVector(m, "_DefVals").x)
    ensures 0.0 <= e.pbr.value.roughnessFactor <= 1.0
    ensures e.pbr.value.roughnessFactor == Clamp01(GetFloat(m, "_Specularness"))
    ensures |e.blocks| == (if SMapEmissive(m) then 2 else 1)
    ensures e.blocks[0].0 == SpecularExt && e.blocks[0].1.Specular?
    ensures e.blocks[0].1.specularFactor == SMapSpecularFactor(m)
    ensures SMapEmissive(m) ==> e.blocks[1] == (EmissiveStrengthExt, EmissiveStrength(EmissionPowerTenth(m)))
    ensures e.emissiveTexture.Some? <==> SMapEmissive(m)
    ensures e.emissiveFactor == if SMapEmissive(m) then Some(host.toLinear(GetColor(m, "_EmissiveColor"))) else None
    ensures e.normalTexture.Some? <==> GetTexture(m, "_BumpMap").Some?
  {
    var albedoSpec := OrWhite(GetTexture(m, albedoProperty));
    var glos := OrWhite(GetTexture(m, glosProperty));
    var base := TransformedRef(SMapBaseTexture(host, m, albedoSpec), albedoProperty, BaseColorSlot);
    var s := SMapSurface(host, m, albedoSpec, glos, glosProperty, albedoProperty, base);
    SpecularEffect(s.pbr, s.specular, alphaMode, [s.metRough, base, s.specTex],
                   GetTexture(m, "_BumpMap"), false, SMapEmission(host, m))
  }

  /** Rule 2, shader names containing both `SMap` and `Reflective`. A name that
      also contains `Transparent Cutoff` swaps the roles of `_MainTex` and
      `_SpecMap` and makes the alpha mode MASK. The emission gate writes the
      emissive texture and colour and an emissive strength of
      `_EmissionPower / 10`. */
  function ReflectiveSMapRule(host: Host, m: Material): (e: Effect)
    ensures e.handled && e.keywords == [] && e.extras.None?
    ensures e.pbr.Some? && e.pbr.value.metallicFactor == 0.0
    ensures e.pbr.value.baseColorFactor == ScaleRgb(host.toLinear(GetColor(m, "_Color")), GetVector(m, "_DefVals").x)
    ensures 0.0 <= e.pbr.value.roughnessFactor <= 1.0
    ensures e.pbr.value.roughnessFactor == Clamp01(GetFloat(m, "_Specularness"))
    ensures e.alphaMode == if Contains(m.shader, "Transparent Cutoff") then Some(AlphaMask) else None
    ensures |e.blocks| == (if SMapEmissive(m) then 2 else 1)
    ensures e.blocks[0].0 == SpecularExt && e.blocks[0].1.Specular?
    ensures e.blocks[0].1.specularFactor == SMapSpecularFactor(m)
    ensures SMapEmissive(m) ==> e.blocks[1] == (EmissiveStrengthExt, EmissiveStrength(EmissionPowerTenth(m)))
    ensures e.emissiveTexture.Some? <==> SMapEmissive(m)
    ensures e.emissiveFactor == if SMapEmissive(m) then Some(host.toLinear(GetColor(m, "_EmissiveColor"))) else None
    ensures e.normalTexture.Some? <==> GetTexture(m, "_BumpMap").Some?
  {
    var cutoff := Contains(m.shader, "Transparent Cutoff");
    SMapEffect(host, m, if cutoff then "_SpecMap" else "_MainTex", if cutoff then "_MainTex" else "_SpecMap",
               if cutoff then Some(AlphaMask) else None)
  }

  /** The base-colour reference of the bumped-specular rule: `_MainTex`,
      white when null, with the `_MainTex` transform. */
  function BumpedBase(m: Material): TexRef {
    TransformedRef(Some(OrWhite(GetTexture(m, "_MainTex"))), "_MainTex", BaseColorSlot)
  }

  /** The specular texture of the bumped-specular rule: the albedo map's alpha
      made gray, with the `_MainTex` transform. */
  function BumpedSpecTexture(m: Material): TexRef {
    TransformedRef(SpecFromAlbedoAlpha(OrWhite(GetTexture(m, "_MainTex"))), "_MainTex", CustomUnknownSlot)
  }

  /** The emissive texture reference of the bumped-specular rule. */
  function BumpedEmission(m: Material): TexRef {
    TransformedRef(GetTexture(m, "_EmissionMap"), "_EmissionMap", BaseColorSlot)
  }

  /** The textures the bumped-specular rule exports, in call order: base
      colour, specular, the normal map if it qualifies, the emission map if
      `_EmissionVisibility` exists. */
  function BumpedExports(m: Material): seq<TexRef> {
    [BumpedBase(m), BumpedSpecTexture(m)] + NormalExports(GetTexture(m, "_BumpMap"), true)
    + (if HasFloat(m, "_EmissionVisibility") then [BumpedEmission(m)] else [])
  }

  /** Rule 3, `p0/Reflective/Bumped Specular` and `p0/Reflective/Bumped
      Emissive Specular`. Base colour is `_Color` with red, green and blue
      scaled by `_DefVals.x` and then made linear; the specular factor is
      `_SpecPower / 10` clamped to [0, 1]; roughness is
      `1 - _SpecPower * _Shininess`, not clamped. With `_EmissionVisibility`
      present, `_EmissionMap` becomes the emissive texture and the emissive
      strength is `_EmissionPower / 10`. */
  function BumpedSpecularRule(host: Host, m: Material): (e: Effect)
    ensures e.handled && e.keywords == [] && e.alphaMode.None? && e.extras.None? && e.emissiveFactor.None?
    ensures e.pbr.Some? && e.pbr.value.metallicFactor == 0.0
    ensures e.pbr.value.baseColorFactor == host.toLinear(ScaleRgb(GetColor(m, "_Color"), GetVector(m, "_DefVals").x))
    ensures e.pbr.value.roughnessFactor == BumpedRoughness(m)
    ensures e.pbr.value.metallicRoughnessTexture.None?
    ensures |e.blocks| == (if HasFloat(m, "_EmissionVisibility") then 2 else 1)
    ensures e.blocks[0].0 == SpecularExt && e.blocks[0].1.Specular?
    ensures 0.0 <= e.blocks[0].1.specularFactor <= 1.0
    ensures e.blocks[0].1.specularFactor == BumpedSpecularFactor(m)
    ensures HasFloat(m, "_EmissionVisibility") ==>
              e.blocks[1] == (EmissiveStrengthExt, EmissiveStrength(EmissionPowerTenth(m)))
    ensures e.blocks[0].1.specularColorFactor == host.toLinear(GetColor(m, "_SpecColor"))
    ensures e.blocks[0].1.specularTexture == Some(BumpedSpecTexture(m))
    ensures e.pbr.value.baseColorTexture == Some(BumpedBase(m))
    ensures e.emissiveTexture == if HasFloat(m, "_EmissionVisibility") then Some(BumpedEmission(m)) else None
    ensures e.normalTexture == NormalSet(GetTexture(m, "_BumpMap"), true)
    ensures e.exports == BumpedExports(m)
  {
    var specular := Specular(BumpedSpecularFactor(m), host.toLinear(GetColor(m, "_SpecColor")), Some(BumpedSpecTexture(m)));
    var pbr := Pbr(host.toLinear(ScaleRgb(GetColor(m, "_Color"), GetVector(m, "_DefVals").x)),
                   Some(BumpedBase(m)), 0.0, BumpedRoughness(m), None);
    var emissive := HasFloat(m, "_EmissionVisibility");
    Effect(
      true, Some(pbr), None, NormalSet(GetTexture(m, "_BumpMap"), true),
      if emissive then Some(BumpedEmission(m)) else None, None,
      [(SpecularExt, specular)]
        + (if emissive then [(EmissiveStrengthExt, EmissiveStrength(EmissionPowerTenth(m)))] else []),
      None,
      BumpedExports(m),
      [])
  }

  /** Rule 4, `p0/Cutout/Bumped Diffuse`: enables `_BUMPMAP` on the source
      material, writes nothing and falls through to `false`. */
  function CutoutBumpedDiffuseRule(): (e: Effect)
    ensures !e.handled && e.keywords == ["_BUMPMAP"]
    ensures e.(keywords := []) == NoEffect
  {
    NoEffect.(keywords := ["_BUMPMAP"])
  }

  /** The transmission block every transmissive rule writes: factor one. */
  function TransmissionBlock(texture: Option<TexRef>): (b: (string, Extension))
    ensures b.0 == TransmissionExt && b.1.Transmission? && b.1.transmissionFactor == 1.0
    ensures b.1.transmissionTexture == texture
  {
    (TransmissionExt, Transmission(1.0, texture))
  }

  /** Rule 5, `Global Fog/Transparent Reflective Specular`: the main texture is
      both the base colour and the metal-rough texture, `_Color` made linear
      and opaque is the base colour, metallic 0, roughness 1, full
      transmission, alpha mode BLEND. */
  function GlobalFogRule(host: Host, m: Material): (e: Effect)
    ensures e.handled && e.keywords == [] && e.extras.None? && e.alphaMode == Some(AlphaBlend)
    ensures e.pbr.Some? && e.pbr.value.metallicFactor == 0.0 && e.pbr.value.roughnessFactor == 1.0
    ensures e.pbr.value.baseColorTexture.Some?
    ensures e.pbr.value.metallicRoughnessTexture == e.pbr.value.baseColorTexture
    ensures e.pbr.value.baseColorFactor == OpaqueAlpha(host.toLinear(GetColor(m, "_Color")))
    ensures e.blocks == [TransmissionBlock(None)]
    ensures e.exports == [e.pbr.value.baseColorTexture.value]
    ensures e.normalTexture.None? && e.emissiveTexture.None? && e.emissiveFactor.None?
  {
    var base := TransformedRef(GetTexture(m, "_MainTex"), "_MainTex", BaseColorSlot);
    var pbr := Pbr(OpaqueAlpha(host.toLinear(GetColor(m, "_Color"))), Some(base), 0.0, 1.0, Some(base));
    Effect(true, Some(pbr), Some(AlphaBlend), None, None, None, [TransmissionBlock(None)], None, [base], [])
  }

  /** Rule 6, shader names containing `CW FX/Collimator`: metallic 0,
      roughness 0, full transmission. */
  function CollimatorRule(): (e: Effect)
    ensures e.handled && e.keywords == [] && e.exports == [] && e.alphaMode.None?
    ensures e.pbr == Some(DefaultPbr.(metallicFactor := 0.0, roughnessFactor := 0.0))
    ensures e.blocks == [TransmissionBlock(None)]
    ensures e.normalTexture.None? && e.emissiveTexture.None? && e.emissiveFactor.None? && e.extras.None?
  {
    Effect(true, Some(DefaultPbr.(metallicFactor := 0.0, roughnessFactor := 0.0)), None, None, None, None,
           [TransmissionBlock(None)], None, [], [])
  }

  /** Rule 7, shader names containing `Custom/OpticGlass`: a black, fully
      metallic, almost smooth surface. */
  function OpticGlassRule(host: Host): (e: Effect)
    ensures e.handled && e.keywords == [] && e.exports == [] && e.blocks == [] && e.alphaMode.None?
    ensures e.pbr == Some(DefaultPbr.(baseColorFactor := host.toLinear(Black), metallicFactor := 1.0, roughnessFactor := 0.05))
    ensures e.normalTexture.None? && e.emissiveTexture.None? && e.emissiveFactor.None? && e.extras.None?
  {
    Effect(true, Some(DefaultPbr.(baseColorFactor := host.toLinear(Black), metallicFactor := 1.0, roughnessFactor := 0.05)),
           None, None, None, None, [], None, [], [])
  }

  /** Rule 8, shader names containing `Transparent/DepthZwrite`. The source
      also builds an alpha-to-gray transmission texture with `Convert` and
      inverts it, but exports the inverted main texture as the transmission
      texture; the unused result has no effect and is not modelled. */
  function DepthZwriteRule(host: Host, m: Material): (e: Effect)
    ensures e.handled && e.keywords == [] && e.alphaMode.None? && e.extras.None?
    ensures e.pbr.Some? && e.pbr.value.metallicFactor == 0.0 && e.pbr.value.roughnessFactor == 0.0
    ensures e.pbr.value.baseColorFactor == OpaqueAlpha(host.toLinear(GetColor(m, "_Color")))
    ensures e.pbr.value.baseColorTexture.None? && e.pbr.value.metallicRoughnessTexture.None?
    ensures e.blocks == [TransmissionBlock(Some(TransformedRef(InvertRgb(GetTexture(m, "_MainTex")), "_MainTex", CustomUnknownSlot)))]
    ensures e.normalTexture.Some? <==> NormalQualifies(GetTexture(m, "_BumpMap"), true)
    ensures e.normalTexture == NormalSet(GetTexture(m, "_BumpMap"), true)
    ensures e.exports == [e.blocks[0].1.transmissionTexture.value] + NormalExports(GetTexture(m, "_BumpMap"), true)
    ensures e.emissiveTexture.None? && e.emissiveFactor.None?
  {
    var texMain := InvertRgb(GetTexture(m, "_MainTex"));
    var transmission := TransformedRef(texMain, "_MainTex", CustomUnknownSlot);
    var pbr := DefaultPbr.(baseColorFactor := OpaqueAlpha(host.toLinear(GetColor(m, "_Color"))),
                           metallicFactor := 0.0, roughnessFactor := 0.0);
    var normal := GetTexture(m, "_BumpMap");
    Effect(true, Some(pbr), None, NormalSet(normal, true), None, None,
           [TransmissionBlock(Some(transmission))], None, [transmission] + NormalExports(normal, true), [])
  }

  /** The mixer sources of the cloth metal-rough texture: green from the
      first texture's red, everything else from white. */
  const ClothMetRoughSources := MixerSources(TexSecondRed, TexFirstRed, TexSecondRed, TexSecondRed)

  /** Rule 9, shader names containing `Cloth/ClothShader`. The base colour
      texture takes its alpha from `_CutoutMask` (white without one); the
      metal-rough texture is a mixer pass over the inverted `_GlossMap`;
      metallic is `(_Metallic + 1) / 2`, roughness `1 - _Glossiness`, alpha
      mode MASK. The source's set-alpha material binds only `_AlphaTex`. The
      model assumes `host.convert` blits its input texture into the shader's
      `_MainTex`, as `ApplyBlit` does, and records that binding in the pass it
      hands over. */
  function ClothRule(host: Host, m: Material): (e: Effect)
    ensures e.handled && e.keywords == [] && e.blocks == [] && e.extras.None? && e.alphaMode == Some(AlphaMask)
    ensures e.pbr.Some? && e.pbr.value.metallicFactor == (GetFloat(m, "_Metallic") + 1.0) / 2.0
    ensures e.pbr.value.roughnessFactor == 1.0 - GetFloat(m, "_Glossiness")
    ensures e.pbr.value.baseColorFactor == host.toLinear(GetColor(m, "_Color"))
    ensures e.normalTexture.Some? <==> NormalQualifies(GetTexture(m, "_NormalMap1"), true)
    ensures |e.exports| == 2 + |NormalExports(GetTexture(m, "_NormalMap1"), true)|
    ensures e.emissiveTexture.None? && e.emissiveFactor.None?
  {
    var alphaTex := if HasTexture(m, "_CutoutMask") then GetTexture(m, "_CutoutMask") else Some(WhiteTexture);
    var mainIn := GetTexture(m, "_MainTex");
    var base := TransformedRef(host.convert(mainIn, SetAlphaPass(mainIn, alphaTex), None), "_MainTex", BaseColorSlot);
    var texRoughness := InvertRgb(GetTexture(m, "_GlossMap"));
    var metRoughTex := host.convert(GetTexture(m, "_GlossMap"),
                                    MixerPass(texRoughness, Some(WhiteTexture), ClothMetRoughSources), Some("MR"));
    var metRough := TransformedRef(metRoughTex, "_GlossMap", CustomUnknownSlot);
    var pbr := Pbr(host.toLinear(GetColor(m, "_Color")), Some(base),
                   (GetFloat(m, "_Metallic") + 1.0) / 2.0, 1.0 - GetFloat(m, "_Glossiness"), Some(metRough));
    var normal := GetTexture(m, "_NormalMap1");
    Effect(true, Some(pbr), Some(AlphaMask), NormalSet(normal, true), None, None, [], None,
           [base, metRough] + NormalExports(normal, true), [])
  }

  /** Plain exports of the named texture properties for one slot. */
  function PlainExports(m: Material, names: seq<string>, slot: Slot): (rs: seq<TexRef>)
    ensures |rs| == |names|
    ensures forall i :: 0 <= i < |names| ==> rs[i] == PlainRef(GetTexture(m, names[i]), slot)
  {
    seq(|names|, i requires 0 <= i < |names| => PlainRef(GetTexture(m, names[i]), slot))
  }

  /** The property names of the vertex-paint textures, in call order. */
  const VertexPaintNames: seq<string> := [
    "_Heights", "_MainTex0", "_MainTex1", "_MainTex2",
    "_BumpMap0", "_BumpMap1", "_BumpMap2",
    "_SpecTex0", "_SpecTex1", "_SpecTex2"]

  /** The textures the vertex-paint rule exports, in call order: the height and
      three main maps in the linear slot, three bump maps in the normal slot,
      and, when the shader name contains `Gloss`, three specular maps in the
      linear slot. */
  function VertexPaintExports(m: Material): (rs: seq<TexRef>)
    ensures |rs| == if Contains(m.shader, "Gloss") then 10 else 7
    ensures forall i :: 0 <= i < |rs| ==>
              rs[i] == PlainRef(GetTexture(m, VertexPaintNames[i]), if 4 <= i < 7 then NormalSlot else LinearSlot)
  {
    PlainExports(m, ["_Heights", "_MainTex0", "_MainTex1", "_MainTex2"], LinearSlot)
    + PlainExports(m, ["_BumpMap0", "_BumpMap1", "_BumpMap2"], NormalSlot)
    + (if Contains(m.shader, "Gloss") then PlainExports(m, ["_SpecTex0", "_SpecTex1", "_SpecTex2"], LinearSlot) else [])
  }

  /** Rule 10, shader names containing `Vert Paint Shader`: the node is left
      alone and only the textures are exported, the specular ones when the
      name also contains `Gloss`. */
  function VertexPaintRule(m: Material): (e: Effect)
    ensures e.handled && e.keywords == [] && e.blocks == []
    ensures e.(exports := []) == NoEffect.(handled := true)
    ensures |e.exports| == if Contains(m.shader, "Gloss") then 10 else 7
    ensures e.exports == VertexPaintExports(m)
  {
    NoEffect.(handled := true, exports := VertexPaintExports(m))
  }

  /** Rule 11, `Decal/Water Deferred Decal`: the main texture (if it is a
      `Texture2D`) as base colour, metallic 0, roughness 0, full transmission,
      alpha mode BLEND and the `disabledShadow` extras. The source also
      configures a channel mixer that it never runs. */
  function WaterDecalRule(m: Material): (e: Effect)
    ensures e.handled && e.keywords == [] && e.alphaMode == Some(AlphaBlend) && e.extras == Some(DisabledShadowExtras)
    ensures e.pbr.Some? && e.pbr.value.metallicFactor == 0.0 && e.pbr.value.roughnessFactor == 0.0
    ensures e.pbr.value.baseColorFactor == White
    ensures e.pbr.value.baseColorTexture == Some(TransformedRef(AsTexture2D(GetTexture(m, "_MainTex")), "_MainTex", LinearSlot))
    ensures e.pbr.value.metallicRoughnessTexture.None?
    ensures e.exports == [e.pbr.value.baseColorTexture.value]
    ensures e.blocks == [TransmissionBlock(None)]
    ensures e.normalTexture.None? && e.emissiveTexture.None? && e.emissiveFactor.None?
  {
    var base := TransformedRef(AsTexture2D(GetTexture(m, "_MainTex")), "_MainTex", LinearSlot);
    var pbr := DefaultPbr.(baseColorTexture := Some(base), metallicFactor := 0.0, roughnessFactor := 0.0);
    Effect(true, Some(pbr), Some(AlphaBlend), None, None, None, [TransmissionBlock(None)],
           Some(DisabledShadowExtras), [base], [])
  }

  /** Rule 12, `Decal/Ultra Deferred Decal Of God 3000`: the `_Color` vector
      read as a colour and made linear is the base colour, the main texture
      is exported only when present, metallic 0, roughness 0.85, alpha mode
      BLEND and the `disabledShadow` extras. */
  function UltraDecalRule(host: Host, m: Material): (e: Effect)
    ensures e.handled && e.keywords == [] && e.blocks == []
    ensures e.alphaMode == Some(AlphaBlend) && e.extras == Some(DisabledShadowExtras)
    ensures e.pbr.Some? && e.pbr.value.metallicFactor == 0.0 && e.pbr.value.roughnessFactor == 0.85
    ensures e.pbr.value.baseColorFactor == host.toLinear(Vector4ToColor(GetVector(m, "_Color")))
    ensures e.pbr.value.baseColorTexture.Some? <==> GetTexture(m, "_MainTex").Some?
    ensures e.pbr.value.baseColorTexture.Some? ==>
              e.pbr.value.baseColorTexture.value == TransformedRef(GetTexture(m, "_MainTex"), "_MainTex", BaseColorSlot)
    ensures e.pbr.value.metallicRoughnessTexture.None?
    ensures e.normalTexture.Some? <==> NormalQualifies(GetTexture(m, "_BumpMap"), true)
    ensures e.normalTexture == NormalSet(GetTexture(m, "_BumpMap"), true)
    ensures e.exports == (if e.pbr.value.baseColorTexture.Some? then [e.pbr.value.baseColorTexture.value] else [])
                         + NormalExports(GetTexture(m, "_BumpMap"), true)
    ensures e.emissiveTexture.None? && e.emissiveFactor.None?
  {
    var baseTex := GetTexture(m, "_MainTex");
    var base := TransformedRef(baseTex, "_MainTex", BaseColorSlot);
    var pbr := DefaultPbr.(baseColorFactor := host.toLinear(Vector4ToColor(GetVector(m, "_Color"))),
                           baseColorTexture := if baseTex.Some? then Some(base) else None,
                           metallicFactor := 0.0, roughnessFactor := 0.85);
    var normal := GetTexture(m, "_BumpMap");
    Effect(true, Some(pbr), Some(AlphaBlend), NormalSet(normal, true), None, None, [],
           Some(DisabledShadowExtras), (if baseTex.Some? then [base] else []) + NormalExports(normal, true), [])
  }
}

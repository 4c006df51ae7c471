# Tarkov material export, modelled in Dafny

This project models the core of a UnityGLTF export plugin that converts the
shaders of Escape from Tarkov materials into glTF 2.0 materials:

- **Material conversion hook** (`TarkovMaterialExport.cs`). The export hook
  `BeforeMaterialExport` tests the source material's shader name against
  twelve predicates in a fixed order, and the first that holds selects a
  conversion rule. A rule writes the glTF material node: the metallic-roughness
  block, the normal and emissive textures, the alpha mode, extras, and the
  `KHR_materials_specular`, `KHR_materials_transmission` and
  `KHR_materials_emissive_strength` extension blocks. It also declares each
  extension it stores and exports the textures it builds. The hook returns
  `true` when a rule took the material over. When no predicate holds, or for
  the cutout rule (which only enables `_BUMPMAP`), it returns `false`, and the
  default export runs.
- **Texture converter** (`TextureConverter.cs`). This holds the channel-source
  enumeration of the channel-mixer shader and the blit wrappers that build
  derived textures (invert, combine, grayscale, pack, overlay, metal-rough).
- **Texture-name sanitising** (`SanitizeTextureNames.cs`). A texture name keeps
  only letters, digits and the replacement character. A missing name becomes
  `Unnamed_Texture` with the texture's hash code appended.

## Files and modules

| file | module | what it holds |
|---|---|---|
| `optional.dfy` | `Optional` | `Option` with `GetOr`; a null reference is `None` |
| `colors.dfy` | `Colors` | colours and vectors, `Clamp01`, RGB scaling, forcing alpha to one |
| `strings.dfy` | `Strings` | substring containment (`String.Contains`) and decimal rendering of an `int` |
| `texture_converter.dfy` | `TextureConverter` | textures, blit passes, channel sources, every converter function |
| `blit_semantics.dfy` | `BlitSemantics` | a per-texel reading of the blit passes, used to state what each configuration means |
| `sanitize_texture_names.dfy` | `SanitizeTextureNames` | `SanitizeName` and the texture hook |
| `material_source.dfy` | `MaterialSource` | the Unity material: shader name and property maps, and the getters |
| `shader_rules.dfy` | `ShaderRules` | the dispatch chain on the shader name, and the same chain as a first-match table |
| `gltf_material.dfy` | `GltfMaterial` | the glTF material node, extension blocks, `Effect`, and `Apply`, which writes an effect onto a node |
| `material_rules.dfy` | `MaterialRules` | the twelve rules, one function each, returning the `Effect` they have |
| `tarkov_material_export.dfy` | `TarkovMaterialExport` | the hook itself and the properties of the whole dispatch |

How the model is built:

- A blitted texture is a symbolic term `Rendered(pass)`. The pass records
  the shader and the inputs bound to it. Two blit results are equal exactly
  when the same pass ran on the same inputs.
- Library calls the model cannot see are fields of a `Host` value:
  `Color.ToNumericsColorLinear`, `ColorUtility.ToHtmlStringRGB` and
  `TextureConverter.Convert`.
- A rule returns an `Effect`: the fields it sets, the extension blocks it
  stores in order, the texture exports in call order, and the keywords it
  enables. `GltfMaterial.Apply` writes an effect onto a node, and it declares
  each block it stores.

## Model

| member | source | states |
|---|---|---|
| TarkovMaterialExport.BeforeMaterialExport | TarkovMaterialExport.cs:27-497 | returns true exactly when a rule other than the cutout rule is selected; every extension block it stores is declared and every declared extension has a block, because a rule's block and its declaration are one entry of its effect, as the source declares each extension right before storing it; extensions it does not declare keep their blocks; the fall-through and the cutout rule leave the node unchanged and export and declare nothing; only the cutout rule enables `_BUMPMAP` |
| TarkovMaterialExport.Convert | TarkovMaterialExport.cs:29-496 | the selected rule handles the material except for the cutout rule and the fall-through; the fall-through writes nothing; the cutout rule only enables `_BUMPMAP` |
| TarkovMaterialExport.UnmatchedNameFallsThrough | TarkovMaterialExport.cs:29-496 | a shader name no predicate holds of returns false, leaves the node unchanged, and exports, declares and enables nothing |
| TarkovMaterialExport.MatchedNameSelectsRule | TarkovMaterialExport.cs:29-496 | a name that some predicate holds of selects a rule, and the hook returns true unless that rule is the cutout rule |
| TarkovMaterialExport.AnimatedNameShadowsSMapRule | TarkovMaterialExport.cs:29-106 | the exact animated name also satisfies the SMap predicate (it contains `SMap` and `Reflective`), yet the earlier animated rule is the one selected |
| TarkovMaterialExport.ExactNamesClassifyHead | TarkovMaterialExport.cs:207-271 | the two bumped-specular names, the cutout name and the global-fog name select their own rules, because no earlier containment test holds of them |
| TarkovMaterialExport.ExactNamesClassifyDecals | TarkovMaterialExport.cs:430-464 | the water-decal and ultra-decal names select their rules: none of the containment tests before them holds |
| TarkovMaterialExport.CutoutOnlyEnablesBumpMap | TarkovMaterialExport.cs:266-270 | `p0/Cutout/Bumped Diffuse` returns false, leaves the node unchanged, exports nothing and enables `_BUMPMAP` |
| TarkovMaterialExport.StandardShaderFallsThrough | TarkovMaterialExport.cs:496 | the name `Standard` matches no rule and falls through to false with the node unchanged |
| TarkovMaterialExport.SpecularRulesBaseColour | TarkovMaterialExport.cs:29-218 | the three specular rules set metallic 0 and scale the red, green and blue of `_Color` by `_DefVals.x`, keeping alpha; the SMap rules scale after linearising, the bumped rule before |
| TarkovMaterialExport.SMapRoughness | TarkovMaterialExport.cs:71-176 | both SMap rules set roughness to `_Specularness` clamped to [0, 1] |
| TarkovMaterialExport.SMapScalars | TarkovMaterialExport.cs:163-181 | the SMap rule declares and stores a specular block with factor `clamp01(_Glossness) * _SpecVals.x` |
| TarkovMaterialExport.AnimatedScalars | TarkovMaterialExport.cs:60-78 | the animated rule declares and stores the same specular factor |
| TarkovMaterialExport.SMapSpecularFactorExceedsOne | TarkovMaterialExport.cs:164-168 | the product is not clamped again: full gloss with `_SpecVals.x` = 2 stores a specular factor of 2 |
| TarkovMaterialExport.BumpedSpecularScalars | TarkovMaterialExport.cs:207-251 | for either bumped-specular shader name, the hook stores specular factor `clamp01(_SpecPower / 10)`, which lies in [0, 1], with `_SpecColor` made linear as the specular colour and, as specular texture, the alpha of `_MainTex` (or white) made gray with the `_MainTex` transform; the base colour texture is `_MainTex` or white; roughness is `1 - _SpecPower * _Shininess`; there is no metal-rough texture; the exports are the base texture, the specular texture, the bump map when present and the emission map when `_EmissionVisibility` exists, in that order |
| TarkovMaterialExport.BumpedSpecularExample | TarkovMaterialExport.cs:229-236 | `_SpecPower` 5 with `_Shininess` 0.1 gives specular factor 0.5 and roughness 0.5 |
| TarkovMaterialExport.BumpedRoughnessUnclamped | TarkovMaterialExport.cs:235-236 | the bumped roughness is not clamped: 10 and 1 give -9 |
| TarkovMaterialExport.AnimatedEmission | TarkovMaterialExport.cs:88-102 | the animated rule always stores emissive strength `_EmissionPower` as it is; the first animation map, when present, becomes the emissive texture with `_EmAnim1Color` linearised as the emissive colour, and otherwise emission is unchanged |
| TarkovMaterialExport.SMapEmissionGate | TarkovMaterialExport.cs:191-203 | the SMap rule declares emissive strength exactly when the name contains `Emissive` and `_EmissiveColor` exists; it then stores `_EmissionPower / 10`, the `_EmissionMap` texture in the sRGB slot and the linear `_EmissiveColor`, and otherwise leaves emission as it was |
| TarkovMaterialExport.BumpedSpecularEmissionGate | TarkovMaterialExport.cs:207-262 | for either bumped-specular shader name, the hook declares emissive strength exactly when `_EmissionVisibility` exists, with `_EmissionMap` as texture and `_EmissionPower / 10` as strength; it never sets the emissive colour |
| TarkovMaterialExport.BumpedEmissionStrengthUnclamped | TarkovMaterialExport.cs:253-262 | the hook does not clamp the bumped rule's emissive strength: with `_EmissionVisibility` set, an `_EmissionPower` of 50 stores strength 5 |
| TarkovMaterialExport.SMapEmissionStrengthUnclamped | TarkovMaterialExport.cs:191-203 | the hook does not clamp the SMap rule's emissive strength: with the emission gate open, an `_EmissionPower` of 50 stores strength 5 |
| TarkovMaterialExport.TransmissionDeclaredExactly | TarkovMaterialExport.cs:271-463 | transmission is declared exactly for global fog, collimator, depth-write and water decal; these declare nothing else and store factor 1 |
| TarkovMaterialExport.AnimatedDeclaresNoTransmission | TarkovMaterialExport.cs:29-105 | the animated rule declares no transmission |
| TarkovMaterialExport.SMapDeclaresNoTransmission | TarkovMaterialExport.cs:106-206 | the SMap rule declares no transmission |
| TarkovMaterialExport.BumpedSpecularDeclaresNoTransmission | TarkovMaterialExport.cs:207-265 | the bumped-specular rule declares no transmission |
| TarkovMaterialExport.GlobalFogStoresTransmission | TarkovMaterialExport.cs:282-288 | global fog declares only transmission and stores factor 1 |
| TarkovMaterialExport.CollimatorStoresTransmission | TarkovMaterialExport.cs:299-305 | the collimator declares only transmission and stores factor 1 |
| TarkovMaterialExport.DepthZwriteStoresTransmission | TarkovMaterialExport.cs:341-348 | depth-write declares only transmission and stores factor 1 |
| TarkovMaterialExport.WaterDecalStoresTransmission | TarkovMaterialExport.cs:445-451 | the water decal declares only transmission and stores factor 1 |
| TarkovMaterialExport.OtherKindsNoBlocks | TarkovMaterialExport.cs:266-496 | cutout, optic glass, cloth, vertex paint, ultra decal and the fall-through declare nothing and leave every extension block as it was |
| TarkovMaterialExport.GlobalFogConstants | TarkovMaterialExport.cs:271-294 | global fog: `_MainTex` is both the base-colour and the metal-rough texture; base colour is `_Color` linearised with alpha 1; metallic 0, roughness 1, alpha mode BLEND; a transmission block with factor 1 and no texture |
| TarkovMaterialExport.CollimatorConstants | TarkovMaterialExport.cs:295-310 | collimator: default PBR with metallic 0 and roughness 0; transmission factor 1; no exports; alpha mode, normal texture, emission and extras unchanged |
| TarkovMaterialExport.OpticGlassConstants | TarkovMaterialExport.cs:311-318 | optic glass: base colour black linearised, metallic 1, roughness 0.05; it declares nothing, exports nothing and leaves the extensions as they were |
| TarkovMaterialExport.DepthZwriteTransmission | TarkovMaterialExport.cs:320-360 | depth-write: metallic 0 and roughness 0; base colour `_Color` linearised with alpha 1; the transmission texture is the RGB-inverted `_MainTex` with the `_MainTex` transform; the exports are that texture and then the normal map when it is a `Texture2D`; emission unchanged |
| TarkovMaterialExport.ClothConstants | TarkovMaterialExport.cs:361-400 | cloth: metallic `(_Metallic + 1) / 2`, roughness `1 - _Glossiness`, alpha mode MASK; it declares nothing and leaves the extensions as they were |
| TarkovMaterialExport.VertexPaintLeavesNode | TarkovMaterialExport.cs:401-429 | vertex paint returns true with the node unchanged and nothing declared; it exports `_Heights` and `_MainTex0`-`_MainTex2` in the linear slot, `_BumpMap0`-`_BumpMap2` in the normal slot, and `_SpecTex0`-`_SpecTex2` in the linear slot when the name contains `Gloss`, in that order: 7 or 10 exports |
| TarkovMaterialExport.WaterDecalConstants | TarkovMaterialExport.cs:430-463 | water decal: metallic 0, roughness 0, white base colour, transmission factor 1, alpha mode BLEND, extras `disabledShadow: true`; the base colour texture is `_MainTex` as a `Texture2D` in the linear slot with its transform, and it is the only export; the normal texture is unchanged |
| TarkovMaterialExport.UltraDecalConstants | TarkovMaterialExport.cs:464-494 | ultra decal: base colour is the `_Color` vector read as a colour and linearised; metallic 0, roughness 0.85, alpha mode BLEND, extras `disabledShadow: true`; it declares nothing and leaves the extensions as they were; it exports `_MainTex` in the base-colour slot when non-null, then the normal map when it is a `Texture2D` |
| ShaderRules.FirstMatchSpec | TarkovMaterialExport.cs:29-496 | first-match semantics of a rule table: the result is unhandled exactly when no rule matches; otherwise it is the kind of a matching rule with no earlier match |
| ShaderRules.ClassifyIsCatalogFirstMatch | TarkovMaterialExport.cs:29-496 | the if-else chain on the shader name and first-match over the twelve-row table agree on every name |
| ShaderRules.CatalogPatternsHead | TarkovMaterialExport.cs:29-271 | rows 1-5 of the table are the source's first five tests: equality with the exact names, or containment of `SMap` and `Reflective` |
| ShaderRules.CatalogPatternsTail | TarkovMaterialExport.cs:295-464 | rows 6-12 of the table are the source's last seven tests, with containment or equality as written |
| ShaderRules.Classify | TarkovMaterialExport.cs:29-496 | the first test wins outright: the animated rule is selected exactly for its own name; none of the seven exactly named shaders of the chain is unhandled |
| ShaderRules.ClassifyFirstMatch | TarkovMaterialExport.cs:29-496 | a name is unhandled exactly when no predicate holds; it selects kind k exactly when k's predicate holds and no earlier predicate does |
| MaterialRules.Vector4ToColor | TarkovMaterialExport.cs:499 | x, y, z, w become red, green, blue, alpha |
| MaterialRules.Vector4ToColorRoundTrip | TarkovMaterialExport.cs:499 | reading a vector as a colour loses nothing, in both directions |
| MaterialRules.GlossMetRough | TarkovMaterialExport.cs:49-51 | the metal-rough texture of the specular rules: black red and blue inputs, the gloss map inverted with alpha kept as the green input, and white alpha; it is named after the gloss map with `_METROUGH` and has its size |
| MaterialRules.SpecFromAlbedoAlpha | TarkovMaterialExport.cs:67-68 | the specular texture is the albedo map's alpha channel made gray, named after the map with `_SPEC` |
| MaterialRules.SMapSpecularFactor | TarkovMaterialExport.cs:164-166 | the specular factor of the SMap rule, and of the animated rule at lines 61-63, is 0 when `_Glossness` is at most 0, `_Glossness` times `_SpecVals.x` when `_Glossness` is in [0, 1], and for a non-negative `_SpecVals.x` lies between 0 and `_SpecVals.x`, not within [0, 1] |
| MaterialRules.EmissionPowerTenth | TarkovMaterialExport.cs:199 | the emissive strength of the SMap rule, and of the bumped rule at line 258: times 10 it is `_EmissionPower`, and it is non-negative exactly when the power is |
| MaterialRules.BumpedRoughness | TarkovMaterialExport.cs:235-236 | the bumped roughness and `_SpecPower * _Shininess` add up to 1; it is below 0 exactly when the product exceeds 1 and above 1 exactly when the product is negative |
| MaterialRules.BumpedSpecularFactor | TarkovMaterialExport.cs:230-231 | the bumped specular factor lies in [0, 1] |
| MaterialRules.SMapSurface | TarkovMaterialExport.cs:110-176 | the part the two SMap rules share: metallic 0; scaled linear base colour; roughness `clamp01(_Specularness)` in [0, 1]; specular factor and colour; the metal-rough and specular textures are named after their maps and carry the transforms of the chosen properties |
| MaterialRules.SMapBaseTexture | TarkovMaterialExport.cs:139-159 | the SMap base texture is non-null exactly when the albedo map is a `Texture2D`; without a tint (`_HasTint` missing or at most 0.5) it is that map unchanged; with a tint it is an overlay of a 2x2 texture of `_BaseTintColor`, named after the albedo map with `_` and the tint's hex code |
| MaterialRules.SMapEmission | TarkovMaterialExport.cs:191-203 | the SMap emission step writes texture, colour, strength block and export exactly when the gate holds, and nothing otherwise |
| MaterialRules.AnimatedEmissiveRule | TarkovMaterialExport.cs:29-105 | the animated rule handles the material; it writes the specular block and then the emissive strength block; the normal map is set only when it is a non-null `Texture2D`; it makes 3 exports, plus the normal map and each animation map that is present |
| MaterialRules.SMapEffect | TarkovMaterialExport.cs:106-205 | the SMap rule once its property names and alpha mode are chosen: one block, or two when the emission gate holds, with the specular block first; the normal map is set whenever it is non-null |
| MaterialRules.ReflectiveSMapRule | TarkovMaterialExport.cs:106-205 | the SMap rule; alpha mode MASK exactly when the name contains `Transparent Cutoff`, and otherwise left unchanged |
| MaterialRules.BumpedSpecularRule | TarkovMaterialExport.cs:207-265 | the bumped rule: base colour scaled and then linearised; base colour texture `_MainTex` or white; the bounded specular factor, `_SpecColor` made linear as specular colour, and the gray alpha of that base texture as specular texture; unclamped roughness; the normal texture from `_BumpMap`; an emission block and the `_EmissionMap` emissive texture exactly when `_EmissionVisibility` exists; no emissive colour; exports in call order |
| MaterialRules.CutoutBumpedDiffuseRule | TarkovMaterialExport.cs:266-270 | the cutout rule does not handle the material, and enabling `_BUMPMAP` is its only effect |
| MaterialRules.GlobalFogRule | TarkovMaterialExport.cs:271-294 | global fog uses one texture reference for base colour and metal-rough, and exports exactly that reference; it sets no normal texture and no emission |
| MaterialRules.CollimatorRule | TarkovMaterialExport.cs:295-310 | collimator: the default PBR block with metallic and roughness 0, one transmission block with no texture, no exports; alpha mode, normal texture, emission and extras untouched |
| MaterialRules.OpticGlassRule | TarkovMaterialExport.cs:311-318 | optic glass: the default PBR block with linear black as base colour, metallic 1, roughness 0.05; no blocks, no exports; alpha mode, normal texture, emission and extras untouched |
| MaterialRules.DepthZwriteRule | TarkovMaterialExport.cs:320-360 | depth-write stores a transmission block whose texture is the RGB-inverted `_MainTex`; no base-colour or metal-rough texture; the normal map is set exactly when it is a `Texture2D`; the exports are the transmission texture and then that normal map; no emission |
| MaterialRules.ClothRule | TarkovMaterialExport.cs:361-400 | cloth: base colour `_Color` linearised, metallic `(_Metallic + 1) / 2`, roughness `1 - _Glossiness`, alpha mode MASK, no blocks, no emission; it makes 2 exports, plus the normal map when `_NormalMap1` is a `Texture2D` |
| MaterialRules.PlainExports | TarkovMaterialExport.cs:408-424 | one plain export per named property, in order, for the given slot |
| MaterialRules.VertexPaintExports | TarkovMaterialExport.cs:408-424 | the vertex-paint exports in call order: `_Heights`, `_MainTex0`-`_MainTex2` in the linear slot, `_BumpMap0`-`_BumpMap2` in the normal slot, then `_SpecTex0`-`_SpecTex2` in the linear slot: 10 exports when the name contains `Gloss`, else 7 |
| MaterialRules.VertexPaintRule | TarkovMaterialExport.cs:401-429 | vertex paint sets nothing on the node; its exports are, in order, the four linear maps, the three normal maps and, with `Gloss` in the name, the three specular maps: 7 or 10 |
| MaterialRules.WaterDecalRule | TarkovMaterialExport.cs:430-463 | water decal: metallic 0, roughness 0, white base colour, a transmission block, BLEND, `disabledShadow` extras; the base colour texture is `_MainTex` as a `Texture2D` in the linear slot, and it is the only export; no normal texture and no emission |
| MaterialRules.UltraDecalRule | TarkovMaterialExport.cs:464-494 | ultra decal: a base-colour texture exactly when `_MainTex` is non-null, and then it is `_MainTex` in the base-colour slot with its transform; a normal texture exactly when `_BumpMap` is a `Texture2D`; the exports are those two in that order; no emission |
| GltfMaterial.StoreBlocks | TarkovMaterialExport.cs:76-91 | storing blocks in order: a name gets the last block stored under it; a name never stored keeps its block; no other name appears |
| GltfMaterial.Apply | TarkovMaterialExport.cs:75-91 | writing an effect: each set field is set and the others are kept; the declarations are the names of the effect's blocks, since a block and its declaration are one entry of the effect; so each stored block is declared, each declared name has its block, and undeclared names keep theirs |
| MaterialSource.OrWhite | TarkovMaterialExport.cs:44-47 | a null texture is replaced by Unity's white texture, and any other texture is kept |
| Colors.Clamp01 | TarkovMaterialExport.cs:62 | `Mathf.Clamp01`: the result lies in [0, 1]; it is the value itself inside that range, 0 below it and 1 above it |
| Colors.ScaleRgb | TarkovMaterialExport.cs:36-39 | red, green and blue are multiplied by the factor, and alpha is kept |
| Colors.OpaqueAlpha | TarkovMaterialExport.cs:275-276 | alpha becomes 1, and red, green and blue are kept |
| TextureConverter.Code | TextureConverter.cs:6-16 | the enum value of a channel source: four per texture in RGBA order, first texture 0-3 and second texture 4-7 |
| TextureConverter.FromCode | TextureConverter.cs:6-16 | a value decodes to a source exactly when it lies in 0..7 |
| TextureConverter.CodeRoundTrip | TextureConverter.cs:6-16 | decoding an encoded source gives it back |
| TextureConverter.FromCodeRoundTrip | TextureConverter.cs:6-16 | encoding a decoded value gives it back, so the enumeration is a bijection onto 0..7 |
| TextureConverter.ApplyBlit | TextureConverter.cs:69-88 | null input gives null; otherwise the result is a fresh `Texture2D` with the input's size and name, holding what the pass rendered |
| TextureConverter.InvertRgb | TextureConverter.cs:108-116 | the one-argument invert returns null for null, keeps the input's name and size, and leaves the alpha keyword off |
| TextureConverter.Invert | TextureConverter.cs:147-155 | the invert pass with the alpha keyword as requested, keeping the input's name and size |
| TextureConverter.Power | TextureConverter.cs:118-125 | the power pass, keeping the input's name and size |
| TextureConverter.Multiply | TextureConverter.cs:127-134 | the result takes its name and size from `texA` alone, and is null exactly when `texA` is |
| TextureConverter.CombineR | TextureConverter.cs:136-145 | the result takes its name and size from the green input, and is null exactly when that input is |
| TextureConverter.ChannelToGrayscale | TextureConverter.cs:157-165 | the grayscale pass for the selected channel, keeping the input's name and size |
| TextureConverter.OverrideAlpha | TextureConverter.cs:167-173 | as written: `tex` is bound to both the main and the alpha slot |
| TextureConverter.OverrideAlphaIgnoresAlphaSource | TextureConverter.cs:167-173 | whatever texture is passed as the alpha source, the result is the same |
| TextureConverter.OverrideAlphaDiffersFromIntended | TextureConverter.cs:167-173 | for a non-null texture and any other alpha source, the written function differs from the intended one |
| TextureConverter.OverrideAlphaFrom | TextureConverter.cs:167-173 | the intended function: alpha is read from `texWithAlpha` |
| TextureConverter.PackGrayscaleTextureToOneChannel | TextureConverter.cs:175-188 | output channel `channel` reads the first texture's red and every other channel reads the red of white |
| TextureConverter.BlendOverlay | TextureConverter.cs:190-199 | the result takes its name and size from the base texture, and is null exactly when that texture is |
| TextureConverter.CreateGrayscaleFromAlpha | TextureConverter.cs:201-211 | red, green and blue read the input's alpha, and alpha reads the red of white |
| TextureConverter.FillAlpha | TextureConverter.cs:213-219 | as written, it returns `tex as Texture2D` before any pass: a `Texture2D` comes back unchanged, anything else as null, and `alpha` is ignored |
| TextureConverter.RoughToMetRough | TextureConverter.cs:96-106 | black red and blue, the green channel made gray as green, white alpha; the result has the input's name and size |
| TextureConverter.GlosToMetRough | TextureConverter.cs:90-94 | the result has the gloss map's name and size, and its green input is the green channel, made gray, of the gloss map inverted with alpha kept |
| TextureConverter.SolidColor | TextureConverter.cs:231-246 | a new unnamed `Texture2D` of the given size whose `width * height` pixels are all the colour |
| TextureConverter.CreateSolidColorTexture | TextureConverter.cs:231-246 | the loop fills every one of the `width * height` pixels with the colour; the result is `SolidColor` |
| BlitSemantics.GrayscaleMeaning | TextureConverter.cs:157-165 | for a channel 0-3, every texel's red, green and blue become that channel of the input, and alpha becomes 1 |
| BlitSemantics.InvertKeepsAlpha | TextureConverter.cs:147-155 | without the alpha keyword, red, green and blue become one minus themselves and alpha is kept |
| BlitSemantics.InvertTwiceRestores | TextureConverter.cs:147-155 | inverting twice with the alpha keyword restores every texel |
| BlitSemantics.RoughToMetRoughMeaning | TextureConverter.cs:96-106 | each texel becomes (0, input green, 0, 1) |
| BlitSemantics.GlosToMetRoughMeaning | TextureConverter.cs:90-94 | each texel becomes (0, 1 - input green, 0, 1): roughness is one minus gloss |
| BlitSemantics.PackGrayscaleMeaning | TextureConverter.cs:175-188 | channel `k` carries the input's red and every other channel is 1 |
| BlitSemantics.GrayscaleFromAlphaMeaning | TextureConverter.cs:201-211 | each texel becomes (a, a, a, 1), where a is the input's alpha |
| SanitizeTextureNames.SanitizeChars | SanitizeTextureNames.cs:34-48 | same length; each character is kept if it is a letter, a digit or the replacement, and is the replacement otherwise |
| SanitizeTextureNames.SanitizeName | SanitizeTextureNames.cs:27-49 | a null or empty name gives `Unnamed_Texture`; otherwise the character map above |
| SanitizeTextureNames.SanitizedIsSafe | SanitizeTextureNames.cs:36-46 | a sanitised non-empty name holds only kept characters |
| SanitizeTextureNames.SafeNameIsFixedPoint | SanitizeTextureNames.cs:36-46 | a non-empty name made only of kept characters is returned unchanged |
| SanitizeTextureNames.SanitizeIdempotent | SanitizeTextureNames.cs:27-49 | sanitising twice equals sanitising once, for every input, given that the placeholder itself survives sanitising |
| SanitizeTextureNames.SanitizeExample | SanitizeTextureNames.cs:27-49 | `a@b#c` becomes `a_b_c` with the default `_` |
| SanitizeTextureNames.BeforeTextureExport | SanitizeTextureNames.cs:19-25 | the sanitised name, with the hash code in decimal appended exactly when that name is the placeholder; the result is never the bare placeholder |
| SanitizeTextureNames.LiteralPlaceholderGetsSuffix | SanitizeTextureNames.cs:21-24 | for any letter-or-digit test that keeps the characters of `Unnamed_Texture`, as `char.IsLetterOrDigit` does, a texture literally named `Unnamed_Texture` also gets the suffix |
| Strings.IntToDecimal | SanitizeTextureNames.cs:24 | an `int` in decimal: for n >= 0 digits that parse back to n; for n < 0 a minus sign followed by digits that parse back to -n |
| Strings.NatToDecimalRoundTrip | SanitizeTextureNames.cs:24 | parsing the decimal rendering of a natural number gives the number back |

## Left out

- GPU work: blits, render textures, `ToTexture2D` read-back and the
  `GL.sRGBWrite` toggle (`TextureConverter.cs:69-88`, `221-229`). A blit result
  is the term of its pass. Texel values are given only by the separate reading
  in `BlitSemantics`, which is an interpretation of the shaders' names and
  configuration, because the shader programs are not part of this model.
- The size of a blit result: the model follows the code, where it is the size
  of the texture passed to `ApplyBlit` (`texA`, `texG`, `texBase`, ...), not the
  larger of the inputs.
- Shader lookup: `GetShader` and `InjectBundleShaders`, including their logging
  and the null shader of an uninitialised bundle (`TextureConverter.cs:20-67`).
  Every blit shader is assumed to be found.
- `TextureConverter.Convert` is not part of this model. It is the `convert`
  field of `Host`, and the cloth rule calls it.
- `Color.ToNumericsColorLinear` and `ColorUtility.ToHtmlStringRGB` are the
  `toLinear` and `htmlRgb` fields of `Host`. The sRGB-to-linear curve is not
  modelled.
- Floating point: every `float` is a `real`. Rounding of `0.05f`, `/ 10f` and
  the products is not modelled.
- `char.IsLetterOrDigit` uses Unicode tables. It is the `isLetterOrDigit`
  parameter. `IsAsciiLetterOrDigit` is used only for worked examples.
- `GetHashCode` is the `hashCode` parameter, because its value is decided by
  the runtime.
- SanitizeTextureNames.SanitizeChars, SanitizeTextureNames.SanitizeName: a
  name is a sequence of Unicode scalar values, while the C# loop
  (`SanitizeTextureNames.cs:36`) walks UTF-16 code units. A character outside
  the Basic Multilingual Plane is one element here but two surrogates there.
  Each surrogate fails `char.IsLetterOrDigit` and is replaced, so `a`, U+1F600,
  `b` becomes `a__b` in C# but `a_b` in the model. Length is preserved in code
  units in C# and in scalars in the model. Names inside the Basic
  Multilingual Plane agree.
- Strings.IntToDecimal: `name += texture.GetHashCode()` formats with the
  current culture. The model always uses `-` as the negative sign and ASCII
  digits, as the invariant culture does.
- MaterialRules.ClothRule: the set-alpha material of the cloth rule binds only
  `_AlphaTex` (`TarkovMaterialExport.cs:367-372`).
  `TextureConverter.Convert` is not part of this model. The pass handed to
  `host.convert` records `_MainTex` as its main input, on the assumption that
  `Convert` blits its input into the shader's `_MainTex`.
- The plugin boilerplate (`DisplayName`, `Description`, `CreateInstance`) and
  the empty `AfterSceneExport`.
- A null extension dictionary is the empty map, so creating it is not a
  separate step.
- The Unity material API is a record of property maps. Missing floats and
  colours read as zero, a missing vector as the zero vector, and a missing
  texture as null. Unity's `if (tex)` test on a destroyed object is treated as
  a null test. Colours and vectors are separate maps here, while Unity's
  `GetColor` and `GetVector` read the same property; a material built from
  Unity data holds each colour property in both maps (the ultra-decal rule
  reads `_Color` as a vector, `TarkovMaterialExport.cs:468`).
- TextureConverter.SolidColor, TextureConverter.CreateSolidColorTexture: the
  sizes are `nat`, where C# takes `int` (`TextureConverter.cs:231`). A
  negative size makes `new Texture2D` or `new Color[width * height]` throw,
  and `width * height` wraps in 32-bit arithmetic (`TextureConverter.cs:235`);
  neither error path is modelled. The only caller passes 2 by 2
  (`TarkovMaterialExport.cs:149`).
- `material.mainTexture` (`TarkovMaterialExport.cs:274`) is read as the
  `_MainTex` property.
- `new PbrMetallicRoughness()` is taken to hold the glTF 2.0 defaults: white,
  metallic 1, roughness 1.
- The depth-write rule's unused transmission chain is not modelled. That chain
  is a channel-mixer `Convert` and a second `Invert`
  (`TarkovMaterialExport.cs:324-333`), and its result is never exported.
- The water-decal rule's channel mixer, which is configured but never run
  (`TarkovMaterialExport.cs:434-441`), is not modelled.
- The order of texture exports relative to `DeclareExtensionUsage` calls is
  not recorded. Each kind of call keeps its own order.
- GltfMaterial.Apply: every `DeclareExtensionUsage` call passes
  `required = true` (`TarkovMaterialExport.cs:75, 90, 178, 201, 240, 260, 285,
  302, 345, 448`). The declarations record only the extension name, so the
  flag is not recorded; every declared extension is meant as both used and
  required.
- MaterialRules.SMapBaseTexture: when the albedo map is not a `Texture2D` and
  a tint is set, the source renames a null texture and fails
  (`TarkovMaterialExport.cs:152`). The model returns null there, and the
  contract says nothing about that failure.
- MaterialRules.AnimatedEmissiveRule, MaterialRules.ClothRule: the contracts
  count the exports and state the scalars. They do not restate every texture
  reference, because `SMapSurface`, `GlossMetRough` and the `Host` conversion
  describe those.
- MaterialRules.ReflectiveSMapRule, MaterialRules.SMapEffect: the contracts
  state the scalars, blocks, emission and alpha mode. They do not state the
  export list. `SMapSurface` and `SMapBaseTexture` give its parts.

## Findings

| source | as written | input that shows it | evidently intended | confidence | as-written member | corrected member |
|---|---|---|---|---|---|---|
| TextureConverter.cs:171 | `OverrideAlpha` binds `_AlphaTex` to `tex`, so `texWithAlpha` is never used and the alpha comes from `tex` itself | any non-null `tex` with a `texWithAlpha` different from it | `_AlphaTex` bound to `texWithAlpha`, as the parameter name says | not executed; high | TextureConverter.OverrideAlpha (with TextureConverter.OverrideAlphaDiffersFromIntended) | TextureConverter.OverrideAlphaFrom |

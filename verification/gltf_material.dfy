/** The glTF material node the rules write and the extension blocks they
    attach. A texture-info reference the exporter returns is identified by the
    call that produced it. A null extension dictionary is the empty map. */
module GltfMaterial {
  import opened Optional
  import opened Colors
  import opened TextureConverter

  datatype AlphaMode = AlphaOpaque | AlphaMask | AlphaBlend

  /** The export-settings slot a texture is registered for. */
  datatype Slot = BaseColorSlot | NormalSlot | CustomUnknownSlot | LinearSlot | SRgbSlot

  /** A texture-info reference returned by the exporter. */
  datatype TexRef =
      /** `ExportTextureInfoWithTextureTransform(material, tex, property, settings)` */
    | TransformedRef(tex: Option<Texture>, transformProperty: string, slot: Slot)
      /** `ExportNormalTextureInfo(tex, Normal, material)` */
    | NormalRef(normalTex: Texture)
      /** `ExportTextureInfo(tex, slot)` */
    | PlainRef(tex: Option<Texture>, slot: Slot)

  const SpecularExt := "KHR_materials_specular"
  const TransmissionExt := "KHR_materials_transmission"
  const EmissiveStrengthExt := "KHR_materials_emissive_strength"

  /** The three extension names are different strings. */
  lemma ExtensionNamesDistinct()
    ensures SpecularExt != TransmissionExt && SpecularExt != EmissiveStrengthExt && TransmissionExt != EmissiveStrengthExt
  {
  }

  datatype Extension =
    | Specular(specularFactor: real, specularColorFactor: Color, specularTexture: Option<TexRef>)
    | Transmission(transmissionFactor: real, transmissionTexture: Option<TexRef>)
    | EmissiveStrength(emissiveStrength: real)

  /** The metallic-roughness block of a material. */
  datatype Pbr = Pbr(
    baseColorFactor: Color,
    baseColorTexture: Option<TexRef>,
    metallicFactor: real,
    roughnessFactor: real,
    metallicRoughnessTexture: Option<TexRef>)

  /** `new PbrMetallicRoughness()`: the glTF 2.0 defaults. */
  const DefaultPbr := Pbr(White, None, 1.0, 1.0, None)

  datatype MaterialNode = MaterialNode(
    pbr: Option<Pbr>,
    normalTexture: Option<TexRef>,
    emissiveTexture: Option<TexRef>,
    emissiveFactor: Color,
    alphaMode: AlphaMode,
    extensions: map<string, Extension>,
    extras: map<string, bool>)

  /** The extras object the decal rules attach: `{ "disabledShadow": true }`. */
  const DisabledShadowExtras: map<string, bool> := map["disabledShadow" := true]

  /** The block stored under `n` in `node` is not the one `start` had. */
  predicate Changed(start: MaterialNode, node: MaterialNode, n: string) {
    n in node.extensions && (n !in start.extensions || node.extensions[n] != start.extensions[n])
  }

  /** Every extension block stored since `start` was declared, and every
      declared extension has a block. Every declaration of the hook passes
      `required = true`, so the exporter writes each declared name into both
      `extensionsUsed` and `extensionsRequired`; the two lists and the stored
      blocks must therefore agree. */
  predicate ExtensionsDeclared(start: MaterialNode, node: MaterialNode, declared: seq<string>) {
    && (forall n | n in node.extensions :: Changed(start, node, n) ==> n in declared)
    && (forall n | n in declared :: n in node.extensions)
  }

  /** The names of a sequence of (name, block) pairs, in order. */
  function Names(blocks: seq<(string, Extension)>): (ns: seq<string>)
    ensures |ns| == |blocks|
    ensures forall i :: 0 <= i < |blocks| ==> ns[i] == blocks[i].0
  {
    seq(|blocks|, i requires 0 <= i < |blocks| => blocks[i].0)
  }

  /** No block after index `i` has the same name as block `i`. */
  predicate LastWithName(blocks: seq<(string, Extension)>, i: int)
    requires 0 <= i < |blocks|
  {
    forall j | i < j < |blocks| :: blocks[j].0 != blocks[i].0
  }

  /** Dropping the first block keeps a later block the last with its name. */
  lemma LastWithNameTail(blocks: seq<(string, Extension)>, i: int)
    requires 1 <= i < |blocks| && LastWithName(blocks, i)
    ensures LastWithName(blocks[1..], i - 1)
  {
    var rest := blocks[1..];
    forall j | i - 1 < j < |rest| ensures rest[j].0 != rest[i - 1].0 {
      assert rest[j] == blocks[j + 1];
    }
  }

  /** `Extensions[name] = block` for each pair in turn. A name gets the last
      block stored under it; a name never stored keeps its block. */
  function StoreBlocks(ext: map<string, Extension>, blocks: seq<(string, Extension)>): (r: map<string, Extension>)
    ensures forall n :: n in r <==> n in ext || n in Names(blocks)
    ensures forall n | n in r && n !in Names(blocks) :: r[n] == ext[n]
    ensures forall i | 0 <= i < |blocks| && LastWithName(blocks, i) :: blocks[i].0 in r && r[blocks[i].0] == blocks[i].1
    decreases |blocks|
  {
    if blocks == [] then ext
    else
      var rest := blocks[1..];
      var r := StoreBlocks(ext[blocks[0].0 := blocks[0].1], rest);
      assert Names(blocks) == [blocks[0].0] + Names(rest);
      forall i | 1 <= i < |blocks| && LastWithName(blocks, i) ensures LastWithName(rest, i - 1) {
        LastWithNameTail(blocks, i);
      }
      assert LastWithName(blocks, 0) ==> blocks[0].0 !in Names(rest);
      r
  }

  /** What a conversion rule writes: whether the material counts as handled,
      the fields it sets on the node (`None` leaves a field as it was), the
      extension blocks it declares and stores, in call order, the texture
      export calls in call order, and the keywords it enables on the source
      material. */
  datatype Effect = Effect(
    handled: bool,
    pbr: Option<Pbr>,
    alphaMode: Option<AlphaMode>,
    normalTexture: Option<TexRef>,
    emissiveTexture: Option<TexRef>,
    emissiveFactor: Option<Color>,
    blocks: seq<(string, Extension)>,
    extras: Option<map<string, bool>>,
    exports: seq<TexRef>,
    keywords: seq<string>)

  /** A rule that writes nothing and returns `false`. */
  const NoEffect := Effect(false, None, None, None, None, None, [], None, [], [])

  /** What the export hook leaves behind: its return value, the node, the
      texture export calls in call order, the extension names passed to
      `DeclareExtensionUsage` in call order, and the keywords enabled on the
      source material. Every such call passes `required = true`; the flag is
      constant, so it is not stored, and each name in `declared` stands for an
      extension that is both used and required. The
      exporter keeps textures and declared extensions in separate lists, so
      the interleaving of the two kinds of call is not recorded. */
  datatype Outcome = Outcome(
    handled: bool,
    node: MaterialNode,
    exports: seq<TexRef>,
    declared: seq<string>,
    keywords: seq<string>)

  /** Writes an effect onto a node. Every field the effect sets is set, every
      other field is kept, each block is declared and stored, and declarations
      and blocks agree. */
  function Apply(node: MaterialNode, e: Effect): (o: Outcome)
    ensures o.handled == e.handled && o.exports == e.exports && o.keywords == e.keywords
    ensures o.declared == Names(e.blocks)
    ensures o.node.pbr == (if e.pbr.Some? then e.pbr else node.pbr)
    ensures o.node.alphaMode == e.alphaMode.GetOr(node.alphaMode)
    ensures o.node.normalTexture == (if e.normalTexture.Some? then e.normalTexture else node.normalTexture)
    ensures o.node.emissiveTexture == (if e.emissiveTexture.Some? then e.emissiveTexture else node.emissiveTexture)
    ensures o.node.emissiveFactor == e.emissiveFactor.GetOr(node.emissiveFactor)
    ensures o.node.extras == e.extras.GetOr(node.extras)
    ensures forall i | 0 <= i < |e.blocks| && LastWithName(e.blocks, i) ::
              e.blocks[i].0 in o.node.extensions && o.node.extensions[e.blocks[i].0] == e.blocks[i].1
    ensures forall n | n !in o.declared :: (n in o.node.extensions <==> n in node.extensions)
    ensures forall n | n in node.extensions && n !in o.declared :: o.node.extensions[n] == node.extensions[n]
    ensures ExtensionsDeclared(node, o.node, o.declared)
  {
    Outcome(
      e.handled,
      MaterialNode(
        if e.pbr.Some? then e.pbr else node.pbr,
        if e.normalTexture.Some? then e.normalTexture else node.normalTexture,
        if e.emissiveTexture.Some? then e.emissiveTexture else node.emissiveTexture,
        e.emissiveFactor.GetOr(node.emissiveFactor),
        e.alphaMode.GetOr(node.alphaMode),
        StoreBlocks(node.extensions, e.blocks),
        e.extras.GetOr(node.extras)),
      e.exports,
      Names(e.blocks),
      e.keywords)
  }
}

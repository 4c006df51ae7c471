/** The texture converter: channel-mixer configuration and the blit wrappers.
    A blit runs a shader pass on the GPU; its pixels are not computed here.
    A blitted texture records the pass that produced it (`Rendered`), so two
    results are equal exactly when the same pass ran on the same inputs. */
module TextureConverter {
  import opened Optional
  import opened Colors

  datatype Channel = Red | Green | Blue | Alpha

  /** The index of a channel in RGBA order. */
  function ChannelIndex(c: Channel): (i: nat)
    ensures i < 4
  {
    match c
    case Red => 0
    case Green => 1
    case Blue => 2
    case Alpha => 3
  }

  /** The channel with the given RGBA index, if there is one. */
  function ChannelAt(i: int): (c: Option<Channel>)
    ensures c.Some? <==> 0 <= i < 4
    ensures c.Some? ==> ChannelIndex(c.value) == i
  {
    if i == 0 then Some(Red)
    else if i == 1 then Some(Green)
    else if i == 2 then Some(Blue)
    else if i == 3 then Some(Alpha)
    else None
  }

  /** The two textures a channel-mixer pass reads. */
  datatype MixerInput = First | Second

  /** `ChannelSource`: one channel of one of the two mixer inputs. */
  datatype ChannelSource = ChannelSource(input: MixerInput, channel: Channel)

  const TexFirstRed := ChannelSource(First, Red)
  const TexFirstAlpha := ChannelSource(First, Alpha)
  const TexSecondRed := ChannelSource(Second, Red)

  /** The enum value of a source as the shader receives it: four per texture,
      first-texture red, green, blue, alpha are 0 to 3 and second-texture ones 4 to 7. */
  function Code(s: ChannelSource): (n: nat)
    ensures n < 8
    ensures n / 4 == (if s.input == First then 0 else 1)
    ensures n % 4 == ChannelIndex(s.channel)
  {
    (if s.input == First then 0 else 4) + ChannelIndex(s.channel)
  }

  /** The source with the given enum value, if it is one. */
  function FromCode(n: int): (s: Option<ChannelSource>)
    ensures s.Some? <==> 0 <= n < 8
  {
    if 0 <= n < 8 then
      Some(ChannelSource(if n < 4 then First else Second, ChannelAt(n % 4).value))
    else None
  }

  /** Decoding an encoded source gives it back. */
  lemma CodeRoundTrip(s: ChannelSource)
    ensures FromCode(Code(s)) == Some(s)
  {
  }

  /** Encoding a decoded value gives it back, so the encoding is a bijection onto 0..7. */
  lemma FromCodeRoundTrip(n: int)
    requires 0 <= n < 8
    ensures FromCode(n).Some? && Code(FromCode(n).value) == n
  {
  }

  /** The four sources of a channel-mixer pass, one per output channel. */
  datatype MixerSources = MixerSources(r: ChannelSource, g: ChannelSource, b: ChannelSource, a: ChannelSource)

  /** The source that feeds output channel `c`. */
  function SourceFor(m: MixerSources, c: Channel): ChannelSource {
    match c
    case Red => m.r
    case Green => m.g
    case Blue => m.b
    case Alpha => m.a
  }

  /** A texture: name, size, whether it is a `Texture2D`, and where its pixels come from. */
  datatype Texture = Texture(name: string, width: int, height: int, is2D: bool, pixels: Pixels)

  datatype Pixels =
    | Asset(id: nat)           // a texture of the game's assets
    | BuiltinWhite             // `Texture2D.whiteTexture`
    | BuiltinBlack             // `Texture2D.blackTexture`
    | Filled(colors: seq<Color>)  // pixels written by `SetPixels`
    | Rendered(pass: Pass)     // read back from a blit

  /** A blit pass: the shader and the textures and values bound to its material. */
  datatype Pass =
    | InvertPass(main: Option<Texture>, invertAlpha: bool)
    | PowerPass(main: Option<Texture>, exponent: real)
    | MultiplyPass(texA: Option<Texture>, texB: Option<Texture>)
    | CombinePass(rTex: Option<Texture>, gTex: Option<Texture>, bTex: Option<Texture>, aTex: Option<Texture>)
    | GrayscalePass(main: Option<Texture>, channelSelect: int)
    | SetAlphaPass(main: Option<Texture>, alphaTex: Option<Texture>)
    | MixerPass(first: Option<Texture>, second: Option<Texture>, sources: MixerSources)
    | OverlayPass(main: Option<Texture>, top: Option<Texture>, mask: Option<Texture>, factor: real)

  /** Unity's built-in white and black textures (name and size are stand-ins). */
  const WhiteTexture := Texture("UnityWhite", 4, 4, true, BuiltinWhite)
  const BlackTexture := Texture("UnityBlack", 4, 4, true, BuiltinBlack)

  /** `tex as Texture2D`: null unless the texture is a `Texture2D`. */
  function AsTexture2D(tex: Option<Texture>): (r: Option<Texture>)
    ensures r.Some? <==> tex.Some? && tex.value.is2D
    ensures r.Some? ==> r == tex
  {
    if tex.Some? && tex.value.is2D then tex else None
  }

  /** The same texture under another name; a null texture stays null. */
  function Renamed(tex: Option<Texture>, name: string): (r: Option<Texture>)
    ensures r.Some? <==> tex.Some?
    ensures r.Some? ==> r.value == tex.value.(name := name)
  {
    if tex.Some? then Some(tex.value.(name := name)) else None
  }

  /** `ApplyBlit`: null for a null input; otherwise a fresh `Texture2D` the size
      of the input, carrying the input's name, whose pixels the pass rendered. */
  function ApplyBlit(input: Option<Texture>, pass: Pass): (r: Option<Texture>)
    ensures r.None? <==> input.None?
    ensures r.Some? ==> && r.value.width == input.value.width
                        && r.value.height == input.value.height
                        && r.value.name == input.value.name
                        && r.value.is2D
                        && r.value.pixels == Rendered(pass)
  {
    if input.None? then None
    else Some(Texture(input.value.name, input.value.width, input.value.height, true, Rendered(pass)))
  }

  /** `Invert(inputTexture)`, the one-argument overload: it returns null for a
      null input itself and leaves the alpha keyword unset (off). */
  function InvertRgb(tex: Option<Texture>): (r: Option<Texture>)
    ensures r.None? <==> tex.None?
    ensures r.Some? ==> r.value.name == tex.value.name && r.value.width == tex.value.width
                        && r.value.height == tex.value.height
                        && r.value.pixels == Rendered(InvertPass(tex, false))
  {
    if tex.None? then None else ApplyBlit(tex, InvertPass(tex, false))
  }

  /** `Invert(tex, invertAlpha)`: the invert pass with the alpha keyword set as asked. */
  function Invert(tex: Option<Texture>, invertAlpha: bool): (r: Option<Texture>)
    ensures r.None? <==> tex.None?
    ensures r.Some? ==> r.value.name == tex.value.name && r.value.width == tex.value.width
                        && r.value.height == tex.value.height
                        && r.value.pixels == Rendered(InvertPass(tex, invertAlpha))
  {
    ApplyBlit(tex, InvertPass(tex, invertAlpha))
  }

  /** `Power(inputTex, exponent)`. */
  function Power(tex: Option<Texture>, exponent: real): (r: Option<Texture>)
    ensures r.None? <==> tex.None?
    ensures r.Some? ==> r.value.name == tex.value.name && r.value.width == tex.value.width
                        && r.value.height == tex.value.height
                        && r.value.pixels == Rendered(PowerPass(tex, exponent))
  {
    ApplyBlit(tex, PowerPass(tex, exponent))
  }

  /** `Multiply(texA, texB)`: the result takes its size and name from `texA`
      alone, and is null exactly when `texA` is. */
  function Multiply(texA: Option<Texture>, texB: Option<Texture>): (r: Option<Texture>)
    ensures r.None? <==> texA.None?
    ensures r.Some? ==> r.value.name == texA.value.name && r.value.width == texA.value.width
                        && r.value.height == texA.value.height
                        && r.value.pixels == Rendered(MultiplyPass(texA, texB))
  {
    ApplyBlit(texA, MultiplyPass(texA, texB))
  }

  /** `CombineR(texR, texG, texB, texA)`: the result takes its size and name
      from `texG`, and is null exactly when `texG` is. */
  function CombineR(texR: Option<Texture>, texG: Option<Texture>, texB: Option<Texture>, texA: Option<Texture>): (r: Option<Texture>)
    ensures r.None? <==> texG.None?
    ensures r.Some? ==> r.value.name == texG.value.name && r.value.width == texG.value.width
                        && r.value.height == texG.value.height
                        && r.value.pixels == Rendered(CombinePass(texR, texG, texB, texA))
  {
    ApplyBlit(texG, CombinePass(texR, texG, texB, texA))
  }

  /** `ChannelToGrayscale(tex, channel)`. */
  function ChannelToGrayscale(tex: Option<Texture>, channel: int): (r: Option<Texture>)
    ensures r.None? <==> tex.None?
    ensures r.Some? ==> r.value.name == tex.value.name && r.value.width == tex.value.width
                        && r.value.height == tex.value.height
                        && r.value.pixels == Rendered(GrayscalePass(tex, channel))
  {
    ApplyBlit(tex, GrayscalePass(tex, channel))
  }

  /** `OverrideAlpha(tex, texWithAlpha)` as written: `tex` is bound to both the
      main and the alpha slot, so the second argument has no effect at all. */
  function OverrideAlpha(tex: Option<Texture>, texWithAlpha: Option<Texture>): (r: Option<Texture>)
    ensures r.None? <==> tex.None?
    ensures r.Some? ==> r.value.name == tex.value.name
                        && r.value.pixels == Rendered(SetAlphaPass(tex, tex))
  {
    ApplyBlit(tex, SetAlphaPass(tex, tex))
  }

  /** Whatever texture is passed for the alpha, `OverrideAlpha` gives the same result. */
  lemma OverrideAlphaIgnoresAlphaSource(tex: Option<Texture>, alpha1: Option<Texture>, alpha2: Option<Texture>)
    ensures OverrideAlpha(tex, alpha1) == OverrideAlpha(tex, alpha2)
  {
  }

  /** The discrepancy: for a non-null texture and any other alpha source, the
      written `OverrideAlpha` differs from the intended one. */
  lemma OverrideAlphaDiffersFromIntended(tex: Option<Texture>, texWithAlpha: Option<Texture>)
    requires tex.Some? && texWithAlpha != tex
    ensures OverrideAlpha(tex, texWithAlpha) != OverrideAlphaFrom(tex, texWithAlpha)
  {
    assert OverrideAlpha(tex, texWithAlpha).value.pixels.pass.alphaTex == tex;
  }

  /** `OverrideAlpha` as its parameter names say it is meant: alpha taken from `texWithAlpha`. */
  function OverrideAlphaFrom(tex: Option<Texture>, texWithAlpha: Option<Texture>): (r: Option<Texture>)
    ensures r.None? <==> tex.None?
    ensures r.Some? ==> r.value.name == tex.value.name
                        && r.value.pixels == Rendered(SetAlphaPass(tex, texWithAlpha))
  {
    ApplyBlit(tex, SetAlphaPass(tex, texWithAlpha))
  }

  /** The sources `PackGrayscaleTextureToOneChannel` configures for `channel`. */
  function PackSources(channel: int): MixerSources {
    MixerSources(
      if channel == 0 then TexFirstRed else TexSecondRed,
      if channel == 1 then TexFirstRed else TexSecondRed,
      if channel == 2 then TexFirstRed else TexSecondRed,
      if channel == 3 then TexFirstRed else TexSecondRed)
  }

  /** `PackGrayscaleTextureToOneChannel(tex, channel)`: a channel-mixer pass over
      `tex` and white in which output channel `channel` reads the red of `tex`
      and every other output channel reads the red of white. */
  function PackGrayscaleTextureToOneChannel(tex: Option<Texture>, channel: int): (r: Option<Texture>)
    ensures r.None? <==> tex.None?
    ensures r.Some? ==> && r.value.name == tex.value.name && r.value.width == tex.value.width
                        && r.value.height == tex.value.height
                        && r.value.pixels.Rendered?
                        && r.value.pixels.pass.MixerPass?
                        && r.value.pixels.pass.first == tex
                        && r.value.pixels.pass.second == Some(WhiteTexture)
                        && forall c :: SourceFor(r.value.pixels.pass.sources, c)
                                       == if ChannelIndex(c) == channel then TexFirstRed else TexSecondRed
  {
    ApplyBlit(tex, MixerPass(tex, Some(WhiteTexture), PackSources(channel)))
  }

  /** `BlendOverlay(texBase, texTop, texMask, factor)`: the result takes its size
      and name from `texBase`, and is null exactly when `texBase` is. */
  function BlendOverlay(texBase: Option<Texture>, texTop: Option<Texture>, texMask: Option<Texture>, factor: real): (r: Option<Texture>)
    ensures r.None? <==> texBase.None?
    ensures r.Some? ==> r.value.name == texBase.value.name && r.value.width == texBase.value.width
                        && r.value.height == texBase.value.height
                        && r.value.pixels == Rendered(OverlayPass(texBase, texTop, texMask, factor))
  {
    ApplyBlit(texBase, OverlayPass(texBase, texTop, texMask, factor))
  }

  /** The sources of `CreateGrayscaleFromAlpha`. */
  const AlphaToGraySources := MixerSources(TexFirstAlpha, TexFirstAlpha, TexFirstAlpha, TexSecondRed)

  /** `CreateGrayscaleFromAlpha(texMain)`: red, green and blue read the alpha of
      `texMain`, alpha reads the red of white. */
  function CreateGrayscaleFromAlpha(tex: Option<Texture>): (r: Option<Texture>)
    ensures r.None? <==> tex.None?
    ensures r.Some? ==> && r.value.name == tex.value.name
                        && r.value.pixels.Rendered?
                        && r.value.pixels.pass.MixerPass?
                        && r.value.pixels.pass.first == tex
                        && r.value.pixels.pass.second == Some(WhiteTexture)
                        && forall c :: SourceFor(r.value.pixels.pass.sources, c)
                                       == if c == Alpha then TexSecondRed else TexFirstAlpha
  {
    ApplyBlit(tex, MixerPass(tex, Some(WhiteTexture), AlphaToGraySources))
  }

  /** `FillAlpha(tex, alpha)` as written: it returns `tex as Texture2D` before
      any pass runs, so `alpha` is ignored and a `Texture2D` comes back unchanged. */
  function FillAlpha(tex: Option<Texture>, alpha: real): (r: Option<Texture>)
    ensures tex.Some? && tex.value.is2D ==> r == tex
    ensures !(tex.Some? && tex.value.is2D) ==> r.None?
  {
    AsTexture2D(tex)
  }

  /** `RoughToMetRough(texRough)`: the green channel of the input, made gray,
      feeds the green (roughness) slot of a combine with black red and blue and
      white alpha; the result has the input's name and size. */
  function RoughToMetRough(texRough: Option<Texture>): (r: Option<Texture>)
    ensures r.None? <==> texRough.None?
    ensures r.Some? ==> && r.value.name == texRough.value.name
                        && r.value.width == texRough.value.width
                        && r.value.height == texRough.value.height
                        && r.value.pixels.Rendered?
                        && r.value.pixels.pass.CombinePass?
                        && r.value.pixels.pass.rTex == Some(BlackTexture)
                        && r.value.pixels.pass.bTex == Some(BlackTexture)
                        && r.value.pixels.pass.aTex == Some(WhiteTexture)
                        && r.value.pixels.pass.gTex == ChannelToGrayscale(texRough, 1)
  {
    var texG := ChannelToGrayscale(texRough, 1);
    CombineR(Some(BlackTexture), texG, Some(BlackTexture), Some(WhiteTexture))
  }

  /** `GlosToMetRough(texGlos)`: the gloss map inverted (alpha kept), then packed
      as by `RoughToMetRough`; the result has the gloss map's name and size. */
  function GlosToMetRough(texGlos: Option<Texture>): (r: Option<Texture>)
    ensures r.None? <==> texGlos.None?
    ensures r.Some? ==> && r.value.name == texGlos.value.name
                        && r.value.width == texGlos.value.width
                        && r.value.height == texGlos.value.height
                        && r.value.pixels.Rendered?
                        && r.value.pixels.pass.CombinePass?
                        && r.value.pixels.pass.gTex == ChannelToGrayscale(Invert(texGlos, false), 1)
  {
    var texRoughness := Invert(texGlos, false);
    RoughToMetRough(texRoughness)
  }

  /** The texture `CreateSolidColorTexture(width, height, color)` builds: a new
      (unnamed) `Texture2D` whose `width * height` pixels are all `color`. */
  function SolidColor(width: nat, height: nat, color: Color): (t: Texture)
    ensures t.width == width && t.height == height && t.is2D && t.name == ""
    ensures t.pixels.Filled? && |t.pixels.colors| == width * height
    ensures forall i :: 0 <= i < |t.pixels.colors| ==> t.pixels.colors[i] == color
  {
    Texture("", width, height, true, Filled(seq(width * height, _ => color)))
  }

  /** `CreateSolidColorTexture`: fills a `width * height` pixel array with `color`
      one element at a time and uploads it. */
  method CreateSolidColorTexture(width: nat, height: nat, color: Color) returns (t: Texture)
    ensures t.width == width && t.height == height && t.is2D
    ensures t.pixels.Filled? && |t.pixels.colors| == width * height
    ensures forall i :: 0 <= i < |t.pixels.colors| ==> t.pixels.colors[i] == color
    ensures t == SolidColor(width, height, color)
  {
    var pixels := new Color[width * height];
    var i := 0;
    while i < pixels.Length
      invariant 0 <= i <= pixels.Length
      invariant forall j :: 0 <= j < i ==> pixels[j] == color
    {
      pixels[i] := color;
      i := i + 1;
    }
    t := Texture("", width, height, true, Filled(pixels[..]));
  }
}

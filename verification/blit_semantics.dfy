/** A per-texel reading of the blit shaders, as their names and the channel
    sources describe them. The shader programs themselves are not part of this
    model: this reading is used only to say what a channel configuration means.
    All inputs of a pass are sampled at the same position; `asset` gives the
    colour of each asset texture there. Passes whose arithmetic is not read
    here (power, multiply, overlay) and null inputs sample to `None`. */
module BlitSemantics {
  import opened Optional
  import opened Colors
  import opened TextureConverter

  /** One component of a colour. */
  function Component(c: Color, ch: Channel): real {
    match ch
    case Red => c.r
    case Green => c.g
    case Blue => c.b
    case Alpha => c.a
  }

  /** The channel mixer: each output channel copies the channel its source names. */
  function Mix(first: Color, second: Color, m: MixerSources): (c: Color)
    ensures forall ch :: Component(c, ch)
                         == Component(if SourceFor(m, ch).input == First then first else second, SourceFor(m, ch).channel)
  {
    var pick := (s: ChannelSource) => Component(if s.input == First then first else second, s.channel);
    Color(pick(m.r), pick(m.g), pick(m.b), pick(m.a))
  }

  /** The colour of `t` at the sampled position. A texture written by
      `SetPixels` is read as a uniform fill: its first pixel stands for every
      texel, which is exact for the solid-colour textures the converter makes. */
  function Sample(t: Texture, asset: map<nat, Color>): Option<Color>
    decreases t, 1
  {
    match t.pixels
    case Asset(id) => if id in asset then Some(asset[id]) else None
    case BuiltinWhite => Some(White)
    case BuiltinBlack => Some(Clear)
    case Filled(cs) => if |cs| > 0 then Some(cs[0]) else None
    case Rendered(pass) => SamplePass(t, asset)
  }

  /** The colour of a possibly null texture; null has none. */
  function SampleOpt(o: Option<Texture>, asset: map<nat, Color>): Option<Color>
    decreases o
  {
    match o
    case Some(t) => Sample(t, asset)
    case None => None
  }

  /** The colour a blit pass writes, from the colours of its inputs. */
  function SamplePass(t: Texture, asset: map<nat, Color>): Option<Color>
    requires t.pixels.Rendered?
    decreases t, 0
  {
    match t.pixels.pass
    case InvertPass(m, invertAlpha) =>
      (match SampleOpt(m, asset)
       case Some(c) => Some(Color(1.0 - c.r, 1.0 - c.g, 1.0 - c.b, if invertAlpha then 1.0 - c.a else c.a))
       case None => None)
    case GrayscalePass(m, channel) =>
      (match SampleOpt(m, asset)
       case Some(c) =>
         if 0 <= channel < 4 then
           var v := Component(c, ChannelAt(channel).value);
           Some(Color(v, v, v, 1.0))
         else None
       case None => None)
    case CombinePass(rt, gt, bt, at) =>
      (match (SampleOpt(rt, asset), SampleOpt(gt, asset), SampleOpt(bt, asset), SampleOpt(at, asset))
       case (Some(cr), Some(cg), Some(cb), Some(ca)) => Some(Color(cr.r, cg.r, cb.r, ca.r))
       case _ => None)
    case SetAlphaPass(m, at) =>
      (match (SampleOpt(m, asset), SampleOpt(at, asset))
       case (Some(c), Some(ca)) => Some(c.(a := ca.a))
       case _ => None)
    case MixerPass(f, s, sources) =>
      (match (SampleOpt(f, asset), SampleOpt(s, asset))
       case (Some(cf), Some(cs)) => Some(Mix(cf, cs, sources))
       case _ => None)
    case _ => None
  }

  /** A blitted texture samples to what its pass writes. */
  lemma SampleRendered(t: Texture, asset: map<nat, Color>)
    requires t.pixels.Rendered?
    ensures Sample(t, asset) == SamplePass(t, asset)
  {
  }

  /** Packing into channel `k`: channel `k` carries the red of the input and
      every other channel is one; for `k` outside 0..3 the result is white. */
  lemma PackGrayscaleMeaning(tex: Texture, k: int, asset: map<nat, Color>)
    requires Sample(tex, asset).Some?
    ensures var c := Sample(tex, asset).value;
            var p := PackGrayscaleTextureToOneChannel(Some(tex), k);
            && p.Some?
            && Sample(p.value, asset).Some?
            && forall ch :: Component(Sample(p.value, asset).value, ch) == if ChannelIndex(ch) == k then c.r else 1.0
  {
    var c := Sample(tex, asset).value;
    var p := PackGrayscaleTextureToOneChannel(Some(tex), k);
    assert SampleOpt(Some(tex), asset) == Some(c);
    assert SampleOpt(Some(WhiteTexture), asset) == Some(White);
    SampleRendered(p.value, asset);
    assert Sample(p.value, asset) == Some(Mix(c, White, PackSources(k)));
  }

  /** `CreateGrayscaleFromAlpha` broadcasts the input's alpha into red, green
      and blue and makes alpha one. */
  lemma GrayscaleFromAlphaMeaning(tex: Texture, asset: map<nat, Color>)
    requires Sample(tex, asset).Some?
    ensures var c := Sample(tex, asset).value;
            var g := CreateGrayscaleFromAlpha(Some(tex));
            g.Some? && Sample(g.value, asset) == Some(Color(c.a, c.a, c.a, 1.0))
  {
    var c := Sample(tex, asset).value;
    var g := CreateGrayscaleFromAlpha(Some(tex));
    assert SampleOpt(Some(tex), asset) == Some(c);
    assert SampleOpt(Some(WhiteTexture), asset) == Some(White);
    SampleRendered(g.value, asset);
    assert Sample(g.value, asset) == Some(Mix(c, White, AlphaToGraySources));
  }

  /** `ChannelToGrayscale(tex, k)` for `k` in 0..3 broadcasts channel `k`
      of the input into red, green and blue and makes alpha one. */
  lemma GrayscaleMeaning(tex: Texture, k: int, asset: map<nat, Color>)
    requires Sample(tex, asset).Some? && 0 <= k < 4
    ensures var c := Sample(tex, asset).value;
            var v := Component(c, ChannelAt(k).value);
            var g := ChannelToGrayscale(Some(tex), k);
            g.Some? && Sample(g.value, asset) == Some(Color(v, v, v, 1.0))
  {
    var g := ChannelToGrayscale(Some(tex), k);
    assert SampleOpt(Some(tex), asset) == Sample(tex, asset);
    SampleRendered(g.value, asset);
  }

  /** `RoughToMetRough` puts the input's green into green, zero into red (metal
      is read from blue, also zero) and one into alpha. */
  lemma RoughToMetRoughMeaning(tex: Texture, asset: map<nat, Color>)
    requires Sample(tex, asset).Some?
    ensures var c := Sample(tex, asset).value;
            var m := RoughToMetRough(Some(tex));
            m.Some? && Sample(m.value, asset) == Some(Color(0.0, c.g, 0.0, 1.0))
  {
    var c := Sample(tex, asset).value;
    var gray := ChannelToGrayscale(Some(tex), 1);
    GrayscaleMeaning(tex, 1, asset);
    var m := RoughToMetRough(Some(tex));
    assert SampleOpt(Some(BlackTexture), asset) == Some(Clear);
    assert SampleOpt(Some(WhiteTexture), asset) == Some(White);
    assert SampleOpt(gray, asset) == Some(Color(c.g, c.g, c.g, 1.0));
    SampleRendered(m.value, asset);
  }

  /** `GlosToMetRough` turns gloss `g` (read from green) into roughness `1 - g`
      in green, with zero red and blue and alpha one. */
  lemma GlosToMetRoughMeaning(tex: Texture, asset: map<nat, Color>)
    requires Sample(tex, asset).Some?
    ensures var c := Sample(tex, asset).value;
            var m := GlosToMetRough(Some(tex));
            m.Some? && Sample(m.value, asset) == Some(Color(0.0, 1.0 - c.g, 0.0, 1.0))
  {
    var c := Sample(tex, asset).value;
    var inv := Invert(Some(tex), false);
    InvertKeepsAlpha(tex, asset);
    RoughToMetRoughMeaning(inv.value, asset);
    assert GlosToMetRough(Some(tex)) == RoughToMetRough(Some(inv.value));
  }

  /** Without the alpha keyword, inversion leaves alpha as it was. */
  lemma InvertKeepsAlpha(tex: Texture, asset: map<nat, Color>)
    requires Sample(tex, asset).Some?
    ensures var c := Sample(tex, asset).value;
            var i := Invert(Some(tex), false);
            i.Some? && Sample(i.value, asset) == Some(Color(1.0 - c.r, 1.0 - c.g, 1.0 - c.b, c.a))
  {
    var i := Invert(Some(tex), false);
    assert SampleOpt(Some(tex), asset) == Sample(tex, asset);
    SampleRendered(i.value, asset);
  }

  /** Inverting with the alpha keyword twice restores the sampled colour. */
  lemma InvertTwiceRestores(tex: Texture, asset: map<nat, Color>)
    requires Sample(tex, asset).Some?
    ensures Invert(Invert(Some(tex), true), true).Some?
    ensures Sample(Invert(Invert(Some(tex), true), true).value, asset) == Sample(tex, asset)
  {
    var c := Sample(tex, asset).value;
    var once := Invert(Some(tex), true);
    assert SampleOpt(Some(tex), asset) == Some(c);
    SampleRendered(once.value, asset);
    assert Sample(once.value, asset) == Some(Color(1.0 - c.r, 1.0 - c.g, 1.0 - c.b, 1.0 - c.a));
    var twice := Invert(once, true);
    assert SampleOpt(once, asset) == Sample(once.value, asset);
    SampleRendered(twice.value, asset);
  }
}

/** The source material a rule reads: its shader name and its named
    properties. A property the material does not have reads as zero (float,
    colour, vector) or null (texture); `Has…` tells whether it exists. A
    texture property may exist and still hold no texture. */
module MaterialSource {
  import opened Optional
  import opened Colors
  import opened TextureConverter

  datatype Material = Material(
    shader: string,
    floats: map<string, real>,
    colors: map<string, Color>,
    vectors: map<string, Vector4>,
    textures: map<string, Option<Texture>>)

  predicate HasFloat(m: Material, name: string) {
    name in m.floats
  }

  predicate HasColor(m: Material, name: string) {
    name in m.colors
  }

  predicate HasTexture(m: Material, name: string) {
    name in m.textures
  }

  /** `GetFloat`: the property's value, zero when it is missing. */
  function GetFloat(m: Material, name: string): (v: real)
    ensures HasFloat(m, name) ==> v == m.floats[name]
    ensures !HasFloat(m, name) ==> v == 0.0
  {
    if name in m.floats then m.floats[name] else 0.0
  }

  /** `GetColor`: the property's value, the zero colour when it is missing. */
  function GetColor(m: Material, name: string): (c: Color)
    ensures HasColor(m, name) ==> c == m.colors[name]
    ensures !HasColor(m, name) ==> c == Clear
  {
    if name in m.colors then m.colors[name] else Clear
  }

  /** `GetVector`: the property's value, the zero vector when it is missing. */
  function GetVector(m: Material, name: string): (v: Vector4)
    ensures name in m.vectors ==> v == m.vectors[name]
    ensures name !in m.vectors ==> v == ZeroVector
  {
    if name in m.vectors then m.vectors[name] else ZeroVector
  }

  /** `GetTexture`: the texture bound to the property, null when it is missing or unset. */
  function GetTexture(m: Material, name: string): (t: Option<Texture>)
    ensures t.Some? ==> HasTexture(m, name) && m.textures[name] == t
    ensures HasTexture(m, name) ==> t == m.textures[name]
  {
    if name in m.textures then m.textures[name] else None
  }

  /** The texture, or Unity's white texture in its place when it is null. */
  function OrWhite(t: Option<Texture>): (r: Texture)
    ensures t.Some? ==> r == t.value
    ensures t.None? ==> r == WhiteTexture
  {
    t.GetOr(WhiteTexture)
  }
}

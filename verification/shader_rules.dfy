/** Which conversion rule a shader name selects. The source tests twelve
    predicates on the name in a fixed order and the first that holds wins;
    `Classify` is that if-chain, `Catalog` is the same order written as a
    table of patterns, and `FirstMatch` reads a table. */
module ShaderRules {
  import opened Strings

  datatype RuleKind =
    | AnimatedEmissiveSpecular  // "p0/Reflective/Bumped Animated Emissive Specular SMap"
    | ReflectiveSMap            // contains "SMap" and "Reflective"
    | BumpedSpecular            // "p0/Reflective/Bumped Specular" or "... Bumped Emissive Specular"
    | CutoutBumpedDiffuse       // "p0/Cutout/Bumped Diffuse"
    | GlobalFog                 // "Global Fog/Transparent Reflective Specular"
    | Collimator                // contains "CW FX/Collimator"
    | OpticGlass                // contains "Custom/OpticGlass"
    | DepthZwrite               // contains "Transparent/DepthZwrite"
    | Cloth                     // contains "Cloth/ClothShader"
    | VertexPaint               // contains "Vert Paint Shader"
    | WaterDecal                // "Decal/Water Deferred Decal"
    | UltraDecal                // "Decal/Ultra Deferred Decal Of God 3000"
    | Unhandled                 // no predicate holds

  /** Written as the shader's folder and its own name, so that the characters
      of either part can be read off directly. */
  const AnimatedEmissiveName := "p0/Reflective/" + "Bumped Animated Emissive Specular SMap"
  const BumpedSpecularName := "p0/Reflective/Bumped Specular"
  const BumpedEmissiveSpecularName := "p0/Reflective/Bumped Emissive Specular"
  const CutoutBumpedDiffuseName := "p0/Cutout/Bumped Diffuse"
  const GlobalFogName := "Global Fog/Transparent Reflective Specular"
  const WaterDecalName := "Decal/Water Deferred Decal"
  const UltraDecalName := "Decal/Ultra Deferred Decal Of God 3000"

  /** The dispatch chain of `BeforeMaterialExport`, in source order. Its
      first-match meaning is `ClassifyIsCatalogFirstMatch`; the contract records
      that the first test wins outright and that no exactly named shader of the
      chain falls through unhandled. */
  function Classify(name: string): (k: RuleKind)
    ensures k == AnimatedEmissiveSpecular <==> name == AnimatedEmissiveName
    ensures k == Unhandled ==>
              && name != AnimatedEmissiveName && name != BumpedSpecularName && name != BumpedEmissiveSpecularName
              && name != CutoutBumpedDiffuseName && name != GlobalFogName && name != WaterDecalName && name != UltraDecalName
  {
    if name == AnimatedEmissiveName then AnimatedEmissiveSpecular
    else if Contains(name, "SMap") && Contains(name, "Reflective") then ReflectiveSMap
    else if name == BumpedSpecularName || name == BumpedEmissiveSpecularName then BumpedSpecular
    else if name == CutoutBumpedDiffuseName then CutoutBumpedDiffuse
    else if name == GlobalFogName then GlobalFog
    else if Contains(name, "CW FX/Collimator") then Collimator
    else if Contains(name, "Custom/OpticGlass") then OpticGlass
    else if Contains(name, "Transparent/DepthZwrite") then DepthZwrite
    else if Contains(name, "Cloth/ClothShader") then Cloth
    else if Contains(name, "Vert Paint Shader") then VertexPaint
    else if name == WaterDecalName then WaterDecal
    else if name == UltraDecalName then UltraDecal
    else Unhandled
  }

  /** A rule predicate: equality with one of some names, or containment of every one of some parts. */
  datatype Pattern = EqualsAny(names: seq<string>) | ContainsAll(parts: seq<string>)

  predicate Matches(p: Pattern, name: string) {
    match p
    case EqualsAny(names) => name in names
    case ContainsAll(parts) => forall i :: 0 <= i < |parts| ==> Contains(name, parts[i])
  }

  datatype Rule = Rule(pattern: Pattern, kind: RuleKind)

  /** The rule table in source order. */
  const Catalog: seq<Rule> := [
    Rule(EqualsAny([AnimatedEmissiveName]), AnimatedEmissiveSpecular),
    Rule(ContainsAll(["SMap", "Reflective"]), ReflectiveSMap),
    Rule(EqualsAny([BumpedSpecularName, BumpedEmissiveSpecularName]), BumpedSpecular),
    Rule(EqualsAny([CutoutBumpedDiffuseName]), CutoutBumpedDiffuse),
    Rule(EqualsAny([GlobalFogName]), GlobalFog),
    Rule(ContainsAll(["CW FX/Collimator"]), Collimator),
    Rule(ContainsAll(["Custom/OpticGlass"]), OpticGlass),
    Rule(ContainsAll(["Transparent/DepthZwrite"]), DepthZwrite),
    Rule(ContainsAll(["Cloth/ClothShader"]), Cloth),
    Rule(ContainsAll(["Vert Paint Shader"]), VertexPaint),
    Rule(EqualsAny([WaterDecalName]), WaterDecal),
    Rule(EqualsAny([UltraDecalName]), UltraDecal)
  ]

  /** The kind of the first rule of the table, from index `from` on, whose
      pattern matches, or `Unhandled`. */
  function FirstMatch(rules: seq<Rule>, name: string, from: nat): RuleKind
    decreases |rules| - from
  {
    if from >= |rules| then Unhandled
    else if Matches(rules[from].pattern, name) then rules[from].kind
    else FirstMatch(rules, name, from + 1)
  }

  /** No rule of the table is for the `Unhandled` kind. */
  predicate NoUnhandledRule(rules: seq<Rule>) {
    forall i :: 0 <= i < |rules| ==> rules[i].kind != Unhandled
  }

  /** First-match semantics of a table: nothing from `from` on matches exactly
      when the result is `Unhandled`; otherwise the result is the kind of a
      matching rule before which (from `from` on) no rule matches. */
  lemma {:induction false} FirstMatchSpec(rules: seq<Rule>, name: string, from: nat)
    requires NoUnhandledRule(rules)
    ensures FirstMatch(rules, name, from) == Unhandled <==>
              forall i :: from <= i < |rules| ==> !Matches(rules[i].pattern, name)
    ensures FirstMatch(rules, name, from) != Unhandled ==>
              exists i :: && from <= i < |rules| && rules[i].kind == FirstMatch(rules, name, from)
                          && Matches(rules[i].pattern, name)
                          && forall j :: from <= j < i ==> !Matches(rules[j].pattern, name)
    decreases |rules| - from
  {
    if from < |rules| && !Matches(rules[from].pattern, name) {
      FirstMatchSpec(rules, name, from + 1);
    }
  }

  /** The source's if-chain and the table agree on every name. */
  lemma ClassifyIsCatalogFirstMatch(name: string)
    ensures Classify(name) == FirstMatch(Catalog, name, 0)
  {
    var c := Catalog;
    CatalogPatternsHead(name);
    CatalogPatternsTail(name);
    assert FirstMatch(c, name, 12) == Unhandled;
    assert FirstMatch(c, name, 11) == if name == UltraDecalName then UltraDecal else Unhandled;
    assert FirstMatch(c, name, 10) == if name == WaterDecalName then WaterDecal else FirstMatch(c, name, 11);
    assert FirstMatch(c, name, 9) == if Contains(name, "Vert Paint Shader") then VertexPaint else FirstMatch(c, name, 10);
    assert FirstMatch(c, name, 8) == if Contains(name, "Cloth/ClothShader") then Cloth else FirstMatch(c, name, 9);
    assert FirstMatch(c, name, 7) == if Contains(name, "Transparent/DepthZwrite") then DepthZwrite else FirstMatch(c, name, 8);
    assert FirstMatch(c, name, 6) == if Contains(name, "Custom/OpticGlass") then OpticGlass else FirstMatch(c, name, 7);
    assert FirstMatch(c, name, 5) == if Contains(name, "CW FX/Collimator") then Collimator else FirstMatch(c, name, 6);
    assert FirstMatch(c, name, 4) == if name == GlobalFogName then GlobalFog else FirstMatch(c, name, 5);
    assert FirstMatch(c, name, 3) == if name == CutoutBumpedDiffuseName then CutoutBumpedDiffuse else FirstMatch(c, name, 4);
    assert FirstMatch(c, name, 2) == if name == BumpedSpecularName || name == BumpedEmissiveSpecularName then BumpedSpecular else FirstMatch(c, name, 3);
    assert FirstMatch(c, name, 1) == if Contains(name, "SMap") && Contains(name, "Reflective") then ReflectiveSMap else FirstMatch(c, name, 2);
  }

  /** The first five patterns of the table are the source's first five tests. */
  lemma CatalogPatternsHead(name: string)
    ensures |Catalog| == 12
    ensures Catalog[0].kind == AnimatedEmissiveSpecular && (Matches(Catalog[0].pattern, name) <==> name == AnimatedEmissiveName)
    ensures Catalog[1].kind == ReflectiveSMap && (Matches(Catalog[1].pattern, name) <==> Contains(name, "SMap") && Contains(name, "Reflective"))
    ensures Catalog[2].kind == BumpedSpecular && (Matches(Catalog[2].pattern, name) <==> name == BumpedSpecularName || name == BumpedEmissiveSpecularName)
    ensures Catalog[3].kind == CutoutBumpedDiffuse && (Matches(Catalog[3].pattern, name) <==> name == CutoutBumpedDiffuseName)
    ensures Catalog[4].kind == GlobalFog && (Matches(Catalog[4].pattern, name) <==> name == GlobalFogName)
  {
    var smap := ["SMap", "Reflective"];
    assert Catalog[1].pattern == ContainsAll(smap);
    assert smap[0] == "SMap" && smap[1] == "Reflective";
  }

  /** The last seven patterns of the table are the source's last seven tests. */
  lemma CatalogPatternsTail(name: string)
    ensures |Catalog| == 12
    ensures Catalog[5].kind == Collimator && (Matches(Catalog[5].pattern, name) <==> Contains(name, "CW FX/Collimator"))
    ensures Catalog[6].kind == OpticGlass && (Matches(Catalog[6].pattern, name) <==> Contains(name, "Custom/OpticGlass"))
    ensures Catalog[7].kind == DepthZwrite && (Matches(Catalog[7].pattern, name) <==> Contains(name, "Transparent/DepthZwrite"))
    ensures Catalog[8].kind == Cloth && (Matches(Catalog[8].pattern, name) <==> Contains(name, "Cloth/ClothShader"))
    ensures Catalog[9].kind == VertexPaint && (Matches(Catalog[9].pattern, name) <==> Contains(name, "Vert Paint Shader"))
    ensures Catalog[10].kind == WaterDecal && (Matches(Catalog[10].pattern, name) <==> name == WaterDecalName)
    ensures Catalog[11].kind == UltraDecal && (Matches(Catalog[11].pattern, name) <==> name == UltraDecalName)
  {
    SinglePart(name, "CW FX/Collimator");
    SinglePart(name, "Custom/OpticGlass");
    SinglePart(name, "Transparent/DepthZwrite");
    SinglePart(name, "Cloth/ClothShader");
    SinglePart(name, "Vert Paint Shader");
  }

  /** A one-part containment pattern is containment of that part. */
  lemma SinglePart(name: string, part: string)
    ensures Matches(ContainsAll([part]), name) <==> Contains(name, part)
  {
    assert [part][0] == part;
  }

  /** The index of a kind in the table. */
  function KindIndex(k: RuleKind): (i: nat)
    requires k != Unhandled
    ensures i < |Catalog| && Catalog[i].kind == k
  {
    match k
    case AnimatedEmissiveSpecular => 0
    case ReflectiveSMap => 1
    case BumpedSpecular => 2
    case CutoutBumpedDiffuse => 3
    case GlobalFog => 4
    case Collimator => 5
    case OpticGlass => 6
    case DepthZwrite => 7
    case Cloth => 8
    case VertexPaint => 9
    case WaterDecal => 10
    case UltraDecal => 11
  }

  /** Dispatch is first-match over the fixed order: a name is unhandled exactly
      when no predicate holds of it, and a name selects kind `k` exactly when
      `k`'s predicate holds and no earlier predicate does. */
  lemma ClassifyFirstMatch(name: string)
    ensures Classify(name) == Unhandled <==> forall i :: 0 <= i < |Catalog| ==> !Matches(Catalog[i].pattern, name)
    ensures forall k :: k != Unhandled ==>
              (Classify(name) == k <==>
                 && Matches(Catalog[KindIndex(k)].pattern, name)
                 && forall j :: 0 <= j < KindIndex(k) ==> !Matches(Catalog[j].pattern, name))
  {
    ClassifyIsCatalogFirstMatch(name);
    assert NoUnhandledRule(Catalog);
    FirstMatchSpec(Catalog, name, 0);
    forall k | k != Unhandled
      ensures Classify(name) == k <==>
                 && Matches(Catalog[KindIndex(k)].pattern, name)
                 && forall j :: 0 <= j < KindIndex(k) ==> !Matches(Catalog[j].pattern, name)
    {
      SelectedIndexUnique(name, k);
    }
  }

  /** The helper step of `ClassifyFirstMatch` for one kind. */
  lemma SelectedIndexUnique(name: string, k: RuleKind)
    requires k != Unhandled
    requires Classify(name) == Unhandled <==> forall i :: 0 <= i < |Catalog| ==> !Matches(Catalog[i].pattern, name)
    requires Classify(name) != Unhandled ==>
              exists i :: && 0 <= i < |Catalog| && Catalog[i].kind == Classify(name)
                          && Matches(Catalog[i].pattern, name)
                          && forall j :: 0 <= j < i ==> !Matches(Catalog[j].pattern, name)
    ensures Classify(name) == k <==>
              && Matches(Catalog[KindIndex(k)].pattern, name)
              && forall j :: 0 <= j < KindIndex(k) ==> !Matches(Catalog[j].pattern, name)
  {
    var n := KindIndex(k);
    if Classify(name) != Unhandled {
      var i :| && 0 <= i < |Catalog| && Catalog[i].kind == Classify(name)
               && Matches(Catalog[i].pattern, name)
               && forall j :: 0 <= j < i ==> !Matches(Catalog[j].pattern, name);
      KindIndexOfCatalog(i);
      if Matches(Catalog[n].pattern, name) && forall j :: 0 <= j < n ==> !Matches(Catalog[j].pattern, name) {
        assert !(i < n) && !(n < i);
      }
    }
  }

  /** Each kind has one row of the table: `KindIndex` finds the row a kind
      came from. */
  lemma KindIndexOfCatalog(i: nat)
    requires i < |Catalog|
    ensures Catalog[i].kind != Unhandled && KindIndex(Catalog[i].kind) == i
  {
  }
}

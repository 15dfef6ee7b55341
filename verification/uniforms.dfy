/** The scene manager's shader setters. Each one overwrites a fixed set of
    named uniforms and leaves every other uniform as the previous draw left
    it; the setters guarded by a null check do nothing without a shader. */
module Uniforms {
  import opened Gpu
  import opened Textures
  import opened Materials
  import opened Wrappers

  const ModelName := "model"
  const ColorName := "objectColor"
  const TextureName := "objectTexture"
  const UseTextureName := "bUseTexture"
  const UVScaleName := "UVscale"
  const AmbientColorName := "material.ambientColor"
  const AmbientStrengthName := "material.ambientStrength"
  const DiffuseColorName := "material.diffuseColor"
  const SpecularColorName := "material.specularColor"
  const ShininessName := "material.shininess"

  const MaterialNames: set<string> :=
    {AmbientColorName, AmbientStrengthName, DiffuseColorName, SpecularColorName, ShininessName}

  /** The uniform names the setters write are pairwise distinct. */
  lemma NamesDistinct()
    ensures UseTextureName !in MaterialNames && TextureName !in MaterialNames && ModelName !in MaterialNames
    ensures UseTextureName != ColorName && TextureName != ColorName && ModelName != ColorName
    ensures ModelName != UseTextureName && ModelName != TextureName && UseTextureName != TextureName
  {
  }

  /** Uploads under names outside the material's keep the material shown. */
  lemma ShowsMaterialKept(before: Store, after: Store, names: set<string>, m: Material)
    requires Overwrites(before, after, names) && names !! MaterialNames
    requires ShowsMaterial(before, m)
    ensures ShowsMaterial(after, m)
  {
  }

  /** The store holds the five properties of `m` under the material names. */
  predicate ShowsMaterial(s: Store, m: Material)
  {
    && AmbientColorName in s && s[AmbientColorName] == Vec3Value(m.ambientColor)
    && AmbientStrengthName in s && s[AmbientStrengthName] == FloatValue(m.ambientStrength)
    && DiffuseColorName in s && s[DiffuseColorName] == Vec3Value(m.diffuseColor)
    && SpecularColorName in s && s[SpecularColorName] == Vec3Value(m.specularColor)
    && ShininessName in s && s[ShininessName] == FloatValue(m.shininess)
  }

  /** The five material uploads, in the source's order. */
  function UploadMaterial(sh: Shader, m: Material): (r: Shader)
    requires sh.Bound?
    ensures r.Bound? && Overwrites(sh.uniforms, r.uniforms, MaterialNames)
    ensures ShowsMaterial(r.uniforms, m)
  {
    var s1 := Upload(sh, AmbientColorName, Vec3Value(m.ambientColor));
    var s2 := Upload(s1, AmbientStrengthName, FloatValue(m.ambientStrength));
    var s3 := Upload(s2, DiffuseColorName, Vec3Value(m.diffuseColor));
    var s4 := Upload(s3, SpecularColorName, Vec3Value(m.specularColor));
    var s5 := Upload(s4, ShininessName, FloatValue(m.shininess));
    MaterialUploadsShow(sh.uniforms, s1.uniforms, s2.uniforms, s3.uniforms, s4.uniforms, s5.uniforms, m);
    s5
  }

  /** The frame reasoning behind UploadMaterial: each of the five values
      survives the uploads after it, which write other names. */
  lemma MaterialUploadsShow(s0: Store, s1: Store, s2: Store, s3: Store, s4: Store, s5: Store, m: Material)
    requires s1 == s0[AmbientColorName := Vec3Value(m.ambientColor)]
    requires s2 == s1[AmbientStrengthName := FloatValue(m.ambientStrength)]
    requires s3 == s2[DiffuseColorName := Vec3Value(m.diffuseColor)]
    requires s4 == s3[SpecularColorName := Vec3Value(m.specularColor)]
    requires s5 == s4[ShininessName := FloatValue(m.shininess)]
    ensures ShowsMaterial(s5, m) && Overwrites(s0, s5, MaterialNames)
  {
  }

  /** Uploads the model matrix built from `t`; nothing without a shader. */
  function SetTransformations(sh: Shader, t: Transform): (r: Shader)
    ensures sh.NoShader? ==> r == sh
    ensures sh.Bound? ==> r.Bound? && Overwrites(sh.uniforms, r.uniforms, {ModelName})
    ensures sh.Bound? ==> r.uniforms[ModelName] == ModelMatrix(t)
  {
    if sh.NoShader? then sh else Upload(sh, ModelName, ModelMatrix(t))
  }

  /** Switches texturing off and uploads a flat RGBA colour. */
  function SetShaderColor(sh: Shader, color: Vec4): (r: Shader)
    ensures sh.NoShader? ==> r == sh
    ensures sh.Bound? ==> r.Bound? && Overwrites(sh.uniforms, r.uniforms, {UseTextureName, ColorName})
    ensures sh.Bound? ==> r.uniforms[UseTextureName] == IntValue(0) && r.uniforms[ColorName] == Vec4Value(color)
  {
    if sh.NoShader? then sh
    else Upload(Upload(sh, UseTextureName, IntValue(0)), ColorName, Vec4Value(color))
  }

  /** Switches texturing on and uploads the slot of the first texture tagged
      `tag`; an unknown tag uploads -1. */
  function SetShaderTexture(registry: seq<TextureEntry>, sh: Shader, tag: string): (r: Shader)
    ensures sh.NoShader? ==> r == sh
    ensures sh.Bound? ==> r.Bound? && Overwrites(sh.uniforms, r.uniforms, {UseTextureName, TextureName})
    ensures sh.Bound? ==> r.uniforms[UseTextureName] == IntValue(1)
    ensures sh.Bound? ==> r.uniforms[TextureName].IntValue?
    ensures sh.Bound? ==> var slot := r.uniforms[TextureName].i;
                          -1 <= slot < |registry|
                          && (slot == -1 <==> forall i :: 0 <= i < |registry| ==> registry[i].tag != tag)
                          && (slot >= 0 ==> registry[slot].tag == tag)
                          && (forall i :: 0 <= i < slot ==> registry[i].tag != tag)
  {
    if sh.NoShader? then sh
    else Upload(Upload(sh, UseTextureName, IntValue(1)), TextureName, IntValue(Slot(registry, tag)))
  }

  /** Uploads the texture tiling factors. */
  function SetTextureUVScale(sh: Shader, u: real, v: real): (r: Shader)
    ensures sh.NoShader? ==> r == sh
    ensures sh.Bound? ==> r.Bound? && Overwrites(sh.uniforms, r.uniforms, {UVScaleName})
    ensures sh.Bound? ==> r.uniforms[UVScaleName] == Vec2Value(Vec2(u, v))
  {
    if sh.NoShader? then sh else Upload(sh, UVScaleName, Vec2Value(Vec2(u, v)))
  }

  /** SetShaderMaterial as written. `uninitialized` stands for whatever the
      uninitialised local material holds. On a non-empty table FindMaterial
      always reports success, so the five uniforms are written even for a
      tag the table lacks, with the local's indeterminate contents. The
      routine has no null check, so a non-empty table needs a shader. */
  function SetShaderMaterial(table: seq<Material>, sh: Shader, tag: string, uninitialized: Material): (r: Shader)
    requires |table| > 0 ==> sh.Bound?
    ensures |table| == 0 ==> r == sh
    ensures |table| > 0 ==> r.Bound? && Overwrites(sh.uniforms, r.uniforms, MaterialNames)
    ensures |table| > 0 ==> ShowsMaterial(r.uniforms, FindMaterial(table, tag, uninitialized).material)
  {
    if |table| > 0 then
      var outcome := FindMaterial(table, tag, uninitialized);
      if outcome.found then UploadMaterial(sh, outcome.material) else sh
    else sh
  }

  /** The material upload as intended: the first material tagged `tag`, and
      no upload at all when no entry carries that tag. */
  function SetShaderMaterialChecked(table: seq<Material>, sh: Shader, tag: string): (r: Shader)
    requires LookupMaterial(table, tag).Some? ==> sh.Bound?
    ensures LookupMaterial(table, tag).None? ==> r == sh
    ensures LookupMaterial(table, tag).Some? ==>
              r.Bound? && Overwrites(sh.uniforms, r.uniforms, MaterialNames)
              && ShowsMaterial(r.uniforms, LookupMaterial(table, tag).value)
  {
    match LookupMaterial(table, tag)
    case None => sh
    case Some(m) => UploadMaterial(sh, m)
  }

  /** Whatever the uninitialised local holds, the routine as written and the
      intended one upload the same values for every tag the table holds. */
  lemma SetShaderMaterialAgreesOnKnownTags(table: seq<Material>, sh: Shader, tag: string, uninitialized: Material)
    requires sh.Bound?
    requires LookupMaterial(table, tag).Some?
    ensures SetShaderMaterial(table, sh, tag, uninitialized) == SetShaderMaterialChecked(table, sh, tag)
  {
    FindMaterialAgreesWithLookup(table, tag, uninitialized);
  }

  /** The defect as written: a non-empty table and an unknown tag overwrite
      the current material uniforms with the uninitialised local. */
  lemma UnknownTagUploadsUninitialized(wood: Material, garbage: Material)
    requires wood.tag == "wood"
    requires wood.ambientColor != garbage.ambientColor
    ensures var sh := UploadMaterial(Bound(map[]), wood);
            && SetShaderMaterial([wood], sh, "brick", garbage) != sh
            && SetShaderMaterialChecked([wood], sh, "brick") == sh
  {
    var sh := UploadMaterial(Bound(map[]), wood);
    var r := SetShaderMaterial([wood], sh, "brick", garbage);
    assert r.uniforms[AmbientColorName] != sh.uniforms[AmbientColorName];
  }

  /** The `applyMaterial` helper of the render routine: for the first
      material tagged `tag`, upload it and use its diffuse colour as the
      object colour; for an unknown tag change nothing. It dereferences the
      shader only on a match. */
  function ApplyMaterial(table: seq<Material>, sh: Shader, tag: string): (r: Shader)
    requires LookupMaterial(table, tag).Some? ==> sh.Bound?
    ensures LookupMaterial(table, tag).None? ==> r == sh
    ensures LookupMaterial(table, tag).Some? ==>
              var m := LookupMaterial(table, tag).value;
              && r.Bound? && Overwrites(sh.uniforms, r.uniforms, MaterialNames + {ColorName})
              && ShowsMaterial(r.uniforms, m)
              && r.uniforms[ColorName] == Vec3Value(m.diffuseColor)
  {
    match LookupMaterial(table, tag)
    case None => sh
    case Some(m) =>
      var s1 := SetShaderMaterialChecked(table, sh, tag);
      var r := Upload(s1, ColorName, Vec3Value(m.diffuseColor));
      OverwritesTrans(sh.uniforms, s1.uniforms, r.uniforms, MaterialNames, {ColorName});
      r
  }

  /** Re-uploading the values a store already holds changes nothing. */
  lemma RewriteSameValues(before: Store, after: Store, names: set<string>)
    requires Overwrites(before, after, names)
    requires forall k :: k in names ==> k in before && after[k] == before[k]
    ensures after == before
  {
  }

  /** Whatever the store held before, it shows the same material after the
      same tag is applied, and applying a tag twice is applying it once. */
  lemma ApplyMaterialIdempotent(table: seq<Material>, sh: Shader, tag: string)
    requires sh.Bound?
    ensures ApplyMaterial(table, ApplyMaterial(table, sh, tag), tag) == ApplyMaterial(table, sh, tag)
  {
    var once := ApplyMaterial(table, sh, tag);
    var twice := ApplyMaterial(table, once, tag);
    if LookupMaterial(table, tag).Some? {
      var m := LookupMaterial(table, tag).value;
      ShowsMaterialTwice(once.uniforms, twice.uniforms, m);
    }
  }

  /** Uploading a material and its colour over a store that already shows
      them changes nothing. */
  lemma ShowsMaterialTwice(before: Store, after: Store, m: Material)
    requires Overwrites(before, after, MaterialNames + {ColorName})
    requires ShowsMaterial(before, m) && ShowsMaterial(after, m)
    requires ColorName in before && before[ColorName] == Vec3Value(m.diffuseColor)
    requires after[ColorName] == Vec3Value(m.diffuseColor)
    ensures after == before
  {
    RewriteSameValues(before, after, MaterialNames + {ColorName});
  }

  /** The last colour-or-texture setter wins the texturing flag, and a colour
      draw keeps the sampler slot the previous textured draw uploaded. */
  lemma ColorAfterTextureKeepsSampler(registry: seq<TextureEntry>, sh: Shader, tag: string, color: Vec4)
    requires sh.Bound?
    ensures var r := SetShaderColor(SetShaderTexture(registry, sh, tag), color);
            && r.uniforms[UseTextureName] == IntValue(0)
            && r.uniforms[TextureName] == IntValue(Slot(registry, tag))
  {
  }

  /** The tiling factors are independent of the colour and texture setters:
      uploading them before or after gives the same store. */
  lemma UVScaleCommutes(registry: seq<TextureEntry>, sh: Shader, tag: string, u: real, v: real)
    ensures SetTextureUVScale(SetShaderTexture(registry, sh, tag), u, v)
            == SetShaderTexture(registry, SetTextureUVScale(sh, u, v), tag)
  {
  }
}

/** Scene setup and the per-frame draw sequence of the scene manager. The
    scene is a fixed list of draws; between draws only the uniforms a call
    names change, so a draw that skips a setter inherits the previous
    object's texture, material or colour. */
module Scene {
  import opened Gpu
  import opened Textures
  import opened Materials
  import opened Uniforms
  import opened Wrappers

  /** The primitive meshes the mesh library draws. */
  datatype Mesh = Box | Cylinder | Cone | Plane

  /** One draw call together with the uniforms it renders with. */
  datatype DrawCall = DrawCall(mesh: Mesh, uniforms: Store)

  /** The state of a scene manager: texture registry, material table and
      shader pointer. */
  datatype SceneManager = SceneManager(textures: seq<TextureEntry>, materials: seq<Material>, shader: Shader)

  const ViewPosName := "viewPos"

  const WoodMaterial := Material("wood", Vec3(0.5, 0.35, 0.2), 0.5, Vec3(0.6, 0.4, 0.3), Vec3(0.2, 0.2, 0.2), 8.0)
  const MetalMaterial := Material("metal", Vec3(0.3, 0.3, 0.3), 0.5, Vec3(0.6, 0.6, 0.6), Vec3(1.0, 1.0, 1.0), 32.0)

  /** The tags of the three texture files, in load order. */
  const TextureTags: seq<string> := ["wood", "metal", "brick"]

  /** How many of `images` the loader accepts. */
  function UploadCount(images: seq<Image>): (n: nat)
    ensures n <= |images|
  {
    if |images| == 0 then 0
    else UploadCount(images[..|images| - 1]) + (if Uploadable(images[|images| - 1]) then 1 else 0)
  }

  lemma UploadCountOfThree(images: seq<Image>)
    requires |images| == 3
    ensures UploadCount(images[..1]) == if Uploadable(images[0]) then 1 else 0
    ensures UploadCount(images[..2]) == UploadCount(images[..1]) + if Uploadable(images[1]) then 1 else 0
    ensures UploadCount(images) == UploadCount(images[..2]) + if Uploadable(images[2]) then 1 else 0
  {
    assert images[..1][..0] == images[..0];
    assert images[..2][..1] == images[..1];
    assert images[..3] == images;
  }

  /** The registry entries the first `n` texture files contribute, in file
      order: the driver's name and the file's tag for each file the loader
      accepts, nothing for a refused one. */
  function AcceptedEntries(images: seq<Image>, ids: seq<GLuint>, n: nat): (r: seq<TextureEntry>)
    requires |images| == 3 && |ids| == 3 && n <= 3
    ensures |r| == UploadCount(images[..n])
  {
    if n == 0 then []
    else
      assert images[..n][..n - 1] == images[..n - 1];
      AcceptedEntries(images, ids, n - 1)
      + (if Uploadable(images[n - 1]) then [TextureEntry(ids[n - 1], TextureTags[n - 1])] else [])
  }

  /** The three texture loads of scene preparation, in file order
      (`images` and `ids` are what the decoder and the driver return for
      each file). */
  function LoadTextures(registry: seq<TextureEntry>, images: seq<Image>, ids: seq<GLuint>): (r: seq<TextureEntry>)
    requires |images| == 3 && |ids| == 3
    requires |registry| + UploadCount(images) <= Capacity
    ensures |r| == |registry| + UploadCount(images)
    ensures r == registry + AcceptedEntries(images, ids, 3)
  {
    UploadCountOfThree(images);
    assert images[..3] == images;
    assert registry + AcceptedEntries(images, ids, 0) == registry;
    LoadAppendsAccepted(registry, registry, images, ids, 1);
    var t1 := CreateGLTexture(registry, images[0], ids[0], TextureTags[0]).registry;
    LoadAppendsAccepted(registry, t1, images, ids, 2);
    var t2 := CreateGLTexture(t1, images[1], ids[1], TextureTags[1]).registry;
    LoadAppendsAccepted(registry, t2, images, ids, 3);
    CreateGLTexture(t2, images[2], ids[2], TextureTags[2]).registry
  }

  /** Load n appends the entry of file n-1, or nothing when that file is
      refused. */
  lemma LoadAppendsAccepted(registry: seq<TextureEntry>, previous: seq<TextureEntry>,
                            images: seq<Image>, ids: seq<GLuint>, n: nat)
    requires |images| == 3 && |ids| == 3 && 1 <= n <= 3
    requires previous == registry + AcceptedEntries(images, ids, n - 1)
    requires Uploadable(images[n - 1]) ==> |previous| < Capacity
    ensures CreateGLTexture(previous, images[n - 1], ids[n - 1], TextureTags[n - 1]).registry
            == registry + AcceptedEntries(images, ids, n)
  {
    var r := CreateGLTexture(previous, images[n - 1], ids[n - 1], TextureTags[n - 1]);
    if r.ok {
      assert r.registry == previous + [TextureEntry(ids[n - 1], TextureTags[n - 1])];
    }
  }

  /** Scene preparation: the three texture loads, two material
      definitions, then the object colour and viewer position uploads when a
      shader is present. */
  function PrepareScene(sm: SceneManager, images: seq<Image>, ids: seq<GLuint>): (r: SceneManager)
    requires |images| == 3 && |ids| == 3
    requires |sm.textures| + UploadCount(images) <= Capacity
    ensures |r.textures| == |sm.textures| + UploadCount(images)
    ensures r.textures == sm.textures + AcceptedEntries(images, ids, 3)
    ensures r.materials == sm.materials + [WoodMaterial, MetalMaterial]
    ensures sm.shader.NoShader? ==> r.shader == sm.shader
    ensures sm.shader.Bound? ==>
              && r.shader.Bound?
              && Overwrites(sm.shader.uniforms, r.shader.uniforms, {ColorName, ViewPosName})
              && r.shader.uniforms[ColorName] == Vec3Value(Vec3(1.0, 1.0, 1.0))
              && r.shader.uniforms[ViewPosName] == Vec3Value(Vec3(0.0, 0.0, 5.0))
  {
    var materials := sm.materials + [WoodMaterial, MetalMaterial];
    var sh :=
      if sm.shader.NoShader? then sm.shader
      else Upload(Upload(sm.shader, ColorName, Vec3Value(Vec3(1.0, 1.0, 1.0))), ViewPosName, Vec3Value(Vec3(0.0, 0.0, 5.0)));
    SceneManager(LoadTextures(sm.textures, images, ids), materials, sh)
  }

  /** Into an empty registry, texture file i lands in the slot that counts
      the files accepted before it, or its tag is missing when its own file
      was refused. */
  lemma LoadTexturesSlot(images: seq<Image>, ids: seq<GLuint>, i: nat)
    requires |images| == 3 && |ids| == 3 && i < 3
    ensures Slot(LoadTextures([], images, ids), TextureTags[i])
            == if Uploadable(images[i]) then UploadCount(images[..i]) else -1
  {
    UploadCountOfThree(images);
    assert images[..1][..0] == images[..0] && images[..2][..1] == images[..1];
    var q := TextureTags[i];
    var l1 := CreateGLTexture([], images[0], ids[0], TextureTags[0]);
    var l2 := CreateGLTexture(l1.registry, images[1], ids[1], TextureTags[1]);
    LoadPreservesSlots([], images[0], ids[0], TextureTags[0], q);
    LoadPreservesSlots(l1.registry, images[1], ids[1], TextureTags[1], q);
    LoadPreservesSlots(l2.registry, images[2], ids[2], TextureTags[2], q);
  }

  /** From an empty scene manager, each texture tag lands in the slot that
      counts the files accepted before it, or is missing when its own file
      was refused; the two materials are found by tag and "brick" is not a
      material. */
  lemma {:induction false} PrepareSceneFromEmpty(sh: Shader, images: seq<Image>, ids: seq<GLuint>)
    requires |images| == 3 && |ids| == 3
    ensures var r := PrepareScene(SceneManager([], [], sh), images, ids);
            && (forall i :: 0 <= i < 3 ==>
                  Slot(r.textures, TextureTags[i]) == if Uploadable(images[i]) then UploadCount(images[..i]) else -1)
            && r.materials == [WoodMaterial, MetalMaterial]
            && LookupMaterial(r.materials, "wood") == Some(WoodMaterial)
            && LookupMaterial(r.materials, "metal") == Some(MetalMaterial)
            && LookupMaterial(r.materials, "brick") == None
  {
    var r := PrepareScene(SceneManager([], [], sh), images, ids);
    assert r.materials == [] + [WoodMaterial, MetalMaterial] == [WoodMaterial, MetalMaterial];
    SceneMaterials();
    forall i | 0 <= i < 3
      ensures Slot(r.textures, TextureTags[i]) == if Uploadable(images[i]) then UploadCount(images[..i]) else -1
    {
      LoadTexturesSlot(images, ids, i);
    }
  }

  /** Lookups in the two-entry table the scene defines. */
  lemma SceneMaterials()
    ensures LookupMaterial([WoodMaterial, MetalMaterial], "wood") == Some(WoodMaterial)
    ensures LookupMaterial([WoodMaterial, MetalMaterial], "metal") == Some(MetalMaterial)
    ensures LookupMaterial([WoodMaterial, MetalMaterial], "brick") == None
  {
    assert [WoodMaterial, MetalMaterial][1..] == [MetalMaterial];
    assert [MetalMaterial][1..] == [];
  }

  /** The scene's end state when every file loads: three textures, two materials. */
  lemma PrepareSceneCounts(sh: Shader, images: seq<Image>, ids: seq<GLuint>)
    requires |images| == 3 && |ids| == 3
    requires forall i :: 0 <= i < 3 ==> Uploadable(images[i])
    ensures var r := PrepareScene(SceneManager([], [], sh), images, ids);
            |r.textures| == 3 && |r.materials| == 2 && Slot(r.textures, "brick") == 2
  {
    assert images[..1][..0] == images[..0] && images[..2][..1] == images[..1] && images[..3] == images;
    PrepareSceneFromEmpty(sh, images, ids);
  }

  /** One object of the scene, as the render routine issues it. Every object
      sets its model matrix first and is drawn last; in between it either
      selects a texture and a material, or sets a flat object colour, or
      sets nothing and inherits the previous object's surface. */
  datatype Step =
    | Textured(transform: Transform, texture: string, material: string, mesh: Mesh)
    | Colored(transform: Transform, color: Vec3, mesh: Mesh)
    | Inherited(transform: Transform, mesh: Mesh)

  /** The uniforms after an object selected transform `t`, texture `texture`
      and material `material`, starting from `before`: its own model matrix,
      texturing on with the slot of `texture`, and either the material found
      for `material` with its diffuse colour as object colour, or, for a tag
      the table lacks, no material upload; every other uniform as it was. */
  predicate TexturedUniforms(sm: SceneManager, before: Store, u: Store, t: Transform, texture: string, material: string)
  {
    && ModelName in u && u[ModelName] == ModelMatrix(t)
    && UseTextureName in u && u[UseTextureName] == IntValue(1)
    && TextureName in u && u[TextureName] == IntValue(Slot(sm.textures, texture))
    && (LookupMaterial(sm.materials, material).Some? ==>
          var m := LookupMaterial(sm.materials, material).value;
          && ShowsMaterial(u, m)
          && ColorName in u && u[ColorName] == Vec3Value(m.diffuseColor)
          && Overwrites(before, u, {ModelName, UseTextureName, TextureName} + MaterialNames + {ColorName}))
    && (LookupMaterial(sm.materials, material).None? ==>
          Overwrites(before, u, {ModelName, UseTextureName, TextureName}))
  }

  /** The setter calls of one object, up to its draw. */
  function StepUniforms(sm: SceneManager, sh: Shader, step: Step): (r: Shader)
    requires sh.Bound?
    ensures r.Bound?
  {
    var s1 := SetTransformations(sh, step.transform);
    match step
    case Textured(_, texture, material, _) =>
      ApplyMaterial(sm.materials, SetShaderTexture(sm.textures, s1, texture), material)
    case Colored(_, color, _) => Upload(s1, ColorName, Vec3Value(color))
    case Inherited(_, _) => s1
  }

  /** A textured object leaves its transform, texturing on with its
      texture's slot, and for a known material tag the material and its
      diffuse colour; for an unknown tag everything else as it was. */
  lemma TexturedStepEffect(sm: SceneManager, sh: Shader, step: Step)
    requires sh.Bound? && step.Textured?
    ensures TexturedUniforms(sm, sh.uniforms, StepUniforms(sm, sh, step).uniforms,
                             step.transform, step.texture, step.material)
  {
    var s1 := SetTransformations(sh, step.transform);
    var s2 := SetShaderTexture(sm.textures, s1, step.texture);
    var s3 := ApplyMaterial(sm.materials, s2, step.material);
    NamesDistinct();
    OverwritesTrans(sh.uniforms, s1.uniforms, s2.uniforms, {ModelName}, {UseTextureName, TextureName});
    assert {ModelName} + {UseTextureName, TextureName} == {ModelName, UseTextureName, TextureName};
    if LookupMaterial(sm.materials, step.material).Some? {
      MaterialAfterTexture(sh.uniforms, s2.uniforms, s3.uniforms);
    }
  }

  /** The material uploads after the texture ones leave the texture uniforms
      and the model matrix alone. */
  lemma MaterialAfterTexture(s0: Store, s2: Store, s3: Store)
    requires Overwrites(s0, s2, {ModelName, UseTextureName, TextureName})
    requires Overwrites(s2, s3, MaterialNames + {ColorName})
    ensures Overwrites(s0, s3, {ModelName, UseTextureName, TextureName} + MaterialNames + {ColorName})
    ensures s3[ModelName] == s2[ModelName]
    ensures s3[UseTextureName] == s2[UseTextureName]
    ensures s3[TextureName] == s2[TextureName]
  {
    NamesDistinct();
    OverwritesTrans(s0, s2, s3, {ModelName, UseTextureName, TextureName}, MaterialNames + {ColorName});
    assert {ModelName, UseTextureName, TextureName} + (MaterialNames + {ColorName})
        == {ModelName, UseTextureName, TextureName} + MaterialNames + {ColorName};
  }

  /** A coloured object changes only its transform and the object colour. */
  lemma ColoredStepEffect(sm: SceneManager, sh: Shader, step: Step)
    requires sh.Bound? && step.Colored?
    ensures var r := StepUniforms(sm, sh, step);
            && Overwrites(sh.uniforms, r.uniforms, {ModelName, ColorName})
            && r.uniforms[ModelName] == ModelMatrix(step.transform)
            && r.uniforms[ColorName] == Vec3Value(step.color)
  {
    var s1 := SetTransformations(sh, step.transform);
    var s2 := Upload(s1, ColorName, Vec3Value(step.color));
    NamesDistinct();
    OverwritesTrans(sh.uniforms, s1.uniforms, s2.uniforms, {ModelName}, {ColorName});
  }

  /** Any other object changes only its transform. */
  lemma InheritedStepEffect(sm: SceneManager, sh: Shader, step: Step)
    requires sh.Bound? && step.Inherited?
    ensures var r := StepUniforms(sm, sh, step);
            && Overwrites(sh.uniforms, r.uniforms, {ModelName})
            && r.uniforms[ModelName] == ModelMatrix(step.transform)
  {
  }

  /** The store a step leaves, as a function of the store it finds. */
  function StepFunction(sm: SceneManager): (Store, Step) -> Store
  {
    (u: Store, step: Step) => StepUniforms(sm, Bound(u), step).uniforms
  }

  /** Issues `steps` in order from store `start`, each step updating the
      store with `update`. Each draw renders with the store as its own
      step left it, and every later step starts from there. */
  function Play(update: (Store, Step) -> Store, start: Store, steps: seq<Step>): (r: seq<DrawCall>)
    ensures |r| == |steps|
  {
    if |steps| == 0 then []
    else
      var previous := Play(update, start, steps[..|steps| - 1]);
      var before := if |previous| == 0 then start else previous[|previous| - 1].uniforms;
      var last := steps[|steps| - 1];
      previous + [DrawCall(last.mesh, update(before, last))]
  }

  /** Draw k of a run is draw k of the run cut after step k. */
  lemma {:induction false} PlayPrefix(update: (Store, Step) -> Store, start: Store, steps: seq<Step>, k: nat)
    requires k < |steps|
    ensures Play(update, start, steps)[k] == Play(update, start, steps[..k + 1])[k]
    decreases |steps|
  {
    if k + 1 < |steps| {
      var shorter := steps[..|steps| - 1];
      PlayPrefix(update, start, shorter, k);
      assert shorter[..k + 1] == steps[..k + 1];
    } else {
      assert steps[..k + 1] == steps;
    }
  }

  /** Draw k draws step k's mesh with the store draw k-1 rendered with (the
      starting store, for the first draw) updated by step k alone. */
  lemma PlayStep(update: (Store, Step) -> Store, start: Store, steps: seq<Step>, k: nat)
    requires k < |steps|
    ensures var d := Play(update, start, steps);
            && d[k].mesh == steps[k].mesh
            && d[k].uniforms == update(if k == 0 then start else d[k - 1].uniforms, steps[k])
  {
    PlayPrefix(update, start, steps, k);
    if k > 0 {
      PlayPrefix(update, start, steps, k - 1);
      assert steps[..k + 1][..k] == steps[..k];
    }
  }

  /** A textured step k draws with its transform, its texture and its
      material (if known) over the uniforms of draw k-1. */
  lemma TexturedDraw(sm: SceneManager, start: Store, steps: seq<Step>, k: nat)
    requires 1 <= k < |steps| && steps[k].Textured?
    ensures var d := Play(StepFunction(sm), start, steps);
            TexturedUniforms(sm, d[k - 1].uniforms, d[k].uniforms, steps[k].transform, steps[k].texture, steps[k].material)
  {
    var d := Play(StepFunction(sm), start, steps);
    PlayStep(StepFunction(sm), start, steps, k);
    TexturedStepEffect(sm, Bound(d[k - 1].uniforms), steps[k]);
  }

  /** A coloured step k changes only the model matrix and the object colour
      of draw k-1. */
  lemma ColoredDraw(sm: SceneManager, start: Store, steps: seq<Step>, k: nat)
    requires 1 <= k < |steps| && steps[k].Colored?
    ensures var d := Play(StepFunction(sm), start, steps);
            && Overwrites(d[k - 1].uniforms, d[k].uniforms, {ModelName, ColorName})
            && d[k].uniforms[ColorName] == Vec3Value(steps[k].color)
  {
    var d := Play(StepFunction(sm), start, steps);
    PlayStep(StepFunction(sm), start, steps, k);
    ColoredStepEffect(sm, Bound(d[k - 1].uniforms), steps[k]);
  }

  /** An inherited step k changes only the model matrix of draw k-1. */
  lemma InheritedDraw(sm: SceneManager, start: Store, steps: seq<Step>, k: nat)
    requires 1 <= k < |steps| && steps[k].Inherited?
    ensures var d := Play(StepFunction(sm), start, steps);
            Overwrites(d[k - 1].uniforms, d[k].uniforms, {ModelName})
  {
    var d := Play(StepFunction(sm), start, steps);
    PlayStep(StepFunction(sm), start, steps, k);
    InheritedStepEffect(sm, Bound(d[k - 1].uniforms), steps[k]);
  }

  /** The uniforms each draw renders with, in draw order. */
  function Stores(draws: seq<DrawCall>): (r: seq<Store>)
    ensures |r| == |draws| && forall k :: 0 <= k < |draws| ==> r[k] == draws[k].uniforms
  {
    seq(|draws|, k requires 0 <= k < |draws| => draws[k].uniforms)
  }

  /** Objects that set only their transform draw with every other uniform
      of the last object that set more: a run of inherited steps after draw
      i changes nothing but the model matrix. */
  lemma InheritedRunKeepsSurface(sm: SceneManager, start: Store, steps: seq<Step>, i: nat, j: nat)
    requires i < j < |steps|
    requires forall k :: i < k <= j ==> steps[k].Inherited?
    ensures var d := Play(StepFunction(sm), start, steps);
            Overwrites(d[i].uniforms, d[j].uniforms, {ModelName})
  {
    var d := Play(StepFunction(sm), start, steps);
    var stores := Stores(d);
    forall k | i < k <= j
      ensures Overwrites(stores[k - 1], stores[k], {ModelName})
    {
      InheritedDraw(sm, start, steps, k);
    }
    OverwritesChain(stores, i, j, {ModelName});
  }

  /** The objects of the scene, in the order the render routine draws them:
      desk (0), monitor screen, stand and base (1-3), lamp base, arm and head
      (4-6), mug body and handle (7-8), notebook (9), pen (10), backdrop wall
      (11), floor (12), ceiling (13). */
  const SceneSteps: seq<Step> := [
    Textured(Transform(Vec3(10.0, 0.2, 6.0), 0.0, 0.0, 0.0, Vec3(0.0, -0.1, 0.0)), "wood", "wood", Box),
    Textured(Transform(Vec3(2.0, 1.2, 0.1), 0.0, 0.0, 0.0, Vec3(0.0, 1.5, -1.5)), "metal", "metal", Box),
    Inherited(Transform(Vec3(0.2, 0.8, 0.2), 0.0, 0.0, 0.0, Vec3(0.0, 0.8, -1.5)), Box),
    Inherited(Transform(Vec3(1.0, 0.1, 0.5), 0.0, 0.0, 0.0, Vec3(0.0, 0.35, -1.5)), Box),
    Inherited(Transform(Vec3(0.6, 0.1, 0.6), 0.0, 0.0, 0.0, Vec3(-3.0, 0.05, -1.5)), Box),
    Inherited(Transform(Vec3(0.1, 1.0, 0.1), 0.0, 0.0, 0.0, Vec3(-3.0, 0.6, -1.5)), Box),
    Inherited(Transform(Vec3(0.4, 0.2, 0.6), -45.0, 0.0, 0.0, Vec3(-3.0, 1.3, -1.3)), Box),
    Textured(Transform(Vec3(0.3, 0.4, 0.3), 0.0, 0.0, 0.0, Vec3(2.5, 0.2, -1.5)), "brick", "metal", Cylinder),
    Inherited(Transform(Vec3(0.05, 0.2, 0.3), 0.0, 0.0, 0.0, Vec3(2.8, 0.2, -1.5)), Cylinder),
    Textured(Transform(Vec3(1.0, 0.05, 1.5), 0.0, 0.0, 0.0, Vec3(-1.5, 0.05, -1.5)), "wood", "wood", Box),
    Colored(Transform(Vec3(0.05, 0.05, 0.8), 0.0, 0.0, 0.0, Vec3(-1.5, 0.08, -1.5)), Vec3(0.1, 0.1, 0.1), Cylinder),
    Textured(Transform(Vec3(10.0, 5.0, 0.2), 0.0, 0.0, 0.0, Vec3(0.0, 2.5, -4.0)), "brick", "brick", Box),
    Textured(Transform(Vec3(20.0, 0.1, 20.0), 0.0, 0.0, 0.0, Vec3(0.0, -2.0, 0.0)), "wood", "wood", Box),
    Textured(Transform(Vec3(20.0, 0.1, 20.0), 0.0, 0.0, 0.0, Vec3(0.0, 7.0, 0.0)), "metal", "metal", Box)
  ]

  /** One frame of the scene: the fourteen objects in source order, each
      drawn with its own mesh and with the uniforms its setters leave over
      what the previous object left (the shader's own store for the desk).
      The source dereferences the shader here without a check. */
  function RenderScene(sm: SceneManager): (r: seq<DrawCall>)
    requires sm.shader.Bound?
    ensures |r| == 14
    ensures forall k :: 0 <= k < |r| ==> r[k].mesh == SceneSteps[k].mesh
    ensures r[0].uniforms == StepUniforms(sm, sm.shader, SceneSteps[0]).uniforms
    ensures forall k :: 0 < k < |r| ==> r[k].uniforms == StepUniforms(sm, Bound(r[k - 1].uniforms), SceneSteps[k]).uniforms
  {
    SceneDraws(sm);
    Play(StepFunction(sm), sm.shader.uniforms, SceneSteps)
  }

  /** Every draw of the scene is its step played over the previous draw's
      store. */
  lemma SceneDraws(sm: SceneManager)
    requires sm.shader.Bound?
    ensures var d := Play(StepFunction(sm), sm.shader.uniforms, SceneSteps);
            && (forall k :: 0 <= k < |d| ==> d[k].mesh == SceneSteps[k].mesh)
            && d[0].uniforms == StepUniforms(sm, sm.shader, SceneSteps[0]).uniforms
            && (forall k :: 0 < k < |d| ==> d[k].uniforms == StepUniforms(sm, Bound(d[k - 1].uniforms), SceneSteps[k]).uniforms)
  {
    var d := Play(StepFunction(sm), sm.shader.uniforms, SceneSteps);
    forall k | 0 <= k < |d|
      ensures d[k].mesh == SceneSteps[k].mesh
      ensures k > 0 ==> d[k].uniforms == StepUniforms(sm, Bound(d[k - 1].uniforms), SceneSteps[k]).uniforms
    {
      PlayStep(StepFunction(sm), sm.shader.uniforms, SceneSteps, k);
    }
    PlayStep(StepFunction(sm), sm.shader.uniforms, SceneSteps, 0);
  }

  /** The monitor's stand and base and the three lamp parts draw with
      everything the monitor screen set except the model matrix: texturing
      on with the metal texture's slot and, when the table has a "metal"
      material, that material with its diffuse colour. */
  lemma MonitorAndLampInheritScreen(sm: SceneManager, j: int)
    requires sm.shader.Bound? && 2 <= j <= 6
    ensures var d := RenderScene(sm);
            && Overwrites(d[1].uniforms, d[j].uniforms, {ModelName})
            && UseTextureName in d[j].uniforms && d[j].uniforms[UseTextureName] == IntValue(1)
            && TextureName in d[j].uniforms && d[j].uniforms[TextureName] == IntValue(Slot(sm.textures, "metal"))
            && (LookupMaterial(sm.materials, "metal").Some? ==>
                  var m := LookupMaterial(sm.materials, "metal").value;
                  && ShowsMaterial(d[j].uniforms, m)
                  && ColorName in d[j].uniforms && d[j].uniforms[ColorName] == Vec3Value(m.diffuseColor))
  {
    var d := RenderScene(sm);
    ScreenRun(sm, j);
    ScreenDraw(sm);
    TexturedSurfaceKept(sm, d[0].uniforms, d[1].uniforms, d[j].uniforms, SceneSteps[1].transform, "metal", "metal");
  }

  /** Draws 2 to 6 set only their transforms. */
  lemma ScreenRun(sm: SceneManager, j: int)
    requires sm.shader.Bound? && 2 <= j <= 6
    ensures var d := RenderScene(sm);
            Overwrites(d[1].uniforms, d[j].uniforms, {ModelName})
  {
    InheritedRunKeepsSurface(sm, sm.shader.uniforms, SceneSteps, 1, j);
  }

  /** The monitor screen draws with the metal texture and the "metal"
      material. */
  lemma ScreenDraw(sm: SceneManager)
    requires sm.shader.Bound?
    ensures var d := RenderScene(sm);
            TexturedUniforms(sm, d[0].uniforms, d[1].uniforms, SceneSteps[1].transform, "metal", "metal")
  {
    TexturedDraw(sm, sm.shader.uniforms, SceneSteps, 1);
  }

  /** A store that differs from a textured object's only in the model
      matrix still has that object's texture and, for a known material
      tag, its material and colour. */
  lemma TexturedSurfaceKept(sm: SceneManager, before: Store, textured: Store, after: Store,
                            t: Transform, texture: string, material: string)
    requires TexturedUniforms(sm, before, textured, t, texture, material)
    requires Overwrites(textured, after, {ModelName})
    ensures UseTextureName in after && after[UseTextureName] == IntValue(1)
    ensures TextureName in after && after[TextureName] == IntValue(Slot(sm.textures, texture))
    ensures LookupMaterial(sm.materials, material).Some? ==>
              var m := LookupMaterial(sm.materials, material).value;
              && ShowsMaterial(after, m)
              && ColorName in after && after[ColorName] == Vec3Value(m.diffuseColor)
  {
    NamesDistinct();
    if LookupMaterial(sm.materials, material).Some? {
      ShowsMaterialKept(textured, after, {ModelName}, LookupMaterial(sm.materials, material).value);
    }
  }

  /** The mug handle draws with the mug body's texture and material. */
  lemma HandleInheritsMug(sm: SceneManager)
    requires sm.shader.Bound?
    ensures var d := RenderScene(sm);
            Overwrites(d[7].uniforms, d[8].uniforms, {ModelName})
  {
    InheritedDraw(sm, sm.shader.uniforms, SceneSteps, 8);
  }

  /** The pen draws with the notebook's texture and material and only its
      own transform and dark grey object colour. */
  lemma PenInheritsNotebook(sm: SceneManager)
    requires sm.shader.Bound?
    ensures var d := RenderScene(sm);
            && Overwrites(d[9].uniforms, d[10].uniforms, {ModelName, ColorName})
            && d[10].uniforms[ColorName] == Vec3Value(Vec3(0.1, 0.1, 0.1))
  {
    ColoredDraw(sm, sm.shader.uniforms, SceneSteps, 10);
  }

  /** When no material is tagged "brick", the wall's material request
      uploads nothing: the wall changes only the model matrix and the
      texture uniforms, and keeps the pen's material and object colour. */
  lemma WallInheritsPen(sm: SceneManager)
    requires sm.shader.Bound?
    requires LookupMaterial(sm.materials, "brick").None?
    ensures var d := RenderScene(sm);
            && Overwrites(d[10].uniforms, d[11].uniforms, {ModelName, UseTextureName, TextureName})
            && d[11].uniforms[UseTextureName] == IntValue(1)
            && d[11].uniforms[TextureName] == IntValue(Slot(sm.textures, "brick"))
  {
    TexturedDraw(sm, sm.shader.uniforms, SceneSteps, 11);
  }

  /** With the scene's own two materials the notebook shows wood. */
  lemma NotebookShowsWood(sm: SceneManager)
    requires sm.shader.Bound?
    requires sm.materials == [WoodMaterial, MetalMaterial]
    ensures ShowsMaterial(RenderScene(sm)[9].uniforms, WoodMaterial)
  {
    SceneMaterials();
    TexturedDraw(sm, sm.shader.uniforms, SceneSteps, 9);
  }

  /** After the scene's own setup the table holds "wood" and "metal" only,
      so the wall draws under the brick texture with the wood material the
      notebook selected and the dark grey the pen set. */
  lemma WallDrawsWithNotebookMaterial(sm: SceneManager)
    requires sm.shader.Bound?
    requires sm.materials == [WoodMaterial, MetalMaterial]
    ensures var wall := RenderScene(sm)[11].uniforms;
            && ShowsMaterial(wall, WoodMaterial)
            && ColorName in wall && wall[ColorName] == Vec3Value(Vec3(0.1, 0.1, 0.1))
            && UseTextureName in wall && wall[UseTextureName] == IntValue(1)
            && TextureName in wall && wall[TextureName] == IntValue(Slot(sm.textures, "brick"))
  {
    var d := RenderScene(sm);
    SceneMaterials();
    NotebookShowsWood(sm);
    PenInheritsNotebook(sm);
    WallInheritsPen(sm);
    MaterialSurvivesPenAndWall(d[9].uniforms, d[10].uniforms, d[11].uniforms, WoodMaterial);
  }

  /** A material shown before a colour-only upload and a texture-only
      upload is still shown after both, and the colour survives the
      texture uploads. */
  lemma MaterialSurvivesPenAndWall(notebook: Store, pen: Store, wall: Store, m: Material)
    requires ShowsMaterial(notebook, m)
    requires Overwrites(notebook, pen, {ModelName, ColorName})
    requires Overwrites(pen, wall, {ModelName, UseTextureName, TextureName})
    ensures ShowsMaterial(wall, m)
    ensures ColorName in pen && ColorName in wall && wall[ColorName] == pen[ColorName]
  {
    NamesDistinct();
    ShowsMaterialKept(notebook, pen, {ModelName, ColorName}, m);
    ShowsMaterialKept(pen, wall, {ModelName, UseTextureName, TextureName}, m);
  }
}

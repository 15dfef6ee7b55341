/** The values the scene and view code upload to the shader program, and the
    program's uniform store. The store maps a uniform name to the last value
    uploaded under that name; a later upload overwrites, nothing is stacked.
    Matrices stay opaque: each is represented by the parameters it was built
    from, never multiplied out. */
module Gpu {

  datatype Vec2 = Vec2(u: real, v: real)
  datatype Vec3 = Vec3(x: real, y: real, z: real)
  datatype Vec4 = Vec4(r: real, g: real, b: real, a: real)

  /** The model matrix translation * rotX * rotY * rotZ * scale, kept as its
      factors (rotations in degrees). */
  datatype Transform = Transform(scale: Vec3, xDegrees: real, yDegrees: real, zDegrees: real, position: Vec3)

  /** The parameters handed to the projection-matrix builder. */
  datatype Projection =
    | Orthographic(left: real, right: real, bottom: real, top: real, near: real, far: real)
    | Perspective(fovDegrees: real, aspect: real, near: real, far: real)

  datatype Value =
    | IntValue(i: int)
    | FloatValue(f: real)
    | Vec2Value(v2: Vec2)
    | Vec3Value(v3: Vec3)
    | Vec4Value(v4: Vec4)
    | ModelMatrix(transform: Transform)
    | ViewMatrix(eye: Vec3, front: Vec3, up: Vec3)
    | ProjectionMatrix(projection: Projection)

  type Store = map<string, Value>

  /** The shader-manager pointer the scene and view hold: null, or a bound
      program together with its uniforms. */
  datatype Shader = NoShader | Bound(uniforms: Store)

  /** `after` defines every name in `names` and agrees with `before` on every
      other name: an upload of exactly `names` that leaves the rest alone. */
  predicate Overwrites(before: Store, after: Store, names: set<string>)
  {
    && after.Keys == before.Keys + names
    && (forall k :: k in before && k !in names ==> after[k] == before[k])
  }

  /** One `setXValue(name, value)` call on a bound program. */
  function Upload(sh: Shader, name: string, v: Value): (r: Shader)
    requires sh.Bound?
    ensures r.Bound? && Overwrites(sh.uniforms, r.uniforms, {name})
    ensures r.uniforms[name] == v
  {
    Bound(sh.uniforms[name := v])
  }

  /** Two uploads in a row overwrite the union of their names. */
  lemma OverwritesTrans(a: Store, b: Store, c: Store, n1: set<string>, n2: set<string>)
    requires Overwrites(a, b, n1) && Overwrites(b, c, n2)
    ensures Overwrites(a, c, n1 + n2)
  {
  }

  /** A chain of stores each of which overwrites only `names` of the one
      before it overwrites only `names` from its first to its last. */
  lemma {:induction false} OverwritesChain(stores: seq<Store>, i: nat, j: nat, names: set<string>)
    requires i < j < |stores|
    requires forall k :: i < k <= j ==> Overwrites(stores[k - 1], stores[k], names)
    ensures Overwrites(stores[i], stores[j], names)
    decreases j - i
  {
    if i + 1 < j {
      OverwritesChain(stores, i, j - 1, names);
    }
  }
}

/** The material table of the scene manager: an append-only list of named
    material property sets, searched linearly by tag. */
module Materials {
  import opened Gpu
  import opened Search
  import opened Wrappers

  datatype Material = Material(
    tag: string,
    ambientColor: Vec3,
    ambientStrength: real,
    diffuseColor: Vec3,
    specularColor: Vec3,
    shininess: real)

  /** The outcome of FindMaterial: its boolean result and the out-parameter
      after the call. */
  datatype FindOutcome = FindOutcome(found: bool, material: Material)

  /** The tag of a material: what the lookups compare. */
  function MaterialTag(m: Material): string
  {
    m.tag
  }

  /** The index of the first material tagged `tag`, or -1. */
  function MaterialIndex(table: seq<Material>, tag: string): (r: int)
    ensures -1 <= r < |table|
    ensures r == -1 <==> forall i :: 0 <= i < |table| ==> table[i].tag != tag
    ensures r >= 0 ==> table[r].tag == tag
    ensures r >= 0 ==> forall i :: 0 <= i < r ==> table[i].tag != tag
  {
    FirstKeyIndex(table, MaterialTag, tag)
  }

  /** The five properties the shader sees agree; the tag may differ. */
  predicate SameProperties(a: Material, b: Material)
  {
    && a.ambientColor == b.ambientColor
    && a.ambientStrength == b.ambientStrength
    && a.diffuseColor == b.diffuseColor
    && a.specularColor == b.specularColor
    && a.shininess == b.shininess
  }

  /** `into` with the five properties of `from` copied over it, keeping its tag. */
  function CopyProperties(into: Material, from: Material): Material
  {
    into.(ambientColor := from.ambientColor,
          ambientStrength := from.ambientStrength,
          diffuseColor := from.diffuseColor,
          specularColor := from.specularColor,
          shininess := from.shininess)
  }

  /** FindMaterial as written, with `material` the out-parameter's value on
      entry. The result is false only for an empty table; on a non-empty
      table it is true whether or not a tag matched. A match copies the five
      properties of the first matching entry; no match leaves the
      out-parameter as it was. */
  function FindMaterial(table: seq<Material>, tag: string, material: Material): (r: FindOutcome)
    ensures r.found <==> |table| > 0
    ensures r.material.tag == material.tag
    ensures MaterialIndex(table, tag) == -1 ==> r.material == material
    ensures MaterialIndex(table, tag) >= 0 ==> SameProperties(r.material, table[MaterialIndex(table, tag)])
  {
    if |table| == 0 then FindOutcome(false, material)
    else
      var index := MaterialIndex(table, tag);
      FindOutcome(true, if index == -1 then material else CopyProperties(material, table[index]))
  }

  /** The lookup callers rely on: the first material tagged `tag`, and
      nothing when no entry carries that tag. */
  function LookupMaterial(table: seq<Material>, tag: string): (r: Option<Material>)
    ensures r.None? <==> forall i :: 0 <= i < |table| ==> table[i].tag != tag
    ensures r.Some? ==> r.value.tag == tag && r.value == table[MaterialIndex(table, tag)]
  {
    if |table| == 0 then None
    else if table[0].tag == tag then Some(table[0])
    else
      var rest := LookupMaterial(table[1..], tag);
      MaterialIndexTail(table, tag);
      rest
  }

  /** Past a first entry with another tag, the first match is one further
      along in the whole table than in its tail. */
  lemma MaterialIndexTail(table: seq<Material>, tag: string)
    requires |table| > 0 && table[0].tag != tag
    ensures forall i :: 0 < i < |table| ==> table[i] == table[1..][i - 1]
    ensures MaterialIndex(table, tag) == -1 <==> MaterialIndex(table[1..], tag) == -1
    ensures MaterialIndex(table, tag) >= 0 ==> MaterialIndex(table, tag) == MaterialIndex(table[1..], tag) + 1
  {
    var tail := table[1..];
    assert forall i :: 0 < i < |table| ==> table[i] == tail[i - 1];
    var k := MaterialIndex(table, tag);
    var j := MaterialIndex(tail, tag);
    if j >= 0 {
      assert table[j + 1].tag == tag;
      assert forall i :: 0 <= i < j + 1 ==> table[i].tag != tag by {
        forall i | 0 < i < j + 1 ensures table[i].tag != tag {
          assert table[i] == tail[i - 1];
        }
      }
    }
  }

  /** FindMaterial and the lookup agree on every tag the table holds, and on
      every other tag FindMaterial leaves the out-parameter untouched while
      still reporting success on a non-empty table. */
  lemma FindMaterialAgreesWithLookup(table: seq<Material>, tag: string, material: Material)
    ensures var r := FindMaterial(table, tag, material);
            match LookupMaterial(table, tag)
            case Some(m) => r.found && SameProperties(r.material, m)
            case None => r.material == material && r.found == (|table| > 0)
  {
  }

  /** The quirk: a non-empty table reports success for a tag it lacks. */
  lemma FindMaterialReportsUnknownTag(m: Material)
    requires m.tag != "brick"
    ensures FindMaterial([m], "brick", m).found
    ensures LookupMaterial([m], "brick").None?
  {
  }

  /** Appending a material never changes the lookup of a tag already present. */
  lemma {:induction false} LookupAppend(table: seq<Material>, m: Material, tag: string)
    ensures LookupMaterial(table + [m], tag)
            == match LookupMaterial(table, tag)
               case Some(x) => Some(x)
               case None => if m.tag == tag then Some(m) else None
  {
    FirstKeyIndexAppend(table, MaterialTag, m, tag);
  }
}

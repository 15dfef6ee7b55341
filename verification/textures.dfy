/** The texture registry of the scene manager: a bounded, append-only array of
    (texture name, tag) entries, filled in load order. Entry i is bound to
    texture unit i, so an entry's index is its slot. The model keeps only the
    loaded prefix of the array, so the loaded count is the sequence length. */
module Textures {
  import opened Search

  /** An OpenGL texture name: an unsigned 32-bit integer chosen by the driver. */
  type GLuint = x: int | 0 <= x < 0x1_0000_0000

  /** Number of entries the registry array holds (one per texture unit). */
  const Capacity: nat := 16

  datatype TextureEntry = TextureEntry(id: GLuint, tag: string)

  /** What the image decoder reports for a file: failure, or a decoded image
      with its number of colour channels. */
  datatype Image = DecodeFailed | Decoded(channels: int)

  /** The boolean result of a load together with the registry afterwards. */
  datatype LoadResult = LoadResult(ok: bool, registry: seq<TextureEntry>)

  /** An image the loader uploads: decoded, RGB or RGBA. */
  predicate Uploadable(image: Image)
  {
    image.Decoded? && (image.channels == 3 || image.channels == 4)
  }

  /** The tag of an entry: what the lookups compare. */
  function EntryTag(e: TextureEntry): string
  {
    e.tag
  }

  /** Loads a decoded image under `tag`; `newId` is the name the driver hands
      out for the new texture object. Only an RGB or RGBA image is
      registered; any other outcome reports failure and leaves the registry
      alone. The source writes entry `m_loadedTextures` without a bounds
      check, so a caller must leave room for a successful load. */
  function CreateGLTexture(registry: seq<TextureEntry>, image: Image, newId: GLuint, tag: string): (r: LoadResult)
    requires Uploadable(image) ==> |registry| < Capacity
    ensures r.ok <==> Uploadable(image)
    ensures r.ok ==> |r.registry| == |registry| + 1
    ensures r.ok ==> r.registry[|registry|] == TextureEntry(newId, tag)
    ensures r.ok ==> r.registry[..|registry|] == registry
    ensures !r.ok ==> r.registry == registry
  {
    match image
    case DecodeFailed => LoadResult(false, registry)
    case Decoded(channels) =>
      if channels == 3 || channels == 4 then
        LoadResult(true, registry + [TextureEntry(newId, tag)])
      else
        LoadResult(false, registry)
  }

  /** The slot of the first entry tagged `tag`, or -1: the reference
      definition both lookups are measured against. */
  function Slot(registry: seq<TextureEntry>, tag: string): (r: int)
    ensures -1 <= r < |registry|
    ensures r == -1 <==> forall i :: 0 <= i < |registry| ==> registry[i].tag != tag
    ensures r >= 0 ==> registry[r].tag == tag
    ensures r >= 0 ==> forall i :: 0 <= i < r ==> registry[i].tag != tag
  {
    FirstKeyIndex(registry, EntryTag, tag)
  }

  /** The (int) conversion of a texture name: two's complement wrap-around. */
  function AsInt(id: GLuint): (r: int)
    ensures -0x8000_0000 <= r < 0x8000_0000
    ensures (id - r) % 0x1_0000_0000 == 0
  {
    if id < 0x8000_0000 then id else id - 0x1_0000_0000
  }

  /** The value FindTextureID returns: -1 when no entry is tagged `tag`,
      otherwise the converted name of the first such entry. */
  function TextureId(registry: seq<TextureEntry>, tag: string): int
  {
    var slot := Slot(registry, tag);
    if slot == -1 then -1 else AsInt(registry[slot].id)
  }

  /** The source's scan for a slot, loop for loop. */
  method FindTextureSlot(registry: seq<TextureEntry>, tag: string) returns (textureSlot: int)
    ensures textureSlot == Slot(registry, tag)
    ensures -1 <= textureSlot < |registry|
    ensures textureSlot >= 0 ==> registry[textureSlot].tag == tag
    ensures textureSlot == -1 <==> forall i :: 0 <= i < |registry| ==> registry[i].tag != tag
  {
    textureSlot := -1;
    var index := 0;
    var found := false;
    while index < |registry| && !found
      invariant 0 <= index <= |registry|
      invariant forall i :: 0 <= i < index ==> registry[i].tag != tag
      invariant found ==> index < |registry| && registry[index].tag == tag && textureSlot == index
      invariant !found ==> textureSlot == -1
      decreases |registry| - index, !found
    {
      if registry[index].tag == tag {
        textureSlot := index;
        found := true;
      } else {
        index := index + 1;
      }
    }
  }

  /** The source's scan for a texture name, loop for loop. */
  method FindTextureID(registry: seq<TextureEntry>, tag: string) returns (textureId: int)
    ensures textureId == TextureId(registry, tag)
    ensures Slot(registry, tag) == -1 ==> textureId == -1
  {
    textureId := -1;
    var index := 0;
    var found := false;
    while index < |registry| && !found
      invariant 0 <= index <= |registry|
      invariant forall i :: 0 <= i < index ==> registry[i].tag != tag
      invariant found ==> index < |registry| && registry[index].tag == tag && textureId == AsInt(registry[index].id)
      invariant !found ==> textureId == -1
      decreases |registry| - index, !found
    {
      if registry[index].tag == tag {
        textureId := AsInt(registry[index].id);
        found := true;
      } else {
        index := index + 1;
      }
    }
  }

  /** With every name below 2^31, FindTextureID answers -1 exactly when
      FindTextureSlot does, and otherwise names the first matching entry. */
  lemma TextureIdMissingIff(registry: seq<TextureEntry>, tag: string)
    requires forall i :: 0 <= i < |registry| ==> registry[i].id < 0x8000_0000
    ensures TextureId(registry, tag) == -1 <==> Slot(registry, tag) == -1
    ensures Slot(registry, tag) >= 0 ==> TextureId(registry, tag) == registry[Slot(registry, tag)].id
  {
  }

  /** A driver name of 2^32 - 1 converts to -1, so a found texture can look
      like a missing one. */
  lemma TextureIdAliasesSentinel()
    ensures var registry := [TextureEntry(0xFFFF_FFFF, "wood")];
            Slot(registry, "wood") == 0 && TextureId(registry, "wood") == -1
  {
  }

  /** Loading keeps every earlier lookup: a tag already present keeps its
      slot, a new tag lands in the slot just written, and the failure path
      changes no lookup at all. */
  lemma {:induction false} LoadPreservesSlots(registry: seq<TextureEntry>, image: Image, newId: GLuint, tag: string, query: string)
    requires Uploadable(image) ==> |registry| < Capacity
    ensures var r := CreateGLTexture(registry, image, newId, tag);
            Slot(r.registry, query)
            == if !r.ok || Slot(registry, query) != -1 then Slot(registry, query)
               else if query == tag then |registry|
               else -1
  {
    var r := CreateGLTexture(registry, image, newId, tag);
    if r.ok {
      FirstKeyIndexAppend(registry, EntryTag, TextureEntry(newId, tag), query);
    }
  }

  /** The teardown routine as written: each slot's name is replaced by a
      freshly generated one (`newIds`) rather than deleted. Tags and the
      loaded count stay as they were. */
  function DestroyGLTextures(registry: seq<TextureEntry>, newIds: seq<GLuint>): (r: seq<TextureEntry>)
    requires |newIds| == |registry|
    ensures |r| == |registry|
    ensures forall i :: 0 <= i < |r| ==> r[i].tag == registry[i].tag && r[i].id == newIds[i]
  {
    seq(|registry|, i requires 0 <= i < |registry| => TextureEntry(newIds[i], registry[i].tag))
  }

  /** After teardown every tag still resolves to the same slot. */
  lemma DestroyKeepsSlots(registry: seq<TextureEntry>, newIds: seq<GLuint>, tag: string)
    requires |newIds| == |registry|
    ensures Slot(DestroyGLTextures(registry, newIds), tag) == Slot(registry, tag)
  {
    FirstKeyIndexSameKeys(DestroyGLTextures(registry, newIds), registry, EntryTag, tag);
  }
}

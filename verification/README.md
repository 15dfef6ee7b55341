# Desk scene renderer and checksum endpoint — a Dafny model

This project models three pieces of the repository.

- **The scene manager** (`SceneManager.cpp`) has three parts:
  - a bounded texture registry that is filled in load order, where an entry's index is its texture unit;
  - an append-only material table that is searched by tag;
  - the shader's named uniforms, treated as one shared map.

  Every setter overwrites a fixed set of names. A draw renders with whatever the map holds at that moment. So an object that skips a setter inherits the previous object's texture, material or colour. The fixed render sequence of 14 objects is modelled as a list of steps played over that map. Lemmas state which surface each inheriting object really draws with.
- **The view manager** (`ViewManager.cpp`) has four parts:
  - the mouse-look callback, with its first-call jump suppression;
  - the per-frame keyboard poll: Escape closes, W/S/A/D move the camera, P toggles the projection;
  - the frame clock;
  - the per-frame view preparation, which picks the projection parameters and uploads the view, projection and camera position.
- **The checksum endpoint** (`ServerController.java`) covers:
  - the loop that spells the SHA-256 digest as lower-case hexadecimal, two digits per byte;
  - the HTML response built around it;
  - the error response when the algorithm is missing.

Modules:
- `Wrappers` (Option)
- `Search` (first-match scan)
- `Gpu` (values, uniform store, the `Overwrites` framing predicate)
- `Textures`
- `Materials`
- `Uniforms` (the setters and the render routine's `applyMaterial`)
- `Scene` (scene setup and the draw sequence)
- `View`
- `Checksum`

Two behaviours of the code are modelled as written, although the code's own structure or comments point elsewhere:

- **Unknown material tag.** `FindMaterial` keeps a `bFound` flag but returns `true` whatever the flag says (SceneManager.cpp:240). So on a non-empty table, `SetShaderMaterial` uploads its uninitialised local for a tag the table lacks. This is logged under Findings. The render routine's own `applyMaterial` only calls it for tags that are present, so the draw sequence is unaffected.
- **Texture teardown.** The header of `DestroyGLTextures` says it frees the texture memory (SceneManager.cpp:142-147). Line 152 calls `glGenTextures`, which hands out new names over the old ones instead of deleting them.

The projection toggle is modelled as written too. `ProcessKeyboardEvents` reads whether P is held on every poll (ViewManager.cpp:119-120), the same held-key test it uses for W, S, A and D, so holding P flips the mode on every frame.

## Model

All paths are relative to the repository root. `SceneManager.cpp` is `projects/cs330/CS330-Final/Source/SceneManager.cpp`, `ViewManager.cpp` is `projects/cs330/CS330-Final/Source/ViewManager.cpp`, and `ServerController.java` is `projects/cs305/cs305Project2/ssl-server_student/src/main/java/com/snhu/sslserver/ServerController.java`.

| member | source | states |
|---|---|---|
| Textures.CreateGLTexture | projects/cs330/CS330-Final/Source/SceneManager.cpp:60-124 | reports success exactly for a decoded RGB or RGBA image. On success it appends one entry (the driver's name, the tag) at the next slot and keeps every earlier entry. On failure the registry is unchanged. |
| Textures.Slot | projects/cs330/CS330-Final/Source/SceneManager.cpp:188-206 | the reference lookup: -1 exactly when no entry carries the tag, otherwise the index of the first entry that does |
| Search.FirstKeyIndex | projects/cs330/CS330-Final/Source/SceneManager.cpp:194-203 | the first-match scan both registries perform: -1 exactly when no element has the key, otherwise the index of the first element that does |
| Textures.FindTextureSlot | projects/cs330/CS330-Final/Source/SceneManager.cpp:188-206 | the source's scan, loop for loop, returns the reference lookup: the first matching index, or -1 exactly when the tag is absent |
| Textures.AsInt | projects/cs330/CS330-Final/Source/SceneManager.cpp:172 | the conversion of a 32-bit unsigned texture name to `int` lands in the signed range and agrees with the name modulo 2^32 |
| Textures.FindTextureID | projects/cs330/CS330-Final/Source/SceneManager.cpp:162-180 | the source's scan returns the converted name of the first entry carrying the tag, and -1 when none does |
| Textures.TextureIdMissingIff | projects/cs330/CS330-Final/Source/SceneManager.cpp:162-180 | if every name is below 2^31, the id lookup answers -1 exactly when the slot lookup does, and otherwise returns the first match's name |
| Textures.TextureIdAliasesSentinel | projects/cs330/CS330-Final/Source/SceneManager.cpp:162-180 | a present texture named 2^32-1 is reported as -1, the same as "not found" |
| Textures.LoadPreservesSlots | projects/cs330/CS330-Final/Source/SceneManager.cpp:110-116 | a load never moves an existing lookup. A new tag resolves to the slot just written. A failed load changes no lookup. |
| Textures.DestroyGLTextures | projects/cs330/CS330-Final/Source/SceneManager.cpp:148-154 | the teardown gives every loaded slot a fresh name and keeps its tag and the loaded count |
| Textures.DestroyKeepsSlots | projects/cs330/CS330-Final/Source/SceneManager.cpp:148-154 | after teardown every tag still resolves to the same slot, so nothing was released from the registry |
| Materials.MaterialIndex | projects/cs330/CS330-Final/Source/SceneManager.cpp:214-241 | the index of the first material carrying the tag, or -1 exactly when none does |
| Materials.FindMaterial | projects/cs330/CS330-Final/Source/SceneManager.cpp:214-241 | reports success exactly for a non-empty table, whether or not the tag matched. A match copies the first match's five properties and keeps the out-parameter's tag. No match leaves the out-parameter untouched. |
| Materials.LookupMaterial | projects/cs330/CS330-Final/Source/SceneManager.cpp:494-505 | the first material carrying the tag, or none exactly when no entry carries it |
| Materials.FindMaterialAgreesWithLookup | projects/cs330/CS330-Final/Source/SceneManager.cpp:214-241 | FindMaterial and the lookup agree on the properties of every tag the table holds. For any other tag, FindMaterial leaves the out-parameter as it was yet still reports success on a non-empty table. |
| Materials.FindMaterialReportsUnknownTag | projects/cs330/CS330-Final/Source/SceneManager.cpp:214-241 | a one-entry table reports "found" for a tag it lacks, while the lookup finds nothing |
| Materials.LookupAppend | projects/cs330/CS330-Final/Source/SceneManager.cpp:396-412 | appending a material never changes the lookup of a tag already present. An absent tag resolves to the appended material exactly when the tags match. |
| Uniforms.UploadMaterial | projects/cs330/CS330-Final/Source/SceneManager.cpp:358-362 | the five material uploads leave the store showing all five properties and change no other uniform |
| Uniforms.SetTransformations | projects/cs330/CS330-Final/Source/SceneManager.cpp:249-279 | with a shader, only the model matrix changes and it becomes the transform's matrix. Without one, nothing changes. |
| Uniforms.SetShaderColor | projects/cs330/CS330-Final/Source/SceneManager.cpp:287-306 | texturing is switched off and the RGBA colour uploaded. Nothing else changes, and nothing at all without a shader. |
| Uniforms.SetShaderTexture | projects/cs330/CS330-Final/Source/SceneManager.cpp:314-325 | texturing is switched on and the sampler set to the tag's slot: the first matching entry, or -1 exactly when none matches. Nothing else changes. |
| Uniforms.SetTextureUVScale | projects/cs330/CS330-Final/Source/SceneManager.cpp:333-339 | only the tiling factors change, to (u, v); nothing at all without a shader |
| Uniforms.SetShaderMaterial | projects/cs330/CS330-Final/Source/SceneManager.cpp:347-365 | as written: an empty table changes nothing. A non-empty table always overwrites the material uniforms, with whatever FindMaterial left in the uninitialised local. |
| Uniforms.SetShaderMaterialChecked | projects/cs330/CS330-Final/Source/SceneManager.cpp:347-365 | the intended upload: the first material carrying the tag, and no change at all for a tag the table lacks |
| Uniforms.SetShaderMaterialAgreesOnKnownTags | projects/cs330/CS330-Final/Source/SceneManager.cpp:494-505 | for every tag the table holds, the routine as written and the intended one produce the same store, whatever the uninitialised local contains |
| Uniforms.UnknownTagUploadsUninitialized | projects/cs330/CS330-Final/Source/SceneManager.cpp:350-363 | a concrete table and tag where the routine as written changes the store and the intended one does not |
| Uniforms.ApplyMaterial | projects/cs330/CS330-Final/Source/SceneManager.cpp:494-505 | for a known tag, the first matching material is shown and its diffuse colour becomes the object colour, and nothing else changes. An unknown tag changes nothing. |
| Uniforms.ApplyMaterialIdempotent | projects/cs330/CS330-Final/Source/SceneManager.cpp:494-505 | applying the same material tag twice gives the same store as applying it once |
| Uniforms.ColorAfterTextureKeepsSampler | projects/cs330/CS330-Final/Source/SceneManager.cpp:287-325 | a colour set after a texture turns texturing off but keeps the sampler slot the texture call uploaded |
| Uniforms.UVScaleCommutes | projects/cs330/CS330-Final/Source/SceneManager.cpp:314-339 | setting the tiling factors before or after a texture gives the same store |
| Scene.LoadTextures | projects/cs330/CS330-Final/Source/SceneManager.cpp:391-393 | the three texture loads append exactly the accepted files' entries (driver name, file tag), in file order, after the existing entries |
| Scene.LoadAppendsAccepted | projects/cs330/CS330-Final/Source/SceneManager.cpp:391-393 | load n appends file n-1's entry, or nothing when that file is refused |
| Scene.LoadTexturesSlot | projects/cs330/CS330-Final/Source/SceneManager.cpp:391-393 | from an empty registry, texture file i resolves to the number of files accepted before it, or is missing when its own file was refused |
| Scene.PrepareScene | projects/cs330/CS330-Final/Source/SceneManager.cpp:382-452 | setup appends each accepted file's (name, tag) entry in file order and the wood and metal materials, keeping what was there. With a shader it sets the object colour to (1, 1, 1) and the viewer position to (0, 0, 5), and changes no other modelled uniform. |
| Scene.PrepareSceneFromEmpty | projects/cs330/CS330-Final/Source/SceneManager.cpp:382-452 | after setup from nothing, each texture tag sits at the slot its load order gives it (or is missing). The table is exactly [wood, metal]. "wood" and "metal" are found and "brick" is not. |
| Scene.SceneMaterials | projects/cs330/CS330-Final/Source/SceneManager.cpp:396-412 | in the scene's two-entry table, "wood" and "metal" find their materials and "brick" finds none |
| Scene.PrepareSceneCounts | projects/cs330/CS330-Final/Source/SceneManager.cpp:382-452 | when every file loads: 3 textures, 2 materials, and "brick" in slot 2 |
| Scene.TexturedStepEffect | projects/cs330/CS330-Final/Source/SceneManager.cpp:508-511 | a textured object leaves its own model matrix, texturing on, and its texture's slot. A known material is shown, with its diffuse colour as object colour. Nothing outside those names changes; for an unknown material only the transform and texture uniforms change. |
| Scene.ColoredStepEffect | projects/cs330/CS330-Final/Source/SceneManager.cpp:553-555 | the pen's direct colour upload changes only the model matrix and the object colour, leaving the texturing flag and sampler as they were |
| Scene.InheritedStepEffect | projects/cs330/CS330-Final/Source/SceneManager.cpp:520-521 | an object that only sets its transform changes only the model matrix |
| Scene.RenderScene | projects/cs330/CS330-Final/Source/SceneManager.cpp:462-595 | one frame draws the 14 objects in source order, each with its own mesh. Each draw renders with the uniforms its own setters leave over what the previous draw left; the desk starts from the shader's store. |
| Scene.SceneDraws | projects/cs330/CS330-Final/Source/SceneManager.cpp:507-592 | every draw of the scene's fixed sequence is its step played over the previous draw's store |
| Scene.PlayStep | projects/cs330/CS330-Final/Source/SceneManager.cpp:507-595 | draw k draws step k's mesh with the uniforms of draw k-1 (the setup state, for the first draw) as updated by step k alone |
| Scene.TexturedDraw | projects/cs330/CS330-Final/Source/SceneManager.cpp:507-595 | within the draw sequence, a textured draw renders with its transform, texture and known material over what the previous draw left |
| Scene.ColoredDraw | projects/cs330/CS330-Final/Source/SceneManager.cpp:553-555 | within the draw sequence, a coloured draw differs from the previous draw only in the model matrix and its colour |
| Scene.InheritedDraw | projects/cs330/CS330-Final/Source/SceneManager.cpp:520-535 | within the draw sequence, an inheriting draw differs from the previous draw only in the model matrix |
| Scene.InheritedRunKeepsSurface | projects/cs330/CS330-Final/Source/SceneManager.cpp:520-535 | a whole run of transform-only draws keeps every uniform of the draw before the run except the model matrix |
| Scene.TexturedSurfaceKept | projects/cs330/CS330-Final/Source/SceneManager.cpp:520-535 | a transform-only draw after a textured one keeps its texturing flag, sampler slot and, for a known material, the material and its colour |
| Scene.MonitorAndLampInheritScreen | projects/cs330/CS330-Final/Source/SceneManager.cpp:514-535 | the monitor stand, the monitor base and the three lamp parts draw with everything the monitor screen set except the model matrix. That means texturing on with the metal texture's slot and, when the table has a "metal" material, that material with its diffuse colour as object colour. |
| Scene.ScreenDraw | projects/cs330/CS330-Final/Source/SceneManager.cpp:514-517 | the monitor screen draws with the metal texture and the "metal" material over what the desk left |
| Scene.ScreenRun | projects/cs330/CS330-Final/Source/SceneManager.cpp:520-535 | draws 2 to 6 differ from the monitor screen only in the model matrix |
| Scene.HandleInheritsMug | projects/cs330/CS330-Final/Source/SceneManager.cpp:538-544 | the mug handle draws with the mug body's texture and material |
| Scene.PenInheritsNotebook | projects/cs330/CS330-Final/Source/SceneManager.cpp:547-555 | the pen keeps the notebook's texture and material and adds only its transform and the dark grey 0.1 colour |
| Scene.WallInheritsPen | projects/cs330/CS330-Final/Source/SceneManager.cpp:553-567 | with no material tagged "brick", the wall changes only its transform and texture uniforms. It draws textured with the brick slot and keeps the pen's material and colour. |
| Scene.NotebookShowsWood | projects/cs330/CS330-Final/Source/SceneManager.cpp:547-550 | with the scene's own table, the notebook shows the wood material |
| Scene.WallDrawsWithNotebookMaterial | projects/cs330/CS330-Final/Source/SceneManager.cpp:547-567 | with the scene's own table, the brick wall draws with the wood material, the pen's dark grey colour, texturing on and the brick slot |
| View.MousePositionCallback | projects/cs330/CS330-Final/Source/ViewManager.cpp:88-104 | the first callback moves the camera by zero wherever the cursor is. Later callbacks move it by the cursor's travel, with y inverted. Every callback records the position and clears the first-call flag. |
| View.ReplayTelescopes | projects/cs330/CS330-Final/Source/ViewManager.cpp:88-104 | over any run of callbacks, the summed offsets equal the displacement from the first seen (or last recorded) position to the last one. The jump from the window centre is never counted. |
| View.Dispatch | projects/cs330/CS330-Final/Source/ViewManager.cpp:111-118 | every camera move carries the frame time and a direction the poll checks |
| View.DispatchMembers | projects/cs330/CS330-Final/Source/ViewManager.cpp:111-118 | a direction is moved exactly when the poll checks it and its key is held |
| View.DispatchOrdered | projects/cs330/CS330-Final/Source/ViewManager.cpp:111-118 | directions checked in rank order are moved in rank order, each at most once |
| View.PollOrderMembers | projects/cs330/CS330-Final/Source/ViewManager.cpp:111-118 | the poll moves the camera in a direction exactly when that direction's key is held |
| View.ProcessKeyboardEvents | projects/cs330/CS330-Final/Source/ViewManager.cpp:106-121 | close is requested iff it already was or Escape is held. The mode flips iff P is held. W, S, A, D each give one move, in that order, with the frame time, and no other key moves the camera. |
| View.OrthographicParity | projects/cs330/CS330-Final/Source/ViewManager.cpp:119-120 | after any run of polls, the mode has flipped iff an odd number of polls saw P. Two polls with P held restore the mode. |
| View.SelectProjection | projects/cs330/CS330-Final/Source/ViewManager.cpp:135-150 | orthographic iff the flag is set. Both kinds clip at 0.1 and 100. The orthographic box is symmetric, 10 wide on each side, and has the window's 1000:800 aspect ratio. The perspective view uses the camera zoom as field of view and the window's aspect ratio. |
| View.Tick | projects/cs330/CS330-Final/Source/ViewManager.cpp:128-130 | the frame time is the time since the previous frame, which now becomes the previous frame. Nothing else changes. |
| View.FrameTimesTelescope | projects/cs330/CS330-Final/Source/ViewManager.cpp:128-130 | the frame times of any run of frames add up to the time from the frame before the run to the run's last frame |
| View.PrepareSceneView | projects/cs330/CS330-Final/Source/ViewManager.cpp:123-158 | the clock advances and the poll runs with the new frame time. The projection is exactly the parameters selected for the mode the poll left. The camera moves for the held keys in W, S, A, D order, each at most once. With a shader, exactly the view matrix, projection and camera position are uploaded; without one, nothing is. |
| View.FirstFrame | projects/cs330/CS330-Final/Source/ViewManager.cpp:26-46 | from the start-up state, the first frame time is the time since the clock started. The first projection is perspective at 80 degrees unless P is held. When no movement key is held, the poll moves nothing and the uploaded camera position is the start-up (0, 5, 12). The first cursor callback turns the camera by nothing. |
| Checksum.Unsigned | projects/cs305/cs305Project2/ssl-server_student/src/main/java/com/snhu/sslserver/ServerController.java:26 | the value a signed byte formats as lies in 0..255 and agrees with the byte modulo 256 |
| Checksum.ToSigned | projects/cs305/cs305Project2/ssl-server_student/src/main/java/com/snhu/sslserver/ServerController.java:26 | every unsigned byte value is the formatted value of exactly this signed byte |
| Checksum.Format02x | projects/cs305/cs305Project2/ssl-server_student/src/main/java/com/snhu/sslserver/ServerController.java:26 | every byte, negative ones included, formats as exactly two lower-case hex digits whose value is the unsigned byte |
| Checksum.PairRoundTrip | projects/cs305/cs305Project2/ssl-server_student/src/main/java/com/snhu/sslserver/ServerController.java:26 | reading a byte's two digits back gives the byte |
| Checksum.Hex | projects/cs305/cs305Project2/ssl-server_student/src/main/java/com/snhu/sslserver/ServerController.java:24-27 | the hex string has two lower-case digits per byte |
| Checksum.DecodeHex | projects/cs305/cs305Project2/ssl-server_student/src/main/java/com/snhu/sslserver/ServerController.java:24-27 | the reader of digit pairs accepts only even-length strings, one byte per two characters |
| Checksum.HexRoundTrip | projects/cs305/cs305Project2/ssl-server_student/src/main/java/com/snhu/sslserver/ServerController.java:24-27 | decoding the hex string of any digest gives back the digest |
| Checksum.DecodeThenEncode | projects/cs305/cs305Project2/ssl-server_student/src/main/java/com/snhu/sslserver/ServerController.java:24-27 | every string the reader accepts is the hex string of what it reads, so the encoding covers every even-length string of lower-case digits |
| Checksum.HexInjective | projects/cs305/cs305Project2/ssl-server_student/src/main/java/com/snhu/sslserver/ServerController.java:24-27 | different digests never give the same hex string |
| Checksum.HexPairAt | projects/cs305/cs305Project2/ssl-server_student/src/main/java/com/snhu/sslserver/ServerController.java:24-27 | byte i is spelled at characters 2i and 2i+1 |
| Checksum.HexString | projects/cs305/cs305Project2/ssl-server_student/src/main/java/com/snhu/sslserver/ServerController.java:24-27 | the loop builds two lower-case digits per byte, and the result decodes to the digest |
| Checksum.GetChecksum | projects/cs305/cs305Project2/ssl-server_student/src/main/java/com/snhu/sslserver/ServerController.java:14-35 | success: the fixed heading, the data string and the hex digest (which decodes back to the digest), then the closing tag. Missing algorithm: the error prefix followed by the exception's message, or "null". |
| Checksum.ParseChecksum | projects/cs305/cs305Project2/ssl-server_student/src/main/java/com/snhu/sslserver/ServerController.java:30 | a parsed response has exactly the success layout's length for the digest it carries |
| Checksum.ChecksumRoundTrip | projects/cs305/cs305Project2/ssl-server_student/src/main/java/com/snhu/sslserver/ServerController.java:20-30 | every success response parses back to its digest, and a 32-byte SHA-256 digest occupies 64 characters |
| Checksum.ErrorIsNotChecksum | projects/cs305/cs305Project2/ssl-server_student/src/main/java/com/snhu/sslserver/ServerController.java:32-34 | no error response, whatever the message, parses as a checksum response |

## Left out

- Light uniforms: the `lightSources[i].*` uploads in scene setup (lines 414-441) and at the start of each frame (lines 465-491) are literal constants under names that nothing else in the model writes. They do not change any modelled uniform, so they are left out.
- Mesh loading and drawing belong to the mesh library. A draw is recorded as its mesh kind together with the uniforms in force.
- Matrix arithmetic is left out. A model matrix, view matrix and projection matrix are abstract values built from their parameters. Floats are `real`, so the float rounding of 0.1f, 0.35f and the like is not modelled.
- The camera object belongs to the camera library. Its moves are recorded as (direction, frame time) calls, and its pose after them is an input to `View.PrepareSceneView`. `View.InitialCamera` records the pose the constructor sets. Its zoom is set only there (ViewManager.cpp:46): no code modelled here changes it, and no scroll callback is registered (only the cursor callback at line 78). So `View.FirstFrame` passes the start-up zoom to the first frame whatever keys are held, while its position clause is stated only for a frame with no movement key held.
- Window creation, cursor capture, blending and the key-state queries are left out. The keys held are an input, and so is the current time.
- Image decoding is left out. A file's outcome (a decode failure or a channel count) and the driver's new texture name are inputs. The GL texture parameters, mipmaps and unbinding are left out.
- `BindGLTextures` is left out. It binds slot i to texture unit i and changes no modelled state.
- Textures.DestroyGLTextures: the texture objects it fails to delete live in the driver, which is not modelled. Only the effect on the registry is stated.
- Textures.CreateGLTexture: the unchecked write past the 16-entry array is a requirement on the caller (room for a successful load), not modelled behaviour.
- Uniform type checks in the shader interface are not modelled. A store maps names to tagged values.
- The Spring application wiring and the HTTP mapping are left out. SHA-256 itself is left out: the digest, or the missing-algorithm exception, is an input.
- The constructors and destructors are left out, except for the start-up values they and the file-scope variables set (window-centre mouse, clock at 0, perspective mode, the camera pose). Those are recorded as `View.InitialView` and `View.InitialCamera` and used by `View.FirstFrame`. The scene manager's loaded-texture count is not set in any file modelled here, so `Scene.PrepareScene` is stated for any starting registry.
- Scene.RenderScene: its contract relates each draw to the previous one through the step's setters. Which texture, material and colour each object actually shows is stated by the three `*Draw` lemmas and the scene lemmas that follow them.
- Console logging is left out: the messages `CreateGLTexture` writes on success and failure (SceneManager.cpp:81, 101, 120) change no modelled state.
- Uniforms.SetShaderMaterial requires a shader when the table is non-empty. The source uploads through the shader pointer there without a null check (SceneManager.cpp:358-362), so it has no behaviour without one.
- Uniforms.ApplyMaterial requires a shader for a tag the table holds. The source uploads the material and the object colour through the shader pointer without a null check (SceneManager.cpp:500-501), so it has no behaviour without one.
- Scene.RenderScene requires a shader. The source dereferences the shader there without a null check, so it has no behaviour without one.
- Scene.StepUniforms: its contract only keeps the shader bound. Its effect is stated per object kind by `Scene.TexturedStepEffect`, `Scene.ColoredStepEffect` and `Scene.InheritedStepEffect`.
- Scene.Play: its contract gives only the number of draws. The relation between consecutive draws is `Scene.PlayStep`.
- View.Replay has no contract of its own. Its meaning is `View.ReplayTelescopes`.
- The projection toggle is modelled as written, level-triggered. An edge-triggered toggle is not modelled, because the code does not have one.
- Double-to-float casts of the cursor position in the mouse callback are not modelled. Positions are `real`.

## Findings

| source | as written | input that shows it | evidently intended | confidence | as-written member | corrected member |
|---|---|---|---|---|---|---|
| projects/cs330/CS330-Final/Source/SceneManager.cpp:214-241, 347-365 | `FindMaterial` returns true for any non-empty table, even when no tag matched. `SetShaderMaterial` then uploads its uninitialised local `OBJECT_MATERIAL`. | table `[wood]`, tag `"brick"`: the five material uniforms are overwritten with indeterminate values | an unknown tag reports "not found" and leaves the material uniforms as they were | high (reasoned from the code; not executed) | Uniforms.UnknownTagUploadsUninitialized | Uniforms.SetShaderMaterialChecked |

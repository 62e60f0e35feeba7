# Game-Engine core, modelled in Dafny

This project models the engine-side core of Soulur/Game-Engine, a C++ OpenGL
editor and engine. Each Dafny module corresponds to one source component:

- **Renderer3D** (`renderer3d_spec.dfy`, `renderer3d.dfy`,
  `renderer3d_properties.dfy`, `renderer3d_findings.dfy`, `sphere_geometry.dfy`)
  covers the batching renderer:
  - its global state `s_Data`: the 32-entry texture slot table, the sphere
    instance list, the per-mesh model draw-call batches, the collected lights,
    the camera, the skybox path and the statistics;
  - the operations on that state: frame and batch control (BeginScene,
    EndScene, StartBatch, Flush, NextBatch), material texture-slot
    resolution, DrawSphere, DrawModel, DrawLight, FlushLights, DrawHdrSkybox
    and ResetStats;
  - the sphere's triangle-strip index generator.

  The class `Renderer3DData` holds the state and updates it in place. Each of
  its methods is proved equal to a pure function of the old state in
  `Renderer3DSpec`. The lemmas in `Renderer3DProperties` state what those
  functions promise.
- **Scenes** covers the scene: the entity registry, the UUID map, viewport
  resizing, primary-camera lookup, the camera component hook, and the order
  in which RenderScene submits entities.
- **Animations** covers skeletal-animation bookkeeping:
  - key-frame index search;
  - bone-ID assignment when an animation is read;
  - bone lookup;
  - the Animator's clock (advance, wrap, seek, pause).
- **Shaders** covers splitting a `#type`-sectioned shader file into per-stage
  sources, and the name a shader takes from its path.
- **BufferLayouts**: data-type sizes and component counts, and vertex-layout
  offsets and stride.
- **Materials**, **Lights** and **Textures**: material parameters and
  texture channels, light parameters and their clamping, and texture
  equality.
- **TextureManagers**, **MeshManagers**, **MaterialManagers**,
  **ModelManagers** and **HdrManagers** cover the resource caches. Each
  singleton is a class whose maps the methods update.
- **ProjectBrowser**: the editor's file tree, meaning the icon type of an
  entry, the directory-first sort order and the search filter.

The GPU is modelled as a trace of events (`GpuEvent`) that the renderer
appends to. A texture is `NullTex` or `Tex(rendererId)`. Floating-point
quantities are `real`. The iteration order of an `unordered_map` is
unspecified in the source. So all model draws of one Flush are a single
event that maps each mesh ID to its instances.

Where the code does something other than its names suggest, the model follows the code:

- A default material's channels hold Material.cpp's own default white
  texture. This is a different object from the renderer's white texture, so
  the channels that hold it share one texture slot of their own, not slot 0.
- FlushLights is not called by Flush or EndScene in Renderer3D.cpp, so it is
  modelled as a separate operation.
- Scene.cpp's RenderScene calls `DrawDirectionalLight`, `DrawPointLight` and
  `DrawSpotLight`. Renderer3D.h declares them, but Renderer3D.cpp does not
  define them; it defines `DrawLight`. The scene model records these calls as
  submissions. The renderer model implements DrawLight as Renderer3D.cpp
  writes it.

## Model

| member | source | states |
|---|---|---|
| MathTypes.Splat | src/Renderer/Light.h:60 | `glm::vec3(v)`: n components, each equal to v |
| TextureManagers.TextureManager.constructor | src/Renderer/Manager/TextureManager.h:32 | the cache starts empty and nothing has been loaded |
| TextureManagers.TextureManager.GetTexture | src/Renderer/Manager/TextureManager.cpp:5-24 | a cached path returns the cached entry and loads nothing; an uncached path is loaded once and the result is cached, a null one included; a successful load has a fresh renderer ID that no cached texture has; either way the path is then cached under the returned value |
| TextureManagers.TextureManager.Shutdown | src/Renderer/Manager/TextureManager.cpp:26-31 | the cache becomes empty; the load history and the ID counter are kept |
| TextureManagers.TextureManager.UnloadTexture | src/Renderer/Manager/TextureManager.cpp:33-52 | returns true exactly when the path was cached; the cache loses that path and nothing else |
| Lights.Clamp | src/Renderer/Light.cpp:19 | glm::clamp: the result lies in [lo, hi], is x inside the range, and is the nearer bound outside it |
| Lights.NonNegative | src/Renderer/Light.cpp:13 | glm::max(0, r): the result is non-negative, at least r, and equal to r when r is non-negative |
| Lights.SettersKeepConeOrdered | src/Renderer/Light.cpp:16-34 | from an ordered pair, either cone setter leaves inner <= outer within [0, pi]; the set angle is the clamped argument; SetInnerConeAngle never lowers the outer angle; SetOuterConeAngle never raises the inner angle |
| Lights.SceneLight.Params | src/Renderer/Light.h:20-48 | the getters read the light's type, colour, intensity, radius and cone angles |
| Lights.SceneLight.constructor | src/Renderer/Light.h:58-68 | the defaults: a point light, white, intensity 1, no shadows, radius 1, cones of 10 and 20 degrees in radians |
| Lights.SceneLight.SetType | src/Renderer/Light.cpp:5-8 | the type changes and every other parameter is kept |
| Lights.SceneLight.SetRadius | src/Renderer/Light.cpp:10-14 | the radius becomes max(0, r) and every other parameter is kept |
| Lights.SceneLight.SetInnerConeAngle | src/Renderer/Light.cpp:16-24 | the inner angle becomes clamp(angle, 0, pi); the outer angle is raised to it when smaller; nothing else changes |
| Lights.SceneLight.SetOuterConeAngle | src/Renderer/Light.cpp:26-34 | the outer angle becomes clamp(angle, 0, pi); the inner angle is lowered to it when larger; nothing else changes |
| Materials.TypeIndex | src/Renderer/Material.h:16-26 | the TextureType enum values 0..6, Albedo first and Height last |
| Materials.TypeFromIndex | src/Renderer/Material.h:16-26 | the cast `(TextureType)i` for i below Count, inverse to TypeIndex |
| Materials.TypeIndexBijective | src/Renderer/Material.h:16-26 | the channel numbering is one-to-one and TypeFromIndex undoes it |
| Materials.Clamp01 | src/Renderer/Material.h:45-47 | glm::clamp to [0, 1]: inside the range the value, outside it the nearer bound |
| Materials.MaterialResources.constructor | src/Renderer/Material.cpp:14 | the shared default texture starts null |
| Materials.MaterialResources.InitDefaultMaterialResources | src/Renderer/Material.cpp:17-26 | a texture is created only when none exists; an existing one is kept |
| Materials.Material.constructor | src/Renderer/Material.cpp:28-41 | the shared default exists afterwards; all seven channels point at it; ID 0, empty name, albedo 1, roughness 0.5, metallic 0, AO 1, emissive 0 |
| Materials.Material.SetID | src/Renderer/Material.h:37 | the ID changes and nothing else |
| Materials.Material.SetName | src/Renderer/Material.h:40 | the name changes and nothing else |
| Materials.Material.SetAlbedo | src/Renderer/Material.h:44 | the albedo changes and nothing else |
| Materials.Material.SetRoughness | src/Renderer/Material.h:45 | the roughness becomes the value clamped to [0, 1]; nothing else changes |
| Materials.Material.SetMetallic | src/Renderer/Material.h:46 | the metallic value becomes the value clamped to [0, 1]; nothing else changes |
| Materials.Material.SetAO | src/Renderer/Material.h:47 | the AO becomes the value clamped to [0, 1]; nothing else changes |
| Materials.Material.SetEmissive | src/Renderer/Material.h:48 | the emissive colour changes and nothing else |
| Materials.Material.SetTexture | src/Renderer/Material.cpp:48-64 | the channel takes the texture manager's texture for the path, or the default white texture when the manager answers null; the manager caches the path; the other channels are untouched |
| Materials.Material.RemoveTexture | src/Renderer/Material.cpp:66-69 | the channel falls back to the default white texture; the other channels are untouched |
| Materials.Material.GetTexture | src/Renderer/Material.cpp:71-79 | the stored texture of the channel (or the default white texture for a missing one), which is never null on a valid material |
| Materials.Material.View | src/Renderer/Material.h:50-62 | the renderer's copy of the material: its parameters and its seven channels in TextureType order |
| MeshManagers.Mesh.constructor | src/Renderer/Mesh.h:29-48 | a mesh has ID 0 until the manager assigns one |
| MeshManagers.MeshManager.constructor | src/Renderer/Manager/MeshManager.h:28-31 | no meshes, and the counter starts at 1 |
| MeshManagers.MeshManager.AddMesh | src/Renderer/Manager/MeshManager.cpp:5-16 | a null mesh gets 0 and changes nothing; otherwise the mesh is stored under the counter's value, takes it as its ID, and the counter goes up with 32-bit wrap-around; below the wrap, IDs stay unique and at least 1 |
| MeshManagers.MeshManager.GetMeshById | src/Renderer/Manager/MeshManager.cpp:18-26 | the registered mesh, or null exactly when the ID is unknown |
| MeshManagers.MeshManager.Shutdown | src/Renderer/Manager/MeshManager.cpp:28-32 | no meshes, and the counter is back at 1 |
| MaterialManagers.MaterialManager.constructor | src/Renderer/Manager/MaterialManager.h:29-32 | no materials, and the counter starts at 0 |
| MaterialManagers.MaterialManager.AddMaterial | src/Renderer/Manager/MaterialManager.cpp:10-19 | a fresh default material is stored under the counter's value and takes it as its ID; the counter goes up with 32-bit wrap-around; every channel holds the shared default |
| MaterialManagers.MaterialManager.Init | src/Renderer/Manager/MaterialManager.h:23 | the material stored under ID 0 |
| MaterialManagers.MaterialManager.Shutdown | src/Renderer/Manager/MaterialManager.cpp:32-36 | no materials; the counter keeps running |
| ModelManagers.Model.constructor | src/Renderer/Model.h:21-39 | a model holds its meshes in order |
| ModelManagers.ModelManager.constructor | src/Renderer/Manager/ModelManager.h:26 | the model cache starts empty |
| ModelManagers.ModelManager.GetModel | src/Renderer/Manager/ModelManager.cpp:6-31 | a cached path returns the cached model and changes nothing; a new model has its meshes registered in order with the mesh manager and is cached; below the 32-bit wrap, distinct meshes get consecutive IDs from the counter and the mesh manager stays valid; a null model (which the shipped Model::Create never yields) returns null and caches nothing |
| ModelManagers.RegisterMeshes | src/Renderer/Manager/ModelManager.cpp:20-23 | AddMesh on each mesh in order leaves the mesh map and counter of RegisterAll; below the 32-bit wrap, distinct meshes carry consecutive IDs from the old counter and a valid mesh manager stays valid |
| ModelManagers.ModelManager.Shutdown | src/Renderer/Manager/ModelManager.cpp:33-36 | the model cache becomes empty |
| ModelManagers.RegisterAllConsecutive | src/Renderer/Manager/ModelManager.cpp:20-23 | registering n meshes below the wrap hands out n consecutive IDs from the counter, stores mesh i under the i-th, and keeps every other entry |
| HdrManagers.HdrMap.Load | src/Renderer/HDRSkybox.cpp:53-55 | a loaded map records the path it was loaded from |
| HdrManagers.HdrManager.constructor | src/Renderer/Manager/HdrManager.h:25-29 | no cached maps and no active map |
| HdrManagers.HdrManager.SetActive | src/Renderer/Manager/HdrManager.cpp:5-26 | "" clears the active map; the active path does nothing; a cached path is activated without loading; a new path is loaded, cached and activated; afterwards the active map's path is the requested path |
| HdrManagers.HdrManager.UnloadAll | src/Renderer/Manager/HdrManager.cpp:28-32 | no cached maps and no active map |
| BufferLayouts.ShaderDataTypeSize | src/Renderer/Buffer.h:14-32 | the byte size of each type, at most 64 and zero exactly for the "none" type |
| BufferLayouts.ComponentCount | src/Renderer/Buffer.h:49-66 | the component count of each type, at most 4 and zero exactly for the "none" type |
| BufferLayouts.SizeIsComponentsTimesWidth | src/Renderer/Buffer.h:14-66 | the two tables agree: four bytes per component; a matrix has that many columns; Bool is one byte |
| BufferLayouts.MakeElement | src/Renderer/Buffer.h:44-47 | an element takes its type's size, offset 0, and the given name, type and normalisation |
| BufferLayouts.BufferLayout.Empty | src/Renderer/Buffer.h:72 | the default layout has no elements and stride 0 |
| BufferLayouts.BufferLayout.constructor | src/Renderer/Buffer.h:74-79 | the elements in order, each with an offset equal to the sizes before it; the stride is the total size |
| BufferLayouts.BufferLayout.CalculateOffsetsAndStride | src/Renderer/Buffer.h:91-101 | each element's offset becomes the sum of the earlier sizes, the stride becomes the sum of all sizes, and nothing else changes |
| BufferLayouts.LaidOutContiguously | src/Renderer/Buffer.h:91-101 | laying out keeps the names, types, sizes and normalisation in order; the first offset is 0; each offset is the previous offset plus the previous size; the last element ends at the stride |
| BufferLayouts.ElementsWithinStride | src/Renderer/Buffer.h:91-101 | every element's offset plus size is at most the stride |
| Animations.Identity4 | src/Renderer/Animation.cpp:184 | glm::mat4(1.0f) as 16 column-major entries |
| Animations.KeyIndex | src/Renderer/Animation.h:68-76 | the first index whose next key lies after the time; it exists because the source asserts it |
| Animations.KeyIndexBrackets | src/Renderer/Animation.h:66-76 | on a track in time order, every key after the returned index lies after the time |
| Animations.KeyIndexUnique | src/Renderer/Animation.h:66-76 | on an ascending track, a time before the last key has exactly one bracketing index |
| Animations.GetPositionIndex | src/Renderer/Animation.h:68-76 | the bracketing index on the position keys |
| Animations.GetRotationIndex | src/Renderer/Animation.h:80-88 | the bracketing index on the rotation keys |
| Animations.GetScaleIndex | src/Renderer/Animation.h:92-100 | the bracketing index on the scale keys |
| Animations.AssignIdsKeeps | src/Renderer/Animation.cpp:145-149 | names already in the bone table keep their entries; the table ends up holding exactly the old names and the channel names |
| Animations.AssignIdsRange | src/Renderer/Animation.cpp:145-149 | each added name gets an ID from the old count up to the new one, with an identity offset matrix |
| Animations.AssignIdsDistinct | src/Renderer/Animation.cpp:145-149 | no two added names share an ID |
| Animations.AssignIdsCount | src/Renderer/Animation.cpp:145-149 | the count grows by exactly the number of names added |
| Animations.ChannelNames | src/Renderer/Animation.cpp:140-143 | the channels' node names, one per channel, in order |
| Animations.BonesFor | src/Renderer/Animation.cpp:150-151 | one bone per channel, in order, with the channel's name, tracks and table ID |
| Animations.BonesForStable | src/Renderer/Animation.cpp:150-151 | a table that keeps every entry the channels use gives the same bones |
| Animations.BonesForAppend | src/Renderer/Animation.cpp:150-151 | one more channel gives one more bone, at the end |
| Animations.Animation.constructor | src/Renderer/Animation.cpp:107-112 | the duration and tick rate of the animation, no bones yet, an empty table |
| Animations.Animation.ReadMissingBones | src/Renderer/Animation.cpp:135-155 | the table and count become those of AssignIds over the channel names; every channel name is in the table; one bone per channel is appended in order; the animation keeps a copy of the table |
| Animations.Animation.FindBone | src/Renderer/Animation.cpp:117-128 | the first bone with the name, or none exactly when no bone has it |
| Animations.FirstBoneNamed | src/Renderer/Animation.cpp:119-125 | the first index at or after `from` whose bone has the name, or none when there is no such index |
| Animations.FModWraps | src/Renderer/Animation.cpp:197-198 | for a positive duration, fmod of an overrun time lies in [0, duration) |
| Animations.AdvanceStaysInDuration | src/Renderer/Animation.cpp:194-198 | a running animation with a positive duration never ends past its end, and a step that does not go below 0 stays at or above 0 |
| Animations.ProgressTime | src/Renderer/Animation.cpp:245-246 | the seek time is fraction times duration, clamped to [0, duration - 0.01] |
| Animations.Animator.constructor | src/Renderer/Animation.cpp:173-185 | time 0, scale 1, running, the given animation, and MAX_BONES identity bone matrices |
| Animations.Animator.UpdateAnimation | src/Renderer/Animation.cpp:187-202 | a paused animator keeps its time; a running one advances by ticks x dt x scale and wraps past the duration; the delta time is stored |
| Animations.Animator.PlayAnimation | src/Renderer/Animation.cpp:204-208 | switches animation and rewinds to 0; everything else is kept |
| Animations.Animator.SetProgress | src/Renderer/Animation.cpp:240-249 | nothing changes without an animation or for a fraction of 1 or more; otherwise the time becomes ProgressTime; every other field is kept except the bone matrices, which the unmodelled bone pass rewrites |
| Animations.Animator.SetPaused | src/Renderer/Animation.h:187 | sets the paused flag; every other field is kept |
| Shaders.SameTextIsEquality | src/Renderer/Shader.cpp:12-16 | comparing strings character by character is string equality |
| Shaders.ShaderTypeNames | src/Renderer/Shader.cpp:10-19 | exactly "vertex" gives the vertex stage; exactly "fragment" or "pixel" gives the fragment stage; exactly "geometry" gives the geometry stage; anything else gives 0 |
| Shaders.SizeTSub | src/Renderer/Shader.cpp:80 | size_t subtraction, wrapping modulo 2^64 |
| Shaders.Substr | src/Renderer/Shader.cpp:80 | `substr(pos, count)`: at most count characters from pos, and never more than remain |
| Shaders.Find | src/Renderer/Shader.cpp:75 | `find(pat, from)`: the first occurrence at or after from, or none when there is no occurrence |
| Shaders.FindFirstLineBreak | src/Renderer/Shader.cpp:78 | `find_first_of("\r\n", from)`: the first line break at or after from, or none |
| Shaders.FindFirstNonBreak | src/Renderer/Shader.cpp:82 | `find_first_not_of("\r\n", from)`: the first other character at or after from, or none |
| Shaders.SectionFrom | src/Renderer/Shader.cpp:83-87 | the text from start up to the next `#type` token (whose position it returns) or to the end |
| Shaders.Step | src/Renderer/Shader.cpp:78-87 | one loop pass: fails with out_of_range when nothing follows the `#type` line; otherwise it files the section under its stage |
| Shaders.PreProcess | src/Renderer/Shader.cpp:69-90 | the while loop returns SplitSource of the file |
| Shaders.StepGrows | src/Renderer/Shader.cpp:85-87 | one pass keeps every stage and adds the one it read |
| Shaders.SectionsGrow | src/Renderer/Shader.cpp:76-88 | a successful split keeps every stage it had and adds at least one |
| Shaders.SplitSourceEmpty | src/Renderer/Shader.cpp:75-76 | a file splits into no sources exactly when it contains no `#type` token |
| Shaders.SectionHasNoToken | src/Renderer/Shader.cpp:83-87 | a section contains no `#type` token |
| Shaders.StepKeepsNoTokens | src/Renderer/Shader.cpp:83-87 | a pass adds only token-free text |
| Shaders.SectionsHaveNoToken | src/Renderer/Shader.cpp:76-88 | no stage the splitter collects contains a `#type` token |
| Shaders.SplitSourceHasNoToken | src/Renderer/Shader.cpp:69-90 | no stage of a split file contains a `#type` token |
| Shaders.StepReadsSection | src/Renderer/Shader.cpp:78-87 | a pass over a well-formed section reads exactly its name and its body |
| Shaders.SectionsReadCompose | src/Renderer/Shader.cpp:76-88 | the loop over composed well-formed sections reads them all, in order |
| Shaders.SplitCompose | src/Renderer/Shader.cpp:69-90 | round trip: writing well-formed sections out and splitting the file gives the stage map built from them, where a later section of a stage wins |
| Shaders.CollectKeepsOthers | src/Renderer/Shader.cpp:85 | a stage that no section names keeps its text |
| Shaders.CollectStages | src/Renderer/Shader.cpp:85 | the collected stages are those already there plus those the sections name |
| Shaders.CollectLastWins | src/Renderer/Shader.cpp:85 | the last section of a stage is the one kept |
| Shaders.FindLastSeparator | src/Renderer/Shader.cpp:28 | `find_last_of("/\\")`: the last separator, or none when there is none |
| Shaders.FindLastDot | src/Renderer/Shader.cpp:30 | `rfind('.')`: the last dot, or none when there is none |
| Shaders.NameStart | src/Renderer/Shader.cpp:28-29 | just after the last separator, or 0 |
| Shaders.FileNameFrom | src/Renderer/Shader.cpp:28-29 | the file name is everything after the last separator |
| Shaders.StemBeforeDot | src/Renderer/Shader.cpp:30-32 | with the last dot inside the file name, the stem ends at that dot |
| Shaders.ShaderNameCases | src/Renderer/Shader.cpp:28-32 | the count covers the name up to the last dot when that dot lies in the file name; otherwise the whole file name, including when the size_t count wraps |
| Shaders.ShaderNameIsStem | src/Renderer/Shader.cpp:27-32 | a shader's name is the stem of its file name |
| Shaders.ModelShaderName | src/Renderer/Shader.cpp:27-32 | "Assets/shaders/model.glsl" is named "model" |
| Shaders.TrailingHeaderThrows | src/Renderer/Shader.cpp:82-87 | as written, "#type vertex\n" fails with out_of_range |
| Shaders.StepChecked | src/Renderer/Shader.cpp:82-87 | corrected pass: a trailing `#type` line files an empty section instead of throwing |
| Shaders.SectionsCheckedAgrees | src/Renderer/Shader.cpp:76-88 | the corrected loop agrees with the source wherever the source succeeds |
| Shaders.SplitSourceCheckedAgrees | src/Renderer/Shader.cpp:69-90 | the corrected splitter agrees wherever the source succeeds, and gives a trailing `#type` line an empty section |
| Scenes.TagFor | src/Scene/Scene.cpp:98-99 | a new entity's tag is never empty: its name, or "Entity" for an empty name |
| Scenes.AddedCamera | src/Scene/Scene.cpp:765-770 | a new camera is primary without a fixed aspect ratio, and it gets the scene's viewport exactly when both dimensions are positive |
| Scenes.Remove | src/Scene/Scene.cpp:109 | the view order without the destroyed entity, the rest kept |
| Scenes.RemoveDistinct | src/Scene/Scene.cpp:109 | removing an entity keeps the view order free of repeats |
| Scenes.Required | src/Scene/Scene.cpp:371-418 | the components each view asks for: the transform and the drawn component, except that the skybox view asks for the skybox alone |
| Scenes.Stage | src/Scene/Scene.cpp:355-427 | a call's position: 0 for BeginScene, 7 for EndScene, the entity loops in between |
| Scenes.DrawFor | src/Scene/Scene.cpp:371-423 | the call of a loop for one entity is at that loop's stage and names the entity |
| Scenes.DrawsMembers | src/Scene/Scene.cpp:371-423 | each loop makes calls of its own kind only, one for every entity its view visits |
| Scenes.DrawCallsAscending | src/Scene/Scene.cpp:370-424 | the loops never go back: lights, then skyboxes, then spheres, then models |
| Scenes.SubmissionOrderStages | src/Scene/Scene.cpp:355-427 | RenderScene opens with BeginScene, closes with EndScene, makes neither in between, and visits its loops in source order |
| Scenes.NotAtStage | src/Scene/Scene.cpp:371-423 | a loop makes no call at another loop's stage |
| Scenes.StageSelectsLoop | src/Scene/Scene.cpp:371-423 | a call at a loop's stage was made by that loop |
| Scenes.SubmittedIff | src/Scene/Scene.cpp:355-427 | an entity is submitted with a kind's call exactly when it is live and has that view's components |
| Scenes.SubmitView | src/Scene/Scene.cpp:409-414 | a view's loop makes exactly the calls Draws specifies, in view order |
| Scenes.ResizeEach | src/Scene/Scene.cpp:319-325 | the camera loop gives each camera without a fixed aspect ratio the new size |
| Scenes.ResizeKeepsInvariant | src/Scene/Scene.cpp:313-326 | a resize keeps the scene invariant: no entity appears or disappears and no UUID changes |
| Scenes.Scene.constructor | src/Scene/Scene.cpp:14-18 | an empty registry and UUID map, and a zero viewport |
| Scenes.Scene.GetEntityByUUID | src/Scene/Scene.cpp:334-341 | the mapped entity, or the empty entity exactly when the UUID is unknown |
| Scenes.Scene.CreateEntityWithUUID | src/Scene/Scene.cpp:93-104 | a new handle with ID, Transform and Tag, appended to the views; the UUID is bound to it, and a UUID already present is rebound; the lookup then finds it |
| Scenes.Scene.DestroyEntity | src/Scene/Scene.cpp:106-110 | the entity's UUID leaves the map, the entity leaves the registry and the views, and nothing else changes |
| Scenes.Scene.GetPrimaryCameraEntity | src/Scene/Scene.cpp:343-353 | the first primary camera in view order, or the empty entity exactly when no live camera is primary |
| Scenes.Scene.OnViewportResize | src/Scene/Scene.cpp:313-326 | stores the size and resizes every camera without a fixed aspect ratio; entities, order and the UUID map are kept |
| Scenes.Scene.AddCameraComponent | src/Scene/Scene.cpp:765-770 | the entity gains a new camera that gets the viewport when the viewport is positive; nothing else changes |
| Scenes.Scene.AddComponent | src/Scene/Scene.cpp:709-763 | the entity gains the component, whose hook does nothing; nothing else changes |
| Scenes.Scene.RenderScene | src/Scene/Scene.cpp:355-427 | the calls made are SubmissionOrder of the registry |
| Scenes.ResizedIdempotent | src/Scene/Scene.cpp:319-325 | resizing twice to one size is resizing once |
| Scenes.ResizeCamerasEffect | src/Scene/Scene.cpp:313-326 | a resize touches cameras only: UUIDs, tags and other components are kept; fixed cameras keep their viewport; the others take the new size |
| Scenes.AddedCameraMatchesResize | src/Scene/Scene.cpp:765-770 | a camera added after a resize to a positive size has the viewport a resized camera has |
| Scenes.GetEntityByUUIDConsistent | src/Scene/Scene.cpp:334-341 | a lookup never yields a dead entity or one with another UUID |
| Scenes.DestroyForgetsOnlyItsUUID | src/Scene/Scene.cpp:106-110 | after destruction its UUID is unknown and every other UUID leads where it did |
| ProjectBrowser.LowerChar | src/Panels/ProjectBrowserPanel.cpp:35 | `::tolower`: only 'A'..'Z' change, each moving up by 32 |
| ProjectBrowser.Lower | src/Panels/ProjectBrowserPanel.cpp:35 | the string lower-cased position by position |
| ProjectBrowser.Extension | src/Panels/ProjectBrowserPanel.cpp:34 | `path.extension()`: empty, or a suffix that starts with the last '.' and contains no other '.' |
| ProjectBrowser.GetFileIconType | src/Panels/ProjectBrowserPanel.cpp:29-45 | Folder exactly for directories; Code, Image or Document exactly when the lower-cased extension is in that list |
| ProjectBrowser.LowerKeepsLastDot | src/Panels/ProjectBrowserPanel.cpp:34-35 | lower-casing keeps every '.' where it is |
| ProjectBrowser.ExtensionOfLower | src/Panels/ProjectBrowserPanel.cpp:34-35 | the extension of the lower-cased name is the lower-cased extension |
| ProjectBrowser.LowerIdempotent | src/Panels/ProjectBrowserPanel.cpp:35 | lower-casing twice is lower-casing once |
| ProjectBrowser.IconTypeIgnoresCase | src/Panels/ProjectBrowserPanel.cpp:29-45 | names that differ only in letter case get the same icon |
| ProjectBrowser.SampleIconTypes | src/Panels/ProjectBrowserPanel.cpp:37-42 | "Scene.CPP" is code, "icon.PNG" is an image, any directory is a folder |
| ProjectBrowser.SampleIconTypesWithoutMatch | src/Panels/ProjectBrowserPanel.cpp:41-44 | "README.md" is a document and ".gitignore" has no extension |
| ProjectBrowser.SampleDoubleExtension | src/Panels/ProjectBrowserPanel.cpp:34-44 | "assets.tar.gz" is judged by ".gz" |
| ProjectBrowser.LexLessIrreflexive | src/Panels/ProjectBrowserPanel.cpp:99 | std::string `<` is irreflexive |
| ProjectBrowser.LexLessTransitive | src/Panels/ProjectBrowserPanel.cpp:99 | std::string `<` is transitive |
| ProjectBrowser.LexLessTotal | src/Panels/ProjectBrowserPanel.cpp:99 | two different strings are ordered one way or the other |
| ProjectBrowser.BeforeIsStrictWeakOrder | src/Panels/ProjectBrowserPanel.cpp:95-99 | the comparator is a strict weak order, it separates distinct entries, and it puts directories first |
| ProjectBrowser.Insert | src/Panels/ProjectBrowserPanel.cpp:95-99 | inserting adds exactly one entry, as a multiset |
| ProjectBrowser.InsertSorted | src/Panels/ProjectBrowserPanel.cpp:95-99 | inserting into a sorted listing keeps it sorted |
| ProjectBrowser.SortEntries | src/Panels/ProjectBrowserPanel.cpp:95-99 | the sorted listing is a permutation of the listing and sorted by the comparator |
| ProjectBrowser.SortedListing | src/Panels/ProjectBrowserPanel.cpp:95-99 | in a sorted listing, directories come before files and names ascend within each group |
| ProjectBrowser.SortedSameHead | src/Panels/ProjectBrowserPanel.cpp:95-99 | two sorted permutations of one listing start with the same entry |
| ProjectBrowser.SortedUnique | src/Panels/ProjectBrowserPanel.cpp:95-99 | a listing has only one sorted order, so the result does not depend on the sort algorithm |
| ProjectBrowser.FilterEntries | src/Panels/ProjectBrowserPanel.cpp:104-109 | exactly the entries whose name contains the filter, or all entries for an empty filter |
| ProjectBrowser.FilterKeepsSorted | src/Panels/ProjectBrowserPanel.cpp:102-109 | filtering a sorted listing leaves it sorted |
| ProjectBrowser.DisplayFileTree | src/Panels/ProjectBrowserPanel.cpp:83-109 | the loop shows the sorted, filtered entries, in order |
| ProjectBrowser.DisplayedListing | src/Panels/ProjectBrowserPanel.cpp:83-109 | the entries shown are exactly the listed entries that pass the filter, directories first and by name |
| SphereGeometry.RowStrip | src/Renderer/Renderer3D.cpp:352-371 | a row of n column pairs has 2n indices |
| SphereGeometry.Strip | src/Renderer/Renderer3D.cpp:347 | the strip of r rows has r x 2(X_SEGMENTS + 1) indices |
| SphereGeometry.BuildSphereIndices | src/Renderer/Renderer3D.cpp:347-372 | the loop fills the whole index buffer, and its contents are the strip |
| SphereGeometry.WriteEvenRow | src/Renderer/Renderer3D.cpp:354-361 | an even row writes its column pairs left to right, advancing k by 2(X_SEGMENTS + 1), and nothing else changes |
| SphereGeometry.WriteOddRow | src/Renderer/Renderer3D.cpp:362-369 | an odd row writes its column pairs right to left, advancing k by 2(X_SEGMENTS + 1), and nothing else changes |
| SphereGeometry.StripMatchesClosedForm | src/Renderer/Renderer3D.cpp:352-371 | entry k of the strip equals an independent closed form of row, column and vertex |
| SphereGeometry.RowStripVertices | src/Renderer/Renderer3D.cpp:356-368 | each index of row y is a vertex of row y or row y + 1 |
| SphereGeometry.StripIndicesInRange | src/Renderer/Renderer3D.cpp:297-372 | every index names one of the (X_SEGMENTS + 1)(Y_SEGMENTS + 1) vertices |
| SphereGeometry.PairsAreVertical | src/Renderer/Renderer3D.cpp:358-367 | each column pair joins a vertex with the one a grid row below it |
| Renderer3DSpec.InitialState | src/Renderer/Renderer3D.cpp:426-429 | the state after Init keeps the invariant: the white texture in slot 0, slot index 1, everything else empty |
| Renderer3DSpec.StartBatch | src/Renderer/Renderer3D.cpp:500-519 | keeps the capacity invariant (see StartBatchEmpties for its effect) |
| Renderer3DSpec.StartBatchSteps | src/Renderer/Renderer3D.cpp:500-519 | StartBatch is assembled from the cleared slot table and the release of every batch's buffer |
| Renderer3DSpec.BindEvents | src/Renderer/Renderer3D.cpp:564-565 | one bind per used slot: slot i is bound to unit i |
| Renderer3DSpec.PendingDraws | src/Renderer/Renderer3D.cpp:591-608 | the meshes Flush draws are exactly the batches with at least one instance |
| Renderer3DSpec.ClearedBatches | src/Renderer/Renderer3D.cpp:615-619 | every batch is emptied and none is dropped |
| Renderer3DSpec.Flush | src/Renderer/Renderer3D.cpp:551-622 | keeps the capacity invariant (see FlushBindsAndCounts and FlushDrawsQueued) |
| Renderer3DSpec.FlushSteps | src/Renderer/Renderer3D.cpp:551-622 | Flush is assembled from the skybox, bind, sphere and model events, the mesh count and the emptied batches |
| Renderer3DSpec.NextBatch | src/Renderer/Renderer3D.cpp:624-628 | keeps the capacity invariant (see NextBatchConserves) |
| Renderer3DSpec.BeginScene | src/Renderer/Renderer3D.cpp:457-488 | keeps the capacity invariant (see BeginSceneStartsEmpty) |
| Renderer3DSpec.EndScene | src/Renderer/Renderer3D.cpp:490-498 | keeps the capacity invariant (see EndSceneDrawsAndClearsLights) |
| Renderer3DSpec.FindSlot | src/Renderer/Renderer3D.cpp:262-269 | the first slot of the range that holds the texture, or none exactly when no slot in the range holds it |
| Renderer3DSpec.ResolveChannel | src/Renderer/Renderer3D.cpp:256-284 | keeps the slot-table invariant (see ResolveChannelSlot) |
| Renderer3DSpec.ClaimSlot | src/Renderer/Renderer3D.cpp:280-282 | keeps the slot-table invariant when it puts a new texture in the first free slot |
| Renderer3DSpec.ResolveChannels | src/Renderer/Renderer3D.cpp:253-285 | keeps the invariant and yields one index per channel |
| Renderer3DSpec.ResolveMaterial | src/Renderer/Renderer3D.cpp:245-287 | seven indices; a null material gives seven zeros and changes nothing |
| Renderer3DSpec.DrawSphere | src/Renderer/Renderer3D.cpp:630-671 | keeps the capacity invariant, including the sphere cap (see DrawSphereCounts) |
| Renderer3DSpec.SphereRoom | src/Renderer/Renderer3D.cpp:635-638 | afterwards the sphere list has room for one more |
| Renderer3DSpec.LookupBatch | src/Renderer/Renderer3D.cpp:690-696 | afterwards the mesh has a batch with an instance buffer |
| Renderer3DSpec.PushMesh | src/Renderer/Renderer3D.cpp:732-733 | keeps the invariant when appending to a batch with room |
| Renderer3DSpec.DrawMesh | src/Renderer/Renderer3D.cpp:679-736 | keeps the capacity invariant (see DrawMeshAddsOne) |
| Renderer3DSpec.DrawMeshes | src/Renderer/Renderer3D.cpp:679-736 | keeps the capacity invariant over the mesh loop |
| Renderer3DSpec.DrawModel | src/Renderer/Renderer3D.cpp:673-740 | keeps the capacity invariant; a set path with a null model ends at the null dereference (see DrawModelCounts and NullModelDereferenced) |
| Renderer3DSpec.DrawLight | src/Renderer/Renderer3D.cpp:742-825 | keeps the light caps 4/8/8 (see DrawLightStoresWithRoom) |
| Renderer3DSpec.FlushLights | src/Renderer/Renderer3D.cpp:521-549 | keeps the capacity invariant (see FlushLightsUploadsCounts) |
| Renderer3DSpec.DrawHdrSkybox | src/Renderer/Renderer3D.cpp:827-832 | keeps the capacity invariant (see DrawHdrSkyboxIdempotent) |
| Renderer3DSpec.ResetStats | src/Renderer/Renderer3D.cpp:834-837 | keeps the capacity invariant (see ResetStatsZeroes) |
| Renderer3D.CollectDraws | src/Renderer/Renderer3D.cpp:591-608 | the loop collects the non-empty batches and counts them |
| Renderer3D.ClearBatches | src/Renderer/Renderer3D.cpp:615-619 | the loop empties every batch and keeps every key |
| Renderer3D.DanglingStaysDangling | src/Renderer/Renderer3D.cpp:690-732 | once the mesh loop reaches the dangling reference, the remaining meshes change nothing in the model |
| Renderer3D.BindSlots | src/Renderer/Renderer3D.cpp:564-565 | the loop binds slot i to unit i for each used slot |
| Renderer3D.ClearSlots | src/Renderer/Renderer3D.cpp:503-506 | the loop sets every slot except slot 0 to null |
| Renderer3D.Renderer3DData.Init | src/Renderer/Renderer3D.cpp:404-451 | a fresh 32-slot table; the state is InitialState |
| Renderer3D.Renderer3DData.StartBatch | src/Renderer/Renderer3D.cpp:500-519 | the new state is StartBatch of the old one |
| Renderer3D.Renderer3DData.Flush | src/Renderer/Renderer3D.cpp:551-622 | the new state is Flush of the old one |
| Renderer3D.Renderer3DData.NextBatch | src/Renderer/Renderer3D.cpp:624-628 | the new state is NextBatch of the old one |
| Renderer3D.Renderer3DData.BeginScene | src/Renderer/Renderer3D.cpp:457-488 | the new state is BeginScene of the old one and the camera |
| Renderer3D.Renderer3DData.EndScene | src/Renderer/Renderer3D.cpp:490-498 | the new state is EndScene of the old one |
| Renderer3D.Renderer3DData.FindTextureSlot | src/Renderer/Renderer3D.cpp:260-269 | -1 exactly when no used slot from 1 on holds the texture; otherwise the first that does |
| Renderer3D.Renderer3DData.ResolveTexture | src/Renderer/Renderer3D.cpp:256-284 | the index and the new state are ResolveChannel of the old state |
| Renderer3D.Renderer3DData.GetMaterialTextureIndices | src/Renderer/Renderer3D.cpp:245-287 | the indices and the new state are ResolveMaterial of the old state |
| Renderer3D.Renderer3DData.DrawSphere | src/Renderer/Renderer3D.cpp:630-671 | the new state is DrawSphere of the old one |
| Renderer3D.Renderer3DData.PushSphereRecord | src/Renderer/Renderer3D.cpp:640-670 | the record is appended and counted, as PushSphere specifies |
| Renderer3D.Renderer3DData.LookupBatch | src/Renderer/Renderer3D.cpp:690-696 | the new state is LookupBatch of the old one, and the returned batch is the mesh's |
| Renderer3D.Renderer3DData.DrawMesh | src/Renderer/Renderer3D.cpp:679-736 | the new state and the completion flag are DrawMesh of the old state |
| Renderer3D.Renderer3DData.PushMeshRecord | src/Renderer/Renderer3D.cpp:732-733 | the record is appended to the mesh's batch, as PushMesh specifies |
| Renderer3D.Renderer3DData.DrawModel | src/Renderer/Renderer3D.cpp:673-740 | the new state and the completion flag are DrawModel of the old state; an incomplete draw is the null-model crash when the model is null, and the dangling reference otherwise |
| Renderer3D.Renderer3DData.DrawNextMesh | src/Renderer/Renderer3D.cpp:679-736 | one more mesh of the loop, as DrawMeshes over one more mesh specifies |
| Renderer3D.Renderer3DData.CountDrawnModel | src/Renderer/Renderer3D.cpp:738-739 | both model counters go up by one |
| Renderer3D.Renderer3DData.DrawLight | src/Renderer/Renderer3D.cpp:742-825 | the new state is DrawLight of the old one and the light's parameters |
| Renderer3D.Renderer3DData.FlushLights | src/Renderer/Renderer3D.cpp:521-549 | the new state is FlushLights of the old one |
| Renderer3D.Renderer3DData.DrawHdrSkybox | src/Renderer/Renderer3D.cpp:827-832 | the new state is DrawHdrSkybox of the old one |
| Renderer3D.Renderer3DData.ResetStats | src/Renderer/Renderer3D.cpp:834-837 | the new state is ResetStats of the old one |
| Renderer3DProperties.ResolveChannelState | src/Renderer/Renderer3D.cpp:256-284 | one channel flushes at most once, never while the table has room, and without a flush it only extends the table by at most one slot |
| Renderer3DProperties.ResolveChannelSlot | src/Renderer/Renderer3D.cpp:256-284 | index 0 exactly for null and white textures; a found or newly claimed slot holds the texture |
| Renderer3DProperties.ResolveChannelFinds | src/Renderer/Renderer3D.cpp:262-274 | a texture already in a used slot is found at that slot and nothing changes |
| Renderer3DProperties.ResolveChannelsState | src/Renderer/Renderer3D.cpp:253-285 | the white slot stays; the draw-call count only grows, and not at all when every channel finds a free slot |
| Renderer3DProperties.ResolveChannelsIndices | src/Renderer/Renderer3D.cpp:253-285 | every index is a used slot, and it is 0 exactly for null and white textures |
| Renderer3DProperties.ResolveChannelsSlots | src/Renderer/Renderer3D.cpp:253-285 | without an overflow flush, the table is only extended and every non-zero index names its channel's texture |
| Renderer3DProperties.ResolveMaterialWithRoom | src/Renderer/Renderer3D.cpp:245-287 | a material whose channels fit in the free slots resolves without a flush, with every index naming its texture |
| Renderer3DProperties.FlushDrawsQueuedSpheres | src/Renderer/Renderer3D.cpp:567-582 | Flush draws exactly the queued spheres, after those drawn before |
| Renderer3DProperties.FlushDrawsQueuedMeshes | src/Renderer/Renderer3D.cpp:584-612 | Flush draws exactly the instances queued for each mesh, after those drawn before |
| Renderer3DProperties.FlushEmptiesBatches | src/Renderer/Renderer3D.cpp:615-619 | Flush leaves no instance queued |
| Renderer3DProperties.PendingDrawsQueued | src/Renderer/Renderer3D.cpp:596-605 | the model draws of a Flush hold exactly each batch's queued instances |
| Renderer3DProperties.FlushDrawsQueued | src/Renderer/Renderer3D.cpp:551-622 | Flush loses nothing: every queued sphere and mesh instance is drawn |
| Renderer3DProperties.StartBatchDrawsNothing | src/Renderer/Renderer3D.cpp:500-519 | StartBatch draws nothing |
| Renderer3DProperties.NextBatchConserves | src/Renderer/Renderer3D.cpp:624-628 | NextBatch draws everything queued before it empties the batch |
| Renderer3DProperties.ResolveChannelConserves | src/Renderer/Renderer3D.cpp:277-282 | resolving a channel, even with a flush, loses nothing queued |
| Renderer3DProperties.ResolveChannelsConserves | src/Renderer/Renderer3D.cpp:253-285 | resolving the channels loses nothing queued |
| Renderer3DProperties.ResolveMaterialConserves | src/Renderer/Renderer3D.cpp:245-287 | resolving a material loses nothing queued |
| Renderer3DProperties.DrawSphereQueuesOne | src/Renderer/Renderer3D.cpp:630-671 | DrawSphere queues exactly one record, built from the resolved indices, and loses nothing queued |
| Renderer3DProperties.SphereRoomConserves | src/Renderer/Renderer3D.cpp:635-638 | the sphere capacity check loses nothing queued |
| Renderer3DProperties.PushSphereQueues | src/Renderer/Renderer3D.cpp:640-669 | the record is queued after the ones already queued |
| Renderer3DProperties.DrawSphereCounts | src/Renderer/Renderer3D.cpp:630-671 | the sphere list stays within MaxSphereCount; the record is the last one queued; one sphere is counted |
| Renderer3DProperties.CountMesh | src/Renderer/Renderer3D.cpp:679-688 | how many meshes of the model have a given ID, at most their number |
| Renderer3DProperties.LookupBatchConserves | src/Renderer/Renderer3D.cpp:690-696 | looking a batch up loses nothing queued |
| Renderer3DProperties.DrawMeshAddsOne | src/Renderer/Renderer3D.cpp:679-736 | a completed mesh step adds one instance of its mesh and nothing else, and loses nothing |
| Renderer3DProperties.DrawMeshCounters | src/Renderer/Renderer3D.cpp:679-736 | a completed mesh step keeps the model counters, except that an overflow flush resets ModelCount |
| Renderer3DProperties.ResolveChannelsCounters | src/Renderer/Renderer3D.cpp:253-285 | resolving keeps the model counters, except that a flush resets ModelCount |
| Renderer3DProperties.DrawMeshesAdd | src/Renderer/Renderer3D.cpp:679-736 | a completed mesh loop adds one instance per mesh |
| Renderer3DProperties.DrawMeshesCounters | src/Renderer/Renderer3D.cpp:679-736 | a completed mesh loop keeps the model counters, except that a flush on the way resets ModelCount |
| Renderer3DProperties.DrawModelCounts | src/Renderer/Renderer3D.cpp:673-740 | an empty path does nothing; otherwise a completed draw counts one model and one instance per mesh and loses nothing; ModelCount goes up by one, or counts this model alone after a flush |
| Renderer3DProperties.StartBatchEmpties | src/Renderer/Renderer3D.cpp:500-519 | only the white slot is left, with no spheres and no batches; lights, camera, skybox and statistics are untouched |
| Renderer3DProperties.FlushBindsAndCounts | src/Renderer/Renderer3D.cpp:551-622 | binds every used slot in order; counts one draw call and one mesh draw per non-empty batch; keeps the slot table and the sphere list; empties every batch without dropping it |
| Renderer3DProperties.EndSceneDrawsAndClearsLights | src/Renderer/Renderer3D.cpp:490-498 | EndScene draws everything queued and forgets the frame's lights |
| Renderer3DProperties.BeginSceneStartsEmpty | src/Renderer/Renderer3D.cpp:457-488 | BeginScene stores the camera and starts an empty batch |
| Renderer3DProperties.DrawLightStoresWithRoom | src/Renderer/Renderer3D.cpp:759-824 | a light is stored exactly when its kind's list has room, as the last entry, and the other lists are kept; a spot light stores cos(outer) as InnerConeCos and cos(inner) as OuterConeCos |
| Renderer3DProperties.FlushLightsUploadsCounts | src/Renderer/Renderer3D.cpp:521-549 | the upload carries the collected lights with matching counts of at most 4, 8 and 8 |
| Renderer3DProperties.DrawHdrSkyboxIdempotent | src/Renderer/Renderer3D.cpp:827-832 | afterwards the requested map is current; it is loaded only when it differs from the current map; a second call changes nothing |
| Renderer3DProperties.ResetStatsZeroes | src/Renderer/Renderer3D.cpp:834-837 | every counter becomes zero and nothing else changes |
| Renderer3DFindings.NextBatchFacts | src/Renderer/Renderer3D.cpp:624-628 | after NextBatch only the white slot is in use, with no spheres and no batches, and one more draw call is counted |
| Renderer3DFindings.ResolveChannelsAppend | src/Renderer/Renderer3D.cpp:253-285 | resolving two runs of channels in turn is resolving them as one run |
| Renderer3DFindings.FreshClaims | src/Renderer/Renderer3D.cpp:280-282 | a new texture with a free slot takes the first free slot |
| Renderer3DFindings.FreshRestarts | src/Renderer/Renderer3D.cpp:277-282 | a new texture with the table full starts a new batch and takes slot 1 |
| Renderer3DFindings.TwoFreshAcrossFlush | src/Renderer/Renderer3D.cpp:271-282 | with one free slot, two new textures in a row get slots 31 and 1, with a flush in between |
| Renderer3DFindings.StaleIndexAfterMidMaterialFlush | src/Renderer/Renderer3D.cpp:277-282 | as written: the first channel keeps index 31, which in the new batch holds no texture |
| Renderer3DFindings.ResolveMaterialChecked | src/Renderer/Renderer3D.cpp:245-287 | corrected: seven indices, keeping the invariant |
| Renderer3DFindings.ResolveMaterialCheckedNames | src/Renderer/Renderer3D.cpp:245-287 | corrected: every index names its channel's texture in the batch that is left; at most one new batch, and only when the free slots were too few |
| Renderer3DFindings.ResolveMaterialCheckedConserves | src/Renderer/Renderer3D.cpp:245-287 | the corrected resolution loses nothing queued |
| Renderer3DFindings.StaleSphereIndexAfterSphereFlush | src/Renderer/Renderer3D.cpp:633-638 | as written: with the sphere list full, the sphere is queued with the index of a slot that the new batch left empty |
| Renderer3DFindings.DrawSphereChecked | src/Renderer/Renderer3D.cpp:630-671 | corrected DrawSphere: keeps the invariant |
| Renderer3DFindings.SphereRoomFacts | src/Renderer/Renderer3D.cpp:635-638 | the capacity check keeps the white texture and the sphere statistics |
| Renderer3DFindings.DrawSphereCheckedNames | src/Renderer/Renderer3D.cpp:630-671 | corrected DrawSphere queues the sphere last and counts it; every non-zero index names its texture in the sphere's batch |
| Renderer3DFindings.DanglingWhenBatchFull | src/Renderer/Renderer3D.cpp:690-733 | as written: with the mesh's batch full, the step flushes while it holds a reference into the batch map that the flush cleared |
| Renderer3DFindings.MeshRoom | src/Renderer/Renderer3D.cpp:698-701 | corrected room check: keeps the invariant and leaves room in the mesh's batch |
| Renderer3DFindings.MeshRoomFacts | src/Renderer/Renderer3D.cpp:698-701 | the room check keeps the white texture and the model statistics |
| Renderer3DFindings.MeshRoomConserves | src/Renderer/Renderer3D.cpp:698-701 | the room check loses nothing queued |
| Renderer3DFindings.LookupBatchRoom | src/Renderer/Renderer3D.cpp:690-696 | looking up a batch with room leaves room and touches no slot |
| Renderer3DFindings.PushMeshLast | src/Renderer/Renderer3D.cpp:732-733 | the appended instance is the batch's last; neither the slots nor the statistics change |
| Renderer3DFindings.PushMeshAdds | src/Renderer/Renderer3D.cpp:732-733 | appending adds one instance of that mesh |
| Renderer3DFindings.DrawMeshChecked | src/Renderer/Renderer3D.cpp:679-736 | corrected mesh step: keeps the invariant |
| Renderer3DFindings.DrawMeshCheckedNames | src/Renderer/Renderer3D.cpp:679-736 | the corrected step queues the record last; every non-zero index names its texture in that batch |
| Renderer3DFindings.DrawMeshCheckedAddsOne | src/Renderer/Renderer3D.cpp:679-736 | the corrected step loses nothing and adds one instance of its mesh |
| Renderer3DFindings.DrawMeshesChecked | src/Renderer/Renderer3D.cpp:679-736 | the corrected loop keeps the invariant |
| Renderer3DFindings.DrawMeshesCheckedAdd | src/Renderer/Renderer3D.cpp:679-736 | the corrected loop adds one instance per mesh and loses nothing |
| Renderer3DFindings.NullModelDereferenced | src/Renderer/Renderer3D.cpp:674-679 | as written: a set path with a null model reaches the dereference of the null pointer before anything is drawn |
| Renderer3DFindings.DrawModelCheckedCounts | src/Renderer/Renderer3D.cpp:673-740 | the corrected DrawModel always finishes: an empty path or a null model changes nothing; otherwise one model counted and one instance per mesh, with nothing lost |

## Left out

- GPU work is not modelled: shader compilation, buffer uploads, texture
  creation and binding beyond the recorded events, skybox baking, framebuffers
  and shadows. The renderer records it as `GpuEvent`s.
- The floating-point values in the source are modelled as `real`: vertex
  positions, matrices, fmod, cos and decomposing a transform into a position and
  a direction. The decomposed position and direction of DrawLight are
  parameters.
- Logging (LOG_CORE_INFO/WARN, std::cerr) is left out. It has no effect on
  state.
- File and model I/O is left out: LoadShaderFile, Texture2D::Create from a path,
  Model::Create and Assimp. Their outcomes are parameters. Examples: the
  `created` argument of ModelManager.GetModel, and the `createFails` argument of
  TextureManager.GetTexture (a successful load takes the next renderer ID from
  a counter).
- Materials.MaterialResources.InitDefaultMaterialResources: requires that the
  1x1 Texture2D::Create(1, 1) yields a texture. Texture.cpp is not part of this
  model, so a null default white texture is not modelled. Every material
  channel is therefore non-null.
- Animation's per-bone interpolation is left out: InterpolatePosition,
  InterpolateRotation, InterpolateScaling and Bone::Update are floating
  quaternion and matrix work.
- Animation::ReadHeirarchyData and Animator::CalculateBoneTransform walk the
  Assimp node tree and compose matrices. They are not modelled; UpdateAnimation
  and SetProgress model only the clock. After the bone pass (Animation.cpp:201
  and 248) their contracts say nothing about the bone matrices.
- Animations.Animator.UpdateAnimation: requires a non-zero duration while
  running, because fmod by zero yields NaN, which `real` cannot express. It
  also requires a current animation: Animation.cpp:201 dereferences
  `m_CurrentAnimation` without a check, so the source crashes on a null one.
- Animations.Animator.SetProgress: for a duration below 0.01, the
  `std::clamp` of Animation.cpp:246 has its upper bound below its lower bound,
  which is undefined behaviour. The model's `Clamp` still returns a value
  there (the lower bound for a time below it, the upper bound above it), but
  the source promises nothing in that case. ProgressTime states its range only
  for a duration of at least 0.01.
- Integer widths are explicit where the source's state depends on them: the
  32-bit ID counters of MeshManager and MaterialManager, and size_t subtraction
  in the shader-name arithmetic. Elsewhere counts stay far below their
  limits and are unbounded `nat`.
- The registry's handle allocation and recycling are not modelled. A new entity
  gets a handle no live entity has. The view order is a sequence: entt's
  iteration order is unspecified and follows the sequence here.
- Scene::Copy, DuplicateEntity, NewScene, OnRuntime*/OnSimulation* (physics and
  scripting), OnUpdate*, and the SceneManager's shadow hooks are not modelled.
  Scene.h is not part of this model.
- Scenes.SceneInvariant and Scenes.GetEntityByUUIDConsistent hold for scenes
  built by the modelled operations only. NewScene (Scene.cpp:432-442 and each block after it) keys
  `m_EntityMap` by a fresh `UUID()` rather than the entity's IDComponent UUID.
  After it, a key can lead to an entity with another UUID. DestroyEntity also
  erases by the IDComponent UUID, so it can leave a dead entity in the map.
- CreateEntity draws a random UUID. Only CreateEntityWithUUID is modelled, with
  the UUID as a parameter.
- The Scene constructor's camera texture and scene manager are not modelled.
- TextureManager's use_count branches in UnloadTexture only choose a log
  message. Reference counting of shared textures is not tracked.
- Materials.Material.GetID: a getter with no contract of its own.
- ProjectBrowser: std::sort is specified by its result only, a sorted
  permutation; SortedUnique shows that result is unique. Directory iteration,
  is_directory and filename() are inputs. The ImGui drawing, recursion into
  open folders, icons and drag-and-drop are not modelled.
- Renderer3D's Init creates subsystems (shaders, samplers, SSBOs, the skybox,
  material 0): only the slot table's white texture and the empty state are
  modelled. The vertex half of InitSphereGeometry is floating point.
- Renderer3D: DrawModel iterates over `src.Model->GetMeshs()`. In the model,
  the meshes arrive as a sequence of (ID, material view) pairs. A null model
  pointer is the flag `modelLoaded`. DrawModel as written dereferences it and
  crashes, which the model records as the outcome `NullModel`.
- A failed Assimp import is not a null model. Model::Create always returns a
  model (Model.cpp:196-198), and a failed import only logs and returns from
  loading (Model.cpp:119-122). The result is a non-null model with no meshes,
  which GetModel caches. The model covers this as `created != null` with empty
  `meshes`, and as `modelLoaded` with empty `meshes` in DrawModel. The null
  branches of GetModel and DrawModel stand for a Model::Create that yields
  null, which the shipped one never does.
- ModelManagers.ModelManager.GetModel: the mesh IDs are stated only for a
  model whose meshes are distinct objects, below the 32-bit wrap. A mesh that
  appears twice keeps the ID of its last AddMesh, and past the wrap the
  counter restarts at 0. The mesh map and counter are still stated exactly,
  through RegisterAll.
- Renderer3DSpec.DrawSphere and Renderer3DSpec.DrawMesh: the material is
  never null. In the source, a null `Material` gets seven zero indices
  (Renderer3D.cpp:249) and is then dereferenced (Renderer3D.cpp:644-648 and
  708-712). That is a crash, not modelled beyond ResolveMaterial's own null
  case.
- Renderer3D: when the mesh loop reaches a full batch, the source appends
  through a reference into a batch map that NextBatch just cleared, which is
  undefined behaviour. The model stops at that point with a `Dangling` outcome
  and does not model what follows.
- Renderer3D: the corrected functions of Renderer3DFindings are not used by
  the class `Renderer3DData`, which models the code as written.
- Renderer3DFindings.DrawModelChecked: its own contract is empty to keep the
  proof small. DrawModelCheckedCounts states what it does.
- The LightData entries past the counts in FlushLights are uninitialised
  locals in the source. Only the active prefixes are modelled.
- Renderer3D.h lists DrawDirectionalLight, DrawPointLight and DrawSpotLight,
  which Renderer3D.cpp does not define. They are not modelled beyond the
  scene's submission calls.

## Findings

| source | as written | input that shows it | evidently intended | confidence | as-written member | corrected member |
|---|---|---|---|---|---|---|
| src/Renderer/Renderer3D.cpp:277-282 | GetMaterialTextureIndices may call NextBatch between channels of one material, and the indices already handed out for earlier channels are kept | a material whose first two channels are new textures while only slot 31 is free | every index a material gets names its texture in the batch the draw ends up in; room for all seven channels is made before the first one is resolved | not executed | `Renderer3DFindings.StaleIndexAfterMidMaterialFlush` | `Renderer3DFindings.ResolveMaterialCheckedNames` |
| src/Renderer/Renderer3D.cpp:633-638 | DrawSphere resolves the material's slots first and flushes for sphere capacity afterwards | 20000 spheres queued and a material with a new texture | the capacity check comes before slot resolution, so the record's indices refer to the batch it is drawn in | not executed | `Renderer3DFindings.StaleSphereIndexAfterSphereFlush` | `Renderer3DFindings.DrawSphereCheckedNames` |
| src/Renderer/Renderer3D.cpp:674-679 | DrawModel checks only that ModelPath is non-empty, then dereferences `src.Model` | none in the code shown. It is reachable only if GetModel returned null: the panel (SceneHierarchyPanel.cpp:497-500) and the serializer (SceneSerializer.cpp:451-452) store the path together with GetModel's result, but the shipped Model::Create never yields null (Model.cpp:196-198), and a failed import gives a model with no meshes | skip the component when the model is null, as the panel itself does at SceneHierarchyPanel.cpp:518 | low, latent; not executed | `Renderer3DFindings.NullModelDereferenced` | `Renderer3DFindings.DrawModelCheckedCounts` |
| src/Renderer/Renderer3D.cpp:690-733 | DrawModel takes a reference to `ModelDrawCallBatches[key]`, then NextBatch clears the map, then the instance is appended through the reference | a mesh whose batch already holds 2000 instances | flush first, then look the batch up again, so the instance goes into a live batch | not executed | `Renderer3DFindings.DanglingWhenBatchFull` | `Renderer3DFindings.DrawModelCheckedCounts` |
| src/Renderer/Shader.cpp:82-87 | a `#type` line at the end of the file leaves `nextLinePos` at npos, and `substr(npos)` throws std::out_of_range | "#type vertex\n" | the stage gets an empty section | not executed | `Shaders.TrailingHeaderThrows` | `Shaders.SplitSourceCheckedAgrees` |

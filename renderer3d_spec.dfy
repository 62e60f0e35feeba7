/** The batched draw-submission state machine of src/Renderer/Renderer3D.cpp,
    as pure functions on a snapshot of the global `s_Data` record.

    GPU work (texture binds, buffer uploads, instanced draws, the skybox pass)
    is recorded as `GpuEvent`s appended to `trace`. The draws of one Flush over
    the unordered model-batch map are one `DrawModels` event (the map's iteration
    order is unspecified), and StartBatch's buffer releases are one
    `DestroyInstanceBuffers` event. The class in renderer3d.dfy implements every
    function here step by step. */
module Renderer3DSpec {
  import opened Wrappers
  import opened MathTypes
  import opened Textures
  import opened Lights
  import opened Materials

  const MaxTextureSlots: nat := 32
  const MaxSphereCount: nat := 20000
  /** Declared next to MaxInstancesPerModel and never read. */
  const MaxUniqueModels: nat := 32
  const MaxInstancesPerModel: nat := 2000
  const MaxDirectionalLights: nat := 4
  const MaxPointLights: nat := 8
  const MaxSpotLights: nat := 8

  /** SphereInstanceData; `mapIndices` are the seven *MapIndex fields in
      TextureType order. */
  datatype SphereInstance = SphereInstance(
    transform: Mat4, tintColor: Vec4, albedoColor: Vec4, emissiveColor: Vec4,
    roughness: real, metallic: real, ao: real, mapIndices: seq<int>,
    tilingFactor: real, entityId: int,
    receivesPbr: int, receivesIbl: int, receivesLight: int)

  /** MeshInstanceData. */
  datatype MeshInstance = MeshInstance(
    transform: Mat4, tintColor: Vec4, albedoColor: Vec4, emissiveColor: Vec4,
    roughness: real, metallic: real, ao: real, mapIndices: seq<int>,
    entityId: int, flipUv: int,
    receivesPbr: int, receivesIbl: int, receivesLight: int)

  datatype StoredDirectionalLight = StoredDirectionalLight(direction: Vec3, intensity: real, color: Vec3)
  datatype StoredPointLight = StoredPointLight(position: Vec3, intensity: real, color: Vec3, radius: real)
  /** StoredSpotLight. The source stores glm::cos of a cone angle in each of the
      two cone fields; the model keeps the angle whose cosine is stored. */
  datatype StoredSpotLight = StoredSpotLight(
    position: Vec3, intensity: real, color: Vec3, radius: real, direction: Vec3,
    innerConeCosOf: real, outerConeCosOf: real)

  /** The active entries of the LightData block FlushLights uploads. */
  datatype LightData = LightData(
    cameraPosition: Vec3,
    numDirectionalLights: int, numPointLights: int, numSpotLights: int,
    directionalLights: seq<StoredDirectionalLight>, pointLights: seq<StoredPointLight>,
    spotLights: seq<StoredSpotLight>)

  /** ModelCallBatch; `hasInstanceBuffer` is InstanceSSBO != nullptr. */
  datatype ModelCallBatch = ModelCallBatch(instances: seq<MeshInstance>, hasInstanceBuffer: bool, instanceCount: nat)

  datatype CameraData = CameraData(projection: Mat4, view: Mat4, viewProjection: Mat4, cameraPosition: Vec3)

  /** Renderer3D::Statistics. */
  datatype Statistics = Statistics(drawCalls: nat, sphereCount: nat, modelCount: nat, meshCount: nat)

  datatype GpuEvent =
    | RenderHdrSkybox(path: string, projection: Mat4, view: Mat4)
    | BindTexture(slot: nat, texture: TexRef)
    | DrawSpheres(viewProjection: Mat4, instances: seq<SphereInstance>)
    | DrawModels(viewProjection: Mat4, draws: map<nat, seq<MeshInstance>>)
    | CreateInstanceBuffer(meshId: nat)
    | DestroyInstanceBuffers(meshIds: set<nat>)
    | UploadLights(data: LightData)
    | LoadHdrMap(path: string)

  /** The fields of SphereRendererComponent that DrawSphere reads. */
  datatype SphereSource = SphereSource(
    material: MaterialView, color: Vec4, tilingFactor: real,
    receivesPbr: bool, receivesIbl: bool, receivesLight: bool)

  /** One mesh of a model: its MeshManager ID and its material. */
  datatype MeshView = MeshView(meshId: nat, material: MaterialView)

  /** The fields of ModelRendererComponent that DrawModel reads; `meshes` is
      `Model->GetMeshs()`. `modelLoaded` is false when `Model` is null, which
      happens only if ModelManager::GetModel returns null; the shipped
      Model::Create never yields null, so a failed import arrives as a loaded
      model with no meshes. `meshes` means nothing when `modelLoaded` is false. */
  datatype ModelSource = ModelSource(
    modelPath: string, modelLoaded: bool, meshes: seq<MeshView>, color: Vec4, flipUv: bool,
    receivesPbr: bool, receivesIbl: bool, receivesLight: bool)

  /** The mutable part of s_Data. */
  datatype RendererState = RendererState(
    textureSlots: seq<TexRef>, textureSlotIndex: nat, whiteTexture: TexRef,
    hdrPath: string,
    sphereCount: nat, sphereInstances: seq<SphereInstance>,
    modelCount: nat, modelDrawCallBatches: map<nat, ModelCallBatch>,
    directionalLights: seq<StoredDirectionalLight>, pointLights: seq<StoredPointLight>,
    spotLights: seq<StoredSpotLight>,
    cameraBuffer: CameraData, stats: Statistics, trace: seq<GpuEvent>)

  ghost predicate BatchInv(b: ModelCallBatch)
  {
    b.hasInstanceBuffer && |b.instances| == b.instanceCount <= MaxInstancesPerModel
  }

  /** The texture slot table: slot 0 holds the white texture, slots
      1..TextureSlotIndex-1 hold distinct other textures, the rest are null. */
  ghost predicate SlotTableInv(s: RendererState)
  {
    && |s.textureSlots| == MaxTextureSlots
    && 1 <= s.textureSlotIndex <= MaxTextureSlots
    && s.whiteTexture.Tex? && s.textureSlots[0] == s.whiteTexture
    && (forall i :: 1 <= i < s.textureSlotIndex ==> s.textureSlots[i].Tex? && s.textureSlots[i] != s.whiteTexture)
    && (forall i, j :: 1 <= i < j < s.textureSlotIndex ==> s.textureSlots[i] != s.textureSlots[j])
    && (forall i :: s.textureSlotIndex <= i < MaxTextureSlots ==> s.textureSlots[i] == NullTex)
  }

  /** Everything the renderer keeps within its capacities. */
  ghost predicate Inv(s: RendererState)
  {
    && SlotTableInv(s)
    && |s.sphereInstances| == s.sphereCount <= MaxSphereCount
    && (forall k :: k in s.modelDrawCallBatches ==> BatchInv(s.modelDrawCallBatches[k]))
    && |s.directionalLights| <= MaxDirectionalLights
    && |s.pointLights| <= MaxPointLights
    && |s.spotLights| <= MaxSpotLights
  }

  const ZeroStats: Statistics := Statistics(0, 0, 0, 0)

  /** The state Init leaves: the white texture in slot 0, everything else empty,
      and a skybox whose path is "". The camera is unset until BeginScene. */
  function InitialState(white: TexRef): (s: RendererState)
    requires white.Tex?
    ensures Inv(s) && s.textureSlotIndex == 1 && s.textureSlots[0] == white
  {
    RendererState(
      [white] + seq(MaxTextureSlots - 1, _ => NullTex), 1, white, "",
      0, [], 0, map[], [], [], [],
      CameraData([], [], [], []), ZeroStats, [])
  }

  // ---------------------------------------------------------------------------
  // Batch and frame control

  /** StartBatch: empties the slot table (keeping slot 0), the sphere list and
      the model batches, releasing every batch's instance buffer. */
  function StartBatch(s: RendererState): (r: RendererState)
    requires Inv(s)
    ensures Inv(r)
  {
    s.(textureSlotIndex := 1,
       textureSlots := [s.textureSlots[0]] + seq(MaxTextureSlots - 1, _ => NullTex),
       sphereCount := 0, sphereInstances := [],
       modelDrawCallBatches := map[], modelCount := 0,
       trace := s.trace +
         (if s.modelDrawCallBatches == map[] then []
          else [DestroyInstanceBuffers(s.modelDrawCallBatches.Keys)]))
  }

  /** StartBatch assembled from its parts: the cleared slot table and the
      buffer release. */
  lemma StartBatchSteps(s: RendererState, slots: seq<TexRef>, releases: seq<GpuEvent>)
    requires Inv(s)
    requires slots == [s.textureSlots[0]] + seq(MaxTextureSlots - 1, _ => NullTex)
    requires releases == if s.modelDrawCallBatches == map[] then [] else [DestroyInstanceBuffers(s.modelDrawCallBatches.Keys)]
    ensures StartBatch(s) == s.(textureSlotIndex := 1, textureSlots := slots, sphereCount := 0, sphereInstances := [],
                                modelDrawCallBatches := map[], modelCount := 0, trace := s.trace + releases)
  {
  }

  function HdrEvents(s: RendererState): seq<GpuEvent>
  {
    if s.hdrPath != "" then [RenderHdrSkybox(s.hdrPath, s.cameraBuffer.projection, s.cameraBuffer.view)] else []
  }

  /** `TextureSlots[i]->Bind(i)` for i = 0 .. n-1. */
  function BindEvents(slots: seq<TexRef>, n: nat): (r: seq<GpuEvent>)
    requires n <= |slots|
    ensures |r| == n
    ensures forall i :: 0 <= i < n ==> r[i] == BindTexture(i, slots[i])
  {
    if n == 0 then [] else BindEvents(slots, n - 1) + [BindTexture(n - 1, slots[n - 1])]
  }

  function SphereEvents(s: RendererState): seq<GpuEvent>
  {
    if s.sphereCount > 0 then [DrawSpheres(s.cameraBuffer.viewProjection, s.sphereInstances)] else []
  }

  /** The batches Flush draws: those with InstanceCount > 0, by mesh ID. */
  function PendingDraws(batches: map<nat, ModelCallBatch>): (r: map<nat, seq<MeshInstance>>)
    ensures forall k :: k in r <==> k in batches && batches[k].instanceCount > 0
  {
    map k | k in batches && batches[k].instanceCount > 0 :: batches[k].instances
  }

  function ClearBatch(b: ModelCallBatch): ModelCallBatch
  {
    b.(instances := [], instanceCount := 0)
  }

  function ClearedBatches(batches: map<nat, ModelCallBatch>): (r: map<nat, ModelCallBatch>)
    ensures r.Keys == batches.Keys
  {
    map k | k in batches :: ClearBatch(batches[k])
  }

  /** Flush: draws what is queued and empties the model batches; the texture
      table and the sphere list stay until the next StartBatch. */
  function Flush(s: RendererState): (r: RendererState)
    requires Inv(s)
    ensures Inv(r)
  {
    var draws := PendingDraws(s.modelDrawCallBatches);
    s.(modelDrawCallBatches := ClearedBatches(s.modelDrawCallBatches),
       stats := s.stats.(drawCalls := s.stats.drawCalls + 1, meshCount := s.stats.meshCount + |draws|),
       trace := s.trace + HdrEvents(s) + BindEvents(s.textureSlots, s.textureSlotIndex) + SphereEvents(s)
                + [DrawModels(s.cameraBuffer.viewProjection, draws)])
  }

  /** Flush assembled from its parts: the skybox, bind, sphere and model
      events, the drawn count and the emptied batches. */
  lemma FlushSteps(s: RendererState, hdr: seq<GpuEvent>, binds: seq<GpuEvent>, sphereDraws: seq<GpuEvent>,
                   draws: map<nat, seq<MeshInstance>>, drawn: nat, cleared: map<nat, ModelCallBatch>)
    requires Inv(s)
    requires hdr == HdrEvents(s) && binds == BindEvents(s.textureSlots, s.textureSlotIndex) && sphereDraws == SphereEvents(s)
    requires draws == PendingDraws(s.modelDrawCallBatches) && drawn == |draws|
    requires cleared == ClearedBatches(s.modelDrawCallBatches)
    ensures Flush(s) == s.(modelDrawCallBatches := cleared,
                           stats := s.stats.(drawCalls := s.stats.drawCalls + 1, meshCount := s.stats.meshCount + drawn),
                           trace := s.trace + hdr + binds + sphereDraws + [DrawModels(s.cameraBuffer.viewProjection, draws)])
  {
  }

  function NextBatch(s: RendererState): (r: RendererState)
    requires Inv(s)
    ensures Inv(r)
  {
    StartBatch(Flush(s))
  }

  /** Every BeginScene overload stores the camera and then calls StartBatch. The
      three overloads differ only in how they compute the camera matrices. */
  function BeginScene(s: RendererState, camera: CameraData): (r: RendererState)
    requires Inv(s)
    ensures Inv(r)
  {
    StartBatch(s.(cameraBuffer := camera))
  }

  function EndScene(s: RendererState): (r: RendererState)
    requires Inv(s)
    ensures Inv(r)
  {
    Flush(s).(directionalLights := [], pointLights := [], spotLights := [])
  }

  // ---------------------------------------------------------------------------
  // Texture slot resolution (Utils::GetMaterialTextureIndices)

  /** The first slot in [from, end) that holds `t`. */
  function FindSlot(slots: seq<TexRef>, from: nat, end: nat, t: TexRef): (r: Option<nat>)
    requires end <= |slots|
    ensures r.Some? ==> from <= r.value < end && slots[r.value] == t
    ensures r.Some? ==> forall j :: from <= j < r.value ==> slots[j] != t
    ensures r.None? ==> forall j :: from <= j < end ==> slots[j] != t
    decreases end - from
  {
    if from >= end then None
    else if slots[from] == t then Some(from)
    else FindSlot(slots, from + 1, end, t)
  }

  /** `s2` is `s` with nothing changed but slots at or above s's TextureSlotIndex. */
  ghost predicate SlotsExtended(s: RendererState, s2: RendererState)
    requires |s.textureSlots| == |s2.textureSlots| == MaxTextureSlots && s.textureSlotIndex <= MaxTextureSlots
  {
    && s2 == s.(textureSlots := s2.textureSlots, textureSlotIndex := s2.textureSlotIndex)
    && s.textureSlotIndex <= s2.textureSlotIndex
    && forall i :: 0 <= i < s.textureSlotIndex ==> s2.textureSlots[i] == s.textureSlots[i]
  }

  /** One channel of GetMaterialTextureIndices: the slot for `t` and the new
      state. Renderer3DProperties.ResolveChannelSlot states what it computes. */
  function ResolveChannel(s: RendererState, t: TexRef): (r: (int, RendererState))
    requires Inv(s)
    ensures Inv(r.1)
  {
    if t.NullTex? || t == s.whiteTexture then (0, s)
    else match FindSlot(s.textureSlots, 1, s.textureSlotIndex, t)
      case Some(i) => (i, s)
      case None =>
        var s1 := if s.textureSlotIndex >= MaxTextureSlots then NextBatch(s) else s;
        (s1.textureSlotIndex, ClaimSlot(s1, t))
  }

  /** Puts a texture that is in no used slot into the first free slot. */
  function ClaimSlot(s: RendererState, t: TexRef): (r: RendererState)
    requires Inv(s) && s.textureSlotIndex < MaxTextureSlots
    requires t.Tex? && t != s.whiteTexture
    requires forall j :: 1 <= j < s.textureSlotIndex ==> s.textureSlots[j] != t
    ensures Inv(r)
  {
    s.(textureSlots := s.textureSlots[s.textureSlotIndex := t], textureSlotIndex := s.textureSlotIndex + 1)
  }

  /** The channels of `ts` resolved left to right. */
  function ResolveChannels(s: RendererState, ts: seq<TexRef>): (r: (seq<int>, RendererState))
    requires Inv(s)
    ensures Inv(r.1) && |r.0| == |ts|
    decreases |ts|
  {
    if ts == [] then ([], s)
    else
      var prev := ResolveChannels(s, ts[..|ts| - 1]);
      var last := ResolveChannel(prev.1, ts[|ts| - 1]);
      (prev.0 + [last.0], last.1)
  }

  /** GetMaterialTextureIndices: seven zeros for a null material, otherwise the
      seven channels resolved in TextureType order. */
  function ResolveMaterial(s: RendererState, material: Option<MaterialView>): (r: (seq<int>, RendererState))
    requires Inv(s)
    requires material.Some? ==> |material.value.textures| == TextureTypeCount
    ensures Inv(r.1) && |r.0| == TextureTypeCount
    ensures material.None? ==> r.1 == s && forall c :: 0 <= c < TextureTypeCount ==> r.0[c] == 0
  {
    if material.None? then (seq(TextureTypeCount, _ => 0), s)
    else ResolveChannels(s, material.value.textures)
  }

  // ---------------------------------------------------------------------------
  // Spheres

  function BoolToInt(b: bool): int { if b then 1 else 0 }

  function SphereRecord(transform: Mat4, src: SphereSource, indices: seq<int>, entityId: int): SphereInstance
  {
    SphereInstance(transform, src.color, src.material.albedo, src.material.emissive + [1.0],
      src.material.roughness, src.material.metallic, src.material.ao, indices,
      src.tilingFactor, entityId,
      BoolToInt(src.receivesPbr), BoolToInt(src.receivesIbl), BoolToInt(src.receivesLight))
  }

  /** Appends a record to the sphere list and counts it. */
  function PushSphere(s: RendererState, rec: SphereInstance): RendererState
  {
    s.(sphereInstances := s.sphereInstances + [rec], sphereCount := s.sphereCount + 1,
       stats := s.stats.(sphereCount := s.stats.sphereCount + 1))
  }

  /** DrawSphere as written: the material's slots are resolved first, then the
      sphere capacity is checked (which may start a new batch), then the record
      with the resolved indices is appended. */
  function DrawSphere(s: RendererState, transform: Mat4, src: SphereSource, entityId: int): (r: RendererState)
    requires Inv(s) && |src.material.textures| == TextureTypeCount
    ensures Inv(r)
  {
    var res := ResolveMaterial(s, Some(src.material));
    PushSphere(SphereRoom(res.1), SphereRecord(transform, src, res.0, entityId))
  }

  /** DrawSphere's capacity check: a new batch when the sphere list is full. */
  function SphereRoom(s: RendererState): (r: RendererState)
    requires Inv(s)
    ensures Inv(r) && r.sphereCount < MaxSphereCount
  {
    if s.sphereCount >= MaxSphereCount then NextBatch(s) else s
  }

  // ---------------------------------------------------------------------------
  // Models

  function MeshRecord(transform: Mat4, src: ModelSource, material: MaterialView, indices: seq<int>, entityId: int): MeshInstance
  {
    MeshInstance(transform, src.color, material.albedo, material.emissive + [1.0],
      material.roughness, material.metallic, material.ao, indices, entityId,
      BoolToInt(src.flipUv),
      BoolToInt(src.receivesPbr), BoolToInt(src.receivesIbl), BoolToInt(src.receivesLight))
  }

  /** `ModelDrawCallBatches[key]` (inserting an empty batch when absent) and
      creating its instance buffer when it has none. */
  function LookupBatch(s: RendererState, key: nat): (r: RendererState)
    requires Inv(s)
    ensures Inv(r) && key in r.modelDrawCallBatches
  {
    var b := if key in s.modelDrawCallBatches then s.modelDrawCallBatches[key] else ModelCallBatch([], false, 0);
    if b.hasInstanceBuffer then s.(modelDrawCallBatches := s.modelDrawCallBatches[key := b])
    else s.(modelDrawCallBatches := s.modelDrawCallBatches[key := b.(hasInstanceBuffer := true)],
            trace := s.trace + [CreateInstanceBuffer(key)])
  }

  function PushMesh(s: RendererState, key: nat, rec: MeshInstance): (r: RendererState)
    requires Inv(s) && key in s.modelDrawCallBatches
    requires s.modelDrawCallBatches[key].instanceCount < MaxInstancesPerModel
    ensures Inv(r)
  {
    var b := s.modelDrawCallBatches[key];
    s.(modelDrawCallBatches := s.modelDrawCallBatches[key := b.(instances := b.instances + [rec], instanceCount := b.instanceCount + 1)])
  }

  /** The result of a model draw. `Dangling` is the state reached when DrawModel
      started a new batch while holding a reference into the batch map: the
      source then appends through a reference to a destroyed batch, which is
      undefined behaviour, so nothing after that point is modelled. `NullModel`
      is the state in which DrawModel dereferences a null `Model` pointer: it
      crashes there. */
  datatype DrawOutcome = Completed(state: RendererState) | Dangling(state: RendererState) | NullModel(state: RendererState)

  ghost predicate MeshesWellFormed(meshes: seq<MeshView>)
  {
    forall i :: 0 <= i < |meshes| ==> |meshes[i].material.textures| == TextureTypeCount
  }

  /** One iteration of DrawModel's mesh loop, as written. */
  function DrawMesh(s: RendererState, transform: Mat4, src: ModelSource, entityId: int, mesh: MeshView): (r: DrawOutcome)
    requires Inv(s) && |mesh.material.textures| == TextureTypeCount
    ensures Inv(r.state)
  {
    var res := ResolveMaterial(s, Some(mesh.material));
    var s2 := LookupBatch(res.1, mesh.meshId);
    if s2.modelDrawCallBatches[mesh.meshId].instanceCount >= MaxInstancesPerModel then Dangling(NextBatch(s2))
    else Completed(PushMesh(s2, mesh.meshId, MeshRecord(transform, src, mesh.material, res.0, entityId)))
  }

  /** The mesh loop over a prefix of the model's meshes. */
  function DrawMeshes(s: RendererState, transform: Mat4, src: ModelSource, entityId: int, meshes: seq<MeshView>): (r: DrawOutcome)
    requires Inv(s) && MeshesWellFormed(meshes)
    ensures Inv(r.state)
    decreases |meshes|
  {
    if meshes == [] then Completed(s)
    else
      var prev := DrawMeshes(s, transform, src, entityId, meshes[..|meshes| - 1]);
      if !prev.Completed? then prev
      else DrawMesh(prev.state, transform, src, entityId, meshes[|meshes| - 1])
  }

  function CountModel(s: RendererState): RendererState
  {
    s.(modelCount := s.modelCount + 1, stats := s.stats.(modelCount := s.stats.modelCount + 1))
  }

  /** DrawModel as written: nothing for an empty ModelPath; a crash on a null
      Model pointer; otherwise the mesh loop followed by the model counters. */
  function DrawModel(s: RendererState, transform: Mat4, src: ModelSource, entityId: int): (r: DrawOutcome)
    requires Inv(s) && MeshesWellFormed(src.meshes)
    ensures Inv(r.state)
  {
    if src.modelPath == "" then Completed(s)
    else if !src.modelLoaded then NullModel(s)
    else
      var o := DrawMeshes(s, transform, src, entityId, src.meshes);
      if o.Completed? then Completed(CountModel(o.state)) else o
  }

  // ---------------------------------------------------------------------------
  // Lights, skybox, statistics

  /** DrawLight: the light is stored when its kind's list has room, and dropped
      (with a warning) otherwise. `position` and `direction` are what the source
      decomposes out of the transform. An inner/outer swap is kept from the
      source: InnerConeCos is taken of the outer angle and OuterConeCos of the
      inner one. */
  function DrawLight(s: RendererState, light: LightParams, position: Vec3, direction: Vec3): (r: RendererState)
    requires Inv(s)
    ensures Inv(r)
  {
    match light.lightType
    case Directional =>
      if |s.directionalLights| < MaxDirectionalLights
      then s.(directionalLights := s.directionalLights + [StoredDirectionalLight(direction, light.intensity, light.color)])
      else s
    case Point =>
      if |s.pointLights| < MaxPointLights
      then s.(pointLights := s.pointLights + [StoredPointLight(position, light.intensity, light.color, light.radius)])
      else s
    case Spot =>
      if |s.spotLights| < MaxSpotLights
      then s.(spotLights := s.spotLights + [StoredSpotLight(position, light.intensity, light.color, light.radius,
                                                            direction, light.outerConeAngle, light.innerConeAngle)])
      else s
  }

  function LightDataOf(s: RendererState): LightData
  {
    LightData(s.cameraBuffer.cameraPosition,
      |s.directionalLights|, |s.pointLights|, |s.spotLights|,
      s.directionalLights, s.pointLights, s.spotLights)
  }

  /** FlushLights: packs the collected lights and uploads them. */
  function FlushLights(s: RendererState): (r: RendererState)
    requires Inv(s)
    ensures Inv(r)
  {
    s.(trace := s.trace + [UploadLights(LightDataOf(s))])
  }

  /** DrawHdrSkybox: reloads the skybox only for a path other than the current one. */
  function DrawHdrSkybox(s: RendererState, path: string): (r: RendererState)
    requires Inv(s)
    ensures Inv(r)
  {
    if path == s.hdrPath then s else s.(hdrPath := path, trace := s.trace + [LoadHdrMap(path)])
  }

  function ResetStats(s: RendererState): (r: RendererState)
    requires Inv(s)
    ensures Inv(r)
  {
    s.(stats := ZeroStats)
  }
}

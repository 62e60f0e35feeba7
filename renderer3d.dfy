/** The renderer's global state (`s_Data` in src/Renderer/Renderer3D.cpp) and
    the Renderer3D operations that update it in place. Every method is proved
    to leave exactly the state its Renderer3DSpec function describes. */
module Renderer3D {
  import opened Wrappers
  import opened MathTypes
  import opened Textures
  import opened Lights
  import opened Materials
  import opened Renderer3DSpec

  /** Flush's first loop over the batch map: the batches with instances, and
      how many there are. */
  method CollectDraws(batches: map<nat, ModelCallBatch>) returns (draws: map<nat, seq<MeshInstance>>, drawn: nat)
    ensures draws == PendingDraws(batches) && drawn == |draws|
  {
    var remaining := batches.Keys;
    draws := map[];
    drawn := 0;
    while remaining != {}
      invariant remaining <= batches.Keys
      invariant draws == map k | k in batches && k !in remaining && batches[k].instanceCount > 0 :: batches[k].instances
      invariant drawn == |draws|
      decreases |remaining|
    {
      var k :| k in remaining;
      if batches[k].instanceCount > 0 {
        assert k !in draws;
        draws := draws[k := batches[k].instances];
        drawn := drawn + 1;
      }
      remaining := remaining - {k};
    }
  }

  /** Flush's second loop over the batch map: every batch emptied, in place. */
  method ClearBatches(batches: map<nat, ModelCallBatch>) returns (cleared: map<nat, ModelCallBatch>)
    ensures cleared == ClearedBatches(batches)
  {
    cleared := batches;
    var remaining := batches.Keys;
    while remaining != {}
      invariant remaining <= batches.Keys
      invariant cleared.Keys == batches.Keys
      invariant forall k :: k in batches ==>
        cleared[k] == if k in remaining then batches[k] else ClearBatch(batches[k])
      decreases |remaining|
    {
      var k :| k in remaining;
      cleared := cleared[k := ClearBatch(cleared[k])];
      remaining := remaining - {k};
    }
  }

  /** Once the mesh loop dangles, the rest of the meshes change nothing. */
  lemma {:induction false} DanglingStaysDangling(s: RendererState, transform: Mat4, src: ModelSource, entityId: int,
                                                 meshes: seq<MeshView>, n: nat)
    requires Inv(s) && MeshesWellFormed(meshes) && 0 < n <= |meshes|
    requires DrawMeshes(s, transform, src, entityId, meshes[..n]).Dangling?
    ensures DrawMeshes(s, transform, src, entityId, meshes) == DrawMeshes(s, transform, src, entityId, meshes[..n])
    decreases |meshes| - n
  {
    if n < |meshes| {
      assert meshes[..n + 1][..n] == meshes[..n];
      DanglingStaysDangling(s, transform, src, entityId, meshes, n + 1);
    } else {
      assert meshes[..n] == meshes;
    }
  }

  /** Flush's bind loop: slot i is bound to texture unit i, for every used slot. */
  method BindSlots(slots: array<TexRef>, used: nat) returns (binds: seq<GpuEvent>)
    requires used <= slots.Length
    ensures binds == BindEvents(slots[..], used)
  {
    binds := [];
    for i := 0 to used
      invariant binds == BindEvents(slots[..], i)
    {
      binds := binds + [BindTexture(i, slots[i])];
    }
  }

  /** StartBatch's slot loop: every slot but the white one set to null. */
  method ClearSlots(slots: array<TexRef>)
    requires slots.Length == MaxTextureSlots
    modifies slots
    ensures slots[..] == [old(slots[0])] + seq(MaxTextureSlots - 1, _ => NullTex)
  {
    for i := 1 to MaxTextureSlots
      invariant slots[0] == old(slots[0])
      invariant forall j :: 1 <= j < i ==> slots[j] == NullTex
    {
      slots[i] := NullTex;
    }
    assert slots[..] == [old(slots[0])] + seq(MaxTextureSlots - 1, _ => NullTex);
  }

  class Renderer3DData {
    const textureSlots: array<TexRef>
    var textureSlotIndex: nat
    var whiteTexture: TexRef
    /** The path of the loaded HDR skybox ("" while none is loaded). */
    var hdrPath: string
    var sphereCount: nat
    var sphereInstances: seq<SphereInstance>
    var modelCount: nat
    var modelDrawCallBatches: map<nat, ModelCallBatch>
    var directionalLights: seq<StoredDirectionalLight>
    var pointLights: seq<StoredPointLight>
    var spotLights: seq<StoredSpotLight>
    var cameraBuffer: CameraData
    var stats: Statistics
    /** The GPU work submitted so far. */
    var trace: seq<GpuEvent>

    ghost function State(): RendererState
      reads this, textureSlots
    {
      RendererState(textureSlots[..], textureSlotIndex, whiteTexture, hdrPath,
        sphereCount, sphereInstances, modelCount, modelDrawCallBatches,
        directionalLights, pointLights, spotLights, cameraBuffer, stats, trace)
    }

    ghost predicate Valid()
      reads this, textureSlots
    {
      textureSlots.Length == MaxTextureSlots && Inv(State())
    }

    /** Init: creates the slot table with the white texture in slot 0. */
    constructor Init(white: TexRef)
      requires white.Tex?
      ensures Valid() && State() == InitialState(white)
      ensures fresh(textureSlots)
    {
      var slots := new TexRef[MaxTextureSlots](_ => NullTex);
      slots[0] := white;
      textureSlots := slots;
      textureSlotIndex := 1;
      whiteTexture := white;
      hdrPath := "";
      sphereCount := 0;
      sphereInstances := [];
      modelCount := 0;
      modelDrawCallBatches := map[];
      directionalLights := [];
      pointLights := [];
      spotLights := [];
      cameraBuffer := CameraData([], [], [], []);
      stats := ZeroStats;
      trace := [];
      new;
      assert textureSlots[..] == [white] + seq(MaxTextureSlots - 1, _ => NullTex);
    }

    method StartBatch()
      requires Valid()
      modifies this, textureSlots
      ensures State() == Renderer3DSpec.StartBatch(old(State()))
      ensures Valid()
    {
      ghost var s := State();
      ClearSlots(textureSlots);
      // Releasing the buffers of all batches is one event: the map's iteration
      // order is unspecified.
      var releases := if modelDrawCallBatches == map[] then [] else [DestroyInstanceBuffers(modelDrawCallBatches.Keys)];
      StartBatchSteps(s, textureSlots[..], releases);
      textureSlotIndex, sphereCount, sphereInstances, trace, modelDrawCallBatches, modelCount :=
        1, 0, [], trace + releases, map[], 0;
    }

    method Flush()
      requires Valid()
      modifies this
      ensures State() == Renderer3DSpec.Flush(old(State()))
      ensures Valid()
    {
      ghost var s := State();
      var hdr := if hdrPath != "" then [RenderHdrSkybox(hdrPath, cameraBuffer.projection, cameraBuffer.view)] else [];
      var binds := BindSlots(textureSlots, textureSlotIndex);
      var sphereDraws := if sphereCount > 0 then [DrawSpheres(cameraBuffer.viewProjection, sphereInstances)] else [];
      var draws, drawn := CollectDraws(modelDrawCallBatches);
      var cleared := ClearBatches(modelDrawCallBatches);
      FlushSteps(s, hdr, binds, sphereDraws, draws, drawn, cleared);
      modelDrawCallBatches, stats, trace :=
        cleared,
        stats.(drawCalls := stats.drawCalls + 1, meshCount := stats.meshCount + drawn),
        trace + hdr + binds + sphereDraws + [DrawModels(cameraBuffer.viewProjection, draws)];
    }

    method NextBatch()
      requires Valid()
      modifies this, textureSlots
      ensures State() == Renderer3DSpec.NextBatch(old(State()))
      ensures Valid()
    {
      Flush();
      StartBatch();
    }

    method BeginScene(camera: CameraData)
      requires Valid()
      modifies this, textureSlots
      ensures State() == Renderer3DSpec.BeginScene(old(State()), camera)
      ensures Valid()
    {
      cameraBuffer := camera;
      StartBatch();
    }

    method EndScene()
      requires Valid()
      modifies this
      ensures State() == Renderer3DSpec.EndScene(old(State()))
      ensures Valid()
    {
      Flush();
      directionalLights := [];
      pointLights := [];
      spotLights := [];
    }

    /** The scan of slots 1 .. TextureSlotIndex-1 for a texture equal to `texture`. */
    method FindTextureSlot(texture: TexRef) returns (found: int)
      requires Valid()
      ensures found == -1 <==> FindSlot(textureSlots[..], 1, textureSlotIndex, texture).None?
      ensures found != -1 ==> found == FindSlot(textureSlots[..], 1, textureSlotIndex, texture).value
    {
      found := -1;
      var slotIndex := 1;
      while slotIndex < textureSlotIndex
        invariant 1 <= slotIndex <= textureSlotIndex
        invariant FindSlot(textureSlots[..], 1, textureSlotIndex, texture)
               == FindSlot(textureSlots[..], slotIndex, textureSlotIndex, texture)
        decreases textureSlotIndex - slotIndex
      {
        if textureSlots[slotIndex] == texture {
          found := slotIndex;
          break;
        }
        slotIndex := slotIndex + 1;
      }
    }

    /** One pass of GetMaterialTextureIndices' channel loop. */
    method ResolveTexture(texture: TexRef) returns (index: int)
      requires Valid()
      modifies this, textureSlots
      ensures (index, State()) == ResolveChannel(old(State()), texture)
      ensures Valid()
    {
      if texture.NullTex? || texture == whiteTexture {
        return 0;
      }
      var found := FindTextureSlot(texture);
      if found != -1 {
        return found;
      }
      if textureSlotIndex >= MaxTextureSlots {
        NextBatch();
      }
      index := textureSlotIndex;
      textureSlots[textureSlotIndex] := texture;
      textureSlotIndex := textureSlotIndex + 1;
    }

    /** Utils::GetMaterialTextureIndices. */
    method GetMaterialTextureIndices(material: Option<MaterialView>) returns (indices: seq<int>)
      requires Valid()
      requires material.Some? ==> |material.value.textures| == TextureTypeCount
      modifies this, textureSlots
      ensures (indices, State()) == ResolveMaterial(old(State()), material)
      ensures Valid()
    {
      if material.None? {
        return seq(TextureTypeCount, _ => 0);
      }
      var textures := material.value.textures;
      indices := [];
      for c := 0 to TextureTypeCount
        invariant Valid()
        invariant (indices, State()) == ResolveChannels(old(State()), textures[..c])
      {
        assert textures[..c + 1][..c] == textures[..c];
        var index := ResolveTexture(textures[c]);
        indices := indices + [index];
      }
      assert textures[..TextureTypeCount] == textures;
    }

    method DrawSphere(transform: Mat4, src: SphereSource, entityId: int)
      requires Valid() && |src.material.textures| == TextureTypeCount
      modifies this, textureSlots
      ensures State() == Renderer3DSpec.DrawSphere(old(State()), transform, src, entityId)
      ensures Valid()
    {
      var arrIndex := GetMaterialTextureIndices(Some(src.material));
      if sphereCount >= MaxSphereCount {
        NextBatch();
      }
      PushSphereRecord(SphereRecord(transform, src, arrIndex, entityId));
    }

    method PushSphereRecord(rec: SphereInstance)
      requires Valid() && sphereCount < MaxSphereCount
      modifies this
      ensures State() == PushSphere(old(State()), rec)
      ensures Valid()
    {
      sphereInstances := sphereInstances + [rec];
      sphereCount := sphereCount + 1;
      stats := stats.(sphereCount := stats.sphereCount + 1);
    }

    /** `ModelDrawCallBatches[key]`, creating the batch's instance buffer on
        first use. */
    method LookupBatch(key: nat) returns (batch: ModelCallBatch)
      requires Valid()
      modifies this
      ensures State() == Renderer3DSpec.LookupBatch(old(State()), key)
      ensures batch == modelDrawCallBatches[key]
      ensures Valid()
    {
      batch := if key in modelDrawCallBatches then modelDrawCallBatches[key] else ModelCallBatch([], false, 0);
      if !batch.hasInstanceBuffer {
        batch := batch.(hasInstanceBuffer := true);
        trace := trace + [CreateInstanceBuffer(key)];
      }
      modelDrawCallBatches := modelDrawCallBatches[key := batch];
    }

    /** One pass of DrawModel's mesh loop; false when it reached a full batch. */
    method DrawMesh(transform: Mat4, src: ModelSource, entityId: int, mesh: MeshView) returns (completed: bool)
      requires Valid() && |mesh.material.textures| == TextureTypeCount
      modifies this, textureSlots
      ensures Renderer3DSpec.DrawMesh(old(State()), transform, src, entityId, mesh)
           == if completed then Completed(State()) else Dangling(State())
      ensures Valid()
    {
      var material := mesh.material;
      var arrIndex := GetMaterialTextureIndices(Some(material));
      var key := mesh.meshId;
      var batch := LookupBatch(key);
      if batch.instanceCount >= MaxInstancesPerModel {
        NextBatch();
        return false;
      }
      PushMeshRecord(key, MeshRecord(transform, src, material, arrIndex, entityId));
      return true;
    }

    method PushMeshRecord(key: nat, rec: MeshInstance)
      requires Valid() && key in modelDrawCallBatches
      requires modelDrawCallBatches[key].instanceCount < MaxInstancesPerModel
      modifies this
      ensures State() == PushMesh(old(State()), key, rec)
      ensures Valid()
    {
      var batch := modelDrawCallBatches[key];
      modelDrawCallBatches := modelDrawCallBatches[key := batch.(instances := batch.instances + [rec],
                                                                instanceCount := batch.instanceCount + 1)];
    }

    /** DrawModel. Returns false where the source goes wrong: on a null Model
        pointer, which it dereferences, and when the mesh loop reached a full
        batch, after which the source starts a new batch and goes on writing
        through a reference into the map that batch cleared; the method stops
        right after the NextBatch call. */
    method DrawModel(transform: Mat4, src: ModelSource, entityId: int) returns (completed: bool)
      requires Valid() && MeshesWellFormed(src.meshes)
      modifies this, textureSlots
      ensures Renderer3DSpec.DrawModel(old(State()), transform, src, entityId)
           == if completed then Completed(State())
              else if src.modelLoaded then Dangling(State())
              else NullModel(State())
      ensures Valid()
    {
      if src.modelPath == "" {
        return true;
      }
      if !src.modelLoaded {
        return false;
      }
      ghost var s0 := State();
      var meshes := src.meshes;
      var i := 0;
      completed := true;
      while i < |meshes| && completed
        invariant Valid() && i <= |meshes|
        invariant DrawMeshes(s0, transform, src, entityId, meshes[..i])
               == if completed then Completed(State()) else Dangling(State())
      {
        completed := DrawNextMesh(s0, transform, src, entityId, meshes, i);
        i := i + 1;
      }
      if !completed {
        DanglingStaysDangling(s0, transform, src, entityId, meshes, i);
        return;
      }
      assert meshes[..|meshes|] == meshes;
      CountDrawnModel();
    }

    method DrawNextMesh(ghost s0: RendererState, transform: Mat4, src: ModelSource, entityId: int,
                        meshes: seq<MeshView>, i: nat) returns (completed: bool)
      requires Valid() && Inv(s0) && MeshesWellFormed(meshes) && i < |meshes|
      requires DrawMeshes(s0, transform, src, entityId, meshes[..i]) == Completed(State())
      modifies this, textureSlots
      ensures DrawMeshes(s0, transform, src, entityId, meshes[..i + 1])
           == if completed then Completed(State()) else Dangling(State())
      ensures Valid()
    {
      assert meshes[..i + 1][..i] == meshes[..i];
      completed := DrawMesh(transform, src, entityId, meshes[i]);
    }

    /** The model counters DrawModel bumps after its mesh loop. */
    method CountDrawnModel()
      requires Valid()
      modifies this
      ensures State() == CountModel(old(State()))
      ensures Valid()
    {
      modelCount := modelCount + 1;
      stats := stats.(modelCount := stats.modelCount + 1);
    }

    method DrawLight(light: SceneLight, position: Vec3, direction: Vec3)
      requires Valid()
      modifies this
      ensures State() == Renderer3DSpec.DrawLight(old(State()), light.Params(), position, direction)
      ensures Valid()
    {
      match light.lightType
      case Directional =>
        if |directionalLights| < MaxDirectionalLights {
          directionalLights := directionalLights + [StoredDirectionalLight(direction, light.intensity, light.color)];
        }
      case Point =>
        if |pointLights| < MaxPointLights {
          pointLights := pointLights + [StoredPointLight(position, light.intensity, light.color, light.radius)];
        }
      case Spot =>
        if |spotLights| < MaxSpotLights {
          spotLights := spotLights + [StoredSpotLight(position, light.intensity, light.color, light.radius,
                                                      direction, light.outerConeAngle, light.innerConeAngle)];
        }
    }

    method FlushLights()
      requires Valid()
      modifies this
      ensures State() == Renderer3DSpec.FlushLights(old(State()))
      ensures Valid()
    {
      var data := LightData(cameraBuffer.cameraPosition,
        |directionalLights|, |pointLights|, |spotLights|,
        directionalLights, pointLights, spotLights);
      trace := trace + [UploadLights(data)];
    }

    method DrawHdrSkybox(path: string)
      requires Valid()
      modifies this
      ensures State() == Renderer3DSpec.DrawHdrSkybox(old(State()), path)
      ensures Valid()
    {
      if path == hdrPath {
        return;
      }
      hdrPath := path;
      trace := trace + [LoadHdrMap(path)];
    }

    method ResetStats()
      requires Valid()
      modifies this
      ensures State() == Renderer3DSpec.ResetStats(old(State()))
      ensures Valid()
    {
      stats := ZeroStats;
    }
  }
}

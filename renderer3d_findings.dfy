/** Three hazards in the batching of src/Renderer/Renderer3D.cpp. Each one is
    shown on the code as written (Renderer3DSpec) by a lemma naming the inputs
    that expose it, and is paired with a corrected definition whose intended
    property is proved:

    - a texture index taken before an overflow flush in the middle of one
      material names a slot of the batch that was flushed;
    - DrawSphere resolves the material before its capacity check, so a sphere
      flush empties the slot table its indices point into;
    - DrawModel takes a reference to a mesh batch and then, when the batch is
      full, starts a new batch, which destroys the batch it refers to. */
module Renderer3DFindings {
  import opened Wrappers
  import opened MathTypes
  import opened Textures
  import opened Materials
  import opened Renderer3DSpec
  import opened Renderer3DProperties

  /** A texture that needs a slot of its own: a real texture, not the white
      one, and in no used slot. */
  ghost predicate Fresh(s: RendererState, t: TexRef)
  {
    && t.Tex? && t != s.whiteTexture && s.textureSlotIndex <= |s.textureSlots|
    && forall j :: 1 <= j < s.textureSlotIndex ==> s.textureSlots[j] != t
  }

  /** `idx` names the textures `ts` in the batch of `r`: each index is a used
      slot, 0 exactly for null channels and channels holding the white texture,
      and any other index a slot that holds its channel's texture. */
  ghost predicate IndicesName(idx: seq<int>, ts: seq<TexRef>, white: TexRef, r: RendererState)
  {
    && |idx| == |ts| && r.textureSlotIndex <= |r.textureSlots|
    && forall c :: 0 <= c < |ts| ==>
         && 0 <= idx[c] < r.textureSlotIndex
         && (idx[c] == 0 <==> (ts[c].NullTex? || ts[c] == white))
         && (idx[c] != 0 ==> r.textureSlots[idx[c]] == ts[c])
  }

  /** The naming survives any step that keeps the slot table. */
  lemma IndicesNameKept(idx: seq<int>, ts: seq<TexRef>, white: TexRef, a: RendererState, b: RendererState)
    requires IndicesName(idx, ts, white, a)
    requires b.textureSlots == a.textureSlots && b.textureSlotIndex == a.textureSlotIndex
    ensures IndicesName(idx, ts, white, b)
  {
  }

  /** What a flush-and-restart leaves: only the white slot in use, no spheres,
      no model batches, and one more draw call counted. */
  lemma NextBatchFacts(s: RendererState)
    requires Inv(s)
    ensures var r := NextBatch(s);
      && r.textureSlotIndex == 1 && r.whiteTexture == s.whiteTexture
      && r.sphereInstances == [] && r.modelDrawCallBatches == map[]
      && r.stats.drawCalls == s.stats.drawCalls + 1
      && r.stats.sphereCount == s.stats.sphereCount && r.stats.modelCount == s.stats.modelCount
  {
  }

  /** Resolving two runs of channels one after the other is resolving them as
      one run. */
  lemma {:induction false} ResolveChannelsAppend(s: RendererState, a: seq<TexRef>, b: seq<TexRef>)
    requires Inv(s)
    ensures var first := ResolveChannels(s, a);
      var second := ResolveChannels(first.1, b);
      ResolveChannels(s, a + b) == (first.0 + second.0, second.1)
    decreases |b|
  {
    var first := ResolveChannels(s, a);
    if b == [] {
      assert a + b == a;
      assert first.0 + [] == first.0;
    } else {
      var init := b[..|b| - 1];
      ResolveChannelsAppend(s, a, init);
      assert (a + b)[..|a + b| - 1] == a + init;
      assert (a + b)[|a + b| - 1] == b[|b| - 1];
      var mid := ResolveChannels(first.1, init);
      var last := ResolveChannel(mid.1, b[|b| - 1]);
      assert (first.0 + mid.0) + [last.0] == first.0 + (mid.0 + [last.0]);
    }
  }

  // ---------------------------------------------------------------------------
  // An overflow flush in the middle of one material

  /** A fresh texture with a free slot takes the first free slot. */
  lemma FreshClaims(s: RendererState, t: TexRef)
    requires Inv(s) && Fresh(s, t) && s.textureSlotIndex < MaxTextureSlots
    ensures ResolveChannel(s, t) == (s.textureSlotIndex, ClaimSlot(s, t))
  {
    assert FindSlot(s.textureSlots, 1, s.textureSlotIndex, t).None?;
  }

  /** A fresh texture with the table full starts a new batch and takes slot 1. */
  lemma FreshRestarts(s: RendererState, t: TexRef)
    requires Inv(s) && Fresh(s, t) && s.textureSlotIndex == MaxTextureSlots
    ensures ResolveChannel(s, t) == (1, ClaimSlot(NextBatch(s), t))
  {
    assert FindSlot(s.textureSlots, 1, s.textureSlotIndex, t).None?;
    NextBatchFacts(s);
  }

  /** Two channels resolved in a row. */
  lemma ResolveTwo(s: RendererState, a: TexRef, b: TexRef)
    requires Inv(s)
    ensures var first := ResolveChannel(s, a);
      var second := ResolveChannel(first.1, b);
      ResolveChannels(s, [a, b]) == ([first.0, second.0], second.1)
  {
    ResolveOne(s, a);
    var first := ResolveChannel(s, a);
    var second := ResolveChannel(first.1, b);
    assert [a, b][..|[a, b]| - 1] == [a];
    assert [a, b][|[a, b]| - 1] == b;
    assert ResolveChannels(s, [a, b]) == ([first.0] + [second.0], second.1);
    assert [first.0] + [second.0] == [first.0, second.0];
  }

  /** One channel resolved on its own. */
  lemma ResolveOne(s: RendererState, a: TexRef)
    requires Inv(s)
    ensures ResolveChannels(s, [a]) == ([ResolveChannel(s, a).0], ResolveChannel(s, a).1)
  {
    assert [a][..|[a]| - 1] == [];
    assert ResolveChannels(s, []) == ([], s);
    var last := ResolveChannel(s, a);
    assert [] + [last.0] == [last.0];
  }

  /** With one free slot left, two new textures in a row: the first takes slot
      31, the second finds the table full, starts a new batch and takes slot 1. */
  lemma TwoFreshAcrossFlush(s: RendererState, a: TexRef, b: TexRef)
    requires Inv(s) && s.textureSlotIndex == MaxTextureSlots - 1
    requires Fresh(s, a) && Fresh(s, b) && a != b
    ensures var r := ResolveChannels(s, [a, b]);
      && r.0[0] == MaxTextureSlots - 1 && r.1.textureSlotIndex == 2
      && r.1.stats.drawCalls == s.stats.drawCalls + 1
  {
    FreshClaims(s, a);
    var s1 := ClaimSlot(s, a);
    assert Fresh(s1, b);
    FreshRestarts(s1, b);
    NextBatchFacts(s1);
    ResolveTwo(s, a, b);
  }

  /** As written: with one free slot left, a material whose first two channels
      are new textures gets slot 31 for the first, then the second channel
      finds the table full and starts a new batch. The first channel keeps index
      31, which in the new batch holds no texture. */
  lemma StaleIndexAfterMidMaterialFlush(s: RendererState, m: MaterialView)
    requires Inv(s) && |m.textures| == TextureTypeCount
    requires s.textureSlotIndex == MaxTextureSlots - 1
    requires Fresh(s, m.textures[0]) && Fresh(s, m.textures[1]) && m.textures[0] != m.textures[1]
    ensures var r := ResolveMaterial(s, Some(m));
      && r.0[0] == MaxTextureSlots - 1
      && r.1.textureSlots[r.0[0]] == NullTex
      && r.1.stats.drawCalls == s.stats.drawCalls + 1
  {
    var ts := m.textures;
    assert ts[..2] + ts[2..] == ts;
    assert ts[..2] == [ts[0], ts[1]];
    TwoFreshAcrossFlush(s, ts[0], ts[1]);
    var first := ResolveChannels(s, ts[..2]);
    ResolveChannelsState(first.1, ts[2..]);
    ResolveChannelsAppend(s, ts[..2], ts[2..]);
  }

  /** Corrected: when the free slots might not hold all seven channels, the new
      batch is started before the first channel is resolved. */
  function ResolveMaterialChecked(s: RendererState, material: Option<MaterialView>): (r: (seq<int>, RendererState))
    requires Inv(s)
    requires material.Some? ==> |material.value.textures| == TextureTypeCount
    ensures Inv(r.1) && |r.0| == TextureTypeCount
  {
    if material.Some? && s.textureSlotIndex + TextureTypeCount > MaxTextureSlots
    then ResolveMaterial(NextBatch(s), material)
    else ResolveMaterial(s, material)
  }

  /** The corrected resolution names every channel's texture in the batch it
      leaves: index 0 exactly for null and white channels, any other index a
      slot that holds the channel's texture. It starts at most one batch, and
      only when the free slots were too few; without one, no queued work
      changes. */
  lemma ResolveMaterialCheckedNames(s: RendererState, m: MaterialView)
    requires Inv(s) && |m.textures| == TextureTypeCount
    ensures var r := ResolveMaterialChecked(s, Some(m));
      && r.1.whiteTexture == s.whiteTexture
      && r.1.stats.sphereCount == s.stats.sphereCount && r.1.stats.modelCount == s.stats.modelCount
      && (s.textureSlotIndex + TextureTypeCount <= MaxTextureSlots ==> r.1.stats.drawCalls == s.stats.drawCalls)
      && (r.1.stats.drawCalls == s.stats.drawCalls ==>
            r.1.modelDrawCallBatches == s.modelDrawCallBatches && r.1.sphereInstances == s.sphereInstances)
      && (r.1.stats.drawCalls != s.stats.drawCalls ==>
            r.1.stats.drawCalls == s.stats.drawCalls + 1 && r.1.modelDrawCallBatches == map[] && r.1.sphereInstances == [])
      && IndicesName(r.0, m.textures, s.whiteTexture, r.1)
  {
    var start := if s.textureSlotIndex + TextureTypeCount > MaxTextureSlots then NextBatch(s) else s;
    if start != s {
      NextBatchFacts(s);
    }
    ResolveMaterialWithRoom(start, m);
    ResolveChannelsSlots(start, m.textures);
  }

  /** The corrected resolution loses nothing queued. */
  lemma ResolveMaterialCheckedConserves(s: RendererState, m: MaterialView)
    requires Inv(s) && |m.textures| == TextureTypeCount
    ensures var r := ResolveMaterialChecked(s, Some(m)).1;
      SpheresConserved(s, r) && MeshesConserved(s, r)
  {
    var start := if s.textureSlotIndex + TextureTypeCount > MaxTextureSlots then NextBatch(s) else s;
    if start != s {
      NextBatchConserves(s);
    }
    ResolveMaterialConserves(start, Some(m));
    ConservedTrans(s, start, ResolveMaterial(start, Some(m)).1);
  }

  // ---------------------------------------------------------------------------
  // DrawSphere's capacity check after the material

  /** As written: with the sphere list full and a new texture in the first
      channel, DrawSphere claims a slot for it, then starts a new batch for the
      sphere, and queues the sphere with the index of a slot that the new batch
      left empty. */
  lemma StaleSphereIndexAfterSphereFlush(s: RendererState, transform: Mat4, src: SphereSource, entityId: int)
    requires Inv(s) && |src.material.textures| == TextureTypeCount
    requires s.sphereCount == MaxSphereCount && s.textureSlotIndex + TextureTypeCount <= MaxTextureSlots
    requires Fresh(s, src.material.textures[0])
    ensures var r := DrawSphere(s, transform, src, entityId);
      && r.sphereCount >= 1
      && |r.sphereInstances[r.sphereCount - 1].mapIndices| == TextureTypeCount
      && var k := r.sphereInstances[r.sphereCount - 1].mapIndices[0];
         0 < k < MaxTextureSlots && r.textureSlots[k] == NullTex
  {
    var res := ResolveMaterial(s, Some(src.material));
    ResolveMaterialWithRoom(s, src.material);
    DrawSphereCounts(s, transform, src, entityId);
    assert res.1.sphereCount == MaxSphereCount;
    NextBatchFacts(res.1);
  }

  /** Corrected: the capacity check comes first, then the checked resolution,
      then the record. */
  function DrawSphereChecked(s: RendererState, transform: Mat4, src: SphereSource, entityId: int): (r: RendererState)
    requires Inv(s) && |src.material.textures| == TextureTypeCount
    ensures Inv(r)
  {
    var s1 := SphereRoom(s);
    var res := ResolveMaterialChecked(s1, Some(src.material));
    ResolveMaterialCheckedNames(s1, src.material);
    PushSphere(res.1, SphereRecord(transform, src, res.0, entityId))
  }

  /** The capacity check keeps the white texture and the sphere statistics. */
  lemma SphereRoomFacts(s: RendererState)
    requires Inv(s)
    ensures SphereRoom(s).whiteTexture == s.whiteTexture && SphereRoom(s).stats.sphereCount == s.stats.sphereCount
  {
    if s.sphereCount >= MaxSphereCount {
      NextBatchFacts(s);
    }
  }

  /** The corrected DrawSphere queues the sphere last, counts it, and every
      non-zero index of its record names its channel's texture in the batch the
      record is queued in. */
  lemma DrawSphereCheckedNames(s: RendererState, transform: Mat4, src: SphereSource, entityId: int)
    requires Inv(s) && |src.material.textures| == TextureTypeCount
    ensures var r := DrawSphereChecked(s, transform, src, entityId);
      && r.sphereCount >= 1
      && r.stats.sphereCount == s.stats.sphereCount + 1
      && var rec := r.sphereInstances[r.sphereCount - 1];
         && rec == SphereRecord(transform, src, rec.mapIndices, entityId)
         && IndicesName(rec.mapIndices, src.material.textures, s.whiteTexture, r)
  {
    SphereRoomFacts(s);
    ResolveMaterialCheckedNames(SphereRoom(s), src.material);
    var res := ResolveMaterialChecked(SphereRoom(s), Some(src.material));
    IndicesNameKept(res.0, src.material.textures, s.whiteTexture, res.1,
                    DrawSphereChecked(s, transform, src, entityId));
  }

  // ---------------------------------------------------------------------------
  // DrawModel's reference into a flushed batch

  /** As written: when a mesh's batch already holds MaxInstancesPerModel
      instances (and the material fits in the free slots), the mesh step starts
      a new batch while holding a reference to the old one. The new batch has no
      model batches at all, so the instance the source then appends goes to a
      destroyed batch. */
  lemma DanglingWhenBatchFull(s: RendererState, transform: Mat4, src: ModelSource, entityId: int, mesh: MeshView)
    requires Inv(s) && |mesh.material.textures| == TextureTypeCount
    requires s.textureSlotIndex + TextureTypeCount <= MaxTextureSlots
    requires mesh.meshId in s.modelDrawCallBatches
    requires s.modelDrawCallBatches[mesh.meshId].instanceCount == MaxInstancesPerModel
    ensures var o := DrawMesh(s, transform, src, entityId, mesh);
      o.Dangling? && o.state.modelDrawCallBatches == map[]
  {
    ResolveMaterialWithRoom(s, mesh.material);
    ResolveChannelsSlots(s, mesh.material.textures);
    var res := ResolveMaterial(s, Some(mesh.material));
    assert res.1.modelDrawCallBatches == s.modelDrawCallBatches;
    var s2 := LookupBatch(res.1, mesh.meshId);
    assert s2.modelDrawCallBatches[mesh.meshId].instanceCount == MaxInstancesPerModel;
    NextBatchFacts(s2);
  }

  /** The room check of the corrected mesh step: a new batch when the mesh's
      batch is full. */
  function MeshRoom(s: RendererState, key: nat): (r: RendererState)
    requires Inv(s)
    ensures Inv(r)
    ensures key in r.modelDrawCallBatches ==> r.modelDrawCallBatches[key].instanceCount < MaxInstancesPerModel
  {
    if key in s.modelDrawCallBatches && s.modelDrawCallBatches[key].instanceCount >= MaxInstancesPerModel
    then NextBatch(s) else s
  }

  /** The room check keeps the white texture and the model statistics. */
  lemma MeshRoomFacts(s: RendererState, key: nat)
    requires Inv(s)
    ensures var r := MeshRoom(s, key);
      r.whiteTexture == s.whiteTexture && r.stats.modelCount == s.stats.modelCount
  {
    if MeshRoom(s, key) != s {
      NextBatchFacts(s);
    }
  }

  /** The room check loses nothing queued. */
  lemma MeshRoomConserves(s: RendererState, key: nat)
    requires Inv(s)
    ensures SpheresConserved(s, MeshRoom(s, key)) && MeshesConserved(s, MeshRoom(s, key))
  {
    if MeshRoom(s, key) != s {
      NextBatchConserves(s);
    }
  }

  /** Looking up a batch with room leaves room, and touches no slot. */
  lemma LookupBatchRoom(s: RendererState, key: nat)
    requires Inv(s)
    requires key in s.modelDrawCallBatches ==> s.modelDrawCallBatches[key].instanceCount < MaxInstancesPerModel
    ensures var r := LookupBatch(s, key);
      && r.modelDrawCallBatches[key].instanceCount < MaxInstancesPerModel
      && r.textureSlots == s.textureSlots && r.textureSlotIndex == s.textureSlotIndex
  {
  }

  /** Appending an instance to a batch makes it the batch's last and touches
      neither the slot table nor the statistics. */
  lemma PushMeshLast(s: RendererState, k: nat, rec: MeshInstance)
    requires Inv(s) && k in s.modelDrawCallBatches
    requires s.modelDrawCallBatches[k].instanceCount < MaxInstancesPerModel
    ensures var r := PushMesh(s, k, rec);
      && k in r.modelDrawCallBatches
      && r.modelDrawCallBatches[k].instances == s.modelDrawCallBatches[k].instances + [rec]
      && r.textureSlots == s.textureSlots && r.textureSlotIndex == s.textureSlotIndex && r.stats == s.stats
  {
  }

  /** Appending an instance to a batch adds one instance of that mesh. */
  lemma PushMeshAdds(s: RendererState, k: nat, rec: MeshInstance, key: nat)
    requires Inv(s) && k in s.modelDrawCallBatches
    requires s.modelDrawCallBatches[k].instanceCount < MaxInstancesPerModel
    ensures var r := PushMesh(s, k, rec);
      && r.stats == s.stats && SpheresConserved(s, r) && MeshesAdded(s, r, key, if k == key then 1 else 0)
  {
  }

  /** Conservation followed by an addition is that addition. */
  lemma AddedAfterConserved(a: RendererState, b: RendererState, c: RendererState, key: nat, n: nat)
    requires SpheresConserved(a, b) && MeshesConserved(a, b)
    requires SpheresConserved(b, c) && MeshesAdded(b, c, key, n)
    ensures SpheresConserved(a, c) && MeshesAdded(a, c, key, n)
  {
    assert DrawnMeshes(b.trace, key) + Queued(b, key) == DrawnMeshes(a.trace, key) + Queued(a, key);
  }

  /** Corrected: a full batch is flushed before the material is resolved, and
      the batch is looked up after every flush that may happen. */
  function DrawMeshChecked(s: RendererState, transform: Mat4, src: ModelSource, entityId: int, mesh: MeshView): (r: RendererState)
    requires Inv(s) && |mesh.material.textures| == TextureTypeCount
    ensures Inv(r)
  {
    var s1 := MeshRoom(s, mesh.meshId);
    var res := ResolveMaterialChecked(s1, Some(mesh.material));
    ResolveMaterialCheckedNames(s1, mesh.material);
    LookupBatchRoom(res.1, mesh.meshId);
    PushMesh(LookupBatch(res.1, mesh.meshId), mesh.meshId, MeshRecord(transform, src, mesh.material, res.0, entityId))
  }

  /** The corrected mesh step queues the mesh's record last in its batch, and
      every non-zero index of the record names its channel's texture in the
      batch it is queued in. */
  lemma DrawMeshCheckedNames(s: RendererState, transform: Mat4, src: ModelSource, entityId: int, mesh: MeshView)
    requires Inv(s) && |mesh.material.textures| == TextureTypeCount
    ensures var r := DrawMeshChecked(s, transform, src, entityId, mesh);
      && mesh.meshId in r.modelDrawCallBatches
      && var b := r.modelDrawCallBatches[mesh.meshId];
         && |b.instances| >= 1
         && var rec := b.instances[|b.instances| - 1];
            && rec == MeshRecord(transform, src, mesh.material, rec.mapIndices, entityId)
            && IndicesName(rec.mapIndices, mesh.material.textures, s.whiteTexture, r)
  {
    var s1 := MeshRoom(s, mesh.meshId);
    MeshRoomFacts(s, mesh.meshId);
    ResolveMaterialCheckedNames(s1, mesh.material);
    var res := ResolveMaterialChecked(s1, Some(mesh.material));
    LookupBatchRoom(res.1, mesh.meshId);
    var rec := MeshRecord(transform, src, mesh.material, res.0, entityId);
    var s2 := LookupBatch(res.1, mesh.meshId);
    PushMeshLast(s2, mesh.meshId, rec);
    var r := PushMesh(s2, mesh.meshId, rec);
    assert r == DrawMeshChecked(s, transform, src, entityId, mesh);
    var b := r.modelDrawCallBatches[mesh.meshId];
    assert b.instances[|b.instances| - 1] == rec;
    IndicesNameKept(res.0, mesh.material.textures, s.whiteTexture, res.1, r);
  }

  /** The corrected mesh step loses nothing queued and adds one instance of its
      mesh. */
  lemma DrawMeshCheckedAddsOne(s: RendererState, transform: Mat4, src: ModelSource, entityId: int, mesh: MeshView, key: nat)
    requires Inv(s) && |mesh.material.textures| == TextureTypeCount
    ensures var r := DrawMeshChecked(s, transform, src, entityId, mesh);
      SpheresConserved(s, r) && MeshesAdded(s, r, key, if mesh.meshId == key then 1 else 0)
      && r.stats.modelCount == s.stats.modelCount
  {
    var s1 := MeshRoom(s, mesh.meshId);
    MeshRoomFacts(s, mesh.meshId);
    MeshRoomConserves(s, mesh.meshId);
    ResolveMaterialCheckedNames(s1, mesh.material);
    ResolveMaterialCheckedConserves(s1, mesh.material);
    var res := ResolveMaterialChecked(s1, Some(mesh.material));
    ConservedTrans(s, s1, res.1);
    var s2 := LookupBatch(res.1, mesh.meshId);
    LookupBatchConserves(res.1, mesh.meshId);
    ConservedTrans(s, res.1, s2);
    LookupBatchRoom(res.1, mesh.meshId);
    PushMeshAdds(s2, mesh.meshId, MeshRecord(transform, src, mesh.material, res.0, entityId), key);
    AddedAfterConserved(s, s2, DrawMeshChecked(s, transform, src, entityId, mesh), key, if mesh.meshId == key then 1 else 0);
  }

  /** The corrected mesh loop. */
  function DrawMeshesChecked(s: RendererState, transform: Mat4, src: ModelSource, entityId: int, meshes: seq<MeshView>): (r: RendererState)
    requires Inv(s) && MeshesWellFormed(meshes)
    ensures Inv(r)
    decreases |meshes|
  {
    if meshes == [] then s
    else
      var prev := DrawMeshesChecked(s, transform, src, entityId, meshes[..|meshes| - 1]);
      DrawMeshChecked(prev, transform, src, entityId, meshes[|meshes| - 1])
  }

  /** The corrected DrawModel: nothing for an empty path or a null model,
      otherwise the checked mesh loop and the model counters. */
  function DrawModelChecked(s: RendererState, transform: Mat4, src: ModelSource, entityId: int): (r: RendererState)
    requires Inv(s) && MeshesWellFormed(src.meshes)
  {
    if src.modelPath == "" || !src.modelLoaded then s
    else CountModel(DrawMeshesChecked(s, transform, src, entityId, src.meshes))
  }

  /** As written, DrawModel tests only the path: a component whose path is set
      but whose model failed to import reaches the dereference of the null
      pointer before anything is drawn. */
  lemma NullModelDereferenced(s: RendererState, transform: Mat4, src: ModelSource, entityId: int)
    requires Inv(s) && MeshesWellFormed(src.meshes)
    requires src.modelPath != "" && !src.modelLoaded
    ensures DrawModel(s, transform, src, entityId) == NullModel(s)
    ensures !DrawModel(s, transform, src, entityId).Completed?
  {
  }

  /** Additions of one step after another add up. */
  lemma AddedTrans(a: RendererState, b: RendererState, c: RendererState, key: nat, n: nat, m: nat)
    requires SpheresConserved(a, b) && MeshesAdded(a, b, key, n)
    requires SpheresConserved(b, c) && MeshesAdded(b, c, key, m)
    ensures SpheresConserved(a, c) && MeshesAdded(a, c, key, n + m)
  {
  }

  /** The corrected mesh loop adds one instance per mesh and loses nothing. */
  lemma {:induction false} DrawMeshesCheckedAdd(s: RendererState, transform: Mat4, src: ModelSource, entityId: int,
                                                meshes: seq<MeshView>, key: nat)
    requires Inv(s) && MeshesWellFormed(meshes)
    ensures var r := DrawMeshesChecked(s, transform, src, entityId, meshes);
      SpheresConserved(s, r) && MeshesAdded(s, r, key, CountMesh(meshes, key))
      && r.stats.modelCount == s.stats.modelCount
    decreases |meshes|
  {
    if meshes != [] {
      var init := meshes[..|meshes| - 1];
      var last := meshes[|meshes| - 1];
      DrawMeshesCheckedAdd(s, transform, src, entityId, init, key);
      var prev := DrawMeshesChecked(s, transform, src, entityId, init);
      DrawMeshCheckedAddsOne(prev, transform, src, entityId, last, key);
      AddedTrans(s, prev, DrawMeshChecked(prev, transform, src, entityId, last), key,
                 CountMesh(init, key), if last.meshId == key then 1 else 0);
    }
  }

  /** The corrected DrawModel always finishes. An empty path or a null model
      changes nothing; otherwise one model is counted, and one instance queued
      or drawn for every mesh, whatever batches fill up on the way, with
      nothing queued before lost. */
  lemma DrawModelCheckedCounts(s: RendererState, transform: Mat4, src: ModelSource, entityId: int, key: nat)
    requires Inv(s) && MeshesWellFormed(src.meshes)
    ensures src.modelPath == "" || !src.modelLoaded ==> DrawModelChecked(s, transform, src, entityId) == s
    ensures var r := DrawModelChecked(s, transform, src, entityId);
      src.modelPath != "" && src.modelLoaded ==>
        && SpheresConserved(s, r)
        && MeshesAdded(s, r, key, CountMesh(src.meshes, key))
        && r.stats.modelCount == s.stats.modelCount + 1
  {
    if src.modelPath != "" && src.modelLoaded {
      DrawMeshesCheckedAdd(s, transform, src, entityId, src.meshes, key);
    }
  }
}

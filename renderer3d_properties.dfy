/** What the Renderer3D operations guarantee, stated over Renderer3DSpec.

    - Texture slots: every index GetMaterialTextureIndices returns names its
      channel's texture as long as no overflow flush intervened.
    - Conservation: every sphere or mesh instance queued since the trace began
      is either drawn by an event of the trace or still queued (nothing is
      lost by an overflow flush).
    - Batch, frame, light, skybox and statistics laws. */
module Renderer3DProperties {
  import opened Wrappers
  import opened MathTypes
  import opened Textures
  import opened Lights
  import opened Materials
  import opened Renderer3DSpec

  // ---------------------------------------------------------------------------
  // Texture slots

  /** One channel, its effect on the state: at most one flush, none while the
      table has room, and without a flush the table is only extended by at most
      one slot. */
  lemma ResolveChannelState(s: RendererState, t: TexRef)
    requires Inv(s)
    ensures var r := ResolveChannel(s, t).1;
      && r.whiteTexture == s.whiteTexture
      && (r.stats.drawCalls == s.stats.drawCalls || r.stats.drawCalls == s.stats.drawCalls + 1)
      && (s.textureSlotIndex < MaxTextureSlots ==> r.stats.drawCalls == s.stats.drawCalls)
      && (r.stats.drawCalls == s.stats.drawCalls ==>
            SlotsExtended(s, r) && r.textureSlotIndex <= s.textureSlotIndex + 1)
  {
  }

  /** One channel, its index: slot 0 exactly for null and white textures, and a
      found or newly claimed slot holds the texture. */
  lemma ResolveChannelSlot(s: RendererState, t: TexRef)
    requires Inv(s)
    ensures var r := ResolveChannel(s, t);
      && 0 <= r.0 < r.1.textureSlotIndex
      && (r.0 == 0 <==> (t.NullTex? || t == s.whiteTexture))
      && (r.0 != 0 ==> r.1.textureSlots[r.0] == t)
  {
  }

  /** A texture already in the table is found at its slot and changes nothing. */
  lemma ResolveChannelFinds(s: RendererState, t: TexRef, i: nat)
    requires Inv(s) && 1 <= i < s.textureSlotIndex && s.textureSlots[i] == t
    ensures ResolveChannel(s, t) == (i, s)
  {
    var f := FindSlot(s.textureSlots, 1, s.textureSlotIndex, t);
    assert f.Some? && f.value == i;
  }

  /** All channels, their effect on the state: the white texture stays, the
      draw-call counter only grows, and not at all when every channel has a free
      slot. */
  lemma {:induction false} ResolveChannelsState(s: RendererState, ts: seq<TexRef>)
    requires Inv(s)
    ensures var r := ResolveChannels(s, ts).1;
      && r.whiteTexture == s.whiteTexture
      && r.stats.drawCalls >= s.stats.drawCalls
      && (s.textureSlotIndex + |ts| <= MaxTextureSlots ==>
            r.stats.drawCalls == s.stats.drawCalls && r.textureSlotIndex <= s.textureSlotIndex + |ts|)
    decreases |ts|
  {
    if ts != [] {
      var init := ts[..|ts| - 1];
      ResolveChannelsState(s, init);
      ResolveChannelState(ResolveChannels(s, init).1, ts[|ts| - 1]);
    }
  }

  /** All channels, their indices: each is a slot, and 0 exactly for null and
      white textures. */
  lemma {:induction false} ResolveChannelsIndices(s: RendererState, ts: seq<TexRef>)
    requires Inv(s)
    ensures var r := ResolveChannels(s, ts);
      forall c :: 0 <= c < |ts| ==>
        && 0 <= r.0[c] < MaxTextureSlots
        && (r.0[c] == 0 <==> (ts[c].NullTex? || ts[c] == s.whiteTexture))
    decreases |ts|
  {
    if ts != [] {
      var init := ts[..|ts| - 1];
      var prev := ResolveChannels(s, init);
      var r := ResolveChannels(s, ts);
      ResolveChannelsIndices(s, init);
      ResolveChannelsState(s, init);
      ResolveChannelSlot(prev.1, ts[|ts| - 1]);
      forall c | 0 <= c < |ts|
        ensures 0 <= r.0[c] < MaxTextureSlots && (r.0[c] == 0 <==> (ts[c].NullTex? || ts[c] == s.whiteTexture))
      {
        if c < |ts| - 1 {
          assert r.0[c] == prev.0[c] && ts[c] == init[c];
        }
      }
    }
  }

  /** All channels, when no overflow flush happened: the table was only
      extended, and every non-zero index names its channel's texture. */
  lemma {:induction false} ResolveChannelsSlots(s: RendererState, ts: seq<TexRef>)
    requires Inv(s)
    requires ResolveChannels(s, ts).1.stats.drawCalls == s.stats.drawCalls
    ensures var r := ResolveChannels(s, ts);
      && SlotsExtended(s, r.1)
      && forall c :: 0 <= c < |ts| ==>
           0 <= r.0[c] < r.1.textureSlotIndex && (r.0[c] != 0 ==> r.1.textureSlots[r.0[c]] == ts[c])
    decreases |ts|
  {
    if ts != [] {
      var init := ts[..|ts| - 1];
      var prev := ResolveChannels(s, init);
      var r := ResolveChannels(s, ts);
      ResolveChannelsState(s, init);
      ResolveChannelState(prev.1, ts[|ts| - 1]);
      ResolveChannelSlot(prev.1, ts[|ts| - 1]);
      ResolveChannelsSlots(s, init);
      forall c | 0 <= c < |ts|
        ensures 0 <= r.0[c] < r.1.textureSlotIndex && (r.0[c] != 0 ==> r.1.textureSlots[r.0[c]] == ts[c])
      {
        if c < |ts| - 1 {
          assert r.0[c] == prev.0[c] && ts[c] == init[c];
        }
      }
    }
  }

  /** A material whose seven channels fit in the free slots is resolved without
      a flush, and every index names its channel's texture. */
  lemma ResolveMaterialWithRoom(s: RendererState, m: MaterialView)
    requires Inv(s) && |m.textures| == TextureTypeCount
    requires s.textureSlotIndex + TextureTypeCount <= MaxTextureSlots
    ensures var r := ResolveMaterial(s, Some(m));
      && r.1.stats == s.stats
      && r.1.sphereInstances == s.sphereInstances && r.1.trace == s.trace
      && forall c :: 0 <= c < TextureTypeCount ==>
           && 0 <= r.0[c] < r.1.textureSlotIndex
           && (r.0[c] == 0 <==> (m.textures[c].NullTex? || m.textures[c] == s.whiteTexture))
           && (r.0[c] != 0 ==> r.1.textureSlots[r.0[c]] == m.textures[c])
  {
    ResolveChannelsState(s, m.textures);
    ResolveChannelsIndices(s, m.textures);
    ResolveChannelsSlots(s, m.textures);
  }

  // ---------------------------------------------------------------------------
  // Conservation of queued instances

  function SpheresOf(e: GpuEvent): seq<SphereInstance>
  {
    if e.DrawSpheres? then e.instances else []
  }

  /** The sphere instances drawn by `trace`, in order. */
  function DrawnSpheres(trace: seq<GpuEvent>): (r: seq<SphereInstance>)
    decreases |trace|
  {
    if trace == [] then [] else DrawnSpheres(trace[..|trace| - 1]) + SpheresOf(trace[|trace| - 1])
  }

  function MeshesOf(e: GpuEvent, key: nat): seq<MeshInstance>
  {
    if e.DrawModels? && key in e.draws then e.draws[key] else []
  }

  /** The instances of mesh `key` drawn by `trace`, in order. */
  function DrawnMeshes(trace: seq<GpuEvent>, key: nat): (r: seq<MeshInstance>)
    decreases |trace|
  {
    if trace == [] then [] else DrawnMeshes(trace[..|trace| - 1], key) + MeshesOf(trace[|trace| - 1], key)
  }

  /** Events that draw nothing: texture binds, skybox passes, buffer
      management, light uploads, map loads. */
  ghost predicate NoDraws(es: seq<GpuEvent>)
  {
    forall i :: 0 <= i < |es| ==> !es[i].DrawSpheres? && !es[i].DrawModels?
  }

  lemma {:induction false} NoDrawsAppend(a: seq<GpuEvent>, es: seq<GpuEvent>)
    requires NoDraws(es)
    ensures DrawnSpheres(a + es) == DrawnSpheres(a)
    ensures forall key :: DrawnMeshes(a + es, key) == DrawnMeshes(a, key)
    decreases |es|
  {
    if es == [] {
      assert a + es == a;
    } else {
      var init := es[..|es| - 1];
      var e := es[|es| - 1];
      assert a + es == (a + init) + [e];
      assert NoDraws(init) by {
        forall i | 0 <= i < |init| ensures !init[i].DrawSpheres? && !init[i].DrawModels? {
          assert init[i] == es[i];
        }
      }
      NoDrawsAppend(a, init);
      AppendOne(a + init, e);
      assert SpheresOf(e) == [];
      assert DrawnSpheres(a + init) + [] == DrawnSpheres(a + init);
      forall key ensures DrawnMeshes(a + es, key) == DrawnMeshes(a, key) {
        assert MeshesOf(e, key) == [];
        assert DrawnMeshes(a + init, key) + [] == DrawnMeshes(a + init, key);
      }
    }
  }

  lemma AppendOne(a: seq<GpuEvent>, e: GpuEvent)
    ensures DrawnSpheres(a + [e]) == DrawnSpheres(a) + SpheresOf(e)
    ensures forall key :: DrawnMeshes(a + [e], key) == DrawnMeshes(a, key) + MeshesOf(e, key)
  {
    assert (a + [e])[..|a|] == a;
  }

  /** The instances of mesh `key` waiting in the current batch. */
  function Queued(s: RendererState, key: nat): seq<MeshInstance>
  {
    if key in s.modelDrawCallBatches then s.modelDrawCallBatches[key].instances else []
  }

  /** Every sphere instance is drawn or queued, across the step s ~> r. */
  ghost predicate SpheresConserved(s: RendererState, r: RendererState)
  {
    DrawnSpheres(r.trace) + r.sphereInstances == DrawnSpheres(s.trace) + s.sphereInstances
  }

  /** Every mesh instance is drawn or queued, across the step s ~> r. */
  ghost predicate MeshesConserved(s: RendererState, r: RendererState)
  {
    forall key :: DrawnMeshes(r.trace, key) + Queued(r, key) == DrawnMeshes(s.trace, key) + Queued(s, key)
  }

  /** Drawing distributes over concatenation of traces. */
  lemma {:induction false} DrawnConcat(a: seq<GpuEvent>, b: seq<GpuEvent>)
    ensures DrawnSpheres(a + b) == DrawnSpheres(a) + DrawnSpheres(b)
    ensures forall key :: DrawnMeshes(a + b, key) == DrawnMeshes(a, key) + DrawnMeshes(b, key)
    decreases |b|
  {
    if b == [] {
      assert a + b == a;
    } else {
      var init := b[..|b| - 1];
      var e := b[|b| - 1];
      assert a + b == (a + init) + [e];
      assert b == init + [e];
      DrawnConcat(a, init);
      AppendOne(a + init, e);
      AppendOne(init, e);
    }
  }

  /** A trace of events that draw nothing draws nothing. */
  lemma NoDrawsDrawNothing(es: seq<GpuEvent>)
    requires NoDraws(es)
    ensures DrawnSpheres(es) == [] && forall key :: DrawnMeshes(es, key) == []
  {
    NoDrawsAppend([], es);
    assert [] + es == es;
  }

  /** A trace extended the way Flush extends it (a prelude that draws nothing,
      the sphere events, the model event) draws the sphere events' spheres. */
  lemma FlushShapedSpheres(t: seq<GpuEvent>, hdr: seq<GpuEvent>, binds: seq<GpuEvent>, sph: seq<GpuEvent>, dm: GpuEvent,
                           q: seq<SphereInstance>)
    requires NoDraws(hdr) && NoDraws(binds) && DrawnSpheres(sph) == q && SpheresOf(dm) == []
    ensures DrawnSpheres(t + hdr + binds + sph + [dm]) == DrawnSpheres(t) + q
  {
    NoDrawsDrawNothing(hdr);
    NoDrawsDrawNothing(binds);
    DrawnConcat(t, hdr);
    DrawnConcat(t + hdr, binds);
    DrawnConcat(t + hdr + binds, sph);
    AppendOne(t + hdr + binds + sph, dm);
    assert DrawnSpheres(t) + [] + [] + q + [] == DrawnSpheres(t) + q;
  }

  /** The same trace draws the model event's instances of mesh `key`. */
  lemma FlushShapedMeshes(t: seq<GpuEvent>, hdr: seq<GpuEvent>, binds: seq<GpuEvent>, sph: seq<GpuEvent>, dm: GpuEvent,
                          key: nat, q: seq<MeshInstance>)
    requires NoDraws(hdr) && NoDraws(binds) && DrawnMeshes(sph, key) == [] && MeshesOf(dm, key) == q
    ensures DrawnMeshes(t + hdr + binds + sph + [dm], key) == DrawnMeshes(t, key) + q
  {
    NoDrawsDrawNothing(hdr);
    NoDrawsDrawNothing(binds);
    DrawnConcat(t, hdr);
    DrawnConcat(t + hdr, binds);
    DrawnConcat(t + hdr + binds, sph);
    AppendOne(t + hdr + binds + sph, dm);
    assert DrawnMeshes(t, key) + [] + [] + [] + q == DrawnMeshes(t, key) + q;
  }

  /** A single event draws its own instances. */
  lemma DrawnOne(e: GpuEvent)
    ensures DrawnSpheres([e]) == SpheresOf(e)
    ensures forall key :: DrawnMeshes([e], key) == MeshesOf(e, key)
  {
    AppendOne([], e);
    assert [] + [e] == [e];
  }

  /** Flush's events before the sphere draw draw nothing. */
  lemma FlushPreludeDrawsNothing(s: RendererState)
    requires s.textureSlotIndex <= |s.textureSlots|
    ensures NoDraws(HdrEvents(s)) && NoDraws(BindEvents(s.textureSlots, s.textureSlotIndex))
  {
  }

  /** Flush's sphere draw draws the sphere list and no mesh. */
  lemma SphereEventsDraw(s: RendererState)
    requires |s.sphereInstances| == s.sphereCount
    ensures DrawnSpheres(SphereEvents(s)) == s.sphereInstances
    ensures forall key :: DrawnMeshes(SphereEvents(s), key) == []
  {
    if s.sphereCount > 0 {
      DrawnOne(DrawSpheres(s.cameraBuffer.viewProjection, s.sphereInstances));
    }
  }

  /** Flush draws exactly the queued spheres, after those drawn before. */
  lemma FlushDrawsQueuedSpheres(s: RendererState)
    requires Inv(s)
    ensures DrawnSpheres(Flush(s).trace) == DrawnSpheres(s.trace) + s.sphereInstances
  {
    FlushPreludeDrawsNothing(s);
    SphereEventsDraw(s);
    FlushShapedSpheres(s.trace, HdrEvents(s), BindEvents(s.textureSlots, s.textureSlotIndex), SphereEvents(s),
                       DrawModels(s.cameraBuffer.viewProjection, PendingDraws(s.modelDrawCallBatches)), s.sphereInstances);
  }

  /** Flush draws exactly the instances queued for mesh `key`, after those drawn
      before. */
  lemma FlushDrawsQueuedMeshes(s: RendererState, key: nat)
    requires Inv(s)
    ensures DrawnMeshes(Flush(s).trace, key) == DrawnMeshes(s.trace, key) + Queued(s, key)
  {
    FlushPreludeDrawsNothing(s);
    SphereEventsDraw(s);
    PendingDrawsQueued(s, key);
    FlushShapedMeshes(s.trace, HdrEvents(s), BindEvents(s.textureSlots, s.textureSlotIndex), SphereEvents(s),
                      DrawModels(s.cameraBuffer.viewProjection, PendingDraws(s.modelDrawCallBatches)), key, Queued(s, key));
  }

  /** Flush leaves no instance queued. */
  lemma FlushEmptiesBatches(s: RendererState, key: nat)
    requires Inv(s)
    ensures Queued(Flush(s), key) == []
  {
  }

  /** The model draws of a Flush hold exactly each batch's queued instances. */
  lemma PendingDrawsQueued(s: RendererState, key: nat)
    requires Inv(s)
    ensures MeshesOf(DrawModels(s.cameraBuffer.viewProjection, PendingDraws(s.modelDrawCallBatches)), key) == Queued(s, key)
  {
    if key in s.modelDrawCallBatches {
      assert BatchInv(s.modelDrawCallBatches[key]);
    }
  }

  lemma FlushDrawsQueued(s: RendererState)
    requires Inv(s)
    ensures DrawnSpheres(Flush(s).trace) == DrawnSpheres(s.trace) + s.sphereInstances
    ensures forall key :: DrawnMeshes(Flush(s).trace, key) == DrawnMeshes(s.trace, key) + Queued(s, key)
    ensures forall key :: Queued(Flush(s), key) == []
  {
    FlushDrawsQueuedSpheres(s);
    forall key
      ensures DrawnMeshes(Flush(s).trace, key) == DrawnMeshes(s.trace, key) + Queued(s, key)
      ensures Queued(Flush(s), key) == []
    {
      FlushDrawsQueuedMeshes(s, key);
      FlushEmptiesBatches(s, key);
    }
  }

  /** StartBatch draws nothing. */
  lemma StartBatchDrawsNothing(s: RendererState)
    requires Inv(s)
    ensures DrawnSpheres(StartBatch(s).trace) == DrawnSpheres(s.trace)
    ensures forall key :: DrawnMeshes(StartBatch(s).trace, key) == DrawnMeshes(s.trace, key)
  {
    if s.modelDrawCallBatches != map[] {
      var d := [DestroyInstanceBuffers(s.modelDrawCallBatches.Keys)];
      assert StartBatch(s).trace == s.trace + d;
      NoDrawsAppend(s.trace, d);
    } else {
      assert StartBatch(s).trace == s.trace;
    }
  }

  /** NextBatch loses nothing: everything queued is drawn before the batch is
      emptied. */
  lemma NextBatchConserves(s: RendererState)
    requires Inv(s)
    ensures SpheresConserved(s, NextBatch(s)) && MeshesConserved(s, NextBatch(s))
    ensures NextBatch(s).sphereInstances == [] && NextBatch(s).modelDrawCallBatches == map[]
  {
    FlushDrawsQueued(s);
    StartBatchDrawsNothing(Flush(s));
  }

  lemma ResolveChannelConserves(s: RendererState, t: TexRef)
    requires Inv(s)
    ensures SpheresConserved(s, ResolveChannel(s, t).1) && MeshesConserved(s, ResolveChannel(s, t).1)
  {
    if s.textureSlotIndex >= MaxTextureSlots {
      NextBatchConserves(s);
    }
  }

  lemma {:induction false} ResolveChannelsConserves(s: RendererState, ts: seq<TexRef>)
    requires Inv(s)
    ensures SpheresConserved(s, ResolveChannels(s, ts).1) && MeshesConserved(s, ResolveChannels(s, ts).1)
    decreases |ts|
  {
    if ts != [] {
      var init := ts[..|ts| - 1];
      ResolveChannelsConserves(s, init);
      ResolveChannelConserves(ResolveChannels(s, init).1, ts[|ts| - 1]);
    }
  }

  lemma ResolveMaterialConserves(s: RendererState, m: Option<MaterialView>)
    requires Inv(s) && (m.Some? ==> |m.value.textures| == TextureTypeCount)
    ensures SpheresConserved(s, ResolveMaterial(s, m).1) && MeshesConserved(s, ResolveMaterial(s, m).1)
  {
    if m.Some? {
      ResolveChannelsConserves(s, m.value.textures);
    }
  }

  // ---------------------------------------------------------------------------
  // Spheres

  /** DrawSphere queues exactly one record, the one built from the material's
      resolved indices, and loses nothing queued before. */
  lemma DrawSphereQueuesOne(s: RendererState, transform: Mat4, src: SphereSource, entityId: int)
    requires Inv(s) && |src.material.textures| == TextureTypeCount
    ensures var r := DrawSphere(s, transform, src, entityId);
      var rec := SphereRecord(transform, src, ResolveMaterial(s, Some(src.material)).0, entityId);
      && DrawnSpheres(r.trace) + r.sphereInstances == DrawnSpheres(s.trace) + s.sphereInstances + [rec]
      && MeshesConserved(s, r)
  {
    var res := ResolveMaterial(s, Some(src.material));
    var s2 := SphereRoom(res.1);
    ResolveMaterialConserves(s, Some(src.material));
    SphereRoomConserves(res.1);
    ConservedTrans(s, res.1, s2);
    PushSphereQueues(s2, SphereRecord(transform, src, res.0, entityId));
  }

  /** The capacity check loses nothing queued. */
  lemma SphereRoomConserves(s: RendererState)
    requires Inv(s)
    ensures SpheresConserved(s, SphereRoom(s)) && MeshesConserved(s, SphereRoom(s))
  {
    if s.sphereCount >= MaxSphereCount {
      NextBatchConserves(s);
    }
  }

  /** Appending a record queues it after the ones already queued. */
  lemma PushSphereQueues(s: RendererState, rec: SphereInstance)
    ensures DrawnSpheres(PushSphere(s, rec).trace) + PushSphere(s, rec).sphereInstances
            == DrawnSpheres(s.trace) + s.sphereInstances + [rec]
    ensures MeshesConserved(s, PushSphere(s, rec))
  {
    assert forall key :: Queued(PushSphere(s, rec), key) == Queued(s, key);
  }

  /** Conservation composes across consecutive steps. */
  lemma ConservedTrans(a: RendererState, b: RendererState, c: RendererState)
    requires SpheresConserved(a, b) && MeshesConserved(a, b)
    requires SpheresConserved(b, c) && MeshesConserved(b, c)
    ensures SpheresConserved(a, c) && MeshesConserved(a, c)
  {
  }

  /** DrawSphere stays within the sphere capacity, its record is the last one
      queued, and it counts one sphere. */
  lemma DrawSphereCounts(s: RendererState, transform: Mat4, src: SphereSource, entityId: int)
    requires Inv(s) && |src.material.textures| == TextureTypeCount
    ensures var r := DrawSphere(s, transform, src, entityId);
      && 1 <= r.sphereCount <= MaxSphereCount
      && r.sphereInstances[r.sphereCount - 1]
         == SphereRecord(transform, src, ResolveMaterial(s, Some(src.material)).0, entityId)
      && r.stats.sphereCount == s.stats.sphereCount + 1
  {
    ResolveChannelsCounters(s, src.material.textures);
  }

  // ---------------------------------------------------------------------------
  // Models

  /** How many of `meshes` have ID `key`. */
  function CountMesh(meshes: seq<MeshView>, key: nat): (n: nat)
    ensures n <= |meshes|
    decreases |meshes|
  {
    if meshes == [] then 0
    else CountMesh(meshes[..|meshes| - 1], key) + (if meshes[|meshes| - 1].meshId == key then 1 else 0)
  }

  /** Every mesh instance is drawn or queued, and `added` more of mesh `key`
      exist after the step s ~> r. */
  ghost predicate MeshesAdded(s: RendererState, r: RendererState, key: nat, added: nat)
  {
    |DrawnMeshes(r.trace, key)| + |Queued(r, key)| == |DrawnMeshes(s.trace, key)| + |Queued(s, key)| + added
  }

  lemma LookupBatchConserves(s: RendererState, key: nat)
    requires Inv(s)
    ensures SpheresConserved(s, LookupBatch(s, key)) && MeshesConserved(s, LookupBatch(s, key))
    ensures LookupBatch(s, key).stats == s.stats && LookupBatch(s, key).modelCount == s.modelCount
  {
    var r := LookupBatch(s, key);
    if r.trace != s.trace {
      NoDrawsAppend(s.trace, [CreateInstanceBuffer(key)]);
    }
  }

  /** A completed mesh draw adds one instance of its mesh and nothing else. */
  lemma DrawMeshAddsOne(s: RendererState, transform: Mat4, src: ModelSource, entityId: int, mesh: MeshView, key: nat)
    requires Inv(s) && |mesh.material.textures| == TextureTypeCount
    requires DrawMesh(s, transform, src, entityId, mesh).Completed?
    ensures var r := DrawMesh(s, transform, src, entityId, mesh).state;
      SpheresConserved(s, r) && MeshesAdded(s, r, key, if mesh.meshId == key then 1 else 0)
  {
    var res := ResolveMaterial(s, Some(mesh.material));
    ResolveMaterialConserves(s, Some(mesh.material));
    LookupBatchConserves(res.1, mesh.meshId);
    ConservedTrans(s, res.1, LookupBatch(res.1, mesh.meshId));
  }

  /** A completed mesh draw keeps the model counters, except that an overflow
      flush resets ModelCount. */
  lemma DrawMeshCounters(s: RendererState, transform: Mat4, src: ModelSource, entityId: int, mesh: MeshView)
    requires Inv(s) && |mesh.material.textures| == TextureTypeCount
    requires DrawMesh(s, transform, src, entityId, mesh).Completed?
    ensures var r := DrawMesh(s, transform, src, entityId, mesh).state;
      && r.stats.modelCount == s.stats.modelCount
      && r.stats.drawCalls >= s.stats.drawCalls
      && r.modelCount == (if r.stats.drawCalls == s.stats.drawCalls then s.modelCount else 0)
  {
    ResolveChannelsCounters(s, mesh.material.textures);
  }

  /** Resolving textures keeps the model counters, except that an overflow
      flush empties the batch and so resets ModelCount. */
  lemma {:induction false} ResolveChannelsCounters(s: RendererState, ts: seq<TexRef>)
    requires Inv(s)
    ensures var r := ResolveChannels(s, ts).1;
      && r.stats.modelCount == s.stats.modelCount && r.stats.sphereCount == s.stats.sphereCount
      && r.modelCount == (if r.stats.drawCalls == s.stats.drawCalls then s.modelCount else 0)
      && r.stats.drawCalls >= s.stats.drawCalls
    decreases |ts|
  {
    if ts != [] {
      ResolveChannelsCounters(s, ts[..|ts| - 1]);
    }
  }

  /** The mesh loop, when it completes, adds one instance per mesh. */
  lemma {:induction false} DrawMeshesAdd(s: RendererState, transform: Mat4, src: ModelSource, entityId: int,
                                         meshes: seq<MeshView>, key: nat)
    requires Inv(s) && MeshesWellFormed(meshes)
    requires DrawMeshes(s, transform, src, entityId, meshes).Completed?
    ensures var r := DrawMeshes(s, transform, src, entityId, meshes).state;
      SpheresConserved(s, r) && MeshesAdded(s, r, key, CountMesh(meshes, key))
    decreases |meshes|
  {
    if meshes != [] {
      var init := meshes[..|meshes| - 1];
      DrawMeshesAdd(s, transform, src, entityId, init, key);
      var prev := DrawMeshes(s, transform, src, entityId, init).state;
      DrawMeshAddsOne(prev, transform, src, entityId, meshes[|meshes| - 1], key);
    }
  }

  /** The mesh loop, when it completes, keeps the model counters, except that a
      flush on the way resets ModelCount. */
  lemma {:induction false} DrawMeshesCounters(s: RendererState, transform: Mat4, src: ModelSource, entityId: int,
                                              meshes: seq<MeshView>)
    requires Inv(s) && MeshesWellFormed(meshes)
    requires DrawMeshes(s, transform, src, entityId, meshes).Completed?
    ensures var r := DrawMeshes(s, transform, src, entityId, meshes).state;
      && r.stats.modelCount == s.stats.modelCount
      && r.stats.drawCalls >= s.stats.drawCalls
      && r.modelCount == (if r.stats.drawCalls == s.stats.drawCalls then s.modelCount else 0)
    decreases |meshes|
  {
    if meshes != [] {
      var init := meshes[..|meshes| - 1];
      DrawMeshesCounters(s, transform, src, entityId, init);
      var prev := DrawMeshes(s, transform, src, entityId, init).state;
      DrawMeshCounters(prev, transform, src, entityId, meshes[|meshes| - 1]);
    }
  }

  /** DrawModel: nothing for an empty path; otherwise, when it completes, one
      model counted and one instance queued or drawn per mesh, nothing lost, and
      ModelCount is one more than before unless a flush intervened, after which
      it counts this model alone. */
  lemma DrawModelCounts(s: RendererState, transform: Mat4, src: ModelSource, entityId: int, key: nat)
    requires Inv(s) && MeshesWellFormed(src.meshes)
    ensures src.modelPath == "" ==> DrawModel(s, transform, src, entityId) == Completed(s)
    ensures var o := DrawModel(s, transform, src, entityId);
      src.modelPath != "" && o.Completed? ==>
        && SpheresConserved(s, o.state)
        && MeshesAdded(s, o.state, key, CountMesh(src.meshes, key))
        && o.state.stats.modelCount == s.stats.modelCount + 1
        && o.state.modelCount == (if o.state.stats.drawCalls == s.stats.drawCalls then s.modelCount + 1 else 1)
  {
    if src.modelPath != "" && src.modelLoaded && DrawMeshes(s, transform, src, entityId, src.meshes).Completed? {
      DrawMeshesAdd(s, transform, src, entityId, src.meshes, key);
      DrawMeshesCounters(s, transform, src, entityId, src.meshes);
    }
  }

  // ---------------------------------------------------------------------------
  // Batch and frame laws

  /** StartBatch leaves an empty batch: only the white slot, no spheres, no
      model batches; lights, camera, skybox and statistics are untouched. */
  lemma StartBatchEmpties(s: RendererState)
    requires Inv(s)
    ensures var r := StartBatch(s);
      && r.textureSlotIndex == 1 && r.textureSlots[0] == s.whiteTexture
      && (forall i :: 1 <= i < MaxTextureSlots ==> r.textureSlots[i] == NullTex)
      && r.sphereCount == 0 && r.sphereInstances == [] && r.modelDrawCallBatches == map[] && r.modelCount == 0
      && r.directionalLights == s.directionalLights && r.pointLights == s.pointLights
      && r.spotLights == s.spotLights && r.stats == s.stats && r.hdrPath == s.hdrPath
      && r.cameraBuffer == s.cameraBuffer && DrawnSpheres(r.trace) == DrawnSpheres(s.trace)
  {
    StartBatchDrawsNothing(s);
  }

  /** Flush binds every used slot in order, counts one draw call and one mesh
      draw per non-empty batch, keeps the slot table and the sphere list, and
      empties every batch without dropping it. */
  lemma FlushBindsAndCounts(s: RendererState)
    requires Inv(s)
    ensures var r := Flush(s);
      var binds := BindEvents(s.textureSlots, s.textureSlotIndex);
      && r.trace[|s.trace| + |HdrEvents(s)|..|s.trace| + |HdrEvents(s)| + s.textureSlotIndex] == binds
      && (forall i :: 0 <= i < s.textureSlotIndex ==> binds[i] == BindTexture(i, s.textureSlots[i]))
      && r.stats.drawCalls == s.stats.drawCalls + 1
      && r.stats.meshCount == s.stats.meshCount + |PendingDraws(s.modelDrawCallBatches)|
      && r.textureSlots == s.textureSlots && r.textureSlotIndex == s.textureSlotIndex
      && r.sphereInstances == s.sphereInstances
      && r.modelDrawCallBatches.Keys == s.modelDrawCallBatches.Keys
      && forall k :: k in r.modelDrawCallBatches ==> r.modelDrawCallBatches[k].instanceCount == 0
  {
    var r := Flush(s);
    var pre := s.trace + HdrEvents(s);
    var binds := BindEvents(s.textureSlots, s.textureSlotIndex);
    assert r.trace == pre + binds + (SphereEvents(s) + [DrawModels(s.cameraBuffer.viewProjection, PendingDraws(s.modelDrawCallBatches))]);
    assert |pre| == |s.trace| + |HdrEvents(s)|;
  }

  /** EndScene draws everything queued and forgets the frame's lights. */
  lemma EndSceneDrawsAndClearsLights(s: RendererState)
    requires Inv(s)
    ensures var r := EndScene(s);
      && DrawnSpheres(r.trace) == DrawnSpheres(s.trace) + s.sphereInstances
      && (forall key :: DrawnMeshes(r.trace, key) == DrawnMeshes(s.trace, key) + Queued(s, key))
      && r.directionalLights == [] && r.pointLights == [] && r.spotLights == []
      && r.stats.drawCalls == s.stats.drawCalls + 1
  {
    FlushDrawsQueued(s);
  }

  /** BeginScene stores the camera and starts an empty batch. */
  lemma BeginSceneStartsEmpty(s: RendererState, camera: CameraData)
    requires Inv(s)
    ensures var r := BeginScene(s, camera);
      && r.cameraBuffer == camera && r.textureSlotIndex == 1
      && r.sphereInstances == [] && r.modelDrawCallBatches == map[]
      && r.stats == s.stats
  {
  }

  // ---------------------------------------------------------------------------
  // Lights

  /** A light is stored exactly when its kind's list has room, as the last entry
      of that list, and no other list changes; a spot light's stored cosines are
      taken of the outer angle (InnerConeCos) and the inner angle (OuterConeCos). */
  lemma DrawLightStoresWithRoom(s: RendererState, light: LightParams, position: Vec3, direction: Vec3)
    requires Inv(s)
    ensures var r := DrawLight(s, light, position, direction);
      && r == s.(directionalLights := r.directionalLights, pointLights := r.pointLights, spotLights := r.spotLights)
      && (light.lightType.Directional? ==>
            r.pointLights == s.pointLights && r.spotLights == s.spotLights
            && (|s.directionalLights| < MaxDirectionalLights <==> r.directionalLights != s.directionalLights)
            && (r.directionalLights != s.directionalLights ==>
                  r.directionalLights == s.directionalLights + [StoredDirectionalLight(direction, light.intensity, light.color)]))
      && (light.lightType.Point? ==>
            r.directionalLights == s.directionalLights && r.spotLights == s.spotLights
            && (|s.pointLights| < MaxPointLights <==> r.pointLights != s.pointLights)
            && (r.pointLights != s.pointLights ==>
                  r.pointLights == s.pointLights + [StoredPointLight(position, light.intensity, light.color, light.radius)]))
      && (light.lightType.Spot? ==>
            r.directionalLights == s.directionalLights && r.pointLights == s.pointLights
            && (|s.spotLights| < MaxSpotLights <==> r.spotLights != s.spotLights)
            && (r.spotLights != s.spotLights ==>
                  && |r.spotLights| == |s.spotLights| + 1
                  && r.spotLights[|s.spotLights|].innerConeCosOf == light.outerConeAngle
                  && r.spotLights[|s.spotLights|].outerConeCosOf == light.innerConeAngle))
  {
    var r := DrawLight(s, light, position, direction);
    if light.lightType.Directional? && |s.directionalLights| < MaxDirectionalLights {
      assert |r.directionalLights| == |s.directionalLights| + 1;
    }
    if light.lightType.Point? && |s.pointLights| < MaxPointLights {
      assert |r.pointLights| == |s.pointLights| + 1;
    }
    if light.lightType.Spot? && |s.spotLights| < MaxSpotLights {
      assert |r.spotLights| == |s.spotLights| + 1;
    }
  }

  /** FlushLights uploads the collected lights with counts that match them and
      never exceed the shader's array sizes. */
  lemma FlushLightsUploadsCounts(s: RendererState)
    requires Inv(s)
    ensures var r := FlushLights(s);
      && r.trace == s.trace + [UploadLights(LightDataOf(s))]
      && var d := LightDataOf(s);
      && d.numDirectionalLights == |d.directionalLights| <= MaxDirectionalLights
      && d.numPointLights == |d.pointLights| <= MaxPointLights
      && d.numSpotLights == |d.spotLights| <= MaxSpotLights
      && d.cameraPosition == s.cameraBuffer.cameraPosition
  {
  }

  // ---------------------------------------------------------------------------
  // Skybox and statistics

  /** DrawHdrSkybox leaves the requested map current, loads it only when it
      differs from the current one, and so is idempotent. */
  lemma DrawHdrSkyboxIdempotent(s: RendererState, path: string)
    requires Inv(s)
    ensures DrawHdrSkybox(s, path).hdrPath == path
    ensures DrawHdrSkybox(s, path).trace == if path == s.hdrPath then s.trace else s.trace + [LoadHdrMap(path)]
    ensures DrawHdrSkybox(DrawHdrSkybox(s, path), path) == DrawHdrSkybox(s, path)
  {
  }

  /** ResetStats zeroes every counter and nothing else. */
  lemma ResetStatsZeroes(s: RendererState)
    requires Inv(s)
    ensures ResetStats(s) == s.(stats := Statistics(0, 0, 0, 0))
  {
  }
}

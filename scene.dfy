/** The scene (src/Scene/Scene.cpp): the entity registry, the UUID-to-entity
    map, the stored viewport size and its cameras, and the order in which
    RenderScene hands the entities to the renderer.

    The entt registry is a map from entity handle to the record of that
    entity's components, together with the sequence `order` in which the
    registry's views visit entities. Component data the scene does not look at
    (transforms, light colours, mesh paths) is reduced to which components an
    entity has. */
module Scenes {
  import opened Wrappers
  import Materials

  /** A 64-bit UUID (src/Core/UUID.h). */
  const UInt64Limit: nat := 0x1_0000_0000_0000_0000
  type UUID = u: int | 0 <= u < UInt64Limit

  /** An entt entity handle. */
  type EntityHandle = nat

  /** The components besides ID, Tag and Camera that an entity can carry. */
  datatype ComponentKind =
    | Transform | DirectionalLight | PointLight | SpotLight | Shadow
    | HdrSkybox | SphereRenderer | ModelRenderer

  /** A camera component. `viewport` is the last size handed to the camera's
      SetViewportSize, None when it has not received one. */
  datatype CameraComponent = CameraComponent(primary: bool, fixedAspectRatio: bool, viewport: Option<(nat, nat)>)

  /** The components of one entity. */
  datatype EntityRecord = EntityRecord(id: UUID, tag: string, kinds: set<ComponentKind>, camera: Option<CameraComponent>)

  /** The tag a new entity gets: its name, or "Entity" for an empty name. */
  function TagFor(name: string): (tag: string)
    ensures |tag| > 0
    ensures name != "" ==> tag == name
  {
    if name == "" then "Entity" else name
  }

  /** A freshly created entity: ID, Transform and Tag components only. */
  function NewRecord(uuid: UUID, name: string): EntityRecord
  {
    EntityRecord(uuid, TagFor(name), {Transform}, None)
  }

  /** A camera just added to an entity: Primary set, FixedAspectRatio clear, and
      the scene's viewport size only when both dimensions are positive. */
  function AddedCamera(width: nat, height: nat): (c: CameraComponent)
    ensures c.primary && !c.fixedAspectRatio
    ensures c.viewport.Some? <==> width > 0 && height > 0
    ensures c.viewport.Some? ==> c.viewport.value == (width, height)
  {
    CameraComponent(true, false, if width > 0 && height > 0 then Some((width, height)) else None)
  }

  /** One entity's record after a viewport resize: a camera without a fixed
      aspect ratio is given the new size, anything else is left alone. */
  function Resized(r: EntityRecord, width: nat, height: nat): EntityRecord
  {
    if r.camera.Some? && !r.camera.value.fixedAspectRatio
    then r.(camera := Some(r.camera.value.(viewport := Some((width, height)))))
    else r
  }

  /** The whole registry after a viewport resize. */
  function ResizeCameras(registry: map<EntityHandle, EntityRecord>, width: nat, height: nat): map<EntityHandle, EntityRecord>
  {
    map h | h in registry :: Resized(registry[h], width, height)
  }

  predicate IsPrimaryCamera(r: EntityRecord)
  {
    r.camera.Some? && r.camera.value.primary
  }

  /** `s` without any occurrence of `x`, the rest in order. */
  function Remove(s: seq<EntityHandle>, x: EntityHandle): (r: seq<EntityHandle>)
    ensures forall y :: y in r <==> y in s && y != x
    ensures |r| <= |s|
  {
    if s == [] then []
    else if s[0] == x then Remove(s[1..], x)
    else [s[0]] + Remove(s[1..], x)
  }

  ghost predicate Distinct(s: seq<EntityHandle>)
  {
    forall i, j :: 0 <= i < j < |s| ==> s[i] != s[j]
  }

  /** One more element of a prefix adds exactly that element. */
  lemma PrefixMembers(s: seq<EntityHandle>, i: nat)
    requires i < |s|
    ensures forall x :: x in s[..i + 1] <==> x in s[..i] || x == s[i]
  {
    assert s[..i + 1] == s[..i] + [s[i]];
  }

  /** Removing an element keeps the others distinct. */
  lemma {:induction false} RemoveDistinct(s: seq<EntityHandle>, x: EntityHandle)
    requires Distinct(s)
    ensures Distinct(Remove(s, x))
  {
    if s != [] {
      assert Distinct(s[1..]) by {
        forall i, j | 0 <= i < j < |s[1..]| ensures s[1..][i] != s[1..][j] {
          assert s[1..][i] == s[i + 1] && s[1..][j] == s[j + 1];
        }
      }
      RemoveDistinct(s[1..], x);
      if s[0] != x {
        var tail := Remove(s[1..], x);
        assert s[0] !in s[1..];
        assert s[0] !in tail;
        var r := [s[0]] + tail;
        forall i, j | 0 <= i < j < |r| ensures r[i] != r[j] {
          if i == 0 {
            assert r[j] == tail[j - 1];
          } else {
            assert r[i] == tail[i - 1] && r[j] == tail[j - 1];
          }
        }
      }
    }
  }

  // ---------------------------------------------------------------------------
  // Submission order of RenderScene
  // ---------------------------------------------------------------------------

  /** The six kinds of renderer call RenderScene makes for entities, in the
      order of its loops. */
  datatype DrawKind = DrawDirectional | DrawPoint | DrawSpot | DrawHdr | DrawSphereKind | DrawModelKind

  /** The components an entity must have to appear in the view a draw kind
      loops over: the transform and the drawn component, except for the HDR
      skybox view, which asks for the skybox alone. */
  function Required(k: DrawKind): (req: set<ComponentKind>)
    ensures k != DrawHdr ==> Transform in req
  {
    match k
    case DrawDirectional => {Transform, DirectionalLight}
    case DrawPoint => {Transform, PointLight}
    case DrawSpot => {Transform, SpotLight}
    case DrawHdr => {HdrSkybox}
    case DrawSphereKind => {Transform, SphereRenderer}
    case DrawModelKind => {Transform, ModelRenderer}
  }

  /** One call RenderScene makes on the renderer. A light call carries whether
      the entity has a shadow component (the `try_get<ShadowComponent>`
      pointer being non-null). */
  datatype Submission =
    | BeginScene
    | DrawDirectionalLight(entity: EntityHandle, shadow: bool)
    | DrawPointLight(entity: EntityHandle, shadow: bool)
    | DrawSpotLight(entity: EntityHandle, shadow: bool)
    | DrawHdrSkybox(entity: EntityHandle)
    | DrawSphere(entity: EntityHandle)
    | DrawModel(entity: EntityHandle)
    | EndScene

  /** Position of a call in the fixed sequence of loops. */
  function Stage(s: Submission): (n: nat)
    ensures n <= 7
    ensures n == 0 <==> s.BeginScene?
    ensures n == 7 <==> s.EndScene?
  {
    match s
    case BeginScene => 0
    case DrawDirectionalLight(_, _) => 1
    case DrawPointLight(_, _) => 2
    case DrawSpotLight(_, _) => 3
    case DrawHdrSkybox(_) => 4
    case DrawSphere(_) => 5
    case DrawModel(_) => 6
    case EndScene => 7
  }

  function KindStage(k: DrawKind): nat
  {
    match k
    case DrawDirectional => 1
    case DrawPoint => 2
    case DrawSpot => 3
    case DrawHdr => 4
    case DrawSphereKind => 5
    case DrawModelKind => 6
  }

  /** The call made for entity `h` in the loop of kind `k`. */
  function DrawFor(k: DrawKind, h: EntityHandle, shadow: bool): (s: Submission)
    ensures Stage(s) == KindStage(k)
    ensures !s.BeginScene? && !s.EndScene? && s.entity == h
  {
    match k
    case DrawDirectional => DrawDirectionalLight(h, shadow)
    case DrawPoint => DrawPointLight(h, shadow)
    case DrawSpot => DrawSpotLight(h, shadow)
    case DrawHdr => DrawHdrSkybox(h)
    case DrawSphereKind => DrawSphere(h)
    case DrawModelKind => DrawModel(h)
  }

  predicate HasShadow(registry: map<EntityHandle, EntityRecord>, h: EntityHandle)
  {
    h in registry && Shadow in registry[h].kinds
  }

  /** Whether the view of kind `k` visits `h`. */
  predicate InView(registry: map<EntityHandle, EntityRecord>, k: DrawKind, h: EntityHandle)
  {
    h in registry && Required(k) <= registry[h].kinds
  }

  /** The calls one loop makes: one per entity of `order` that the view visits,
      in that order. */
  function Draws(order: seq<EntityHandle>, registry: map<EntityHandle, EntityRecord>, k: DrawKind): seq<Submission>
    decreases |order|
  {
    if order == [] then []
    else
      var h := order[|order| - 1];
      Draws(order[..|order| - 1], registry, k)
      + (if InView(registry, k, h) then [DrawFor(k, h, HasShadow(registry, h))] else [])
  }

  /** The calls of RenderScene's six entity loops, one loop after another:
      directional, point and spot lights, HDR skyboxes, spheres, models. */
  function DrawCalls(order: seq<EntityHandle>, registry: map<EntityHandle, EntityRecord>): seq<Submission>
  {
    Draws(order, registry, DrawDirectional)
    + Draws(order, registry, DrawPoint)
    + Draws(order, registry, DrawSpot)
    + Draws(order, registry, DrawHdr)
    + Draws(order, registry, DrawSphereKind)
    + Draws(order, registry, DrawModelKind)
  }

  /** RenderScene's calls: BeginScene, the entity loops, EndScene. */
  function SubmissionOrder(order: seq<EntityHandle>, registry: map<EntityHandle, EntityRecord>): seq<Submission>
  {
    [BeginScene] + DrawCalls(order, registry) + [EndScene]
  }

  /** Every call of one loop is of that loop's kind, and the loop calls for
      exactly the entities of `order` its view visits. */
  lemma {:induction false} DrawsMembers(order: seq<EntityHandle>, registry: map<EntityHandle, EntityRecord>, k: DrawKind)
    ensures forall s :: s in Draws(order, registry, k) ==> Stage(s) == KindStage(k)
    ensures forall h :: DrawFor(k, h, HasShadow(registry, h)) in Draws(order, registry, k)
                        <==> h in order && InView(registry, k, h)
    decreases |order|
  {
    if order != [] {
      var init := order[..|order| - 1];
      DrawsMembers(init, registry, k);
      assert order == init + [order[|order| - 1]];
      forall h ensures DrawFor(k, h, HasShadow(registry, h)) in Draws(order, registry, k)
                       <==> h in order && InView(registry, k, h) {
        assert h in order <==> h in init || h == order[|order| - 1];
      }
    }
  }

  ghost predicate StagesAscending(calls: seq<Submission>)
  {
    forall i, j :: 0 <= i < j < |calls| ==> Stage(calls[i]) <= Stage(calls[j])
  }

  /** Two ascending runs, the first no later than the second, make an ascending
      run. */
  lemma AscendingAppend(a: seq<Submission>, b: seq<Submission>, split: nat)
    requires StagesAscending(a) && StagesAscending(b)
    requires forall s :: s in a ==> Stage(s) <= split
    requires forall s :: s in b ==> split <= Stage(s)
    ensures StagesAscending(a + b)
  {
    var c := a + b;
    forall i, j | 0 <= i < j < |c| ensures Stage(c[i]) <= Stage(c[j]) {
      if j < |a| {
        assert c[i] == a[i] && c[j] == a[j];
      } else if i >= |a| {
        assert c[i] == b[i - |a|] && c[j] == b[j - |a|];
      } else {
        assert c[i] == a[i] && c[j] == b[j - |a|];
        assert a[i] in a && b[j - |a|] in b;
      }
    }
  }

  /** A run of calls that all have one stage is ascending. */
  lemma UniformAscending(a: seq<Submission>, n: nat)
    requires forall s :: s in a ==> Stage(s) == n
    ensures StagesAscending(a)
  {
    forall i, j | 0 <= i < j < |a| ensures Stage(a[i]) <= Stage(a[j]) {
      assert a[i] in a && a[j] in a;
    }
  }

  /** The entity loops never go back to an earlier loop: every light comes
      before every HDR skybox, every skybox before every sphere, and every
      sphere before every model. */
  lemma DrawCallsAscending(order: seq<EntityHandle>, registry: map<EntityHandle, EntityRecord>)
    ensures StagesAscending(DrawCalls(order, registry))
    ensures forall s :: s in DrawCalls(order, registry) ==> 0 < Stage(s) < 7
  {
    var d1 := Draws(order, registry, DrawDirectional);
    var d2 := Draws(order, registry, DrawPoint);
    var d3 := Draws(order, registry, DrawSpot);
    var d4 := Draws(order, registry, DrawHdr);
    var d5 := Draws(order, registry, DrawSphereKind);
    var d6 := Draws(order, registry, DrawModelKind);
    DrawsMembers(order, registry, DrawDirectional);
    DrawsMembers(order, registry, DrawPoint);
    DrawsMembers(order, registry, DrawSpot);
    DrawsMembers(order, registry, DrawHdr);
    DrawsMembers(order, registry, DrawSphereKind);
    DrawsMembers(order, registry, DrawModelKind);
    UniformAscending(d1, 1);
    UniformAscending(d2, 2);
    UniformAscending(d3, 3);
    UniformAscending(d4, 4);
    UniformAscending(d5, 5);
    UniformAscending(d6, 6);
    AscendingAppend(d1, d2, 2);
    AscendingAppend(d1 + d2, d3, 3);
    AscendingAppend(d1 + d2 + d3, d4, 4);
    AscendingAppend(d1 + d2 + d3 + d4, d5, 5);
    AscendingAppend(d1 + d2 + d3 + d4 + d5, d6, 6);
  }

  /** RenderScene opens with BeginScene, closes with EndScene, makes neither
      call in between, and visits its loops in source order. */
  lemma SubmissionOrderStages(order: seq<EntityHandle>, registry: map<EntityHandle, EntityRecord>)
    ensures var calls := SubmissionOrder(order, registry);
      && calls[0] == BeginScene && calls[|calls| - 1] == EndScene
      && StagesAscending(calls)
      && forall i :: 0 < i < |calls| - 1 ==> 0 < Stage(calls[i]) < 7
  {
    var middle := DrawCalls(order, registry);
    DrawCallsAscending(order, registry);
    UniformAscending([BeginScene], 0);
    UniformAscending([EndScene], 7);
    AscendingAppend([BeginScene], middle, 1);
    AscendingAppend([BeginScene] + middle, [EndScene], 6);
    var calls := SubmissionOrder(order, registry);
    forall i | 0 < i < |calls| - 1 ensures 0 < Stage(calls[i]) < 7 {
      assert calls[i] == middle[i - 1];
    }
  }

  /** A loop makes no call at another loop's stage. */
  lemma NotAtStage(order: seq<EntityHandle>, registry: map<EntityHandle, EntityRecord>, k: DrawKind, s: Submission)
    requires Stage(s) != KindStage(k)
    ensures s !in Draws(order, registry, k)
  {
    DrawsMembers(order, registry, k);
  }

  /** A submitted call at the stage of kind `k` was made by the loop of kind `k`. */
  lemma StageSelectsLoop(order: seq<EntityHandle>, registry: map<EntityHandle, EntityRecord>, k: DrawKind, s: Submission)
    requires s in SubmissionOrder(order, registry) && Stage(s) == KindStage(k)
    ensures s in Draws(order, registry, k)
  {
    assert s in DrawCalls(order, registry);
    if k != DrawDirectional { NotAtStage(order, registry, DrawDirectional, s); }
    if k != DrawPoint { NotAtStage(order, registry, DrawPoint, s); }
    if k != DrawSpot { NotAtStage(order, registry, DrawSpot, s); }
    if k != DrawHdr { NotAtStage(order, registry, DrawHdr, s); }
    if k != DrawSphereKind { NotAtStage(order, registry, DrawSphereKind, s); }
    if k != DrawModelKind { NotAtStage(order, registry, DrawModelKind, s); }
  }

  /** RenderScene submits entity `h` with a call of kind `k` exactly when `h`
      is in the registry and has the components that kind's view asks for. */
  lemma SubmittedIff(order: seq<EntityHandle>, registry: map<EntityHandle, EntityRecord>, k: DrawKind, h: EntityHandle)
    ensures DrawFor(k, h, HasShadow(registry, h)) in SubmissionOrder(order, registry)
            <==> h in order && InView(registry, k, h)
  {
    var s := DrawFor(k, h, HasShadow(registry, h));
    DrawsMembers(order, registry, k);
    if s in SubmissionOrder(order, registry) {
      StageSelectsLoop(order, registry, k, s);
    }
  }

  /** The loop of one RenderScene view: walks the registry's entities in view
      order and makes the kind's call for each one the view visits. */
  method SubmitView(order: seq<EntityHandle>, registry: map<EntityHandle, EntityRecord>, k: DrawKind)
    returns (calls: seq<Submission>)
    ensures calls == Draws(order, registry, k)
  {
    calls := [];
    for i := 0 to |order|
      invariant calls == Draws(order[..i], registry, k)
    {
      var h := order[i];
      assert order[..i + 1][..i] == order[..i];
      if h in registry && Required(k) <= registry[h].kinds {
        var shadow := Shadow in registry[h].kinds;
        calls := calls + [DrawFor(k, h, shadow)];
      }
    }
    assert order[..|order|] == order;
  }

  /** The scene's invariant over its parts: the views visit every live entity
      once; every handle in use lies below the next one to be handed out; the
      UUID map leads only to live entities carrying that UUID. */
  ghost predicate SceneInvariant(registry: map<EntityHandle, EntityRecord>, order: seq<EntityHandle>,
                                 entityMap: map<UUID, EntityHandle>, nextHandle: EntityHandle)
  {
    && (forall h :: h in registry <==> h in order)
    && Distinct(order)
    && (forall h :: h in registry ==> h < nextHandle)
    && (forall u :: u in entityMap ==> entityMap[u] in registry && registry[entityMap[u]].id == u)
  }

  /** The camera loop of OnViewportResize: visits the entities in view order
      and gives every camera whose aspect ratio is not fixed the new size. */
  method ResizeEach(live: map<EntityHandle, EntityRecord>, views: seq<EntityHandle>, width: nat, height: nat)
    returns (cameras: map<EntityHandle, EntityRecord>)
    requires forall h :: h in live <==> h in views
    ensures cameras == ResizeCameras(live, width, height)
  {
    cameras := live;
    for i := 0 to |views|
      invariant cameras.Keys == live.Keys
      invariant forall h :: h in cameras ==>
        cameras[h] == if h in views[..i] then Resized(live[h], width, height) else live[h]
    {
      var h := views[i];
      PrefixMembers(views, i);
      var record := cameras[h];
      if record.camera.Some? && !record.camera.value.fixedAspectRatio {
        cameras := cameras[h := record.(camera := Some(record.camera.value.(viewport := Some((width, height)))))];
      }
      ResizedIdempotent(live[h], width, height);
    }
    assert views[..|views|] == views;
  }

  /** A viewport resize keeps the scene invariant: it changes no entity's
      presence or UUID. */
  lemma ResizeKeepsInvariant(registry: map<EntityHandle, EntityRecord>, order: seq<EntityHandle>,
                             entityMap: map<UUID, EntityHandle>, nextHandle: EntityHandle, width: nat, height: nat)
    requires SceneInvariant(registry, order, entityMap, nextHandle)
    ensures SceneInvariant(ResizeCameras(registry, width, height), order, entityMap, nextHandle)
  {
  }

  class Scene {
    var registry: map<EntityHandle, EntityRecord>
    /** The order in which the registry's views visit its entities. */
    var order: seq<EntityHandle>
    var entityMap: map<UUID, EntityHandle>
    var viewportWidth: Materials.uint32
    var viewportHeight: Materials.uint32
    /** The next handle the registry hands out. */
    var nextHandle: EntityHandle

    ghost predicate Valid()
      reads this
    {
      SceneInvariant(registry, order, entityMap, nextHandle)
    }

    /** An empty scene with a zero viewport. The camera texture and the scene
        manager the constructor also creates are not part of this model. */
    constructor ()
      ensures Valid()
      ensures registry == map[] && order == [] && entityMap == map[]
      ensures viewportWidth == 0 && viewportHeight == 0
    {
      registry := map[];
      order := [];
      entityMap := map[];
      viewportWidth := 0;
      viewportHeight := 0;
      nextHandle := 0;
    }

    /** The entity the UUID map holds for `uuid`, or the empty entity. */
    function GetEntityByUUID(uuid: UUID): (r: Option<EntityHandle>)
      reads this
      ensures r.Some? <==> uuid in entityMap
      ensures r.Some? ==> r.value == entityMap[uuid]
    {
      if uuid in entityMap then Some(entityMap[uuid]) else None
    }

    /** Creates an entity with ID, Transform and Tag components and records it
        under its UUID; a UUID already present is rebound to the new entity. */
    method CreateEntityWithUUID(uuid: UUID, name: string) returns (e: EntityHandle)
      requires Valid()
      modifies this
      ensures Valid()
      ensures e !in old(registry)
      ensures registry == old(registry)[e := NewRecord(uuid, name)]
      ensures order == old(order) + [e]
      ensures entityMap == old(entityMap)[uuid := e]
      ensures viewportWidth == old(viewportWidth) && viewportHeight == old(viewportHeight)
      ensures GetEntityByUUID(uuid) == Some(e)
    {
      e := nextHandle;
      assert e !in order;
      nextHandle := nextHandle + 1;
      registry := registry[e := NewRecord(uuid, name)];
      order := order + [e];
      entityMap := entityMap[uuid := e];
    }

    /** Erases the entity's UUID from the map and the entity from the
        registry. */
    method DestroyEntity(e: EntityHandle)
      requires Valid() && e in registry
      modifies this
      ensures Valid()
      ensures entityMap == old(entityMap) - {old(registry)[e].id}
      ensures registry == old(registry) - {e}
      ensures order == Remove(old(order), e)
      ensures viewportWidth == old(viewportWidth) && viewportHeight == old(viewportHeight)
    {
      var uuid := registry[e].id;
      entityMap := entityMap - {uuid};
      registry := registry - {e};
      RemoveDistinct(order, e);
      order := Remove(order, e);
    }

    /** The first entity the camera view visits whose camera is primary, or the
        empty entity when there is none. */
    method GetPrimaryCameraEntity() returns (r: Option<EntityHandle>)
      requires Valid()
      ensures r.Some? ==> r.value in registry && IsPrimaryCamera(registry[r.value])
      ensures r.Some? ==> exists i :: 0 <= i < |order| && order[i] == r.value
                                      && (forall j :: 0 <= j < i ==> !IsPrimaryCamera(registry[order[j]]))
      ensures r.None? ==> forall h :: h in registry ==> !IsPrimaryCamera(registry[h])
    {
      for i := 0 to |order|
        invariant forall j :: 0 <= j < i ==> !IsPrimaryCamera(registry[order[j]])
      {
        var h := order[i];
        if registry[h].camera.Some? && registry[h].camera.value.primary {
          return Some(h);
        }
      }
      return None;
    }

    /** Stores the new viewport size and hands it to every camera whose aspect
        ratio is not fixed. */
    method OnViewportResize(width: Materials.uint32, height: Materials.uint32)
      requires Valid()
      modifies this
      ensures Valid()
      ensures viewportWidth == width && viewportHeight == height
      ensures registry == ResizeCameras(old(registry), width, height)
      ensures order == old(order) && entityMap == old(entityMap) && nextHandle == old(nextHandle)
    {
      ResizeKeepsInvariant(registry, order, entityMap, nextHandle, width, height);
      var cameras := ResizeEach(registry, order, width, height);
      registry, viewportWidth, viewportHeight := cameras, width, height;
    }

    /** Adds a camera component to `e` (entt's emplace requires that it has
        none) and runs OnComponentAdded for it. */
    method AddCameraComponent(e: EntityHandle)
      requires Valid() && e in registry && registry[e].camera.None?
      modifies this
      ensures Valid()
      ensures registry == old(registry)[e := old(registry)[e].(camera := Some(AddedCamera(viewportWidth, viewportHeight)))]
      ensures order == old(order) && entityMap == old(entityMap)
      ensures viewportWidth == old(viewportWidth) && viewportHeight == old(viewportHeight)
    {
      var camera := CameraComponent(true, false, None);
      if viewportWidth > 0 && viewportHeight > 0 {
        camera := camera.(viewport := Some((viewportWidth, viewportHeight)));
      }
      registry := registry[e := registry[e].(camera := Some(camera))];
    }

    /** Adds one of the other components to `e`; their OnComponentAdded hooks do
        nothing. */
    method AddComponent(e: EntityHandle, k: ComponentKind)
      requires Valid() && e in registry && k !in registry[e].kinds
      modifies this
      ensures Valid()
      ensures registry == old(registry)[e := old(registry)[e].(kinds := old(registry)[e].kinds + {k})]
      ensures order == old(order) && entityMap == old(entityMap)
      ensures viewportWidth == old(viewportWidth) && viewportHeight == old(viewportHeight)
    {
      registry := registry[e := registry[e].(kinds := registry[e].kinds + {k})];
    }

    /** The calls RenderScene makes on the renderer, in order. */
    method RenderScene() returns (calls: seq<Submission>)
      ensures calls == SubmissionOrder(order, registry)
    {
      calls := [BeginScene];
      var d := SubmitView(order, registry, DrawDirectional);
      calls := calls + d;
      d := SubmitView(order, registry, DrawPoint);
      calls := calls + d;
      d := SubmitView(order, registry, DrawSpot);
      calls := calls + d;
      d := SubmitView(order, registry, DrawHdr);
      calls := calls + d;
      d := SubmitView(order, registry, DrawSphereKind);
      calls := calls + d;
      d := SubmitView(order, registry, DrawModelKind);
      calls := calls + d;
      calls := calls + [EndScene];
    }
  }

  /** Resizing twice to the same size is resizing once. */
  lemma ResizedIdempotent(r: EntityRecord, width: nat, height: nat)
    ensures Resized(Resized(r, width, height), width, height) == Resized(r, width, height)
  {
  }

  /** A viewport resize touches cameras only: every entity keeps its UUID, tag
      and other components; a camera keeps its Primary and FixedAspectRatio
      flags; a camera with a fixed aspect ratio keeps its viewport, any other
      camera takes the new size; and resizing twice to one size is resizing
      once. */
  lemma ResizeCamerasEffect(registry: map<EntityHandle, EntityRecord>, width: nat, height: nat)
    ensures var r := ResizeCameras(registry, width, height);
      && r.Keys == registry.Keys
      && (forall h :: h in registry ==>
            && r[h].id == registry[h].id && r[h].tag == registry[h].tag && r[h].kinds == registry[h].kinds
            && r[h].camera.Some? == registry[h].camera.Some?)
      && (forall h :: h in registry && registry[h].camera.Some? ==>
            && r[h].camera.value.primary == registry[h].camera.value.primary
            && r[h].camera.value.fixedAspectRatio == registry[h].camera.value.fixedAspectRatio
            && r[h].camera.value.viewport
               == if registry[h].camera.value.fixedAspectRatio then registry[h].camera.value.viewport
                  else Some((width, height)))
      && ResizeCameras(r, width, height) == r
  {
  }

  /** A camera added after a resize to a positive size ends up with the same
      viewport as a resized free camera. */
  lemma AddedCameraMatchesResize(r: EntityRecord, width: nat, height: nat)
    requires width > 0 && height > 0
    requires r.camera == Some(AddedCamera(0, 0))
    ensures Resized(r, width, height).camera == Some(AddedCamera(width, height))
  {
  }

  /** Looking a UUID up never yields a dead entity or one with another UUID. */
  lemma GetEntityByUUIDConsistent(s: Scene, uuid: UUID)
    requires s.Valid()
    ensures s.GetEntityByUUID(uuid).Some? ==>
      s.GetEntityByUUID(uuid).value in s.registry && s.registry[s.GetEntityByUUID(uuid).value].id == uuid
  {
  }

  /** Destroying the entity a UUID leads to makes the UUID unknown, and leaves
      every other UUID leading where it did. */
  lemma DestroyForgetsOnlyItsUUID(entityMap: map<UUID, EntityHandle>, registry: map<EntityHandle, EntityRecord>, e: EntityHandle, u: UUID)
    requires e in registry
    requires forall v :: v in entityMap ==> entityMap[v] in registry && registry[entityMap[v]].id == v
    ensures var m := entityMap - {registry[e].id};
      && (u in m ==> m[u] == entityMap[u] && m[u] != e)
      && (u in entityMap && entityMap[u] == e ==> u !in m)
  {
  }
}

/** ModelManager (src/Renderer/Manager/ModelManager.cpp): a path-keyed cache of
    loaded models; a model's meshes are registered with the MeshManager when it
    is first loaded. Model::Create (the Assimp import) is not part of this model:
    what it returns is a parameter. */
module ModelManagers {
  import opened Materials
  import opened MeshManagers

  /** The part of a Model the manager touches: its meshes, in order. */
  class Model {
    const meshes: seq<Mesh>

    constructor (meshes: seq<Mesh>)
      ensures this.meshes == meshes
    {
      this.meshes := meshes;
    }
  }

  /** The mesh map and counter after registering `ms` one by one, each under
      the next counter value (AddMesh on a non-null mesh). */
  function RegisterAll(meshes: map<uint32, Mesh>, next: uint32, ms: seq<Mesh>): (r: (map<uint32, Mesh>, uint32))
    decreases |ms|
  {
    if ms == [] then (meshes, next)
    else
      var prev := RegisterAll(meshes, next, ms[..|ms| - 1]);
      (prev.0[prev.1 := ms[|ms| - 1]], (prev.1 + 1) % UInt32Limit)
  }

  /** No mesh appears twice in `ms`. */
  predicate Distinct(ms: seq<Mesh>)
  {
    forall a, b :: 0 <= a < b < |ms| ==> ms[a] != ms[b]
  }

  /** The loop of GetModel: AddMesh on each mesh of a new model, in order.
      Below the wrap, distinct meshes get consecutive IDs from the counter and
      a valid mesh manager stays valid. */
  method RegisterMeshes(ms: seq<Mesh>, meshManager: MeshManager)
    modifies meshManager, set m | m in ms
    ensures (meshManager.meshes, meshManager.nextMeshId)
            == RegisterAll(old(meshManager.meshes), old(meshManager.nextMeshId), ms)
    ensures Distinct(ms) && old(meshManager.nextMeshId) + |ms| < UInt32Limit ==>
      forall i :: 0 <= i < |ms| ==> ms[i].id == old(meshManager.nextMeshId) + i
    ensures old(meshManager.Valid()) && old(meshManager.nextMeshId) + |ms| < UInt32Limit ==>
      meshManager.Valid()
  {
    for i := 0 to |ms|
      invariant (meshManager.meshes, meshManager.nextMeshId)
                == RegisterAll(old(meshManager.meshes), old(meshManager.nextMeshId), ms[..i])
      invariant old(meshManager.nextMeshId) + |ms| < UInt32Limit ==>
        meshManager.nextMeshId == old(meshManager.nextMeshId) + i
      invariant Distinct(ms) && old(meshManager.nextMeshId) + |ms| < UInt32Limit ==>
        forall j :: 0 <= j < i ==> ms[j].id == old(meshManager.nextMeshId) + j
    {
      var _ := meshManager.AddMesh(ms[i]);
      assert ms[..i + 1][..i] == ms[..i];
    }
    assert ms[..|ms|] == ms;
    if old(meshManager.nextMeshId) + |ms| < UInt32Limit {
      RegisterAllConsecutive(old(meshManager.meshes), old(meshManager.nextMeshId), ms);
    }
  }

  class ModelManager {
    var models: map<string, Model>

    constructor ()
      ensures models == map[]
    {
      models := map[];
    }

    /** GetModel: a cached path is answered from the cache; otherwise the newly
        created model (`created`) has its meshes registered in order and is then
        cached. The null branch is kept for a Model::Create that yields null,
        which the shipped Model::Create never does: a failed import gives a
        non-null model with no meshes. A null model is not cached. Below the
        wrap, the new meshes carry consecutive IDs and the mesh manager stays
        valid. */
    method GetModel(filepath: string, created: Model?, meshManager: MeshManager) returns (model: Model?)
      modifies this, meshManager
      modifies if created == null then {} else set m | m in created.meshes
      ensures filepath in old(models) ==>
        model == old(models[filepath]) && models == old(models)
        && meshManager.meshes == old(meshManager.meshes) && meshManager.nextMeshId == old(meshManager.nextMeshId)
      ensures filepath !in old(models) && created == null ==>
        model == null && models == old(models)
        && meshManager.meshes == old(meshManager.meshes) && meshManager.nextMeshId == old(meshManager.nextMeshId)
      ensures filepath !in old(models) && created != null ==>
        && model == created && models == old(models)[filepath := created]
        && (meshManager.meshes, meshManager.nextMeshId)
           == RegisterAll(old(meshManager.meshes), old(meshManager.nextMeshId), created.meshes)
      ensures filepath !in old(models) && created != null && Distinct(created.meshes)
              && old(meshManager.nextMeshId) + |created.meshes| < UInt32Limit ==>
        forall i :: 0 <= i < |created.meshes| ==> created.meshes[i].id == old(meshManager.nextMeshId) + i
      ensures old(meshManager.Valid())
              && (created != null ==> old(meshManager.nextMeshId) + |created.meshes| < UInt32Limit) ==>
        meshManager.Valid()
    {
      if filepath in models {
        return models[filepath];
      }
      if created == null {
        return null;
      }
      RegisterMeshes(created.meshes, meshManager);
      models := models[filepath := created];
      return created;
    }

    method Shutdown()
      modifies this
      ensures models == map[]
    {
      models := map[];
    }
  }

  /** Registering meshes hands out consecutive IDs: below the wrap, the
      counter advances by exactly the number of meshes, mesh i is stored under
      the i-th new ID, and every other entry stays as it was. */
  lemma {:induction false} RegisterAllConsecutive(meshes: map<uint32, Mesh>, next: uint32, ms: seq<Mesh>)
    requires next + |ms| < UInt32Limit
    ensures var r := RegisterAll(meshes, next, ms);
      && r.1 == next + |ms|
      && (forall k :: k in r.0 <==> k in meshes || next <= k < next + |ms|)
      && (forall i :: 0 <= i < |ms| ==> r.0[next + i] == ms[i])
      && (forall k :: k in meshes && !(next <= k < next + |ms|) ==> r.0[k] == meshes[k])
    decreases |ms|
  {
    if ms != [] {
      var init := ms[..|ms| - 1];
      RegisterAllConsecutive(meshes, next, init);
      var r := RegisterAll(meshes, next, ms);
      forall i | 0 <= i < |ms| ensures r.0[next + i] == ms[i] {
        if i < |init| {
          assert init[i] == ms[i];
        }
      }
    }
  }
}

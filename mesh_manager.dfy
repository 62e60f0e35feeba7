/** MeshManager (src/Renderer/Manager/MeshManager.cpp): hands out mesh IDs from
    a 32-bit counter starting at 1 and keeps every registered mesh by its ID. */
module MeshManagers {
  import opened Materials

  /** The part of a Mesh the manager touches: the ID it is given (0 until then). */
  class Mesh {
    var id: uint32

    constructor ()
      ensures id == 0
    {
      id := 0;
    }
  }

  class MeshManager {
    var meshes: map<uint32, Mesh>
    var nextMeshId: uint32

    /** While the counter has not wrapped: IDs in use are in [1, nextMeshId). */
    ghost predicate Valid()
      reads this
    {
      1 <= nextMeshId && forall k :: k in meshes ==> 1 <= k < nextMeshId
    }

    constructor ()
      ensures Valid() && meshes == map[] && nextMeshId == 1
    {
      meshes := map[];
      nextMeshId := 1;
    }

    /** AddMesh: 0 for a null mesh; otherwise the current counter value (the
        post-increment wraps at 2^32), under which the mesh is stored and which
        becomes the mesh's ID. */
    method AddMesh(mesh: Mesh?) returns (meshId: uint32)
      modifies this, mesh
      ensures mesh == null ==> meshId == 0 && meshes == old(meshes) && nextMeshId == old(nextMeshId)
      ensures mesh != null ==>
        && meshId == old(nextMeshId)
        && nextMeshId == (old(nextMeshId) + 1) % UInt32Limit
        && meshes == old(meshes)[meshId := mesh]
        && mesh.id == meshId
        && GetMeshById(meshId) == mesh
      // Below the wrap, IDs are never 0, strictly increase and stay unique.
      ensures old(Valid()) && old(nextMeshId) + 1 < UInt32Limit ==>
        Valid() && (mesh != null ==> meshId != 0 && meshId !in old(meshes) && nextMeshId == meshId + 1)
    {
      if mesh == null {
        return 0;
      }
      meshId := nextMeshId;
      nextMeshId := (nextMeshId + 1) % UInt32Limit;
      meshes := meshes[meshId := mesh];
      mesh.id := meshId;
    }

    /** GetMeshByID: the registered mesh, or null (with a warning) when the ID
        is unknown. */
    function GetMeshById(meshId: uint32): (m: Mesh?)
      reads this
      ensures m != null <==> meshId in meshes
      ensures m != null ==> m == meshes[meshId]
    {
      if meshId in meshes then meshes[meshId] else null
    }

    method Shutdown()
      modifies this
      ensures Valid() && meshes == map[] && nextMeshId == 1
    {
      meshes := map[];
      nextMeshId := 1;
    }
  }
}

/** MaterialManager (src/Renderer/Manager/MaterialManager.cpp): creates
    materials and numbers them from a 32-bit counter starting at 0. */
module MaterialManagers {
  import opened Textures
  import opened Materials

  class MaterialManager {
    var materials: map<uint32, Material>
    var nextMaterialId: uint32

    /** While the counter has not wrapped: IDs in use are below nextMaterialId. */
    ghost predicate Valid()
      reads this
    {
      forall k :: k in materials ==> k < nextMaterialId
    }

    constructor ()
      ensures Valid() && materials == map[] && nextMaterialId == 0
    {
      materials := map[];
      nextMaterialId := 0;
    }

    /** AddMaterial: a fresh default material, stored under the current counter
        value (the post-increment wraps at 2^32), which becomes its ID.
        `created` is the white texture the material constructor would create
        if the shared default does not exist yet. */
    method AddMaterial(resources: MaterialResources, created: TexRef) returns (material: Material)
      requires created.Tex?
      modifies this, resources
      ensures fresh(material) && material.Valid()
      ensures material.id == old(nextMaterialId)
      ensures materials == old(materials)[old(nextMaterialId) := material]
      ensures nextMaterialId == (old(nextMaterialId) + 1) % UInt32Limit
      ensures material.name == "" && material.roughness == 0.5 && material.metallic == 0.0 && material.ao == 1.0
      ensures forall t: TextureType :: material.textures[t] == resources.defaultWhiteTexture
      // Below the wrap, each new material's ID is new and one above the last.
      ensures old(Valid()) && old(nextMaterialId) + 1 < UInt32Limit ==>
        Valid() && old(nextMaterialId) !in old(materials) && nextMaterialId == material.id + 1
    {
      material := new Material(resources, created);
      var materialId := nextMaterialId;
      nextMaterialId := (nextMaterialId + 1) % UInt32Limit;
      materials := materials[materialId := material];
      material.SetID(materialId);
    }

    /** Init(): the material with ID 0. The source dereferences `find(0)`
        unchecked, so a material must have been added first. */
    function Init(): (material: Material)
      reads this
      requires 0 in materials
      ensures material == materials[0]
    {
      materials[0]
    }

    /** Shutdown clears the materials but keeps the counter running. */
    method Shutdown()
      modifies this
      ensures materials == map[] && nextMaterialId == old(nextMaterialId)
      ensures Valid()
    {
      materials := map[];
    }
  }
}

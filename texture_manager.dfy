/** TextureManager (src/Renderer/Manager/TextureManager.cpp): a path-keyed
    cache of loaded textures.

    Whether Texture2D::Create(path) yields a texture is a parameter of the
    lookup (`createFails`); when it does, the texture gets the next GL texture
    name, which the model hands out from `nextRendererId`. Each load is
    recorded in `loads` (the "Loading new texture" log line). */
module TextureManagers {
  import opened Textures

  class TextureManager {
    var loadedTextures: map<string, TexRef>
    var nextRendererId: nat
    var loads: seq<string>

    /** Every cached texture has a renderer ID that was handed out already; a
        failed load is cached as null, as the source stores whatever
        Texture2D::Create returned. */
    ghost predicate Valid()
      reads this
    {
      forall p :: p in loadedTextures && loadedTextures[p].Tex? ==>
        loadedTextures[p].rendererId < nextRendererId
    }

    /** `firstRendererId` is the first GL texture name the driver will give out. */
    constructor (firstRendererId: nat)
      ensures Valid() && loadedTextures == map[] && loads == []
      ensures nextRendererId == firstRendererId
    {
      loadedTextures := map[];
      nextRendererId := firstRendererId;
      loads := [];
    }

    /** `createFails` says whether Texture2D::Create(filePath) would return null
        should the path have to be loaded. */
    method GetTexture(filePath: string, createFails: bool) returns (texture: TexRef)
      requires Valid()
      modifies this
      ensures Valid()
      ensures filePath in loadedTextures && loadedTextures[filePath] == texture
      // A cached path is answered from the cache and nothing else changes.
      ensures filePath in old(loadedTextures) ==>
        texture == old(loadedTextures[filePath]) && loadedTextures == old(loadedTextures)
        && nextRendererId == old(nextRendererId) && loads == old(loads)
      // A miss loads once and caches the result under the path, null included.
      ensures filePath !in old(loadedTextures) ==>
        loadedTextures == old(loadedTextures)[filePath := texture]
        && loads == old(loads) + [filePath]
      // A failed load is null and hands out no ID.
      ensures filePath !in old(loadedTextures) && createFails ==>
        texture == NullTex && nextRendererId == old(nextRendererId)
      // A successful load is new: it differs from every texture cached before.
      ensures filePath !in old(loadedTextures) && !createFails ==>
        texture == Tex(old(nextRendererId)) && nextRendererId == old(nextRendererId) + 1
        && forall p :: p in old(loadedTextures) ==> old(loadedTextures)[p] != texture
    {
      if filePath in loadedTextures {
        texture := loadedTextures[filePath];
        return;
      }
      loads := loads + [filePath];
      if createFails {
        texture := NullTex;
      } else {
        texture := Tex(nextRendererId);
        nextRendererId := nextRendererId + 1;
      }
      loadedTextures := loadedTextures[filePath := texture];
    }

    method Shutdown()
      requires Valid()
      modifies this
      ensures Valid() && loadedTextures == map[]
      ensures nextRendererId == old(nextRendererId) && loads == old(loads)
    {
      loadedTextures := map[];
    }

    /** Removing an entry only drops the cache's reference; the texture lives on
        while others hold it, which the model does not track. */
    method UnloadTexture(filePath: string) returns (removed: bool)
      requires Valid()
      modifies this
      ensures Valid()
      ensures removed == (filePath in old(loadedTextures))
      ensures loadedTextures == old(loadedTextures) - {filePath}
      ensures nextRendererId == old(nextRendererId) && loads == old(loads)
    {
      if filePath in loadedTextures {
        loadedTextures := loadedTextures - {filePath};
        return true;
      }
      return false;
    }
  }
}

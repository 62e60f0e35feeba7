/** HdrManager (src/Renderer/Manager/HdrManager.cpp): a path-keyed cache of
    HDR environment maps and the one that is active. */
module HdrManagers {
  /** An HDR skybox as the manager sees it: HDRSkybox::Create followed by
      LoadHDRMap(path), which records the path (src/Renderer/HDRSkybox.cpp). The
      GPU-side baking is left out. */
  class HdrMap {
    const path: string

    constructor Load(path: string)
      ensures this.path == path
    {
      this.path := path;
    }
  }

  class HdrManager {
    var loadedHdrMaps: map<string, HdrMap>
    var activeHdrMap: HdrMap?
    /** The paths loaded from disk, in order. */
    var loads: seq<string>

    /** Every cached map was loaded from the path it is cached under. */
    ghost predicate Valid()
      reads this
    {
      forall p :: p in loadedHdrMaps ==> loadedHdrMaps[p].path == p
    }

    constructor ()
      ensures Valid() && loadedHdrMaps == map[] && activeHdrMap == null && loads == []
    {
      loadedHdrMaps := map[];
      activeHdrMap := null;
      loads := [];
    }

    /** SetActive: "" clears the active map; the active path again does
        nothing; a cached path is activated without loading; a new path is
        loaded, cached and activated. */
    method SetActive(path: string)
      requires Valid()
      modifies this
      ensures Valid()
      ensures path == "" ==>
        activeHdrMap == null && loadedHdrMaps == old(loadedHdrMaps) && loads == old(loads)
      ensures path != "" ==> activeHdrMap != null && activeHdrMap.path == path
      ensures path != "" && old(activeHdrMap) != null && old(activeHdrMap).path == path ==>
        activeHdrMap == old(activeHdrMap) && loadedHdrMaps == old(loadedHdrMaps) && loads == old(loads)
      ensures path != "" && !(old(activeHdrMap) != null && old(activeHdrMap).path == path) && path in old(loadedHdrMaps) ==>
        activeHdrMap == old(loadedHdrMaps)[path] && loadedHdrMaps == old(loadedHdrMaps) && loads == old(loads)
      ensures path != "" && !(old(activeHdrMap) != null && old(activeHdrMap).path == path) && path !in old(loadedHdrMaps) ==>
        fresh(activeHdrMap) && loadedHdrMaps == old(loadedHdrMaps)[path := activeHdrMap]
        && loads == old(loads) + [path]
    {
      if path == "" {
        activeHdrMap := null;
        return;
      }
      if activeHdrMap != null && activeHdrMap.path == path {
        return;
      }
      if path in loadedHdrMaps {
        activeHdrMap := loadedHdrMaps[path];
      } else {
        var newHdrMap := new HdrMap.Load(path);
        loads := loads + [path];
        loadedHdrMaps := loadedHdrMaps[path := newHdrMap];
        activeHdrMap := newHdrMap;
      }
    }

    method UnloadAll()
      modifies this
      ensures Valid() && loadedHdrMaps == map[] && activeHdrMap == null && loads == old(loads)
    {
      loadedHdrMaps := map[];
      activeHdrMap := null;
    }
  }
}
